// The agent's shared identity on disk and its rotation (native/src/capability.rs).
//
// The process may stop after any system call and any call may fail; each write of a
// single file is whole or absent, as the replacement underneath guarantees.
module OriginKeys {
  import opened Wrappers
  import opened Codec

  // A 32-byte private key together with the Origin Identity derived from it.
  datatype Key = Key(secret: seq<Byte>, origin: seq<Byte>)

  datatype Capability = Capability(token: seq<Byte>, origin: seq<Byte>, edge: string)

  // What a file holds: 32 bytes are a key, an encoded capability decodes, the rest is junk.
  datatype Content = KeyFile(key: Key) | CapFile(cap: Capability) | Junk

  // The key and capability paths, their `.new` siblings, and the rotation directory.
  datatype Files = Files(
    key: Option<Content>,
    cap: Option<Content>,
    keyNew: Option<Content>,
    capNew: Option<Content>,
    extra: map<string, Content>)

  datatype Identity = Identity(cap: Capability, key: Key)

  datatype Failure = Io | Undecodable | NotAKey

  // What one boot draws and meets: a fresh key and token, the configured edge, a routing
  // token forced from outside, and whether existing files can be read.
  datatype Boot = Boot(edge: string, forced: Option<seq<Byte>>, draw: Key, drawToken: seq<Byte>, readable: bool)

  function MintCapability(b: Boot): Capability {
    Capability(if b.forced.Some? then b.forced.value else b.drawToken, b.draw.origin, b.edge)
  }

  // The persisted identity, when there is one to reuse.
  function Loaded(f: Files, readable: bool): Option<Result<Identity, Failure>> {
    if readable && f.key.Some? && f.cap.Some? && f.key.value.KeyFile? then
      Some(if f.cap.value.CapFile? then Ok(Identity(f.cap.value.cap, f.key.value.key)) else Err(Undecodable))
    else None
  }

  // What an uninterrupted boot returns.
  function BootResult(f: Files, b: Boot): Result<Identity, Failure> {
    match Loaded(f, b.readable)
    case Some(r) => r
    case None => Ok(Identity(MintCapability(b), b.draw))
  }

  // `stage` of the two renames have happened.
  predicate AtStage(f: Files, key: Key, cap: Capability, stage: nat, e: Files) {
    && e.extra == f.extra
    && e.key == (if stage >= 1 then Some(KeyFile(key)) else f.key)
    && e.cap == (if stage >= 2 then Some(CapFile(cap)) else f.cap)
  }

  // Every state of the files a boot can stop in.
  ghost predicate BootReaches(f: Files, b: Boot, e: Files) {
    if Loaded(f, b.readable).Some? then AtStage(f, b.draw, MintCapability(b), 0, e)
    else exists stage: nat :: stage <= 2 && AtStage(f, b.draw, MintCapability(b), stage, e)
  }

  function RetiredName(origin: seq<Byte>): string {
    "retired-" + Hex(if |origin| < 4 then origin else origin[..4]) + ".key"
  }

  function Rotated(f: Files, next: Key): Capability
    requires f.cap.Some? && f.cap.value.CapFile?
  {
    f.cap.value.cap.(origin := next.origin)
  }

  predicate Rotatable(f: Files) {
    f.cap.Some? && f.cap.value.CapFile? && f.key.Some? && f.key.value.KeyFile?
  }

  // The old key retired under the capability's name, then `stage - 1` of the renames done.
  predicate RotationStage(f: Files, next: Key, stage: nat, e: Files)
    requires Rotatable(f)
  {
    && e.extra == (if stage >= 1 then f.extra[RetiredName(f.cap.value.cap.origin) := f.key.value] else f.extra)
    && e.key == (if stage >= 2 then Some(KeyFile(next)) else f.key)
    && e.cap == (if stage >= 3 then Some(CapFile(Rotated(f, next))) else f.cap)
  }

  ghost predicate RotationReaches(f: Files, next: Key, e: Files) {
    if Rotatable(f) then exists stage: nat :: stage <= 3 && RotationStage(f, next, stage, e)
    else e.key == f.key && e.cap == f.cap && e.extra == f.extra
  }

  // The keys of a directory listing that hold 32 bytes, in listing order.
  function KeysOf(names: seq<string>, dir: map<string, Content>): seq<Key> {
    if names == [] then []
    else
      KeysOf(names[..|names| - 1], dir) +
      var name := names[|names| - 1];
      if name in dir && dir[name].KeyFile? then [dir[name].key] else []
  }

  method LoadExtraOriginKeys(names: seq<string>, dir: map<string, Content>) returns (keys: seq<Key>)
    ensures keys == KeysOf(names, dir)
  {
    keys := [];
    for i := 0 to |names|
      invariant keys == KeysOf(names[..i], dir)
    {
      assert names[..i + 1][..i] == names[..i];
      if names[i] in dir && dir[names[i]].KeyFile? {
        keys := keys + [dir[names[i]].key];
      }
    }
    assert names[..|names|] == names;
  }

  class Machine {
    var files: Files
    ghost var seen: seq<Files>   // every state the files have been in, newest last
    ghost var errors: nat        // system calls that failed

    ghost predicate Valid()
      reads this
    {
      seen != [] && seen[|seen| - 1] == files
    }

    constructor (files: Files)
      ensures Valid() && this.files == files && seen == [files]
    {
      this.files := files;
      seen := [files];
      errors := 0;
    }

    // One system call: it happens, or it fails and nothing changes.
    method Call(after: Files) returns (ok: bool)
      requires Valid()
      modifies this
      ensures Valid() && seen == old(seen) + [files]
      ensures files == if ok then after else old(files)
      ensures errors == old(errors) + if ok then 0 else 1
    {
      ok := *;
      errors := errors + if ok then 0 else 1;
      if ok {
        files := after;
      }
      seen := seen + [files];
    }

    // Write both files beside the real ones; on an error take the first away again.
    method Stage(key: Key, cap: Capability) returns (ok: bool)
      requires Valid()
      modifies this
      ensures Valid() && old(seen) <= seen
      ensures forall i :: |old(seen)| <= i < |seen| ==>
                            seen[i].key == old(files).key && seen[i].cap == old(files).cap && seen[i].extra == old(files).extra
      ensures files.key == old(files).key && files.cap == old(files).cap && files.extra == old(files).extra
      ensures ok ==> files.keyNew == Some(KeyFile(key)) && files.capNew == Some(CapFile(cap))
      ensures errors >= old(errors) && (ok <==> errors == old(errors))
    {
      ok := Call(files.(keyNew := Some(KeyFile(key))));
      if !ok {
        return;
      }
      ok := Call(files.(capNew := Some(CapFile(cap))));
      if !ok {
        var cleaned := Call(files.(keyNew := None));
      }
    }

    // Key first, then capability, then the directory sync.
    method Promote() returns (ok: bool)
      requires Valid() && files.keyNew.Some? && files.capNew.Some?
      modifies this
      ensures Valid() && old(seen) <= seen
      ensures forall i :: |old(seen)| <= i < |seen| ==>
                            && seen[i].extra == old(files).extra
                            && (|| (seen[i].key == old(files).key && seen[i].cap == old(files).cap)
                                || (seen[i].key == old(files).keyNew && seen[i].cap == old(files).cap)
                                || (seen[i].key == old(files).keyNew && seen[i].cap == old(files).capNew))
      ensures ok ==> files.key == old(files).keyNew && files.cap == old(files).capNew && files.extra == old(files).extra
      ensures errors >= old(errors) && (ok <==> errors == old(errors))
    {
      ok := Call(files.(key := files.keyNew, keyNew := None));
      if !ok {
        return;
      }
      ok := Call(files.(cap := files.capNew, capNew := None));
      if !ok {
        return;
      }
      ok := Call(files);
    }

    // The shared-identity branch of `resolve_primary_identity`.
    method ResolvePrimaryIdentity(b: Boot) returns (r: Result<Identity, Failure>)
      requires Valid()
      modifies this
      ensures Valid() && old(seen) <= seen
      ensures forall i :: |old(seen)| <= i < |seen| ==> BootReaches(old(files), b, seen[i])
      ensures r.Ok? ==> r == BootResult(old(files), b)
      ensures r.Ok? && Loaded(old(files), b.readable).None? ==> AtStage(old(files), b.draw, MintCapability(b), 2, files)
      ensures Loaded(old(files), b.readable).Some? ==> files == old(files) && r == BootResult(old(files), b)
      ensures errors == old(errors) ==> r == BootResult(old(files), b)
      ensures errors > old(errors) ==> r == Err(Io)
      ensures errors >= old(errors)
    {
      if b.readable && files.key.Some? && files.cap.Some? && files.key.value.KeyFile? {
        if !files.cap.value.CapFile? {
          return Err(Undecodable);
        }
        return Ok(Identity(files.cap.value.cap, files.key.value.key));
      }
      ghost var f := files;
      var key := b.draw;
      var cap := MintCapability(b);
      var ok := Stage(key, cap);
      assert forall e: Files :: AtStage(f, key, cap, 0, e) ==> BootReaches(f, b, e);
      assert forall e: Files :: AtStage(f, key, cap, 1, e) ==> BootReaches(f, b, e);
      assert forall e: Files :: AtStage(f, key, cap, 2, e) ==> BootReaches(f, b, e);
      if !ok {
        return Err(Io);
      }
      ok := Promote();
      if !ok {
        return Err(Io);
      }
      r := Ok(Identity(cap, key));
    }

    // The primary key first, then every key in the rotation directory.
    method ResolveServingIdentity(b: Boot, names: seq<string>) returns (r: Result<(Capability, seq<Key>), Failure>)
      requires Valid()
      modifies this
      ensures Valid() && old(seen) <= seen
      ensures forall i :: |old(seen)| <= i < |seen| ==> BootReaches(old(files), b, seen[i])
      ensures r.Ok? ==>
                && BootResult(old(files), b).Ok?
                && r.value == (BootResult(old(files), b).value.cap,
                               [BootResult(old(files), b).value.key] + KeysOf(names, old(files).extra))
      ensures errors == old(errors) && BootResult(old(files), b).Ok? ==> r.Ok?
    {
      ghost var f := files;
      var primary := ResolvePrimaryIdentity(b);
      if primary.Err? {
        return Err(primary.error);
      }
      assert files.extra == f.extra;
      var extra := LoadExtraOriginKeys(names, files.extra);
      r := Ok((primary.value.cap, [primary.value.key] + extra));
    }

    method RotateOriginKey(next: Key) returns (r: Result<Capability, Failure>)
      requires Valid()
      modifies this
      ensures Valid() && old(seen) <= seen
      ensures forall i :: |old(seen)| <= i < |seen| ==> RotationReaches(old(files), next, seen[i])
      ensures r.Ok? ==>
                Rotatable(old(files)) && r.value == Rotated(old(files), next) && RotationStage(old(files), next, 3, files)
      ensures r.Ok? <==> Rotatable(old(files)) && errors == old(errors)
    {
      if files.cap.None? {
        return Err(Io);
      }
      if !files.cap.value.CapFile? {
        return Err(Undecodable);
      }
      if files.key.None? {
        return Err(Io);
      }
      if !files.key.value.KeyFile? {
        return Err(NotAKey);
      }
      ghost var f := files;
      var oldCap := files.cap.value.cap;
      var newCap := Capability(oldCap.token, next.origin, oldCap.edge);
      assert forall e: Files :: RotationStage(f, next, 0, e) ==> RotationReaches(f, next, e);
      assert forall e: Files :: RotationStage(f, next, 1, e) ==> RotationReaches(f, next, e);
      assert forall e: Files :: RotationStage(f, next, 2, e) ==> RotationReaches(f, next, e);
      assert forall e: Files :: RotationStage(f, next, 3, e) ==> RotationReaches(f, next, e);
      var ok := Call(files.(extra := files.extra[RetiredName(oldCap.origin) := files.key.value]));
      if !ok {
        return Err(Io);
      }
      ok := Stage(next, newCap);
      if !ok {
        return Err(Io);
      }
      ok := Promote();
      if !ok {
        return Err(Io);
      }
      r := Ok(newCap);
    }
  }
}
