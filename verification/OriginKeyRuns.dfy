// What boots, rotations and crashes can do to the shared identity.
module OriginKeyRuns {
  import opened Wrappers
  import opened Codec
  import opened OriginKeys

  // ---- boots from nothing ------------------------------------------------------------------

  // A capability on disk pins the key beside it.
  ghost predicate Paired(f: Files) {
    f.cap.Some? ==> f.cap.value.CapFile? && f.key.Some? && f.key.value.KeyFile?
                    && f.cap.value.cap.origin == f.key.value.key.origin
  }

  ghost predicate Clean(f: Files) {
    Paired(f) && (f.key.Some? ==> f.key.value.KeyFile?)
  }

  // One boot from `f`: it stopped with the files at `e`, returning a value if it finished.
  ghost predicate Booted(f: Files, b: Boot, r: Option<Identity>, e: Files) {
    && BootReaches(f, b, e)
    && (r.Some? ==> BootResult(f, b) == Ok(r.value) && Holds(e, r.value))
  }

  ghost predicate Holds(f: Files, id: Identity) {
    f.key == Some(KeyFile(id.key)) && f.cap == Some(CapFile(id.cap))
  }

  ghost predicate Boots(fs: seq<Files>, boots: seq<Boot>, results: seq<Option<Identity>>) {
    && |fs| == |boots| + 1 == |results| + 1
    && forall i :: 0 <= i < |boots| ==> boots[i].readable && Booted(fs[i], boots[i], results[i], fs[i + 1])
  }

  lemma {:induction false} BootsKeepPairs(fs: seq<Files>, boots: seq<Boot>, results: seq<Option<Identity>>)
    requires Boots(fs, boots, results) && fs[0].key.None? && fs[0].cap.None?
    ensures forall i :: 0 <= i < |fs| ==> Clean(fs[i])
  {
    var n := |boots|;
    if n > 0 {
      BootsKeepPairs(fs[..n], boots[..n - 1], results[..n - 1]);
      assert Clean(fs[..n][n - 1]);
      forall i | 0 <= i < |fs|
        ensures Clean(fs[i])
      {
        if i < n { assert Clean(fs[..n][i]); } else { assert Booted(fs[n - 1], boots[n - 1], results[n - 1], fs[n]); }
      }
    }
  }

  // Once an identity is on disk whole, every later boot leaves it and returns it.
  lemma {:induction false} IdentityStays(fs: seq<Files>, boots: seq<Boot>, results: seq<Option<Identity>>, i: nat, j: nat, id: Identity)
    requires Boots(fs, boots, results) && i <= j < |fs| && Holds(fs[i], id)
    ensures Holds(fs[j], id)
    ensures forall k :: i <= k < j && results[k].Some? ==> results[k].value == id
  {
    if i < j {
      IdentityStays(fs, boots, results, i, j - 1, id);
      assert Booted(fs[j - 1], boots[j - 1], results[j - 1], fs[j]);
    }
  }

  // Starting with neither file, however many boots and crashes: a capability on disk always
  // matches its key, and all boots that finish return one and the same identity.
  lemma SharedIdentity(fs: seq<Files>, boots: seq<Boot>, results: seq<Option<Identity>>)
    requires Boots(fs, boots, results) && fs[0].key.None? && fs[0].cap.None?
    ensures forall i :: 0 <= i < |fs| ==> Paired(fs[i])
    ensures forall i, j :: 0 <= i < j < |results| && results[i].Some? && results[j].Some? ==> results[i] == results[j]
  {
    BootsKeepPairs(fs, boots, results);
    forall i | 0 <= i < |fs|
      ensures Paired(fs[i])
    {
      assert Clean(fs[i]);
    }
    forall i, j | 0 <= i < j < |results| && results[i].Some? && results[j].Some?
      ensures results[i] == results[j]
    {
      assert Booted(fs[i], boots[i], results[i], fs[i + 1]);
      IdentityStays(fs, boots, results, i + 1, j + 1, results[i].value);
    }
  }

  // A boot that finds no identity makes one: the key drawn, its origin, the configured edge,
  // and the routing token forced from outside, else the one drawn.
  lemma FirstBoot(f: Files, b: Boot)
    requires f.key.None? || f.cap.None? || !b.readable
    ensures BootResult(f, b) ==
            Ok(Identity(Capability(if b.forced.Some? then b.forced.value else b.drawToken, b.draw.origin, b.edge), b.draw))
  {
  }

  // The code treats a file it cannot read like one that is not there. A whole identity
  // survives a boot exactly when both files could be read.
  lemma IdentityKeptIffReadable(f: Files, b: Boot, id: Identity)
    requires Holds(f, id) && b.draw != id.key
    ensures BootResult(f, b) == Ok(id) <==> b.readable
    ensures (forall e :: BootReaches(f, b, e) ==> Holds(e, id)) <==> b.readable
  {
    if !b.readable {
      var e := f.(key := Some(KeyFile(b.draw)));
      assert AtStage(f, b.draw, MintCapability(b), 1, e);
      assert BootReaches(f, b, e) && !Holds(e, id);
    }
  }

  // ---- rotation ------------------------------------------------------------------------------

  // The capability on disk names an origin the agent holds the private key of.
  ghost predicate Served(f: Files) {
    f.cap.Some? && f.cap.value.CapFile? && f.key.Some? && f.key.value.KeyFile? &&
    (var origin := f.cap.value.cap.origin;
     f.key.value.key.origin == origin || exists name :: KeptAs(f.extra, name, origin))
  }

  ghost predicate KeptAs(extra: map<string, Content>, name: string, origin: seq<Byte>) {
    name in extra && extra[name].KeyFile? && extra[name].key.origin == origin
  }

  // `names` lists the directory.
  ghost predicate Lists(names: seq<string>, dir: map<string, Content>) {
    forall name :: name in names <==> name in dir
  }

  lemma {:induction false} KeysAreLoaded(names: seq<string>, dir: map<string, Content>, name: string)
    requires name in names && name in dir && dir[name].KeyFile?
    ensures dir[name].key in KeysOf(names, dir)
  {
    var n := |names| - 1;
    if names[n] != name {
      assert names == names[..n] + [names[n]];
      KeysAreLoaded(names[..n], dir, name);
    }
  }

  // Where in the listing the key files stand.
  function Places(names: seq<string>, dir: map<string, Content>): seq<nat> {
    if names == [] then []
    else Places(names[..|names| - 1], dir) + if IsKeyFile(dir, names[|names| - 1]) then [|names| - 1] else []
  }

  lemma {:induction false} PlacesAreKeyFiles(names: seq<string>, dir: map<string, Content>)
    ensures forall k :: k in Places(names, dir) <==> 0 <= k < |names| && IsKeyFile(dir, names[k])
    ensures forall i, j :: 0 <= i < j < |Places(names, dir)| ==> Places(names, dir)[i] < Places(names, dir)[j]
  {
    if names != [] {
      var n := |names| - 1;
      PlacesAreKeyFiles(names[..n], dir);
      assert forall i :: 0 <= i < |Places(names[..n], dir)| ==> Places(names[..n], dir)[i] in Places(names[..n], dir);
    }
  }

  predicate IsKeyOf(names: seq<string>, dir: map<string, Content>, place: nat, key: Key) {
    place < |names| && IsKeyFile(dir, names[place]) && dir[names[place]].key == key
  }

  // The loaded keys are those of the key files, each once, in the order of the listing.
  lemma {:induction false} KeysInOrder(names: seq<string>, dir: map<string, Content>)
    ensures |KeysOf(names, dir)| == |Places(names, dir)|
    ensures forall i :: 0 <= i < |Places(names, dir)| ==> IsKeyOf(names, dir, Places(names, dir)[i], KeysOf(names, dir)[i])
  {
    if names != [] {
      var n := |names| - 1;
      var front := names[..n];
      KeysInOrder(front, dir);
      forall i | 0 <= i < |Places(names, dir)|
        ensures IsKeyOf(names, dir, Places(names, dir)[i], KeysOf(names, dir)[i])
      {
        if i < |Places(front, dir)| { assert IsKeyOf(front, dir, Places(front, dir)[i], KeysOf(front, dir)[i]); }
      }
    }
  }

  predicate IsKeyFile(dir: map<string, Content>, name: string) {
    name in dir && dir[name].KeyFile?
  }

  // A served capability's private key is among the keys a boot loads.
  lemma ServedIsLoaded(f: Files, b: Boot, names: seq<string>)
    requires Served(f) && b.readable && Lists(names, f.extra)
    ensures BootResult(f, b).Ok? && BootResult(f, b).value.cap == f.cap.value.cap
    ensures exists k :: k in [BootResult(f, b).value.key] + KeysOf(names, f.extra) && k.origin == f.cap.value.cap.origin
  {
    var primary := BootResult(f, b).value.key;
    var origin := f.cap.value.cap.origin;
    if primary.origin == origin {
      assert primary in [primary] + KeysOf(names, f.extra);
    } else {
      var name :| KeptAs(f.extra, name, origin);
      KeysAreLoaded(names, f.extra, name);
      assert f.extra[name].key in [primary] + KeysOf(names, f.extra);
    }
  }

  // What a caller can check before rotating: the key file is the capability's, or the
  // capability's key is kept under some other name than the one about to be written.
  ghost predicate SafeToRotate(f: Files) {
    Rotatable(f) &&
    (var origin := f.cap.value.cap.origin;
     f.key.value.key.origin == origin || exists name :: name != RetiredName(origin) && KeptAs(f.extra, name, origin))
  }

  // Rotation keeps the capability served at every crash point exactly then. Started in the
  // in-between state, it writes the new key over the retired one and loses it.
  lemma RotationServesIff(f: Files, next: Key)
    requires Rotatable(f)
    ensures (forall e :: RotationReaches(f, next, e) ==> Served(e)) <==> SafeToRotate(f)
  {
    var origin := f.cap.value.cap.origin;
    var retired := RetiredName(origin);
    if SafeToRotate(f) {
      forall e | RotationReaches(f, next, e)
        ensures Served(e)
      {
        RotationStaysServed(f, next, e);
      }
    } else {
      var e := f.(extra := f.extra[retired := f.key.value]);
      assert RotationStage(f, next, 1, e);
      assert RotationReaches(f, next, e);
      forall name
        ensures !KeptAs(e.extra, name, origin)
      {
        if name != retired { assert KeptAs(e.extra, name, origin) == KeptAs(f.extra, name, origin); }
      }
      assert !Served(e);
    }
  }

  lemma RotationStaysServed(f: Files, next: Key, e: Files)
    requires SafeToRotate(f) && RotationReaches(f, next, e)
    ensures Served(e) && e.cap.value.cap.token == f.cap.value.cap.token && e.cap.value.cap.edge == f.cap.value.cap.edge
  {
    var origin := f.cap.value.cap.origin;
    var stage: nat :| stage <= 3 && RotationStage(f, next, stage, e);
    if f.key.value.key.origin == origin {
      assert stage >= 1 ==> KeptAs(e.extra, RetiredName(origin), origin);
    } else {
      var name :| name != RetiredName(origin) && KeptAs(f.extra, name, origin);
      assert KeptAs(e.extra, name, origin);
    }
  }

  // A key file and a capability that belong together, as after any boot or finished rotation.
  ghost predicate Matched(f: Files) {
    Rotatable(f) && f.cap.value.cap.origin == f.key.value.key.origin
  }

  datatype Event = Reboot(boot: Boot) | Rotation(next: Key)

  // Rotations are only started when it is safe; each event stops anywhere.
  ghost predicate Happens(f: Files, ev: Event, e: Files) {
    match ev
    case Reboot(b) => b.readable && BootReaches(f, b, e)
    case Rotation(next) => SafeToRotate(f) && RotationReaches(f, next, e)
  }

  // From a matching pair, over any sequence of boots, rotations and crashes, the capability
  // is served at every moment and its routing token never changes.
  lemma {:induction false} AlwaysServed(fs: seq<Files>, events: seq<Event>)
    requires |fs| == |events| + 1 && Matched(fs[0])
    requires forall i :: 0 <= i < |events| ==> Happens(fs[i], events[i], fs[i + 1])
    ensures var last := fs[|events|];
            Served(last) && last.cap.value.cap.token == fs[0].cap.value.cap.token
  {
    var n := |events|;
    if n > 0 {
      AlwaysServed(fs[..n], events[..n - 1]);
      var before := fs[n - 1];
      assert Happens(before, events[n - 1], fs[n]);
      match events[n - 1] {
        case Reboot(b) => assert Loaded(before, true).Some?;
        case Rotation(next) => RotationStaysServed(before, next, fs[n]);
      }
    }
  }

  // A second rotation after a crash between the renames: the served key is gone.
  lemma InBetweenRotationLosesTheKey(f: Files, first: Key, second: Key) returns (mid: Files, end: Files)
    requires Matched(f) && first.origin != f.key.value.key.origin
    requires forall name :: KeptAs(f.extra, name, f.key.value.key.origin) ==> name == RetiredName(f.key.value.key.origin)
    ensures RotationReaches(f, first, mid) && Served(mid)
    ensures RotationReaches(mid, second, end) && !Served(end)
  {
    var origin := f.key.value.key.origin;
    mid := f.(extra := f.extra[RetiredName(origin) := f.key.value], key := Some(KeyFile(first)));
    assert RotationStage(f, first, 2, mid);
    assert KeptAs(mid.extra, RetiredName(origin), origin);
    end := mid.(extra := mid.extra[RetiredName(origin) := mid.key.value]);
    assert RotationStage(mid, second, 1, end);
    forall name
      ensures !KeptAs(end.extra, name, origin)
    {
      if name != RetiredName(origin) { assert KeptAs(end.extra, name, origin) == KeptAs(f.extra, name, origin); }
    }
  }

  // ---- completed rotations ------------------------------------------------------------------

  function RotateDone(f: Files, next: Key): Files
    requires Rotatable(f)
  {
    f.(extra := f.extra[RetiredName(f.cap.value.cap.origin) := f.key.value],
    key := Some(KeyFile(next)),
    cap := Some(CapFile(Rotated(f, next))))
  }

  function RotateAll(f: Files, keys: seq<Key>): (r: Files)
    requires Matched(f)
    ensures Matched(r) && r.key.value.key == (if keys == [] then f.key.value.key else keys[|keys| - 1])
    ensures r.cap.value.cap.token == f.cap.value.cap.token
  {
    if keys == [] then f else RotateDone(RotateAll(f, keys[..|keys| - 1]), keys[|keys| - 1])
  }

  // The first four bytes of an origin name its retired file.
  lemma NamesAreHexPrefixes(a: seq<Byte>, b: seq<Byte>)
    requires |a| >= 4 && |b| >= 4
    ensures RetiredName(a) == RetiredName(b) <==> a[..4] == b[..4]
  {
    var x, y := RetiredName(a), RetiredName(b);
    assert x[8..16] == Hex(a[..4]) && y[8..16] == Hex(b[..4]);
    UnhexHex(a[..4]);
    UnhexHex(b[..4]);
  }

  // After any number of completed rotations the current key is first (see RotateAll), and
  // an earlier key is still filed under its name exactly when no later retired key has the
  // same name, that is, the same four-byte prefix.
  lemma {:induction false} EarlierKeysKept(f: Files, keys: seq<Key>, i: nat)
    requires Matched(f) && i < |keys|
    requires var all := [f.key.value.key] + keys;
             forall a, b :: 0 <= a < b < |all| ==> all[a] != all[b]
    ensures var all := [f.key.value.key] + keys;
            var name := RetiredName(all[i].origin);
            var extra := RotateAll(f, keys).extra;
            && name in extra
            && (extra[name] == KeyFile(all[i]) <==> forall j :: i < j < |keys| ==> RetiredName(all[j].origin) != name)
  {
    var n := |keys| - 1;
    var all, before := [f.key.value.key] + keys, RotateAll(f, keys[..n]);
    assert before.key.value.key == all[n];
    if i < n {
      var fewer := [f.key.value.key] + keys[..n];
      assert fewer == all[..n + 1];
      assert forall a :: 0 <= a < |fewer| ==> fewer[a] == all[a];
      EarlierKeysKept(f, keys[..n], i);
    }
  }

  // Rotations that returned Ok, one after the other, as `RotateOriginKey` promises them.
  ghost predicate Rotations(fs: seq<Files>, keys: seq<Key>) {
    && |fs| == |keys| + 1
    && forall i :: 0 <= i < |keys| ==> Rotatable(fs[i]) && RotationStage(fs[i], keys[i], 3, fs[i + 1])
  }

  lemma {:induction false} RotationsAreRotateAll(fs: seq<Files>, keys: seq<Key>)
    requires Rotations(fs, keys) && Matched(fs[0])
    ensures var last, all := fs[|keys|], RotateAll(fs[0], keys);
            last.key == all.key && last.cap == all.cap && last.extra == all.extra
  {
    var n := |keys|;
    if n > 0 {
      RotationsAreRotateAll(fs[..n], keys[..n - 1]);
      assert RotationStage(fs[n - 1], keys[n - 1], 3, fs[n]);
    }
  }

  // With distinct four-byte prefixes, a boot after any number of completed rotations
  // serves the current key first and every earlier one after it.
  lemma EarlierKeysServed(fs: seq<Files>, keys: seq<Key>, b: Boot, names: seq<string>)
    requires Rotations(fs, keys) && Matched(fs[0]) && b.readable && Lists(names, fs[|keys|].extra)
    requires var all := [fs[0].key.value.key] + keys;
             && (forall a :: 0 <= a < |all| ==> |all[a].origin| >= 4)
             && (forall a, b :: 0 <= a < b < |all| ==> all[a].origin[..4] != all[b].origin[..4])
    ensures var all, r := [fs[0].key.value.key] + keys, BootResult(fs[|keys|], b);
            && r.Ok? && r.value.key == all[|keys|] && r.value.cap.origin == all[|keys|].origin
            && forall i :: 0 <= i < |keys| ==> all[i] in KeysOf(names, fs[|keys|].extra)
  {
    RotationsAreRotateAll(fs, keys);
    EarlierKeysLoaded(fs[0], keys, names);
  }

  lemma EarlierKeysLoaded(f: Files, keys: seq<Key>, names: seq<string>)
    requires Matched(f) && Lists(names, RotateAll(f, keys).extra)
    requires var all := [f.key.value.key] + keys;
             && (forall a :: 0 <= a < |all| ==> |all[a].origin| >= 4)
             && (forall a, b :: 0 <= a < b < |all| ==> all[a].origin[..4] != all[b].origin[..4])
    ensures var all := [f.key.value.key] + keys;
            forall i :: 0 <= i < |keys| ==> all[i] in KeysOf(names, RotateAll(f, keys).extra)
  {
    var all, last := [f.key.value.key] + keys, RotateAll(f, keys);
    forall i | 0 <= i < |keys|
      ensures all[i] in KeysOf(names, last.extra)
    {
      forall j | i < j < |keys|
        ensures RetiredName(all[j].origin) != RetiredName(all[i].origin)
      {
        NamesAreHexPrefixes(all[i].origin, all[j].origin);
      }
      EarlierKeysKept(f, keys, i);
      KeysAreLoaded(names, last.extra, RetiredName(all[i].origin));
    }
  }
}
