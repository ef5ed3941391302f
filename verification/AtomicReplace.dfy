// Replacing a file so that a power loss never leaves it empty, torn or mixed
// (native/src/secret_file.rs, `replace_atomically`).
//
// The disk is what survives a power loss plus what does not yet: directory operations
// persist in order, so some prefix of the pending ones survives; the bytes of a file
// survive only if it was synced after they were written.
module AtomicReplace {
  import opened Wrappers

  type Inode = nat
  type Name = string

  datatype FileData = FileData(content: string, synced: bool)

  datatype DirOp = Link(name: Name, inode: Inode) | Unlink(name: Name) | Move(from: Name, to: Name)

  type Dir = map<Name, Inode>

  datatype Disk = Disk(durable: Dir, pending: seq<DirOp>, data: map<Inode, FileData>, next: Inode)

  function ApplyOp(d: Dir, op: DirOp): Dir {
    match op
    case Link(name, inode) => d[name := inode]
    case Unlink(name) => d - {name}
    case Move(from, to) => if from in d then (d - {from})[to := d[from]] else d
  }

  function ApplyAll(d: Dir, ops: seq<DirOp>): Dir {
    if ops == [] then d else ApplyOp(ApplyAll(d, ops[..|ops| - 1]), ops[|ops| - 1])
  }

  // The directory as the running system sees it.
  function View(k: Disk): Dir {
    ApplyAll(k.durable, k.pending)
  }

  // ---- the system calls ----------------------------------------------------------------

  function RemoveFile(k: Disk, name: Name): Disk {
    if name in View(k) then k.(pending := k.pending + [Unlink(name)]) else k
  }

  // `create_new`: always a new file, never one that is already there.
  function CreateNew(k: Disk, name: Name): Disk {
    k.(pending := k.pending + [Link(name, k.next)], data := k.data[k.next := FileData("", false)], next := k.next + 1)
  }

  function WriteTo(k: Disk, inode: Inode, content: string): Disk {
    k.(data := k.data[inode := FileData(content, false)])
  }

  function SyncFile(k: Disk, inode: Inode): Disk
    requires inode in k.data
  {
    k.(data := k.data[inode := k.data[inode].(synced := true)])
  }

  function Rename(k: Disk, from: Name, to: Name): Disk {
    k.(pending := k.pending + [Move(from, to)])
  }

  function SyncDir(k: Disk): Disk {
    k.(durable := View(k), pending := [])
  }

  // Some prefix of the directory operations survives, synced bytes survive, and the bytes
  // of every other file may be anything at all.
  ghost predicate PowerLoss(k: Disk, k': Disk) {
    && (exists n: nat :: n <= |k.pending| && k'.durable == ApplyAll(k.durable, k.pending[..n]))
    && k'.pending == [] && k'.next == k.next && k'.data.Keys == k.data.Keys
    && forall i :: i in k.data ==> k'.data[i].synced && (k.data[i].synced ==> k'.data[i] == k.data[i])
  }

  ghost function Read(k: Disk, name: Name): Option<string> {
    if name in View(k) && View(k)[name] in k.data then Some(k.data[View(k)[name]].content) else None
  }

  // ---- the procedure ---------------------------------------------------------------------

  function TempSibling(path: Name): Name {
    "." + path + ".tmp"
  }

  // The disk after each step, for a write that put `partial` into the temp file.
  function Removed(k: Disk, path: Name): Disk { RemoveFile(k, TempSibling(path)) }
  function Created(k: Disk, path: Name): Disk { CreateNew(Removed(k, path), TempSibling(path)) }
  function Written(k: Disk, path: Name, partial: string): Disk { WriteTo(Created(k, path), k.next, partial) }
  function Synced(k: Disk, path: Name, bytes: string): Disk { SyncFile(Written(k, path, bytes), k.next) }
  function Renamed(k: Disk, path: Name, bytes: string): Disk { Rename(Synced(k, path, bytes), TempSibling(path), path) }
  function Replaced(k: Disk, path: Name, bytes: string): Disk { SyncDir(Renamed(k, path, bytes)) }

  ghost predicate Step(k: Disk, path: Name, bytes: string, e: Disk) {
    || e == k || e == Removed(k, path) || e == Created(k, path)
    || (exists partial :: e == Written(k, path, partial))
    || e == Synced(k, path, bytes) || e == Renamed(k, path, bytes) || e == Replaced(k, path, bytes)
  }

  // Every disk the procedure passes through, the clean-up after an error included.
  ghost predicate Reaches(k: Disk, path: Name, bytes: string, e: Disk) {
    exists s :: Step(k, path, bytes, s) && (e == s || e == RemoveFile(s, TempSibling(path)))
  }

  class FileSystem {
    var disk: Disk
    ghost var seen: seq<Disk>   // every disk there has been, newest last
    ghost var errors: nat       // system calls that failed

    ghost predicate Valid()
      reads this
    {
      seen != [] && seen[|seen| - 1] == disk
    }

    constructor (disk: Disk)
      ensures Valid() && this.disk == disk && seen == [disk]
    {
      this.disk := disk;
      seen := [disk];
      errors := 0;
    }

    // One system call: the disk becomes `after`, or the call fails and nothing changes.
    method Call(after: Disk) returns (ok: bool)
      requires Valid()
      modifies this
      ensures Valid() && seen == old(seen) + [disk]
      ensures disk == if ok then after else old(disk)
      ensures errors == old(errors) + if ok then 0 else 1
    {
      ok := *;
      errors := errors + if ok then 0 else 1;
      if ok {
        disk := after;
      }
      seen := seen + [disk];
    }

    // Create a file, and only a new one: a name that is taken is refused, as any call can be.
    method CallCreate(name: Name) returns (ok: bool)
      requires Valid()
      modifies this
      ensures Valid() && old(seen) <= seen && |seen| <= |old(seen)| + 1
      ensures disk == if ok then CreateNew(old(disk), name) else old(disk)
      ensures seen == old(seen) || seen == old(seen) + [disk]
      ensures errors == old(errors) && name !in View(old(disk)) ==> ok
      ensures errors >= old(errors) && (ok ==> errors == old(errors))
    {
      if name in View(disk) {
        return false;
      }
      ok := Call(CreateNew(disk, name));
    }

    // Writing can stop anywhere.
    method WriteAll(inode: Inode, bytes: string) returns (ok: bool, ghost partial: string)
      requires Valid()
      modifies this
      ensures Valid() && seen == old(seen) + [disk]
      ensures disk == WriteTo(old(disk), inode, partial) && partial <= bytes && (ok ==> partial == bytes)
      ensures errors == old(errors) + if ok then 0 else 1
    {
      ok := *;
      errors := errors + if ok then 0 else 1;
      var n: int := *;
      var wrote := if !ok && 0 <= n < |bytes| then bytes[..n] else bytes;
      disk := WriteTo(disk, inode, wrote);
      seen := seen + [disk];
      partial := wrote;
    }

    // Create, write, sync, rename, sync the directory; stop at the first failure.
    method StageAndRename(ghost k: Disk, tmp: Name, path: Name, bytes: string) returns (ok: bool)
      requires Valid() && tmp == TempSibling(path) && disk == Removed(k, path)
      modifies this
      ensures Valid() && old(seen) <= seen
      ensures forall i :: |old(seen)| <= i < |seen| ==> Step(k, path, bytes, seen[i])
      ensures Step(k, path, bytes, disk)
      ensures ok ==> disk == Replaced(k, path, bytes)
      ensures ok <==> errors == old(errors)
      ensures errors >= old(errors)
    {
      var inode := disk.next;
      assert inode == k.next;
      RemovedIsGone(k, path);
      ok := CallCreate(tmp);
      assert Step(k, path, bytes, disk);
      if !ok { return; }
      ghost var partial;
      ok, partial := WriteAll(inode, bytes);
      assert disk == Written(k, path, partial);
      if !ok { return; }
      ok := SyncAndRename(k, inode, tmp, path, bytes);
    }

    method SyncAndRename(ghost k: Disk, inode: Inode, tmp: Name, path: Name, bytes: string) returns (ok: bool)
      requires Valid() && tmp == TempSibling(path) && inode == k.next && disk == Written(k, path, bytes)
      modifies this
      ensures Valid() && old(seen) <= seen
      ensures forall i :: |old(seen)| <= i < |seen| ==> Step(k, path, bytes, seen[i])
      ensures Step(k, path, bytes, disk)
      ensures ok ==> disk == Replaced(k, path, bytes)
      ensures ok <==> errors == old(errors)
      ensures errors >= old(errors)
    {
      ok := Call(SyncFile(disk, inode));
      if !ok { return; }
      ok := Call(Rename(disk, tmp, path));
      if !ok { return; }
      ok := Call(SyncDir(disk));
    }

    method ReplaceAtomically(path: Name, bytes: string) returns (ok: bool)
      requires Valid()
      modifies this
      ensures Valid() && old(seen) <= seen
      ensures forall i :: |old(seen)| <= i < |seen| ==> Reaches(old(disk), path, bytes, seen[i])
      ensures ok ==> disk == Replaced(old(disk), path, bytes)
      ensures ok <==> errors == old(errors)   // it fails only if a system call does
    {
      var tmp := TempSibling(path);
      ghost var k := disk;
      assert Step(k, path, bytes, k);
      ok := Call(RemoveFile(disk, tmp));
      if !ok {
        return;
      }
      assert Step(k, path, bytes, Removed(k, path));
      ok := StageAndRename(k, tmp, path, bytes);
      if !ok {
        var cleaned := Call(RemoveFile(disk, tmp));
      }
    }
  }

  lemma RemovedIsGone(k: Disk, path: Name)
    ensures TempSibling(path) !in View(Removed(k, path))
  {
    ApplySnoc(k.durable, k.pending, Unlink(TempSibling(path)));
  }

  // ---- safety ------------------------------------------------------------------------------

  // The file `path` names in directory `d` is fully on disk with an allowed content.
  ghost predicate SafeIn(k: Disk, d: Dir, path: Name, allowed: set<Option<string>>) {
    if path in d then d[path] in k.data && k.data[d[path]].synced && Some(k.data[d[path]].content) in allowed
    else None in allowed
  }

  // Whatever a power loss leaves of the directory, `path` reads as an allowed content.
  ghost predicate Safe(k: Disk, path: Name, allowed: set<Option<string>>) {
    forall n: nat :: n <= |k.pending| ==> SafeIn(k, ApplyAll(k.durable, k.pending[..n]), path, allowed)
  }

  // New inodes are new.
  ghost predicate Fresh(k: Disk) {
    && (forall name :: name in k.durable ==> k.durable[name] < k.next)
    && (forall op :: op in k.pending && op.Link? ==> op.inode < k.next)
  }

  lemma {:induction false} FreshInodes(d: Dir, ops: seq<DirOp>, next: Inode)
    requires forall name :: name in d ==> d[name] < next
    requires forall op :: op in ops && op.Link? ==> op.inode < next
    ensures forall name :: name in ApplyAll(d, ops) ==> ApplyAll(d, ops)[name] < next
  {
    if ops != [] { FreshInodes(d, ops[..|ops| - 1], next); }
  }

  lemma ApplySnoc(d: Dir, ops: seq<DirOp>, op: DirOp)
    ensures ApplyAll(d, ops + [op]) == ApplyOp(ApplyAll(d, ops), op)
  {
    assert (ops + [op])[..|ops|] == ops;
  }

  // One more directory operation: all earlier prefixes as before, plus the new view.
  lemma SafeSnoc(k: Disk, op: DirOp, path: Name, allowed: set<Option<string>>)
    requires Safe(k, path, allowed) && SafeIn(k, ApplyOp(View(k), op), path, allowed)
    ensures Safe(k.(pending := k.pending + [op]), path, allowed)
  {
    var e := k.(pending := k.pending + [op]);
    ApplySnoc(k.durable, k.pending, op);
    forall n: nat | n <= |e.pending|
      ensures SafeIn(e, ApplyAll(e.durable, e.pending[..n]), path, allowed)
    {
      if n <= |k.pending| {
        assert e.pending[..n] == k.pending[..n];
        assert SafeIn(k, ApplyAll(k.durable, k.pending[..n]), path, allowed);
      } else {
        assert e.pending[..n] == e.pending;
      }
    }
  }

  // Bytes written to a file no directory prefix calls `path` do not matter to it.
  lemma SafeElsewhere(k: Disk, inode: Inode, f: FileData, path: Name, allowed: set<Option<string>>)
    requires Safe(k, path, allowed)
    requires forall n: nat :: n <= |k.pending| ==>
                                var d := ApplyAll(k.durable, k.pending[..n]); path in d ==> d[path] != inode
    ensures Safe(k.(data := k.data[inode := f]), path, allowed)
  {
    var e := k.(data := k.data[inode := f]);
    forall n: nat | n <= |e.pending|
      ensures SafeIn(e, ApplyAll(e.durable, e.pending[..n]), path, allowed)
    {
      assert SafeIn(k, ApplyAll(k.durable, k.pending[..n]), path, allowed);
    }
  }

  lemma SafeMore(k: Disk, path: Name, allowed: set<Option<string>>, more: set<Option<string>>)
    requires Safe(k, path, allowed) && allowed <= more
    ensures Safe(k, path, more)
  {
    forall n: nat | n <= |k.pending|
      ensures SafeIn(k, ApplyAll(k.durable, k.pending[..n]), path, more)
    {
      assert SafeIn(k, ApplyAll(k.durable, k.pending[..n]), path, allowed);
    }
  }

  // A power loss keeps what was safe, and what is read is allowed.
  lemma LossIsSafe(k: Disk, k': Disk, path: Name, allowed: set<Option<string>>)
    requires Safe(k, path, allowed) && Fresh(k) && PowerLoss(k, k')
    ensures Safe(k', path, allowed) && Fresh(k') && Read(k', path) in allowed
  {
    var n: nat :| n <= |k.pending| && k'.durable == ApplyAll(k.durable, k.pending[..n]);
    assert SafeIn(k, ApplyAll(k.durable, k.pending[..n]), path, allowed);
    FreshInodes(k.durable, k.pending[..n], k.next);
    assert forall m: nat :: m <= |k'.pending| ==> k'.pending[..m] == [];
  }

  // `inode` is not the file `path` names, however much of the directory survives.
  ghost predicate Apart(k: Disk, path: Name, inode: Inode) {
    forall n: nat :: n <= |k.pending| ==>
                       var d := ApplyAll(k.durable, k.pending[..n]); path in d ==> d[path] != inode
  }

  // Unlinking the temp file, before or after: never touches `path`.
  lemma RemoveIsSafe(k: Disk, name: Name, path: Name, allowed: set<Option<string>>)
    requires Safe(k, path, allowed) && Fresh(k) && name != path
    ensures Safe(RemoveFile(k, name), path, allowed) && Fresh(RemoveFile(k, name)) && RemoveFile(k, name).next == k.next
  {
    assert k.pending[..|k.pending|] == k.pending;
    assert SafeIn(k, ApplyAll(k.durable, k.pending[..|k.pending|]), path, allowed);
    if name in View(k) { SafeSnoc(k, Unlink(name), path, allowed); }
  }

  lemma CreateIsSafe(k: Disk, name: Name, path: Name, allowed: set<Option<string>>)
    requires Safe(k, path, allowed) && Fresh(k) && name != path
    ensures Safe(CreateNew(k, name), path, allowed) && Fresh(CreateNew(k, name))
    ensures Apart(CreateNew(k, name), path, k.next)
    ensures View(CreateNew(k, name)) == View(k)[name := k.next]
  {
    forall n: nat | n <= |k.pending|
      ensures forall x :: x in ApplyAll(k.durable, k.pending[..n]) ==> ApplyAll(k.durable, k.pending[..n])[x] < k.next
    {
      FreshInodes(k.durable, k.pending[..n], k.next);
    }
    var e := k.(data := k.data[k.next := FileData("", false)]);
    SafeElsewhere(k, k.next, FileData("", false), path, allowed);
    assert e.pending[..|e.pending|] == e.pending;
    assert SafeIn(e, ApplyAll(e.durable, e.pending[..|e.pending|]), path, allowed);
    SafeSnoc(e, Link(name, k.next), path, allowed);
    ApplySnoc(k.durable, k.pending, Link(name, k.next));
    var c := CreateNew(k, name);
    assert Safe(c, path, allowed) by {
      assert c == e.(pending := e.pending + [Link(name, k.next)]).(next := k.next + 1);
      assert forall d :: SafeIn(c, d, path, allowed) == SafeIn(e.(pending := c.pending), d, path, allowed);
    }
    forall n: nat | n <= |c.pending|
      ensures var d := ApplyAll(c.durable, c.pending[..n]); path in d ==> d[path] != k.next
    {
      if n <= |k.pending| {
        assert c.pending[..n] == k.pending[..n];
      } else {
        assert c.pending[..n] == c.pending;
        assert k.pending[..|k.pending|] == k.pending;
      }
    }
  }

  lemma RenameIsSafe(k: Disk, tmp: Name, path: Name, inode: Inode, bytes: string, allowed: set<Option<string>>)
    requires Safe(k, path, allowed) && Fresh(k)
    requires tmp in View(k) && View(k)[tmp] == inode && inode in k.data && k.data[inode] == FileData(bytes, true)
    ensures Safe(Rename(k, tmp, path), path, allowed + {Some(bytes)}) && Fresh(Rename(k, tmp, path))
    ensures Safe(SyncDir(Rename(k, tmp, path)), path, {Some(bytes)}) && Fresh(SyncDir(Rename(k, tmp, path)))
  {
    SafeMore(k, path, allowed, allowed + {Some(bytes)});
    SafeSnoc(k, Move(tmp, path), path, allowed + {Some(bytes)});
    ApplySnoc(k.durable, k.pending, Move(tmp, path));
    var s := SyncDir(Rename(k, tmp, path));
    assert forall n: nat :: n <= |s.pending| ==> s.pending[..n] == [];
    FreshInodes(k.durable, k.pending + [Move(tmp, path)], k.next);
  }

  lemma WrittenIsSafe(k: Disk, path: Name, partial: string, synced: bool, allowed: set<Option<string>>)
    requires Safe(k, path, allowed) && Fresh(k)
    ensures var c := Created(k, path);
            var w := c.(data := c.data[k.next := FileData(partial, synced)]);
            && Safe(c, path, allowed) && Fresh(c)
            && Safe(w, path, allowed) && Fresh(w)
            && TempSibling(path) in View(w) && View(w)[TempSibling(path)] == k.next
  {
    var tmp := TempSibling(path);
    assert |tmp| > |path|;
    RemoveIsSafe(k, tmp, path, allowed);
    CreateIsSafe(Removed(k, path), tmp, path, allowed);
    SafeElsewhere(Created(k, path), k.next, FileData(partial, synced), path, allowed);
  }

  lemma FinishIsSafe(k: Disk, path: Name, bytes: string, allowed: set<Option<string>>)
    requires Safe(k, path, allowed) && Fresh(k)
    ensures Safe(Synced(k, path, bytes), path, allowed) && Fresh(Synced(k, path, bytes))
    ensures Safe(Renamed(k, path, bytes), path, allowed + {Some(bytes)}) && Fresh(Renamed(k, path, bytes))
    ensures Safe(Replaced(k, path, bytes), path, {Some(bytes)}) && Fresh(Replaced(k, path, bytes))
  {
    WrittenIsSafe(k, path, bytes, true, allowed);
    var c, s := Created(k, path), Synced(k, path, bytes);
    assert s == c.(data := c.data[k.next := FileData(bytes, true)]);
    RenameIsSafe(s, TempSibling(path), path, k.next, bytes, allowed);
  }

  lemma PrepareIsSafe(k: Disk, path: Name, partial: string, allowed: set<Option<string>>)
    requires Safe(k, path, allowed) && Fresh(k)
    ensures Safe(Removed(k, path), path, allowed) && Fresh(Removed(k, path))
    ensures Safe(Created(k, path), path, allowed) && Fresh(Created(k, path))
    ensures Safe(Written(k, path, partial), path, allowed) && Fresh(Written(k, path, partial))
  {
    assert |TempSibling(path)| > |path|;
    RemoveIsSafe(k, TempSibling(path), path, allowed);
    WrittenIsSafe(k, path, partial, false, allowed);
  }

  // At every step of a replacement, and after the clean-up of a failed one, a power loss
  // leaves the old content or the new one, whole; a finished one leaves the new. Leftover
  // temp files play no part.
  lemma StepIsSafe(k: Disk, path: Name, bytes: string, e: Disk, allowed: set<Option<string>>)
    requires Safe(k, path, allowed) && Fresh(k) && Step(k, path, bytes, e)
    ensures Safe(e, path, allowed + {Some(bytes)}) && Fresh(e)
    ensures e == Replaced(k, path, bytes) ==> Safe(e, path, {Some(bytes)})
  {
    var more := allowed + {Some(bytes)};
    SafeMore(k, path, allowed, more);
    FinishIsSafe(k, path, bytes, more);
    if partial :| e == Written(k, path, partial) {
      PrepareIsSafe(k, path, partial, more);
    } else {
      PrepareIsSafe(k, path, "", more);
    }
    assert more + {Some(bytes)} == more;
    SafeMore(Replaced(k, path, bytes), path, {Some(bytes)}, more);
  }

  lemma ReachesIsSafe(k: Disk, path: Name, bytes: string, e: Disk, allowed: set<Option<string>>)
    requires Safe(k, path, allowed) && Fresh(k) && Reaches(k, path, bytes, e)
    ensures Safe(e, path, allowed + {Some(bytes)}) && Fresh(e)
  {
    var s :| Step(k, path, bytes, s) && (e == s || e == RemoveFile(s, TempSibling(path)));
    StepIsSafe(k, path, bytes, s, allowed);
    assert |TempSibling(path)| > |path|;
    RemoveIsSafe(s, TempSibling(path), path, allowed + {Some(bytes)});
  }

  // ---- any number of replacements, errors and power losses ----------------------------------

  datatype Ending = Completed | Failed | PowerLost

  datatype Attempt = Attempt(bytes: string, ending: Ending)

  // One attempt takes disk `k` to disk `k'`.
  ghost predicate Attempted(k: Disk, path: Name, a: Attempt, k': Disk) {
    match a.ending
    case Completed => k' == Replaced(k, path, a.bytes)
    case Failed => Reaches(k, path, a.bytes, k')
    case PowerLost => exists e :: Reaches(k, path, a.bytes, e) && PowerLoss(e, k')
  }

  // What the file may hold: the last completed content, or one attempted since.
  function MayHold(initial: Option<string>, attempts: seq<Attempt>): set<Option<string>> {
    if attempts == [] then {initial}
    else
      var a := attempts[|attempts| - 1];
      if a.ending.Completed? then {Some(a.bytes)}
      else MayHold(initial, attempts[..|attempts| - 1]) + {Some(a.bytes)}
  }

  lemma AttemptIsSafe(k: Disk, path: Name, a: Attempt, k': Disk, before: set<Option<string>>)
    requires Safe(k, path, before) && Fresh(k) && Attempted(k, path, a, k')
    ensures Safe(k', path, if a.ending.Completed? then {Some(a.bytes)} else before + {Some(a.bytes)}) && Fresh(k')
  {
    match a.ending {
      case Completed =>
        StepIsSafe(k, path, a.bytes, k', before);
      case Failed =>
        ReachesIsSafe(k, path, a.bytes, k', before);
      case PowerLost =>
        var e :| Reaches(k, path, a.bytes, e) && PowerLoss(e, k');
        ReachesIsSafe(k, path, a.bytes, e, before);
        LossIsSafe(e, k', path, before + {Some(a.bytes)});
    }
  }

  // What is safe reads as allowed now.
  lemma SafeReads(k: Disk, path: Name, allowed: set<Option<string>>)
    requires Safe(k, path, allowed)
    ensures Read(k, path) in allowed
  {
    assert k.pending[..|k.pending|] == k.pending;
    assert SafeIn(k, ApplyAll(k.durable, k.pending[..|k.pending|]), path, allowed);
  }

  // However many replacements, failures and power losses: the file is whole, and holds what
  // the last completed replacement wrote or one attempted since.
  lemma {:induction false} NeverTorn(disks: seq<Disk>, path: Name, attempts: seq<Attempt>, initial: Option<string>)
    requires |disks| == |attempts| + 1 && Fresh(disks[0]) && Safe(disks[0], path, {initial})
    requires forall i :: 0 <= i < |attempts| ==> Attempted(disks[i], path, attempts[i], disks[i + 1])
    ensures Fresh(disks[|attempts|]) && Safe(disks[|attempts|], path, MayHold(initial, attempts))
    ensures Read(disks[|attempts|], path) in MayHold(initial, attempts)
  {
    var n := |attempts|;
    if n > 0 {
      NeverTorn(disks[..n], path, attempts[..n - 1], initial);
      AttemptIsSafe(disks[n - 1], path, attempts[n - 1], disks[n], MayHold(initial, attempts[..n - 1]));
    }
    SafeReads(disks[n], path, MayHold(initial, attempts));
  }
}
