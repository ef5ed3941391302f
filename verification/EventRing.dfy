// The bounded event log: one file and at most one rotated predecessor
// (native/src/events.rs, `Ring`). Text is a sequence of one-byte characters.
module EventRing {
  import opened Wrappers
  import opened Strings

  // ---- reading a file back as lines -----------------------------------------------------------

  // `BufRead::lines`: a final piece without a newline counts if it is not empty, and one
  // carriage return before a newline goes with it.
  function Lines(bytes: string): (r: seq<string>)
    decreases |bytes|
  {
    match SplitOnce(bytes, '\n')
    case None => if bytes == "" then [] else [bytes]
    case Some(parts) => [DropCr(parts.0)] + Lines(parts.1)
  }

  function DropCr(line: string): string {
    if line != "" && line[|line| - 1] == '\r' then line[..|line| - 1] else line
  }

  // `read_lines`: an absent file has no lines.
  function ReadLines(file: Option<string>): seq<string> {
    if file.None? then [] else NonEmpty(Lines(file.value))
  }

  // ---- the ring ---------------------------------------------------------------------------------

  datatype Files = Files(current: Option<string>, rotated: Option<string>)

  function Length(file: Option<string>): nat {
    if file.Some? then |file.value| else 0
  }

  function Bytes(file: Option<string>): string {
    if file.Some? then file.value else ""
  }

  function Appended(f: Files, cap: nat, line: string): Files {
    var entry := line + "\n";
    if Length(f.current) > 0 && Length(f.current) + |entry| > cap then Files(Some(entry), f.current)
    else f.(current := Some(Bytes(f.current) + entry))
  }

  function Recent(f: Files, n: nat): seq<string> {
    LastN(ReadLines(f.rotated) + ReadLines(f.current), n)
  }

  class Ring {
    const cap: nat
    var files: Files
    ghost var history: seq<string>   // every line ever appended, earlier processes included

    ghost predicate Valid()
      reads this
    {
      files == After(cap, history)
    }

    constructor (cap: nat, files: Files, ghost history: seq<string>)
      requires files == After(cap, history)
      ensures Valid() && this.cap == cap && this.history == history
    {
      this.cap, this.files, this.history := cap, files, history;
    }

    method AppendLocked(line: string)
      requires Valid()
      modifies this
      ensures Valid() && history == old(history) + [line]
      ensures files == Appended(old(files), cap, line)
    {
      var incoming := |line| + 1;
      var current := if files.current.Some? then |files.current.value| else 0;
      if current > 0 && current + incoming > cap {
        files := Files(None, files.current);
      }
      ghost var base := Bytes(files.current);
      assert base + line + "\n" == base + (line + "\n");
      assert base == "" ==> base + (line + "\n") == line + "\n";
      files := files.(current := Some(Bytes(files.current) + line));
      files := files.(current := Some(Bytes(files.current) + "\n"));
      history := history + [line];
      assert history[..|history| - 1] == old(history);
    }

    // The newest `n` of the lines still kept, oldest first.
    method RecentLines(n: nat) returns (lines: seq<string>)
      requires Valid()
      ensures lines == Recent(files, n)
      ensures AllOneLine(history) ==> lines == LastN(history[Marks(cap, history).0..], n)
    {
      lines := ReadLines(files.rotated);
      lines := lines + ReadLines(files.current);
      var skip := if |lines| > n then |lines| - n else 0;
      lines := lines[skip..];
      RecentIsTheNewest(cap, history, n);
    }
  }

  // ---- round trip -------------------------------------------------------------------------------

  // An entry that one line can hold and read back.
  predicate OneLine(line: string) {
    line != "" && '\n' !in line && line[|line| - 1] != '\r'
  }

  predicate AllOneLine(lines: seq<string>) {
    forall l :: l in lines ==> OneLine(l)
  }

  function Encode(lines: seq<string>): string {
    if lines == [] then "" else Encode(lines[..|lines| - 1]) + (lines[|lines| - 1] + "\n")
  }

  lemma {:induction false} EncodeConcat(a: seq<string>, b: seq<string>)
    ensures Encode(a + b) == Encode(a) + Encode(b)
  {
    if b == [] {
      assert a + b == a;
    } else {
      EncodeConcat(a, b[..|b| - 1]);
      assert (a + b)[..|a + b| - 1] == a + b[..|b| - 1];
    }
  }

  lemma EncodeCons(line: string, rest: seq<string>)
    ensures Encode([line] + rest) == line + ['\n'] + Encode(rest)
  {
    EncodeConcat([line], rest);
    assert Encode([line]) == Encode([]) + (line + "\n");
  }

  lemma LinesCons(line: string, rest: string)
    requires OneLine(line)
    ensures NonEmpty(Lines(line + ['\n'] + rest)) == [line] + NonEmpty(Lines(rest))
  {
    SplitOnceAt(line, '\n', rest);
    FilterCons(IsPresent, line, Lines(rest));
  }

  // What was written line by line is read line by line.
  lemma {:induction false} LinesEncode(lines: seq<string>)
    requires AllOneLine(lines)
    ensures NonEmpty(Lines(Encode(lines))) == lines
  {
    if lines != [] {
      var line, rest := lines[0], lines[1..];
      assert lines == [line] + rest && line in lines;
      LinesEncode(rest);
      EncodeCons(line, rest);
      LinesCons(line, Encode(rest));
    }
  }

  lemma {:induction false} LinesHaveNoNewline(bytes: string)
    ensures forall l :: l in Lines(bytes) ==> '\n' !in l
    decreases |bytes|
  {
    match SplitOnce(bytes, '\n')
    case None =>
    case Some(parts) =>
      LinesHaveNoNewline(parts.1);
  }

  // The file of one entry.
  lemma OneEntry(line: string)
    requires '\n' !in line
    ensures NonEmpty(Lines(line + "\n")) == if DropCr(line) == "" then [] else [DropCr(line)]
  {
    SplitOnceAt(line, '\n', "");
    assert line + "\n" == line + ['\n'] + "";
    assert Lines(line + "\n") == [DropCr(line)] + [];
    FilterCons(IsPresent, DropCr(line), []);
  }

  lemma FirstAppend(line: string, cap: nat)
    ensures Recent(Appended(Files(None, None), cap, line), 1) == LastN(NonEmpty(Lines(line + "\n")), 1)
  {
    var f := Appended(Files(None, None), cap, line);
    assert f == Files(Some("" + (line + "\n")), None) && "" + (line + "\n") == line + "\n";
    RecentOf(f, [], NonEmpty(Lines(line + "\n")), 1);
    assert [] + NonEmpty(Lines(line + "\n")) == NonEmpty(Lines(line + "\n"));
  }

  lemma RecentOf(f: Files, older: seq<string>, newer: seq<string>, n: nat)
    requires ReadLines(f.rotated) == older && ReadLines(f.current) == newer
    ensures Recent(f, n) == LastN(older + newer, n)
  {
  }

  lemma BrokenEntry(line: string)
    requires '\n' in line
    ensures line !in NonEmpty(Lines(line + "\n"))
  {
    LinesHaveNoNewline(line + "\n");
    FilterMembers(IsPresent, Lines(line + "\n"));
  }

  // A single entry reads back as itself exactly when it is one such line.
  lemma EntryReadsBackIff(line: string, cap: nat)
    ensures Recent(Appended(Files(None, None), cap, line), 1) == [line] <==> OneLine(line)
  {
    FirstAppend(line, cap);
    var read := NonEmpty(Lines(line + "\n"));
    if '\n' in line {
      BrokenEntry(line);
      assert line in [line];
    } else {
      OneEntry(line);
      assert LastN(read, 1) == read;
    }
  }

  // ---- any history of appends --------------------------------------------------------------------

  function After(cap: nat, history: seq<string>): Files {
    if history == [] then Files(None, None)
    else Appended(After(cap, history[..|history| - 1]), cap, history[|history| - 1])
  }

  // Where the rotated file and the current one begin in the history.
  function Marks(cap: nat, history: seq<string>): (m: (nat, nat))
    ensures m.0 <= m.1 <= |history| && (history != [] ==> m.1 < |history|)
  {
    if history == [] then (0, 0)
    else
      var n := |history| - 1;
      var (i, j) := Marks(cap, history[..n]);
      if j < n && |Encode(history[j..n])| + |history[n]| + 1 > cap then (j, n) else (i, j)
  }

  // Both files, exactly: two neighbouring runs of the history, the second up to its end.
  ghost predicate HoldsTail(f: Files, history: seq<string>, i: nat, j: nat) {
    && i <= j <= |history| && (history != [] ==> j < |history|) && (i == j ==> i == 0)
    && f.current == (if history == [] then None else Some(Encode(history[j..])))
    && f.rotated == (if i == j then None else Some(Encode(history[i..j])))
  }

  lemma EncodeSnoc(lines: seq<string>, line: string)
    ensures Encode(lines + [line]) == Encode(lines) + (line + "\n")
    ensures lines != [] ==> |Encode(lines)| > 0
  {
    assert (lines + [line])[..|lines|] == lines;
  }

  // The entry still fits, or the file is new.
  lemma AppendFits(f: Files, cap: nat, before: seq<string>, line: string, i: nat, j: nat)
    requires HoldsTail(f, before, i, j) && (before == [] || |Encode(before[j..])| + |line| + 1 <= cap)
    ensures HoldsTail(Appended(f, cap, line), before + [line], i, j)
  {
    EncodeSnoc(before[j..], line);
    assert (before + [line])[j..] == before[j..] + [line];
    assert (before + [line])[i..j] == before[i..j];
    if before == [] { assert before[j..] == []; }
  }

  // It does not: the file is rotated, and the one rotated before is gone.
  lemma AppendRotates(f: Files, cap: nat, before: seq<string>, line: string, i: nat, j: nat)
    requires HoldsTail(f, before, i, j) && before != [] && |Encode(before[j..])| + |line| + 1 > cap
    ensures HoldsTail(Appended(f, cap, line), before + [line], j, |before|)
  {
    EncodeSnoc(before[j..], line);
    EncodeSnoc([], line);
    assert [] + [line] == [line] && Encode([]) + (line + "\n") == line + "\n";
    assert (before + [line])[|before|..] == [line];
    assert (before + [line])[j..|before|] == before[j..];
  }

  lemma {:induction false} RingHoldsTheTail(cap: nat, history: seq<string>)
    ensures HoldsTail(After(cap, history), history, Marks(cap, history).0, Marks(cap, history).1)
  {
    if history != [] {
      var n := |history| - 1;
      var before, line := history[..n], history[n];
      RingHoldsTheTail(cap, before);
      var (i, j) := Marks(cap, before);
      assert history == before + [line] && history[j..n] == before[j..];
      if j < n && |Encode(before[j..])| + |line| + 1 > cap {
        AppendRotates(After(cap, before), cap, before, line, i, j);
      } else {
        AppendFits(After(cap, before), cap, before, line, i, j);
      }
    }
  }

  // The bytes on disk, oldest first, are those of a suffix of everything appended.
  lemma RingIsASuffix(cap: nat, history: seq<string>)
    ensures var f, (i, j) := After(cap, history), Marks(cap, history);
            Bytes(f.rotated) + Bytes(f.current) == Encode(history[i..])
  {
    var (i, j) := Marks(cap, history);
    RingHoldsTheTail(cap, history);
    assert history[i..] == history[i..j] + history[j..];
    EncodeConcat(history[i..j], history[j..]);
    if i == j { assert history[i..j] == []; }
  }

  // With entries that fit, neither file outgrows the cap; and from the first rotation on
  // more than a cap's worth is always kept.
  lemma {:induction false} RingBounds(cap: nat, history: seq<string>)
    requires forall l :: l in history ==> |l| + 1 <= cap
    ensures var f := After(cap, history);
            && Length(f.current) <= cap && Length(f.rotated) <= cap
            && (f.rotated.Some? ==> Length(f.rotated) + Length(f.current) > cap)
  {
    if history != [] {
      RingBounds(cap, history[..|history| - 1]);
      assert history[|history| - 1] in history;
    }
  }

  lemma FilesReadBack(cap: nat, history: seq<string>)
    requires AllOneLine(history)
    ensures var f, (i, j) := After(cap, history), Marks(cap, history);
            ReadLines(f.rotated) == history[i..j] && ReadLines(f.current) == history[j..]
  {
    var (i, j) := Marks(cap, history);
    RingHoldsTheTail(cap, history);
    LinesEncode(history[i..j]);
    LinesEncode(history[j..]);
  }

  lemma Neighbours(history: seq<string>, i: nat, j: nat)
    requires i <= j <= |history|
    ensures history[i..j] + history[j..] == history[i..]
  {
  }

  // `recent(n)` is the last n of the entries still kept, in order.
  lemma RecentIsTheNewest(cap: nat, history: seq<string>, n: nat)
    ensures AllOneLine(history) ==> Recent(After(cap, history), n) == LastN(history[Marks(cap, history).0..], n)
  {
    if AllOneLine(history) {
      var (i, j) := Marks(cap, history);
      var f := After(cap, history);
      FilesReadBack(cap, history);
      Neighbours(history, i, j);
      RecentOf(f, history[i..j], history[j..], n);
    }
  }
}
