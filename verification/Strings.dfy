// The `str` operations the agent's text code is built from.
module Strings {
  import opened Wrappers

  // `str::split_once` on a character.
  function SplitOnce(s: string, sep: char): (r: Option<(string, string)>)
    ensures r.None? <==> sep !in s
    ensures r.Some? ==> s == r.value.0 + [sep] + r.value.1 && sep !in r.value.0
  {
    if s == "" then None
    else if s[0] == sep then Some(("", s[1..]))
    else match SplitOnce(s[1..], sep)
         case None => None
         case Some(parts) => Some(([s[0]] + parts.0, parts.1))
  }

  // `str::split` on a character: always at least one piece.
  function Split(s: string, sep: char): (r: seq<string>)
    ensures |r| >= 1 && forall p :: p in r ==> sep !in p
    decreases |s|
  {
    match SplitOnce(s, sep)
    case None => [s]
    case Some(parts) => [parts.0] + Split(parts.1, sep)
  }

  function Join(parts: seq<string>, sep: string): string {
    if parts == [] then ""
    else if |parts| == 1 then parts[0]
    else parts[0] + sep + Join(parts[1..], sep)
  }

  predicate IsPresent(piece: string) {
    piece != ""
  }

  function NonEmpty(pieces: seq<string>): seq<string> {
    Filter(IsPresent, pieces)
  }

  lemma {:induction false} SplitOnceAt(a: string, sep: char, b: string)
    requires sep !in a
    ensures SplitOnce(a + [sep] + b, sep) == Some((a, b))
  {
    if a == "" {
      assert ([sep] + b)[1..] == b;
    } else {
      assert (a + [sep] + b)[1..] == a[1..] + [sep] + b;
      SplitOnceAt(a[1..], sep, b);
      assert [a[0]] + a[1..] == a;
    }
  }

  // Splitting what was joined gives the pieces back.
  lemma {:induction false} SplitJoin(parts: seq<string>, sep: char)
    requires parts != [] && forall p :: p in parts ==> sep !in p
    ensures Split(Join(parts, [sep]), sep) == parts
    decreases |parts|
  {
    if |parts| > 1 {
      SplitJoin(parts[1..], sep);
      SplitOnceAt(parts[0], sep, Join(parts[1..], [sep]));
    } else {
      assert sep !in parts[0];
    }
  }

  // `char::is_whitespace`.
  predicate IsWhitespace(c: char) {
    var u := c as int;
    9 <= u <= 13 || u == 32 || u == 0x85 || u == 0xA0 || u == 0x1680 || 0x2000 <= u <= 0x200A
    || u == 0x2028 || u == 0x2029 || u == 0x202F || u == 0x205F || u == 0x3000
  }

  function TrimStart(s: string): (r: string)
    ensures r == "" || !IsWhitespace(r[0])
    ensures s == "" || !IsWhitespace(s[0]) ==> r == s
  {
    if s == "" || !IsWhitespace(s[0]) then s else TrimStart(s[1..])
  }

  function TrimEnd(s: string): (r: string)
    ensures r == "" || !IsWhitespace(r[|r| - 1])
    ensures r <= s
    ensures s == "" || !IsWhitespace(s[|s| - 1]) ==> r == s
  {
    if s == "" || !IsWhitespace(s[|s| - 1]) then s else TrimEnd(s[..|s| - 1])
  }

  // `str::trim`.
  function Trim(s: string): (r: string)
    ensures r == "" || (!IsWhitespace(r[0]) && !IsWhitespace(r[|r| - 1]))
    ensures s == "" || (!IsWhitespace(s[0]) && !IsWhitespace(s[|s| - 1])) ==> r == s
  {
    TrimEnd(TrimStart(s))
  }

  predicate AllWhitespace(s: string) {
    forall i :: 0 <= i < |s| ==> IsWhitespace(s[i])
  }

  lemma {:induction false} TrimStartPads(a: string, s: string)
    requires AllWhitespace(a)
    ensures TrimStart(a + s) == TrimStart(s)
  {
    if a == "" {
      assert a + s == s;
    } else {
      assert (a + s)[1..] == a[1..] + s && (a + s)[0] == a[0];
      TrimStartPads(a[1..], s);
    }
  }

  lemma {:induction false} TrimEndPads(s: string, b: string)
    requires AllWhitespace(b)
    ensures TrimEnd(s + b) == TrimEnd(s)
  {
    if b == "" {
      assert s + b == s;
    } else {
      var t := s + b;
      assert t[..|t| - 1] == s + b[..|b| - 1] && t[|t| - 1] == b[|b| - 1];
      TrimEndPads(s, b[..|b| - 1]);
    }
  }

  // Padding on either side comes off, all of it and nothing else.
  lemma TrimPads(a: string, s: string, b: string)
    requires AllWhitespace(a) && AllWhitespace(b)
    requires s == "" || (!IsWhitespace(s[0]) && !IsWhitespace(s[|s| - 1]))
    ensures Trim(a + (s + b)) == s
  {
    TrimStartPads(a, s + b);
    if s == "" {
      assert s + b == b && b + "" == b;
      TrimStartPads(b, "");
    } else {
      assert (s + b)[0] == s[0];
      TrimEndPads(s, b);
    }
  }

  function Lower(c: char): char {
    if 'A' <= c <= 'Z' then c + 32 as char else c
  }

  predicate EqIgnoreAsciiCase(a: string, b: string) {
    |a| == |b| && forall i :: 0 <= i < |a| ==> Lower(a[i]) == Lower(b[i])
  }

  // ---- lines separated by CR LF ------------------------------------------------------

  const CRLF := "\r\n"

  predicate CrlfAt(s: string, j: nat) {
    j + 2 <= |s| && s[j] == '\r' && s[j + 1] == '\n'
  }

  // Index of the first CR LF, or |s|.
  function FindCrlf(s: string): (k: nat)
    ensures k <= |s|
    ensures k < |s| ==> CrlfAt(s, k)
    ensures forall j: nat :: j < k ==> !CrlfAt(s, j)
  {
    if s == "" || CrlfAt(s, 0) then 0
    else
      var k := FindCrlf(s[1..]);
      assert forall j: nat | CrlfAt(s, j) :: CrlfAt(s[1..], j - 1);
      1 + k
  }

  function SplitCrlf(s: string): (r: seq<string>)
    ensures r != []
    decreases |s|
  {
    var k := FindCrlf(s);
    if k == |s| then [s] else [s[..k]] + SplitCrlf(s[k + 2..])
  }

  lemma {:induction false} FindCrlfAt(line: string, rest: string)
    requires '\r' !in line
    ensures FindCrlf(line + CRLF + rest) == |line|
  {
    if line != "" {
      assert (line + CRLF + rest)[1..] == line[1..] + CRLF + rest;
      FindCrlfAt(line[1..], rest);
    }
  }

  lemma NoCrlf(line: string)
    requires '\r' !in line
    ensures FindCrlf(line) == |line|
  {
    assert forall j: nat | j < |line| :: line[j] in line;
  }

  // A line free of CR comes off the front whole.
  lemma SplitCrlfAt(line: string, rest: string)
    requires '\r' !in line
    ensures SplitCrlf(line + CRLF + rest) == [line] + SplitCrlf(rest)
  {
    FindCrlfAt(line, rest);
    var s := line + CRLF + rest;
    assert s[..|line|] == line && s[|line| + 2..] == rest;
  }

  // Lines free of CR come back exactly as they were joined.
  lemma {:induction false} SplitJoinCrlf(lines: seq<string>)
    requires lines != [] && forall i :: 0 <= i < |lines| ==> '\r' !in lines[i]
    ensures SplitCrlf(Join(lines, CRLF)) == lines
    decreases |lines|
  {
    if |lines| > 1 {
      SplitJoinCrlf(lines[1..]);
      SplitCrlfAt(lines[0], Join(lines[1..], CRLF));
      assert lines == [lines[0]] + lines[1..];
    } else {
      NoCrlf(lines[0]);
    }
  }

  // ---- unsigned decimals -----------------------------------------------------------------

  predicate IsDigit(c: char) {
    '0' <= c <= '9'
  }

  function DigitChar(d: nat): (c: char)
    requires d < 10
    ensures IsDigit(c) && DigitValue(c) == d
  {
    d as char + '0'
  }

  function DigitValue(c: char): (d: nat)
    requires IsDigit(c)
    ensures d < 10
  {
    (c - '0') as nat
  }

  // `u64::to_string`.
  function Decimal(n: nat): (s: string)
    ensures s != "" && forall c :: c in s ==> IsDigit(c)
  {
    if n < 10 then [DigitChar(n)] else Decimal(n / 10) + [DigitChar(n % 10)]
  }

  // The value of a digit string, without a width.
  function Value(s: string): nat
    requires forall c :: c in s ==> IsDigit(c)
  {
    if s == "" then 0 else Value(s[..|s| - 1]) * 10 + DigitValue(s[|s| - 1])
  }

  lemma {:induction false} ValueDecimal(n: nat)
    ensures Value(Decimal(n)) == n
  {
    if n >= 10 {
      ValueDecimal(n / 10);
      assert Decimal(n)[..|Decimal(n)| - 1] == Decimal(n / 10);
    }
  }
}
