// The stored credential line and the `--ttl` text (native/src/local_auth.rs).
module Credentials {
  import opened Wrappers
  import opened Strings
  import opened Codec

  // ---- username:salt:hash ------------------------------------------------------------------

  datatype StoredCredential = StoredCredential(username: string, salt: seq<Byte>, hash: seq<Byte>)
  {
    // `salt: [u8; 16]`, `hash: [u8; 32]`
    predicate Sized() {
      |salt| == 16 && |hash| == 32
    }
  }

  datatype CredentialError = MissingSalt | MissingHash | InvalidSalt | InvalidHash

  function DecodeFixed(n: nat, s: string): Option<seq<Byte>> {
    if |s| == 2 * n then Unhex(s) else None
  }

  function Serialize(c: StoredCredential): string {
    c.username + ":" + (Hex(c.salt) + ":" + Hex(c.hash))
  }

  // `splitn(3, ':')` on the trimmed line.
  function Parse(line: string): (r: Result<StoredCredential, CredentialError>)
    ensures r.Ok? ==> ':' !in r.value.username && (r.value.username == "" || !IsWhitespace(r.value.username[0]))
  {
    var s := Trim(line);
    match SplitOnce(s, ':')
    case None => Err(MissingSalt)
    case Some(first) =>
      assert first.0 != "" ==> s[0] == first.0[0];
      match SplitOnce(first.1, ':')
      case None => Err(MissingHash)
      case Some(second) =>
        match DecodeFixed(16, second.0)
        case None => Err(InvalidSalt)
        case Some(salt) =>
          match DecodeFixed(32, second.1)
          case None => Err(InvalidHash)
          case Some(hash) => Ok(StoredCredential(first.0, salt, hash))
  }

  // The line reads back as written exactly when the username has no ':' and does not
  // start with white space.
  lemma CredentialRoundTrip(c: StoredCredential)
    requires c.Sized()
    ensures Parse(Serialize(c)) == Ok(c) <==>
            ':' !in c.username && (c.username == "" || !IsWhitespace(c.username[0]))
  {
    if ':' !in c.username && (c.username == "" || !IsWhitespace(c.username[0])) {
      var salt, hash, line := Hex(c.salt), Hex(c.hash), Serialize(c);
      HexHasOnlyDigits(c.salt);
      HexHasOnlyDigits(c.hash);
      UnhexHex(c.salt);
      UnhexHex(c.hash);
      assert line[|line| - 1] == hash[|hash| - 1] && hash[|hash| - 1] in hash;
      assert line[0] == if c.username == "" then ':' else c.username[0];
      assert Trim(line) == line;
      assert line == c.username + [':'] + (salt + [':'] + hash);
      SplitOnceAt(c.username, ':', salt + [':'] + hash);
      HexDigitsOnly(salt, ':');
      SplitOnceAt(salt, ':', hash);
    }
  }

  lemma HexDigitsOnly(s: string, c: char)
    requires (forall x :: x in s ==> IsHexDigit(x)) && !IsHexDigit(c)
    ensures c !in s
  {
  }

  // ---- --ttl -----------------------------------------------------------------------------------

  const MAX_LINK_TTL: nat := 30 * 86_400

  datatype TtlError = NotANumber | BadUnit | Overflows | NotPositive | TooLong

  // Length of the leading run of digits.
  function DigitRun(s: string): (k: nat)
    ensures k <= |s| && (forall c :: c in s[..k] ==> IsDigit(c))
    ensures k < |s| ==> !IsDigit(s[k])
  {
    if s == "" || !IsDigit(s[0]) then 0
    else
      var k := DigitRun(s[1..]);
      assert s[..k + 1] == [s[0]] + s[1..][..k];
      1 + k
  }

  function Multiplier(unit: string): Option<nat> {
    if unit == "" || unit == "s" then Some(1)
    else if unit == "m" then Some(60)
    else if unit == "h" then Some(3_600)
    else if unit == "d" then Some(86_400)
    else None
  }

  function ParseTtl(text: string): (r: Result<nat, TtlError>)
    ensures r.Ok? ==> 1 <= r.value <= MAX_LINK_TTL
  {
    var s := Trim(text);
    var split := DigitRun(s);
    var unit := Trim(s[split..]);
    if split == 0 || Value(s[..split]) > U64_MAX then Err(NotANumber)
    else match Multiplier(unit)
         case None => Err(BadUnit)
         case Some(mult) =>
           var secs := Value(s[..split]) * mult;
           if secs > U64_MAX then Err(Overflows)
           else if secs == 0 then Err(NotPositive)
           else if secs > MAX_LINK_TTL then Err(TooLong)
           else Ok(secs)
  }

  // The largest unit that divides evenly.
  function FormatTtl(s: U64): string {
    if s > 0 && s % 86_400 == 0 then Decimal(s / 86_400) + "d"
    else if s > 0 && s % 3_600 == 0 then Decimal(s / 3_600) + "h"
    else if s > 0 && s % 60 == 0 then Decimal(s / 60) + "m"
    else Decimal(s) + "s"
  }

  lemma {:induction false} DigitRunAt(d: string, unit: char)
    requires (forall c :: c in d ==> IsDigit(c)) && !IsDigit(unit)
    ensures DigitRun(d + [unit]) == |d|
  {
    if d != "" {
      assert d[0] in d;
      assert (d + [unit])[1..] == d[1..] + [unit];
      DigitRunAt(d[1..], unit);
    }
  }

  // A number and a unit mean exactly that many seconds, refused outside 1 s to 30 days.
  function TtlOf(n: nat, mult: nat): Result<nat, TtlError> {
    if n > U64_MAX then Err(NotANumber)
    else if n * mult > U64_MAX then Err(Overflows)
    else if n * mult == 0 then Err(NotPositive)
    else if n * mult > 2_592_000 then Err(TooLong)
    else Ok(n * mult)
  }

  // What the text `digits` followed by `unit` means, once neither needs trimming.
  lemma ParseParts(digits: string, unit: string, n: nat, mult: nat)
    requires digits != "" && (forall c :: c in digits ==> IsDigit(c)) && Value(digits) == n
    requires Trim(digits + unit) == digits + unit && Trim(unit) == unit
    requires DigitRun(digits + unit) == |digits| && Multiplier(unit) == Some(mult)
    ensures ParseTtl(digits + unit) == TtlOf(n, mult)
  {
    var s := digits + unit;
    assert s[..|digits|] == digits && s[|digits|..] == unit;
  }

  lemma ParseUnit(n: nat, unit: char)
    requires unit in ['s', 'm', 'h', 'd']
    ensures ParseTtl(Decimal(n) + [unit]) ==
            TtlOf(n, match unit case 's' => 1 case 'm' => 60 case 'h' => 3_600 case _ => 86_400)
  {
    var d := Decimal(n);
    var s := d + [unit];
    assert s[0] == d[0] && d[0] in d;
    ValueDecimal(n);
    DigitRunAt(d, unit);
    UnitMultiplier(unit);
    ParseParts(d, [unit], n, match unit case 's' => 1 case 'm' => 60 case 'h' => 3_600 case _ => 86_400);
  }

  lemma UnitMultiplier(unit: char)
    requires unit in ['s', 'm', 'h', 'd']
    ensures Multiplier([unit]) == Some(match unit case 's' => 1 case 'm' => 60 case 'h' => 3_600 case _ => 86_400)
    ensures !IsDigit(unit) && !IsWhitespace(unit)
  {
  }

  lemma {:induction false} AllDigits(d: string)
    requires forall c :: c in d ==> IsDigit(c)
    ensures DigitRun(d) == |d|
  {
    if d != "" {
      assert d[0] in d;
      AllDigits(d[1..]);
    }
  }

  // A bare number is a number of seconds.
  lemma ParseBare(n: nat)
    ensures ParseTtl(Decimal(n)) == TtlOf(n, 1)
  {
    var d := Decimal(n);
    assert d[0] in d && d[|d| - 1] in d;
    ValueDecimal(n);
    AllDigits(d);
    assert d + "" == d;
    ParseParts(d, "", n, 1);
  }

  // Some unit divides evenly, and the printed form says so.
  lemma FormatUnit(secs: nat) returns (n: nat, unit: char, mult: nat)
    requires 1 <= secs <= MAX_LINK_TTL
    ensures FormatTtl(secs) == Decimal(n) + [unit] && n * mult == secs && n <= secs && mult >= 1
    ensures unit in ['s', 'm', 'h', 'd'] && Multiplier([unit]) == Some(mult)
  {
    if secs % 86_400 == 0 {
      n, unit, mult := secs / 86_400, 'd', 86_400;
    } else if secs % 3_600 == 0 {
      n, unit, mult := secs / 3_600, 'h', 3_600;
    } else if secs % 60 == 0 {
      n, unit, mult := secs / 60, 'm', 60;
    } else {
      n, unit, mult := secs, 's', 1;
    }
  }

  // Every duration the agent accepts is read back from how it is printed.
  lemma TtlRoundTrip(secs: nat)
    requires 1 <= secs <= MAX_LINK_TTL
    ensures ParseTtl(FormatTtl(secs)) == Ok(secs)
  {
    var n, unit, mult := FormatUnit(secs);
    ParseUnit(n, unit);
  }
}
