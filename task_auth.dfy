/**
 * The validation trait shared by the task model and the controller: two length
 * checks and the sanitising of the task id that arrives in the query string.
 *
 * Strings are sequences of characters, so `|s|` is the character count that
 * `mb_strlen` reports for a well-formed UTF-8 string.
 */
module TaskAuth {
  import opened Wrappers

  const MaxTitleLength: nat := 20
  const MaxDescriptionLength: nat := 500

  /** A title is acceptable when it has between 1 and 20 characters. */
  predicate AuthTitleLength(title: string)
  {
    |title| > 0 && |title| <= MaxTitleLength
  }

  /** A description is acceptable when it has between 1 and 500 characters. */
  predicate AuthDescriptionLength(description: string)
  {
    |description| > 0 && |description| <= MaxDescriptionLength
  }

  lemma TitleLengthBoundaries()
    ensures forall s: string :: AuthTitleLength(s) <==> 1 <= |s| <= 20
    ensures !AuthTitleLength("") && AuthTitleLength("a")
    ensures AuthTitleLength(seq(20, _ => 'a')) && !AuthTitleLength(seq(21, _ => 'a'))
  {
  }

  lemma DescriptionLengthBoundaries()
    ensures forall s: string :: AuthDescriptionLength(s) <==> 1 <= |s| <= 500
    ensures !AuthDescriptionLength("") && AuthDescriptionLength("a")
    ensures AuthDescriptionLength(seq(500, _ => 'a')) && !AuthDescriptionLength(seq(501, _ => 'a'))
  {
  }

  // ---------------------------------------------------------------------------
  // Characters

  /** The characters FILTER_VALIDATE_INT trims from both ends of its input. */
  predicate IsFilterSpace(c: char)
  {
    c == ' ' || c == '\t' || c == '\r' || c == '\n' || c == '\U{B}'
  }

  /** The characters an `(int)` cast skips before the number: one more than the filter trims. */
  predicate IsCastSpace(c: char)
  {
    IsFilterSpace(c) || c == '\U{C}'
  }

  predicate IsDigit(c: char)
  {
    '0' <= c <= '9'
  }

  function DigitValue(c: char): (d: nat)
    requires IsDigit(c)
    ensures d < 10
  {
    c as int - '0' as int
  }

  function DigitChar(d: nat): (c: char)
    requires d < 10
    ensures IsDigit(c) && DigitValue(c) == d
  {
    ('0' as int + d) as char
  }

  predicate AllDigits(s: string)
  {
    forall i :: 0 <= i < |s| ==> IsDigit(s[i])
  }

  /** The number a run of decimal digits denotes, most significant digit first. */
  function DigitsValue(s: string): nat
    requires AllDigits(s)
  {
    if s == [] then 0 else 10 * DigitsValue(s[..|s| - 1]) + DigitValue(s[|s| - 1])
  }

  // ---------------------------------------------------------------------------
  // FILTER_VALIDATE_INT (default flags, no range options)

  function TrimLeft(s: string): (r: string)
    ensures |r| <= |s| && r == s[|s| - |r|..]
    ensures forall i :: 0 <= i < |s| - |r| ==> IsFilterSpace(s[i])
    ensures r != [] ==> !IsFilterSpace(r[0])
  {
    if s != [] && IsFilterSpace(s[0]) then TrimLeft(s[1..]) else s
  }

  function TrimRight(s: string): (r: string)
    ensures |r| <= |s| && r == s[..|r|]
    ensures forall i :: |r| <= i < |s| ==> IsFilterSpace(s[i])
    ensures r != [] ==> !IsFilterSpace(r[|r| - 1])
  {
    if s != [] && IsFilterSpace(s[|s| - 1]) then TrimRight(s[..|s| - 1]) else s
  }

  function Trim(s: string): string
  {
    TrimRight(TrimLeft(s))
  }

  /**
   * The unsigned part of an integer literal: either the single digit 0, or a
   * non-zero digit followed by digits (so "007" is rejected).
   */
  function ParseUnsigned(b: string): (r: Option<nat>)
    ensures r.Some? ==> b != [] && AllDigits(b) && r.value == DigitsValue(b)
    ensures r.Some? <==> b == "0" || (b != [] && b[0] != '0' && AllDigits(b))
  {
    if b == "0" then Some(0)
    else if b != [] && b[0] != '0' && AllDigits(b) then Some(DigitsValue(b))
    else None
  }

  /**
   * `filter_var($s, FILTER_VALIDATE_INT)`: the integer the trimmed string
   * denotes, or None where PHP returns false. Values beyond the platform's
   * integer range (also rejected by PHP) are not modelled.
   */
  function ValidateInt(s: string): Option<int>
  {
    var t := Trim(s);
    if t == [] then None
    else if t[0] == '-' || t[0] == '+' then
      match ParseUnsigned(t[1..])
      case None => None
      case Some(m) =>
        var v: int := m;
        Some(if t[0] == '-' then -v else v)
    else
      match ParseUnsigned(t)
      case None => None
      case Some(m) => Some(m)
  }

  // ---------------------------------------------------------------------------
  // str_replace('#', '', ...) and the (int) cast

  function StripHash(s: string): (r: string)
    ensures '#' !in r
    ensures '#' !in s ==> r == s
  {
    if s == [] then []
    else (if s[0] == '#' then [] else [s[0]]) + StripHash(s[1..])
  }

  function SkipCastSpace(s: string): (r: string)
    ensures |r| <= |s| && r == s[|s| - |r|..]
  {
    if s != [] && IsCastSpace(s[0]) then SkipCastSpace(s[1..]) else s
  }

  /** The longest prefix of `s` made of decimal digits. */
  function LeadingDigits(s: string): (r: string)
    ensures |r| <= |s| && r == s[..|r|] && AllDigits(r)
  {
    if s != [] && IsDigit(s[0]) then [s[0]] + LeadingDigits(s[1..]) else []
  }

  /** The number at the front of `u`: an optional sign and the longest run of digits after it. */
  function CastDigits(u: string): int
  {
    if u != [] && (u[0] == '-' || u[0] == '+') then
      var m: int := DigitsValue(LeadingDigits(u[1..]));
      if u[0] == '-' then -m else m
    else
      DigitsValue(LeadingDigits(u))
  }

  /**
   * PHP's `(int)` cast of a string: leading whitespace, an optional sign and
   * the longest run of digits after it; no digits gives 0.
   */
  function IntCast(s: string): int
  {
    CastDigits(SkipCastSpace(s))
  }

  /**
   * `SanitizeTaskIDFromGET`: 0 unless the filter accepts the string and
   * yields a truthy (non-zero) value; then the string with every '#' removed,
   * cast to an integer.
   */
  function SanitizeTaskIDFromGET(id: string): int
  {
    match ValidateInt(id)
    case None => 0
    case Some(v) => if v == 0 then 0 else IntCast(StripHash(id))
  }

  // ---------------------------------------------------------------------------
  // Properties

  lemma {:induction false} SkipCastSpaceOver(s: string, k: nat)
    requires k <= |s|
    requires forall i :: 0 <= i < k ==> IsFilterSpace(s[i])
    requires k < |s| ==> !IsCastSpace(s[k])
    ensures SkipCastSpace(s) == s[k..]
  {
    if k > 0 {
      assert IsCastSpace(s[0]);
      SkipCastSpaceOver(s[1..], k - 1);
      assert s[1..][k - 1..] == s[k..];
    }
  }

  lemma {:induction false} LeadingDigitsOfRun(b: string, rest: string)
    requires AllDigits(b)
    requires rest != [] ==> !IsDigit(rest[0])
    ensures LeadingDigits(b + rest) == b
  {
    if b != [] {
      assert (b + rest)[1..] == b[1..] + rest;
      LeadingDigitsOfRun(b[1..], rest);
    } else {
      assert b + rest == rest;
    }
  }

  /** Trimming removes filter spaces from both ends and keeps the middle as it is. */
  lemma {:induction false} TrimShape(s: string) returns (lead: nat, t: string)
    ensures t == Trim(s) && lead + |t| <= |s| && s[lead..lead + |t|] == t
    ensures forall i :: 0 <= i < lead ==> IsFilterSpace(s[i])
    ensures forall i :: lead + |t| <= i < |s| ==> IsFilterSpace(s[i])
  {
    var l := TrimLeft(s);
    t := TrimRight(l);
    lead := |s| - |l|;
    PrefixOfSuffix(s, lead, t);
  }

  /** A prefix of the suffix of `s` from `lead` on is the slice of `s` it covers, and what follows it there follows it in `s`. */
  lemma PrefixOfSuffix(s: string, lead: nat, t: string)
    requires lead <= |s| && |t| <= |s| - lead && t == s[lead..][..|t|]
    requires forall i :: |t| <= i < |s| - lead ==> IsFilterSpace(s[lead..][i])
    ensures s[lead..lead + |t|] == t
    ensures forall i :: lead + |t| <= i < |s| ==> IsFilterSpace(s[i])
  {
    forall i | lead + |t| <= i < |s| ensures IsFilterSpace(s[i]) {
      assert s[i] == s[lead..][i - lead];
    }
  }

  /** What the filter accepts, once trimmed, is a signed run of digits, and the filter returns its value. */
  lemma {:induction false} ValidatedTrimmed(s: string)
    requires ValidateInt(s).Some?
    ensures Trim(s) != [] && (Trim(s)[0] == '-' || Trim(s)[0] == '+' || IsDigit(Trim(s)[0]))
    ensures forall i :: 1 <= i < |Trim(s)| ==> IsDigit(Trim(s)[i])
    ensures ValidateInt(s).value == SignedValue(Trim(s))
  {
    var t := Trim(s);
    if t[0] == '-' || t[0] == '+' {
      var b := t[1..];
      forall i | 1 <= i < |t| ensures IsDigit(t[i]) { assert t[i] == b[i - 1]; }
    }
  }

  /** A string the filter accepts contains nothing but spaces around a signed run of digits. */
  lemma {:induction false} ValidatedShape(s: string) returns (lead: nat, t: string)
    requires ValidateInt(s).Some?
    ensures t == Trim(s) && t != [] && lead + |t| <= |s| && s[lead..lead + |t|] == t
    ensures forall i :: 0 <= i < lead ==> IsFilterSpace(s[i])
    ensures forall i :: lead + |t| <= i < |s| ==> IsFilterSpace(s[i])
    ensures t[0] == '-' || t[0] == '+' || IsDigit(t[0])
    ensures forall i :: 1 <= i < |t| ==> IsDigit(t[i])
    ensures ValidateInt(s).value == SignedValue(t)
  {
    lead, t := TrimShape(s);
    ValidatedTrimmed(s);
  }

  /** The value of an optionally signed run of digits. */
  function SignedValue(t: string): int
    requires t != [] && (t[0] == '-' || t[0] == '+' || IsDigit(t[0]))
    requires forall i :: 1 <= i < |t| ==> IsDigit(t[i])
  {
    if IsDigit(t[0]) then
      assert AllDigits(t);
      DigitsValue(t)
    else
      assert AllDigits(t[1..]) by {
        forall i | 0 <= i < |t| - 1 ensures IsDigit(t[1..][i]) { assert t[1..][i] == t[i + 1]; }
      }
      var m: int := DigitsValue(t[1..]);
      if t[0] == '-' then -m else m
  }

  /** Whenever `str_replace('#', '', $id)` runs, the input holds no '#', so removing them changes nothing. */
  lemma {:induction false} ValidatedHasNoHash(s: string)
    requires ValidateInt(s).Some?
    ensures '#' !in s
    ensures StripHash(s) == s
  {
    var lead, t := ValidatedShape(s);
    forall i | 0 <= i < |s| ensures s[i] != '#' {
      if lead <= i < lead + |t| {
        assert s[i] == t[i - lead];
      }
    }
  }

  /** A signed run of digits followed by spaces casts to the run's value. */
  lemma {:induction false} CastDigitsOfLiteral(t: string, rest: string)
    requires t != [] && (t[0] == '-' || t[0] == '+' || IsDigit(t[0]))
    requires forall i :: 1 <= i < |t| ==> IsDigit(t[i])
    requires rest != [] ==> IsFilterSpace(rest[0])
    ensures CastDigits(t + rest) == SignedValue(t)
  {
    if IsDigit(t[0]) {
      assert AllDigits(t);
      LeadingDigitsOfRun(t, rest);
    } else {
      var b := t[1..];
      assert AllDigits(b) by {
        forall i | 0 <= i < |b| ensures IsDigit(b[i]) { assert b[i] == t[i + 1]; }
      }
      assert (t + rest)[1..] == b + rest;
      LeadingDigitsOfRun(b, rest);
      assert LeadingDigits((t + rest)[1..]) == b;
    }
  }

  /** After spaces, a signed run of digits and more spaces, the cast reads the run's value. */
  lemma {:induction false} CastOfSpacedLiteral(s: string, lead: nat, t: string)
    requires t != [] && lead + |t| <= |s| && s[lead..lead + |t|] == t
    requires forall i :: 0 <= i < lead ==> IsFilterSpace(s[i])
    requires forall i :: lead + |t| <= i < |s| ==> IsFilterSpace(s[i])
    requires t[0] == '-' || t[0] == '+' || IsDigit(t[0])
    requires forall i :: 1 <= i < |t| ==> IsDigit(t[i])
    ensures IntCast(s) == SignedValue(t)
  {
    var rest := s[lead + |t|..];
    assert s[lead..] == t + rest;
    assert rest != [] ==> IsFilterSpace(rest[0]);
    SkipCastSpaceOver(s, lead);
    CastDigitsOfLiteral(t, rest);
  }

  /** The cast `(int)$id` reads back exactly the value the filter validated. */
  lemma {:induction false} CastAgreesWithFilter(s: string)
    requires ValidateInt(s).Some?
    ensures IntCast(s) == ValidateInt(s).value
  {
    var lead, t := ValidatedShape(s);
    CastOfSpacedLiteral(s, lead, t);
  }

  /**
   * What sanitising means: the integer the filter accepts, and 0 for
   * everything the filter rejects. "0" also gives 0, so 0 does not tell an
   * invalid id from a zero one.
   */
  lemma SanitizeMeaning(s: string)
    ensures ValidateInt(s).None? ==> SanitizeTaskIDFromGET(s) == 0
    ensures ValidateInt(s).Some? ==> SanitizeTaskIDFromGET(s) == ValidateInt(s).value
  {
    if ValidateInt(s).Some? && ValidateInt(s).value != 0 {
      ValidatedHasNoHash(s);
      CastAgreesWithFilter(s);
    }
  }

  // ---------------------------------------------------------------------------
  // Round trip through the canonical decimal string

  function NatDigits(n: nat): (r: string)
    ensures r != [] && AllDigits(r) && DigitsValue(r) == n
    ensures n > 0 ==> r[0] != '0'
    ensures n == 0 ==> r == "0"
  {
    if n < 10 then [DigitChar(n)]
    else
      var p := NatDigits(n / 10);
      var r := p + [DigitChar(n % 10)];
      assert r[..|r| - 1] == p;
      r
  }

  /** A run of digits whose first digit is not 0 denotes a positive number. */
  lemma {:induction false} LeadNonZeroPositive(p: string)
    requires p != [] && AllDigits(p) && p[0] != '0'
    ensures DigitsValue(p) > 0
  {
    if |p| > 1 {
      var q := p[..|p| - 1];
      assert q[0] == p[0];
      LeadNonZeroPositive(q);
    } else {
      assert p[..0] == [];
    }
  }

  /** A run of digits without a leading zero (or the single digit 0) is the canonical decimal of its value. */
  lemma {:induction false} CanonicalDigits(b: string)
    requires b != [] && AllDigits(b) && (b == "0" || b[0] != '0')
    ensures NatDigits(DigitsValue(b)) == b
  {
    var n := DigitsValue(b);
    if |b| == 1 {
      assert b[..|b| - 1] == [] && DigitsValue([]) == 0;
      assert n == DigitValue(b[0]);
      assert DigitChar(n) == b[0];
    } else {
      var p := b[..|b| - 1];
      assert p[0] == b[0];
      LeadNonZeroPositive(p);
      CanonicalDigits(p);
      var d := DigitValue(b[|b| - 1]);
      assert n == 10 * DigitsValue(p) + d;
      assert n / 10 == DigitsValue(p) && n % 10 == d;
      assert DigitChar(d) == b[|b| - 1];
      assert b == p + [b[|b| - 1]];
    }
  }

  /** The unsigned part of the filter accepts exactly the canonical decimals, each with its own value. */
  lemma ParseUnsignedCanonical(b: string, n: nat)
    ensures ParseUnsigned(b) == Some(n) <==> b == NatDigits(n)
  {
    if ParseUnsigned(b) == Some(n) {
      CanonicalDigits(b);
    }
  }

  /** The canonical decimal form of an integer: a '-' for negatives, no leading zeros. */
  function DecimalString(n: int): string
  {
    if n < 0 then "-" + NatDigits(-n) else NatDigits(n)
  }

  lemma {:induction false} DecimalStringValidates(n: int)
    ensures ValidateInt(DecimalString(n)) == Some(n)
  {
    var s := DecimalString(n);
    var d := NatDigits(if n < 0 then -n else n);
    assert !IsFilterSpace(s[0]) && !IsFilterSpace(s[|s| - 1]);
    assert TrimLeft(s) == s;
    assert Trim(s) == s;
    if n < 0 {
      assert s[1..] == d;
    }
  }

  /** Sanitising the canonical decimal string of any integer gives that integer back. */
  lemma SanitizeRoundTrip(n: int)
    ensures SanitizeTaskIDFromGET(DecimalString(n)) == n
  {
    DecimalStringValidates(n);
    SanitizeMeaning(DecimalString(n));
  }

  lemma NoSpaceEnds(s: string)
    requires s != [] && !IsFilterSpace(s[0]) && !IsFilterSpace(s[|s| - 1])
    ensures Trim(s) == s
  {
    assert TrimLeft(s) == s;
  }

  /** A string the filter accepts as it stands: an optional sign, then digits without a leading zero. */
  lemma {:induction false} AcceptsLiteral(s: string, neg: bool, digits: string)
    requires s == (if neg then "-" else "") + digits
    requires digits != [] && AllDigits(digits) && digits[0] != '0'
    ensures ValidateInt(s).Some?
    ensures ValidateInt(s).value == if neg then -(DigitsValue(digits) as int) else DigitsValue(digits)
  {
    assert !IsFilterSpace(s[0]) && !IsFilterSpace(s[|s| - 1]);
    NoSpaceEnds(s);
    if neg {
      assert s[1..] == digits;
    }
  }

  /** Inputs the filter rejects, the '#'-prefixed id among them, sanitise to 0. */
  lemma SanitizeRejectsExamples()
    ensures SanitizeTaskIDFromGET("") == 0
    ensures SanitizeTaskIDFromGET("abc") == 0
    ensures SanitizeTaskIDFromGET("#42") == 0
    ensures SanitizeTaskIDFromGET("12a") == 0
  {
    RejectsBadLead("abc");
    RejectsBadLead("#42");
    RejectsNonDigitAfterLead("12a", 2);
  }

  /** A string with no surrounding spaces whose first character is neither a sign nor a digit is rejected. */
  lemma {:induction false} RejectsBadLead(s: string)
    requires s != [] && !IsFilterSpace(s[0]) && !IsFilterSpace(s[|s| - 1])
    requires s[0] != '-' && s[0] != '+' && !IsDigit(s[0])
    ensures ValidateInt(s) == None
  {
    NoSpaceEnds(s);
  }

  /** An unsigned literal with a non-digit after its first digit is rejected. */
  lemma {:induction false} RejectsNonDigitAfterLead(s: string, k: nat)
    requires 0 < k < |s| && !IsFilterSpace(s[0]) && !IsFilterSpace(s[|s| - 1])
    requires IsDigit(s[0]) && !IsDigit(s[k])
    ensures ValidateInt(s) == None
  {
    NoSpaceEnds(s);
    assert !AllDigits(s);
  }

  /** "0" is a valid literal, but its value is falsy, so it sanitises to 0 like an invalid id. */
  lemma SanitizeZeroExample()
    ensures ValidateInt("0") == Some(0)
    ensures SanitizeTaskIDFromGET("0") == 0
  {
    NoSpaceEnds("0");
  }

  /** A literal with a non-zero value comes back unchanged. */
  lemma SanitizePositiveExample()
    ensures SanitizeTaskIDFromGET("42") == 42
  {
    assert DigitsValue("42") == 42 by { assert "42"[..1] == "4"; }
    AcceptsLiteral("42", false, "42");
    SanitizeMeaning("42");
  }

  /** A negative literal comes back unchanged. */
  lemma SanitizeNegativeExample()
    ensures SanitizeTaskIDFromGET("-7") == -7
  {
    assert DigitsValue("7") == 7;
    AcceptsLiteral("-7", true, "7");
    SanitizeMeaning("-7");
  }
}
