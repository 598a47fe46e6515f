/** String primitives the source takes from Go's standard library (strings.HasPrefix,
    TrimPrefix, Contains, ToLower, EqualFold, strconv.ParseInt) and SQLite's LIKE.
    Case folding is ASCII-only. */
module Text {
  import opened Wrappers

  /** ASCII lower-casing of one character; every other character is left alone. */
  function LowerChar(c: char): char {
    if 'A' <= c <= 'Z' then (c as int + 32) as char else c
  }

  function Lower(s: string): (r: string)
    ensures |r| == |s|
    ensures forall i :: 0 <= i < |s| ==> r[i] == LowerChar(s[i])
  {
    seq(|s|, i requires 0 <= i < |s| => LowerChar(s[i]))
  }

  lemma LowerIdempotent(s: string)
    ensures Lower(Lower(s)) == Lower(s)
  {
    assert forall i :: 0 <= i < |s| ==> LowerChar(LowerChar(s[i])) == LowerChar(s[i]);
  }

  predicate HasPrefix(s: string, prefix: string) {
    |prefix| <= |s| && s[..|prefix|] == prefix
  }

  /** strings.TrimPrefix: drops one leading `prefix` if there is one. */
  function TrimPrefix(s: string, prefix: string): (r: string)
    ensures HasPrefix(s, prefix) ==> prefix + r == s
    ensures !HasPrefix(s, prefix) ==> r == s
  {
    if HasPrefix(s, prefix) then s[|prefix|..] else s
  }

  /** Trimming a non-empty prefix changes the string exactly when the prefix is there,
      which is what "token == authHeader" tests in the ingestion handler. */
  lemma TrimPrefixUnchangedIff(s: string, prefix: string)
    requires prefix != []
    ensures TrimPrefix(s, prefix) == s <==> !HasPrefix(s, prefix)
  {
    if HasPrefix(s, prefix) {
      assert |TrimPrefix(s, prefix)| < |s|;
    }
  }

  /** `sub` occurs in `s` starting at position `i`. */
  predicate OccursAt(s: string, sub: string, i: int) {
    0 <= i <= |s| - |sub| && s[i..i + |sub|] == sub
  }

  /** strings.Contains. */
  predicate Contains(s: string, sub: string) {
    exists i | 0 <= i <= |s| - |sub| :: OccursAt(s, sub, i)
  }

  /** `s LIKE '%sub%'` without wildcard characters in `sub`: an ASCII case-insensitive
      substring test. */
  predicate ContainsFold(s: string, sub: string) {
    Contains(Lower(s), Lower(sub))
  }

  /** strings.EqualFold restricted to ASCII case folding. */
  predicate EqualFold(a: string, b: string) {
    Lower(a) == Lower(b)
  }

  // Decimal integers, as strconv.Atoi and strconv.ParseInt(s, 10, 64) read them.

  const MinInt64: int := -0x8000_0000_0000_0000
  const MaxInt64: int := 0x7fff_ffff_ffff_ffff

  predicate IsDigit(c: char) {
    '0' <= c <= '9'
  }

  predicate AllDigits(s: string) {
    forall i :: 0 <= i < |s| ==> IsDigit(s[i])
  }

  function DigitsValue(s: string): nat
    requires AllDigits(s)
  {
    if s == [] then 0 else DigitsValue(s[..|s| - 1]) * 10 + (s[|s| - 1] as int - '0' as int)
  }

  /** An optional '+' or '-' followed by one or more ASCII digits; anything else is not
      a number. No range limit: see ParseInt64. */
  function ParseDecimal(s: string): Option<int> {
    if |s| > 0 && (s[0] == '+' || s[0] == '-') then
      var digits := s[1..];
      if digits != [] && AllDigits(digits) then
        Some(if s[0] == '-' then -(DigitsValue(digits) as int) else DigitsValue(digits))
      else None
    else if s != [] && AllDigits(s) then Some(DigitsValue(s))
    else None
  }

  /** strconv.ParseInt(s, 10, 64), and strconv.Atoi on a 64-bit platform: a decimal
      number that also fits in 64 bits. */
  function ParseInt64(s: string): (r: Option<int>)
    ensures r.Some? ==> MinInt64 <= r.value <= MaxInt64
    ensures r.Some? ==> ParseDecimal(s) == r
    ensures ParseDecimal(s).Some? && MinInt64 <= ParseDecimal(s).value <= MaxInt64 ==> r == ParseDecimal(s)
  {
    match ParseDecimal(s)
    case Some(v) => if MinInt64 <= v <= MaxInt64 then Some(v) else None
    case None => None
  }

  function DigitChar(d: nat): char
    requires d < 10
  {
    ('0' as int + d) as char
  }

  /** The canonical decimal spelling of a natural number (no sign, no leading zeros). */
  function FormatNat(n: nat): string {
    if n < 10 then [DigitChar(n)] else FormatNat(n / 10) + [DigitChar(n % 10)]
  }

  /** The canonical decimal spelling of an integer, as strconv.Itoa writes it. */
  function FormatDecimal(n: int): string {
    if n < 0 then "-" + FormatNat(-n) else FormatNat(n)
  }

  lemma {:induction false} FormatNatReads(n: nat)
    ensures FormatNat(n) != [] && AllDigits(FormatNat(n))
    ensures DigitsValue(FormatNat(n)) == n
  {
    var s := FormatNat(n);
    if n >= 10 {
      FormatNatReads(n / 10);
      assert s[..|s| - 1] == FormatNat(n / 10);
    }
  }

  /** Reading back what FormatDecimal writes gives the number again. */
  lemma ParseFormatRoundTrip(n: int)
    ensures ParseDecimal(FormatDecimal(n)) == Some(n)
  {
    if n < 0 {
      FormatNatReads(-n);
      assert FormatDecimal(n)[1..] == FormatNat(-n);
    } else {
      FormatNatReads(n);
    }
  }
}
