/** String operations the handlers and seeders rely on: `str.startswith`,
    `str.strip`, code-point lexicographic order and fixed-width decimals. */
module Text {
  import opened Values

  /** `s.startswith(prefix)`. */
  predicate StartsWith(s: string, prefix: string) {
    |prefix| <= |s| && s[..|prefix|] == prefix
  }

  /** Python's `str.isspace`: the characters `str.strip()` removes from
      both ends (tab through carriage return, the four information
      separators, space, NEL, no-break space and the Unicode space
      separators). */
  predicate IsSpace(c: char) {
    || c == ' ' || '\t' <= c <= '\r' || '\U{1c}' <= c <= '\U{1f}'
    || c == '\U{85}' || c == '\U{a0}' || c == '\U{1680}' || '\U{2000}' <= c <= '\U{200a}'
    || c == '\U{2028}' || c == '\U{2029}' || c == '\U{202f}' || c == '\U{205f}' || c == '\U{3000}'
  }

  /** Every character of `t` is whitespace. */
  predicate AllSpace(t: string) {
    forall k :: 0 <= k < |t| ==> IsSpace(t[k])
  }

  /** `s.lstrip()`: the suffix of `s` left after dropping leading whitespace. */
  function StripLeading(s: string): (r: string)
    ensures |r| <= |s| && r == s[|s| - |r|..]
    ensures AllSpace(s[..|s| - |r|])
    ensures r == [] || !IsSpace(r[0])
    decreases |s|
  {
    if |s| > 0 && IsSpace(s[0]) then
      var r := StripLeading(s[1..]);
      assert s[..|s| - |r|] == [s[0]] + s[1..][..|s| - 1 - |r|];
      r
    else s
  }

  /** `s.rstrip()`: the prefix of `s` left after dropping trailing whitespace. */
  function StripTrailing(s: string): (r: string)
    ensures |r| <= |s| && r == s[..|r|]
    ensures AllSpace(s[|r|..])
    ensures r == [] || !IsSpace(r[|r| - 1])
    decreases |s|
  {
    if |s| > 0 && IsSpace(s[|s| - 1]) then
      var r := StripTrailing(s[..|s| - 1]);
      assert s[|r|..] == s[..|s| - 1][|r|..] + [s[|s| - 1]];
      r
    else s
  }

  /** `s.strip()`: `s` is whitespace, then the result, then whitespace. */
  function Strip(s: string): (r: string)
    ensures r == [] || (!IsSpace(r[0]) && !IsSpace(r[|r| - 1]))
    ensures exists i, j :: 0 <= i <= j <= |s| && r == s[i..j] && AllSpace(s[..i]) && AllSpace(s[j..])
  {
    var l := StripLeading(s);
    var r := StripTrailing(l);
    var i := |s| - |l|;
    var j := i + |r|;
    assert r == s[i..j];
    assert s[j..] == l[|r|..];
    r
  }

  /** Stripping changes nothing exactly when neither end is whitespace. */
  lemma StripIdentity(s: string)
    ensures Strip(s) == s <==> (s == [] || (!IsSpace(s[0]) && !IsSpace(s[|s| - 1])))
  {
  }

  lemma StripIdempotent(s: string)
    ensures Strip(Strip(s)) == Strip(s)
  {
    StripIdentity(Strip(s));
  }

  /** `s.endswith(suffix)`. */
  predicate EndsWith(s: string, suffix: string) {
    |suffix| <= |s| && s[|s| - |suffix|..] == suffix
  }

  /** `s.find(c)`: the first position holding `c`, if any. */
  function IndexOf(s: string, c: char): (r: Option<nat>)
    ensures r.None? <==> c !in s
    ensures r.Some? ==> r.value < |s| && s[r.value] == c && c !in s[..r.value]
  {
    if s == [] then None
    else if s[0] == c then Some(0)
    else match IndexOf(s[1..], c)
      case None => None
      case Some(i) =>
        assert s[..i + 1] == [s[0]] + s[1..][..i];
        Some(i + 1)
  }

  /** Code-point lexicographic order on strings, strict. */
  predicate StrLt(a: string, b: string)
    decreases |a|
  {
    |b| > 0 && (|a| == 0 || a[0] < b[0] || (a[0] == b[0] && StrLt(a[1..], b[1..])))
  }

  lemma {:induction false} StrLtIrreflexive(a: string)
    ensures !StrLt(a, a)
    decreases |a|
  {
    if |a| > 0 {
      StrLtIrreflexive(a[1..]);
    }
  }

  lemma {:induction false} StrLtTransitive(a: string, b: string, c: string)
    requires StrLt(a, b) && StrLt(b, c)
    ensures StrLt(a, c)
    decreases |a|
  {
    if |a| > 0 && a[0] == b[0] && b[0] == c[0] {
      StrLtTransitive(a[1..], b[1..], c[1..]);
    }
  }

  lemma {:induction false} StrLtConnected(a: string, b: string)
    requires a != b
    ensures StrLt(a, b) || StrLt(b, a)
    decreases |a|
  {
    if |a| > 0 && |b| > 0 && a[0] == b[0] {
      assert a == [a[0]] + a[1..] && b == [b[0]] + b[1..];
      StrLtConnected(a[1..], b[1..]);
    }
  }

  /** A list whose neighbours are in order is in order throughout. */
  lemma {:induction false} StrLtChain(s: seq<string>)
    requires forall k :: 0 <= k < |s| - 1 ==> StrLt(s[k], s[k + 1])
    ensures forall i, j :: 0 <= i < j < |s| ==> StrLt(s[i], s[j])
  {
    if |s| > 1 {
      StrLtChain(s[1..]);
      forall j | 1 < j < |s|
        ensures StrLt(s[0], s[j])
      {
        assert StrLt(s[1..][0], s[1..][j - 1]);
        StrLtTransitive(s[0], s[1], s[j]);
      }
    }
  }

  /** The decimal digit character for `d`. */
  function DigitChar(d: int): (c: char)
    requires 0 <= d <= 9
    ensures '0' <= c <= '9'
  {
    (('0' as int) + d) as char
  }

  /** The value of a decimal digit character, if it is one. */
  function DigitValue(c: char): (r: Option<int>)
    ensures r.Some? <==> '0' <= c <= '9'
    ensures r.Some? ==> 0 <= r.value <= 9 && DigitChar(r.value) == c
  {
    if '0' <= c <= '9' then Some(c as int - '0' as int) else None
  }

  /** `10` to the power `w`. */
  function Pow10(w: nat): (p: nat)
    ensures p >= 1
  {
    if w == 0 then 1 else 10 * Pow10(w - 1)
  }

  /** `n` in exactly `w` decimal digits, zero-padded on the left. */
  function PadDigits(n: nat, w: nat): (r: string)
    requires n < Pow10(w)
    ensures |r| == w && forall k :: 0 <= k < w ==> '0' <= r[k] <= '9'
  {
    if w == 0 then [] else PadDigits(n / 10, w - 1) + [DigitChar(n % 10)]
  }

  /** The value of a string of decimal digits (`None` if a character is not one). */
  function ParseDigits(s: string): (r: Option<nat>)
    ensures r.Some? ==> r.value < Pow10(|s|)
    ensures r.Some? <==> forall k :: 0 <= k < |s| ==> '0' <= s[k] <= '9'
  {
    if s == [] then Some(0)
    else match (ParseDigits(s[..|s| - 1]), DigitValue(s[|s| - 1]))
      case (Some(q), Some(d)) => Some(10 * q + d)
      case _ => None
  }

  /** Rendering then reading `w` digits gives `n` back. */
  lemma {:induction false} PadDigitsRoundTrip(n: nat, w: nat)
    requires n < Pow10(w)
    ensures ParseDigits(PadDigits(n, w)) == Some(n)
  {
    if w > 0 {
      var s := PadDigits(n, w);
      PadDigitsRoundTrip(n / 10, w - 1);
      assert s[..|s| - 1] == PadDigits(n / 10, w - 1);
    }
  }

  /** Reading then rendering a string of digits gives the string back. */
  lemma {:induction false} ParseDigitsRoundTrip(s: string)
    requires ParseDigits(s).Some?
    ensures PadDigits(ParseDigits(s).value, |s|) == s
  {
    if s != [] {
      var q := ParseDigits(s[..|s| - 1]).value;
      var d := DigitValue(s[|s| - 1]).value;
      ParseDigitsRoundTrip(s[..|s| - 1]);
      assert (10 * q + d) / 10 == q && (10 * q + d) % 10 == d;
      assert s == s[..|s| - 1] + [s[|s| - 1]];
    }
  }
}
