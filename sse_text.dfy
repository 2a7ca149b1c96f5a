/** The string primitives the event assembler relies on, each modelled on
    the .NET behaviour the client calls: `char.IsWhiteSpace` (for `Trim`
    and `TrimStart`), `IndexOf`, the ignore-case keyword comparison, and
    `int.TryParse` with its default integer style. Scans walk an index over
    the string rather than slicing it. */
module SseText {
  import opened Wrappers

  /** `char.IsWhiteSpace`: the Unicode space, line and paragraph separators
      plus U+0009..U+000D and U+0085. */
  predicate IsWhiteSpace(c: char) {
    ('\U{0009}' <= c <= '\U{000D}') || c == ' ' || c == '\U{0085}' || c == '\U{00A0}'
    || c == '\U{1680}' || ('\U{2000}' <= c <= '\U{200A}') || c == '\U{2028}'
    || c == '\U{2029}' || c == '\U{202F}' || c == '\U{205F}' || c == '\U{3000}'
  }

  /** `string.IsNullOrEmpty(s.Trim())`: the line holds nothing but whitespace. */
  predicate IsBlank(s: string) {
    forall i :: 0 <= i < |s| ==> IsWhiteSpace(s[i])
  }

  /** The index of the first character at or after `k` that is not white
      space, or the length when there is none. */
  function SkipWhiteSpace(s: string, k: nat): (n: nat)
    requires k <= |s|
    ensures k <= n <= |s|
    ensures forall i :: k <= i < n ==> IsWhiteSpace(s[i])
    ensures n < |s| ==> !IsWhiteSpace(s[n])
    decreases |s| - k
  {
    if k < |s| && IsWhiteSpace(s[k]) then SkipWhiteSpace(s, k + 1) else k
  }

  /** `s.TrimStart()`: drops every leading whitespace character (not just
      one space) and keeps trailing whitespace. */
  function TrimStart(s: string): (r: string)
    ensures |r| <= |s|
    ensures forall i :: 0 <= i < |s| - |r| ==> IsWhiteSpace(s[i])
    ensures |r| > 0 ==> !IsWhiteSpace(r[0])
    ensures r == [] <==> IsBlank(s)
  {
    s[SkipWhiteSpace(s, 0)..]
  }

  /** What `TrimStart` keeps is the end of the string, unchanged. */
  lemma TrimStartIsSuffix(s: string)
    ensures TrimStart(s) == s[|s| - |TrimStart(s)|..]
  {
  }

  /** The index of the first `c` at or after `k`, or the length when there
      is none. */
  function IndexFrom(s: string, c: char, k: nat): (i: nat)
    requires k <= |s|
    ensures k <= i <= |s|
    ensures i < |s| ==> s[i] == c
    ensures forall j :: k <= j < i ==> s[j] != c
    decreases |s| - k
  {
    if k == |s| || s[k] == c then k else IndexFrom(s, c, k + 1)
  }

  /** Ordinal search for the first occurrence of `c` (`string.IndexOf(char)`). */
  function IndexOf(s: string, c: char): (i: nat)
    requires c in s
    ensures i < |s| && s[i] == c
    ensures forall j :: 0 <= j < i ==> s[j] != c
  {
    IndexFrom(s, c, 0)
  }

  function LowerAscii(c: char): char {
    if 'A' <= c <= 'Z' then (c as int + 32) as char else c
  }

  /** `String.Compare(name, keyword, true) == 0` for a lower-case keyword,
      with ASCII case folding standing for the ignore-case comparison. */
  predicate EqualsIgnoreCase(name: string, keyword: string) {
    |name| == |keyword| && MatchesFrom(name, keyword, 0)
  }

  /** From index `k` on, every character of `name` folds to the one of
      `keyword` at the same index. */
  predicate MatchesFrom(name: string, keyword: string, k: nat)
    requires |name| == |keyword| && k <= |name|
    decreases |name| - k
  {
    k == |name| || (LowerAscii(name[k]) == keyword[k] && MatchesFrom(name, keyword, k + 1))
  }

  /** The ignore-case match holds character by character. */
  lemma {:induction false} MatchesPointwise(name: string, keyword: string, k: nat)
    requires |name| == |keyword| && k <= |name| && MatchesFrom(name, keyword, k)
    ensures forall i :: k <= i < |name| ==> LowerAscii(name[i]) == keyword[i]
    decreases |name| - k
  {
    if k < |name| {
      MatchesPointwise(name, keyword, k + 1);
    }
  }

  /** A character-by-character match from `k` on is an ignore-case match
      from `k` on. */
  lemma {:induction false} PointwiseMatches(name: string, keyword: string, k: nat)
    requires |name| == |keyword| && k <= |name|
    requires forall i :: k <= i < |name| ==> LowerAscii(name[i]) == keyword[i]
    ensures MatchesFrom(name, keyword, k)
    decreases |name| - k
  {
    if k < |name| {
      PointwiseMatches(name, keyword, k + 1);
    }
  }

  /** The keyword comparison is exactly: the same length, and every
      character of the name folds to the keyword's character at its index. */
  lemma EqualsIgnoreCasePointwise(name: string, keyword: string)
    ensures EqualsIgnoreCase(name, keyword) <==>
              |name| == |keyword| && forall i :: 0 <= i < |name| ==> LowerAscii(name[i]) == keyword[i]
  {
    if |name| == |keyword| {
      if MatchesFrom(name, keyword, 0) {
        MatchesPointwise(name, keyword, 0);
      }
      if forall i :: 0 <= i < |name| ==> LowerAscii(name[i]) == keyword[i] {
        PointwiseMatches(name, keyword, 0);
      }
    }
  }

  // ---------------------------------------------------------------------
  // int.TryParse (NumberStyles.Integer)

  const MinInt32: int := -0x8000_0000
  const MaxInt32: int := 0x7FFF_FFFF

  /** The white space `int.TryParse` skips at either end. */
  predicate IsParseWhite(c: char) {
    c == ' ' || ('\U{0009}' <= c <= '\U{000D}')
  }

  predicate IsDigit(c: char) {
    '0' <= c <= '9'
  }

  predicate AllDigits(s: string, lo: nat, hi: nat)
    requires lo <= hi <= |s|
  {
    forall i :: lo <= i < hi ==> IsDigit(s[i])
  }

  /** The first index at or after `k` that does not hold parse white space. */
  function SkipParseWhite(s: string, k: nat): (n: nat)
    requires k <= |s|
    ensures k <= n <= |s|
    ensures forall i :: k <= i < n ==> IsParseWhite(s[i])
    ensures n < |s| ==> !IsParseWhite(s[n])
    decreases |s| - k
  {
    if k < |s| && IsParseWhite(s[k]) then SkipParseWhite(s, k + 1) else k
  }

  /** The end of `s[lo..hi]` once trailing parse white space is dropped. */
  function BackParseWhite(s: string, lo: nat, hi: nat): (n: nat)
    requires lo <= hi <= |s|
    ensures lo <= n <= hi
    ensures forall i :: n <= i < hi ==> IsParseWhite(s[i])
    ensures n > lo ==> !IsParseWhite(s[n - 1])
    decreases hi
  {
    if hi > lo && IsParseWhite(s[hi - 1]) then BackParseWhite(s, lo, hi - 1) else hi
  }

  /** Value of the decimal digits `s[lo..hi]`, most significant first. */
  function DecimalValue(s: string, lo: nat, hi: nat): (n: nat)
    requires lo <= hi <= |s| && AllDigits(s, lo, hi)
    decreases hi
  {
    if hi == lo then 0
    else DecimalValue(s, lo, hi - 1) * 10 + (s[hi - 1] as int - '0' as int)
  }

  /** The decimal digits of `n`, without leading zeros. */
  function Digits(n: nat): (s: string)
    ensures |s| > 0 && AllDigits(s, 0, |s|)
  {
    var d := ['0' + (n % 10) as char];
    if n < 10 then d else Digits(n / 10) + d
  }

  /** `int.TryParse(s, out v)`: optional surrounding white space, an
      optional sign, at least one decimal digit, and a value inside the
      32-bit range; anything else fails. */
  function ParseInt32(s: string): (r: Option<int>)
    ensures r.Some? ==> MinInt32 <= r.value <= MaxInt32
    ensures s == [] ==> r == None
  {
    var lo := SkipParseWhite(s, 0);
    var hi := BackParseWhite(s, lo, |s|);
    var negative := lo < hi && s[lo] == '-';
    var start := if lo < hi && (s[lo] == '-' || s[lo] == '+') then lo + 1 else lo;
    if start == hi || !AllDigits(s, start, hi) then None
    else
      var magnitude: int := DecimalValue(s, start, hi);
      var v := if negative then -magnitude else magnitude;
      if MinInt32 <= v <= MaxInt32 then Some(v) else None
  }

  /** `s` is integer text laid out as `int.TryParse` reads it: parse white
      space before `lo` and from `hi` on, an optional sign at `lo`, and the
      decimal digits `s[start..hi]`, at least one of them. */
  predicate IntegerText(s: string, lo: nat, start: nat, hi: nat) {
    && lo <= start < hi <= |s|
    && (forall i :: 0 <= i < lo ==> IsParseWhite(s[i]))
    && (forall i :: hi <= i < |s| ==> IsParseWhite(s[i]))
    && (start == lo || (start == lo + 1 && (s[lo] == '-' || s[lo] == '+')))
    && AllDigits(s, start, hi)
  }

  /** The integer such text denotes: its digits, negated after a `-`. */
  function SignedValue(s: string, lo: nat, start: nat, hi: nat): int
    requires IntegerText(s, lo, start, hi)
  {
    var magnitude: int := DecimalValue(s, start, hi);
    if start == lo + 1 && s[lo] == '-' then -magnitude else magnitude
  }

  /** Only integer text is accepted, and the value accepted is the one its
      digits and sign denote: anything that is not optional white space,
      an optional sign, digits and optional white space fails. */
  lemma ParseInt32Sound(s: string)
    requires ParseInt32(s).Some?
    ensures exists lo: nat, start: nat, hi: nat ::
              IntegerText(s, lo, start, hi) && SignedValue(s, lo, start, hi) == ParseInt32(s).value
  {
    var lo := SkipParseWhite(s, 0);
    var hi := BackParseWhite(s, lo, |s|);
    var start := if lo < hi && (s[lo] == '-' || s[lo] == '+') then lo + 1 else lo;
    assert IntegerText(s, lo, start, hi);
  }

  /** Integer text is accepted exactly when its value fits in 32 bits, and
      then with that value. */
  lemma ParseInt32Complete(s: string, lo: nat, start: nat, hi: nat)
    requires IntegerText(s, lo, start, hi)
    ensures var v := SignedValue(s, lo, start, hi);
            ParseInt32(s) == if MinInt32 <= v <= MaxInt32 then Some(v) else None
  {
    // the sign or first digit at `lo` and the last digit at `hi - 1` are
    // not white space, so the scans stop exactly there
    assert !IsParseWhite(s[lo]) && !IsParseWhite(s[hi - 1]);
    assert SkipParseWhite(s, 0) == lo;
    assert BackParseWhite(s, lo, |s|) == hi;
  }

  /** The decimal text of an integer, as `int.ToString()` writes it. */
  function FormatInt(n: int): (s: string)
    ensures |s| > 0
  {
    if n < 0 then "-" + Digits(-n) else Digits(n)
  }

  /** Digits that follow do not change the value of those before them. */
  lemma {:induction false} DecimalValueAppend(a: string, b: string, lo: nat, hi: nat)
    requires lo <= hi <= |a| && AllDigits(a, lo, hi)
    ensures AllDigits(a + b, lo, hi) && DecimalValue(a + b, lo, hi) == DecimalValue(a, lo, hi)
    decreases hi
  {
    assert forall i :: lo <= i < hi ==> (a + b)[i] == a[i];
    if hi > lo {
      DecimalValueAppend(a, b, lo, hi - 1);
    }
  }

  /** A character in front does not change the value of the digits after it. */
  lemma {:induction false} DecimalValueShift(c: char, t: string, lo: nat, hi: nat)
    requires lo <= hi <= |t| && AllDigits(t, lo, hi)
    ensures AllDigits([c] + t, lo + 1, hi + 1)
    ensures DecimalValue([c] + t, lo + 1, hi + 1) == DecimalValue(t, lo, hi)
    decreases hi
  {
    assert forall i :: lo + 1 <= i < hi + 1 ==> ([c] + t)[i] == t[i - 1];
    if hi > lo {
      DecimalValueShift(c, t, lo, hi - 1);
    }
  }

  lemma {:induction false} DigitsValue(n: nat)
    ensures DecimalValue(Digits(n), 0, |Digits(n)|) == n
  {
    var d := ['0' + (n % 10) as char];
    if n >= 10 {
      var p := Digits(n / 10);
      var s := p + d;
      DigitsValue(n / 10);
      DecimalValueAppend(p, d, 0, |p|);
      assert s[|s| - 1] == d[0];
    }
  }

  /** Round trip: every 32-bit integer, written in decimal, parses back to
      itself; so a `retry` field carrying a formatted value is accepted. */
  lemma ParseFormatRoundTrip(n: int)
    requires MinInt32 <= n <= MaxInt32
    ensures ParseInt32(FormatInt(n)) == Some(n)
  {
    var s := FormatInt(n);
    var m := if n < 0 then -n else n;
    var ds := Digits(m);
    DigitsValue(m);
    assert SkipParseWhite(s, 0) == 0;
    assert s[|s| - 1] == ds[|ds| - 1];
    assert BackParseWhite(s, 0, |s|) == |s|;
    if n < 0 {
      DecimalValueShift('-', ds, 0, |ds|);
      assert s == ['-'] + ds;
    } else {
      assert s == ds;
    }
  }
}
