/** String helpers with the semantics of the .NET and Python library calls the
    level files go through: splitting on one character, whitespace trimming,
    prefix tests, decimal formatting and Int32/Boolean parsing. */
module Text {
  import opened Wrappers

  /** `string.Split(char)`: every occurrence of `c` separates two parts,
      empty parts included, so there is always at least one part. */
  function Split(s: string, c: char): (parts: seq<string>)
    ensures |parts| >= 1
    ensures forall i :: 0 <= i < |parts| ==> c !in parts[i]
    decreases |s|
  {
    if |s| == 0 then [""]
    else
      var rest := Split(s[1..], c);
      if s[0] == c then [""] + rest else [[s[0]] + rest[0]] + rest[1..]
  }

  /** The parts joined back with the separator. */
  function Join(parts: seq<string>, c: char): string
    requires |parts| >= 1
    decreases |parts|
  {
    if |parts| == 1 then parts[0] else parts[0] + [c] + Join(parts[1..], c)
  }

  /** Splitting loses nothing: joining the parts gives back the string. */
  lemma {:induction false} JoinSplit(s: string, c: char)
    ensures Join(Split(s, c), c) == s
    decreases |s|
  {
    if |s| > 0 {
      JoinSplit(s[1..], c);
      var rest := Split(s[1..], c);
      if s[0] != c && |rest| > 1 {
        assert Split(s, c)[1..] == rest[1..];
      }
    }
  }

  /** Splitting a join of separator-free parts gives the parts back. */
  lemma {:induction false} SplitJoin(parts: seq<string>, c: char)
    requires |parts| >= 1 && forall i :: 0 <= i < |parts| ==> c !in parts[i]
    ensures Split(Join(parts, c), c) == parts
    decreases |parts|, |parts[0]|
  {
    var p := parts[0];
    if |parts| == 1 {
      SplitFree(p, c);
    } else if p == [] {
      var tail := parts[1..];
      SplitJoin(tail, c);
      assert Join(parts, c) == [c] + Join(tail, c);
      assert Join(parts, c)[1..] == Join(tail, c);
    } else {
      var parts' := [p[1..]] + parts[1..];
      assert c !in p[1..] by {
        assert forall k :: 0 <= k < |p[1..]| ==> p[1..][k] == p[k + 1];
      }
      SplitJoin(parts', c);
      assert parts'[1..] == parts[1..];
      assert Join(parts, c) == [p[0]] + Join(parts', c);
      assert Join(parts, c)[1..] == Join(parts', c);
      assert [p[0]] + p[1..] == p;
    }
  }

  lemma {:induction false} SplitFree(s: string, c: char)
    requires c !in s
    ensures Split(s, c) == [s]
    decreases |s|
  {
    if |s| > 0 {
      assert c !in s[1..] by {
        assert forall k :: 0 <= k < |s[1..]| ==> s[1..][k] == s[k + 1];
      }
      SplitFree(s[1..], c);
      assert [s[0]] + s[1..] == s;
    }
  }

  /** `char.IsWhiteSpace`: the Unicode space separators, line and paragraph
      separators, and U+0009 to U+000D, U+0085, U+00A0. */
  predicate IsWhiteSpace(ch: char) {
    ch == ' ' || ('\t' <= ch <= '\r') || ch == '\U{0085}' || ch == '\U{00A0}' || ch == '\U{1680}' ||
    ('\U{2000}' <= ch <= '\U{200A}') || ch == '\U{2028}' || ch == '\U{2029}' || ch == '\U{202F}' ||
    ch == '\U{205F}' || ch == '\U{3000}'
  }

  function TrimStart(s: string): (r: string)
    ensures |r| <= |s| && r == s[|s| - |r|..]
    ensures |r| > 0 ==> !IsWhiteSpace(r[0])
    ensures forall k :: 0 <= k < |s| - |r| ==> IsWhiteSpace(s[k])
    decreases |s|
  {
    if |s| > 0 && IsWhiteSpace(s[0]) then TrimStart(s[1..]) else s
  }

  function TrimEnd(s: string): (r: string)
    ensures |r| <= |s| && r == s[..|r|]
    ensures |r| > 0 ==> !IsWhiteSpace(r[|r| - 1])
    ensures forall k :: |r| <= k < |s| ==> IsWhiteSpace(s[k])
    decreases |s|
  {
    if |s| > 0 && IsWhiteSpace(s[|s| - 1]) then TrimEnd(s[..|s| - 1]) else s
  }

  /** `string.Trim()`: drops leading and trailing white space. */
  function Trim(s: string): (r: string)
    ensures |r| <= |s|
    ensures |r| > 0 ==> !IsWhiteSpace(r[0]) && !IsWhiteSpace(r[|r| - 1])
  {
    TrimEnd(TrimStart(s))
  }

  /** A string with no white space at either end is its own trim. */
  lemma TrimFixed(s: string)
    requires |s| > 0 ==> !IsWhiteSpace(s[0]) && !IsWhiteSpace(s[|s| - 1])
    ensures Trim(s) == s
  {
  }

  /** Trimming twice is trimming once. */
  lemma TrimIdempotent(s: string)
    ensures Trim(Trim(s)) == Trim(s)
  {
    TrimFixed(Trim(s));
  }

  /** `string.Replace(c.ToString(), "")`: every occurrence of `c` removed. */
  function Remove(s: string, c: char): (r: string)
    ensures |r| <= |s| && c !in r
    ensures c !in s ==> r == s
    decreases |s|
  {
    if |s| == 0 then ""
    else if s[0] == c then Remove(s[1..], c)
    else [s[0]] + Remove(s[1..], c)
  }

  predicate StartsWith(s: string, p: string) {
    |p| <= |s| && s[..|p|] == p
  }

  predicate EndsWith(s: string, p: string) {
    |p| <= |s| && s[|s| - |p|..] == p
  }

  /** `s.Contains(p)`: `p` occurs somewhere in `s`. */
  predicate Contains(s: string, p: string) {
    exists i :: 0 <= i <= |s| - |p| && OccursAt(s, p, i)
  }

  predicate OccursAt(s: string, p: string, i: nat) {
    i + |p| <= |s| && s[i..i + |p|] == p
  }

  // ---------------------------------------------------------------- decimal numbers

  predicate IsDigit(ch: char) { '0' <= ch <= '9' }

  predicate AllDigits(s: string) {
    forall k :: 0 <= k < |s| ==> IsDigit(s[k])
  }

  function DigitChar(d: nat): (ch: char)
    requires d < 10
    ensures IsDigit(ch) && (ch as int) - ('0' as int) == d
  {
    (('0' as int) + d) as char
  }

  /** The value of a string of decimal digits. */
  function DecValue(s: string): nat
    requires AllDigits(s)
    decreases |s|
  {
    if |s| == 0 then 0
    else DecValue(s[..|s| - 1]) * 10 + ((s[|s| - 1] as int) - ('0' as int))
  }

  /** Python `str(n)` / C# `n.ToString()` for a natural number. */
  function Digits(n: nat): (s: string)
    ensures |s| >= 1 && AllDigits(s)
    ensures DecValue(s) == n
    ensures |s| > 1 ==> s[0] != '0'
    decreases n
  {
    if n < 10 then [DigitChar(n)]
    else
      var s := Digits(n / 10) + [DigitChar(n % 10)];
      assert s[..|s| - 1] == Digits(n / 10);
      s
  }

  /** Python `f"{n:0wd}"`: the decimal digits, left-padded with zeros to at
      least `w` characters. */
  function ZeroPad(n: nat, w: nat): (s: string)
    ensures AllDigits(s) && DecValue(s) == n
    ensures |s| == if |Digits(n)| < w then w else |Digits(n)|
  {
    var d := Digits(n);
    var zeros := seq(if |d| < w then w - |d| else 0, _ => '0');
    LeadingZeros(zeros, d);
    zeros + d
  }

  lemma {:induction false} LeadingZeros(zeros: string, d: string)
    requires AllDigits(d) && forall k :: 0 <= k < |zeros| ==> zeros[k] == '0'
    ensures AllDigits(zeros + d) && DecValue(zeros + d) == DecValue(d)
    decreases |d|
  {
    var s := zeros + d;
    if |d| == 0 {
      assert s == zeros;
      AllZeros(zeros);
    } else {
      assert s[..|s| - 1] == zeros + d[..|d| - 1];
      LeadingZeros(zeros, d[..|d| - 1]);
    }
  }

  lemma {:induction false} AllZeros(zeros: string)
    requires forall k :: 0 <= k < |zeros| ==> zeros[k] == '0'
    ensures AllDigits(zeros) && DecValue(zeros) == 0
    decreases |zeros|
  {
    if |zeros| > 0 {
      AllZeros(zeros[..|zeros| - 1]);
    }
  }

  const INT32_MIN: int := -0x8000_0000
  const INT32_MAX: int := 0x7FFF_FFFF

  /** The white space `NumberStyles.Integer` lets surround a number: U+0009
      to U+000D and U+0020. */
  predicate IsNumberWhite(ch: char) { ch == ' ' || ('\t' <= ch <= '\r') }

  function StripNumberWhite(s: string): (r: string)
    ensures |r| <= |s|
    decreases |s|
  {
    if |s| > 0 && IsNumberWhite(s[0]) then StripNumberWhite(s[1..])
    else if |s| > 0 && IsNumberWhite(s[|s| - 1]) then StripNumberWhite(s[..|s| - 1])
    else s
  }

  /** `int.TryParse(s, out v)`: optional surrounding white space, an optional
      `+` or `-`, one or more decimal digits, and a value that fits in 32 bits;
      anything else fails (and `int.Parse` throws). */
  function ParseInt32(s: string): (r: Option<int>)
    ensures r.Some? ==> INT32_MIN <= r.value <= INT32_MAX
  {
    var t := StripNumberWhite(s);
    var neg := |t| > 0 && t[0] == '-';
    var body := if |t| > 0 && (t[0] == '-' || t[0] == '+') then t[1..] else t;
    if |body| == 0 || !AllDigits(body) then None
    else
      var d: int := DecValue(body);
      var v := if neg then -d else d;
      if INT32_MIN <= v <= INT32_MAX then Some(v) else None
  }

  /** A natural number written in decimal, padded or not, parses back. */
  lemma ParseDigits(s: string)
    requires |s| > 0 && AllDigits(s) && DecValue(s) <= INT32_MAX
    ensures ParseInt32(s) == Some(DecValue(s))
  {
    assert !IsNumberWhite(s[0]) && !IsNumberWhite(s[|s| - 1]);
  }

  /** `ToLowerInvariant` on ASCII letters. */
  function LowerAscii(s: string): (r: string)
    ensures |r| == |s|
  {
    seq(|s|, k requires 0 <= k < |s| => if 'A' <= s[k] <= 'Z' then ((s[k] as int) + 32) as char else s[k])
  }

  /** `bool.TryParse`: "true" or "false" in any letter case, surrounded by
      optional white space. */
  function ParseBool(s: string): (r: Option<bool>)
    ensures r == Some(true) <==> LowerAscii(Trim(s)) == "true"
    ensures r == Some(false) <==> LowerAscii(Trim(s)) == "false"
  {
    var t := LowerAscii(Trim(s));
    if t == "true" then Some(true) else if t == "false" then Some(false) else None
  }
}
