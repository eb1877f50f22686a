/** Shared vocabulary: optional values, the "number or Infinity" quota, and the
    small pieces of JavaScript string behaviour the rest of the model relies on
    (ASCII case folding, `includes`, and `${n}` for integers). */
module Common {

  /** A value that may be absent: `undefined`/`null` in the source. */
  datatype Option<+T> = None | Some(value: T) {
    function GetOr(default: T): T {
      match this
      case Some(v) => v
      case None => default
    }
  }

  /** The outcome of an operation that the source lets throw: a value or the reason it failed. */
  datatype Result<+T, +E> = Ok(value: T) | Err(error: E)

  /** A message allowance that is either a finite count or JavaScript's `Infinity`. */
  datatype Quota = Finite(n: int) | Unlimited {
    predicate Positive() {
      Unlimited? || n > 0
    }
  }

  /** The subscription tier: every value other than `premium` counts as free. */
  datatype Tier = Free | Premium

  /** Who wrote a chat message: the user or the coach. */
  datatype Role = User | Assistant

  /** One chat turn as the prompt builder and the model client see it. */
  datatype Turn = Turn(role: Role, content: string)

  /** JavaScript `(x || 0)` on an optional number: missing and 0 both read as 0. */
  function OrZero(x: Option<int>): int {
    x.GetOr(0)
  }

  /** `Math.min` and `Math.max` on numbers. */
  function RealMin(a: real, b: real): real {
    if a <= b then a else b
  }

  function RealMax(a: real, b: real): real {
    if a >= b then a else b
  }

  /** The index of the first occurrence of `x` in `s`, or -1: `Array.prototype.indexOf`. */
  function IndexOf<T(==)>(s: seq<T>, x: T): (r: int)
    ensures -1 <= r < |s|
    ensures r == -1 <==> x !in s
    ensures r >= 0 ==> s[r] == x && forall j :: 0 <= j < r ==> s[j] != x
  {
    if |s| == 0 then -1
    else if s[0] == x then 0
    else
      var r := IndexOf(s[1..], x);
      if r == -1 then -1 else r + 1
  }

  // ----- subsequences -----

  /** `xs` can be obtained from `ys` by deleting elements: it keeps `ys`'s order. */
  predicate Subsequence<T(==)>(xs: seq<T>, ys: seq<T>)
    decreases |ys|
  {
    if |xs| == 0 then true
    else if |ys| == 0 then false
    else if xs[0] == ys[0] then Subsequence(xs[1..], ys[1..])
    else Subsequence(xs, ys[1..])
  }

  /** A subsequence of `ys` is also a subsequence of `y` followed by `ys`. */
  lemma {:induction false} SubsequenceDropHead<T>(xs: seq<T>, y: T, ys: seq<T>)
    requires Subsequence(xs, ys)
    ensures Subsequence(xs, [y] + ys)
    decreases |ys|, 1
  {
    if |xs| > 0 && xs[0] != y {
      assert ([y] + ys)[1..] == ys;
    } else if |xs| > 0 {
      assert ([y] + ys)[1..] == ys;
      if |ys| > 0 && xs[0] == ys[0] {
        SubsequenceDropHead(xs[1..], ys[0], ys[1..]);
        assert [ys[0]] + ys[1..] == ys;
      } else {
        SubsequenceTail(xs, ys);
      }
    }
  }

  /** Dropping the first element of a subsequence keeps it a subsequence. */
  lemma {:induction false} SubsequenceTail<T>(xs: seq<T>, ys: seq<T>)
    requires |xs| > 0 && Subsequence(xs, ys)
    ensures Subsequence(xs[1..], ys)
    decreases |ys|, 0
  {
    if xs[0] == ys[0] {
      if |xs| > 1 {
        SubsequenceDropHead(xs[1..], ys[0], ys[1..]);
        assert [ys[0]] + ys[1..] == ys;
      }
    } else {
      SubsequenceTail(xs, ys[1..]);
      if |xs| > 1 {
        SubsequenceDropHead(xs[1..], ys[0], ys[1..]);
        assert [ys[0]] + ys[1..] == ys;
      }
    }
  }

  // ----- ASCII case folding -----

  predicate IsUpper(c: char) {
    'A' <= c <= 'Z'
  }

  predicate IsLower(c: char) {
    'a' <= c <= 'z'
  }

  function LowerChar(c: char): (r: char)
    ensures !IsUpper(r)
    ensures IsUpper(c) ==> IsLower(r)
    ensures !IsUpper(c) ==> r == c
  {
    if IsUpper(c) then (c as int - 'A' as int + 'a' as int) as char else c
  }

  function UpperChar(c: char): (r: char)
    ensures !IsLower(r)
    ensures IsLower(c) ==> IsUpper(r)
    ensures !IsLower(c) ==> r == c
  {
    if IsLower(c) then (c as int - 'a' as int + 'A' as int) as char else c
  }

  /** `String.prototype.toLowerCase`, restricted to ASCII letters. */
  function ToLower(s: string): (r: string)
    ensures |r| == |s|
    ensures forall i :: 0 <= i < |s| ==> r[i] == LowerChar(s[i])
  {
    if |s| == 0 then "" else [LowerChar(s[0])] + ToLower(s[1..])
  }

  /** `String.prototype.toUpperCase`, restricted to ASCII letters. */
  function ToUpper(s: string): (r: string)
    ensures |r| == |s|
    ensures forall i :: 0 <= i < |s| ==> r[i] == UpperChar(s[i])
  {
    if |s| == 0 then "" else [UpperChar(s[0])] + ToUpper(s[1..])
  }

  /** A string with no upper-case ASCII letter. */
  predicate IsLowerCase(s: string) {
    forall i :: 0 <= i < |s| ==> !IsUpper(s[i])
  }

  /** Folding a character's case down after folding it up gives the same as folding it down. */
  lemma LowerOfUpperChar(c: char)
    ensures LowerChar(UpperChar(c)) == LowerChar(c)
  {
  }

  /** Changing letter case with `ToUpper` does not change the lower-cased text. */
  lemma LowerOfUpper(s: string)
    ensures ToLower(ToUpper(s)) == ToLower(s)
  {
    var a, b := ToLower(ToUpper(s)), ToLower(s);
    assert |a| == |b|;
    forall i | 0 <= i < |a|
      ensures a[i] == b[i]
    {
      LowerOfUpperChar(s[i]);
    }
  }

  /** Lower-casing is idempotent. */
  lemma LowerIdempotent(s: string)
    ensures ToLower(ToLower(s)) == ToLower(s)
  {
  }

  /** A lower-case string is its own lower-case form. */
  lemma LowerOfLowerCase(s: string)
    requires IsLowerCase(s)
    ensures ToLower(s) == s
  {
  }

  /** Lower-casing distributes over concatenation. */
  lemma LowerConcat(a: string, b: string)
    ensures ToLower(a + b) == ToLower(a) + ToLower(b)
  {
    var l, r := ToLower(a + b), ToLower(a) + ToLower(b);
    assert |l| == |r|;
    forall i | 0 <= i < |l|
      ensures l[i] == r[i]
    {
      if i < |a| {
        assert (a + b)[i] == a[i];
      } else {
        assert (a + b)[i] == b[i - |a|];
      }
    }
  }

  // ----- substring search -----

  /** `hay.includes(needle)`: some window of `hay` equals `needle`. */
  predicate Contains(hay: string, needle: string) {
    exists i :: 0 <= i <= |hay| - |needle| && MatchesAt(hay, needle, i)
  }

  /** `needle` occurs in `hay` starting at position `i`. */
  predicate MatchesAt(hay: string, needle: string, i: int) {
    0 <= i <= |hay| - |needle| && hay[i..i + |needle|] == needle
  }

  /** Executable substring search, scanning windows left to right. */
  function Includes(hay: string, needle: string): (r: bool)
    ensures r <==> Contains(hay, needle)
  {
    IncludesFrom(hay, needle, 0)
  }

  function IncludesFrom(hay: string, needle: string, from: nat): (r: bool)
    ensures r <==> exists i :: from <= i && MatchesAt(hay, needle, i)
    decreases |hay| - from
  {
    if from + |needle| > |hay| then false
    else if MatchesAt(hay, needle, from) then true
    else IncludesFrom(hay, needle, from + 1)
  }

  /** `needles.some(k => hay.includes(k))`. */
  function IncludesAny(hay: string, needles: seq<string>): (b: bool)
    ensures b <==> exists k :: k in needles && Contains(hay, k)
    decreases |needles|
  {
    if |needles| == 0 then false
    else Includes(hay, needles[0]) || IncludesAny(hay, needles[1..])
  }

  /** `n` copies of `c`. */
  function Repeat(c: char, n: nat): (r: string)
    ensures |r| == n && forall i :: 0 <= i < n ==> r[i] == c
  {
    if n == 0 then "" else Repeat(c, n - 1) + [c]
  }

  /** Text added before or after a string keeps every substring it had. */
  lemma ContainsExtend(pre: string, s: string, post: string, needle: string)
    requires Contains(s, needle)
    ensures Contains(pre + s + post, needle)
  {
    var i :| 0 <= i <= |s| - |needle| && MatchesAt(s, needle, i);
    var h := pre + s + post;
    var j := |pre| + i;
    assert h[j..j + |needle|] == s[i..i + |needle|];
    assert MatchesAt(h, needle, j);
  }

  // ----- decimal rendering of integers -----

  function DigitChar(d: nat): (c: char)
    requires d < 10
    ensures '0' <= c <= '9'
  {
    ('0' as int + d) as char
  }

  function DigitValue(c: char): nat
    requires '0' <= c <= '9'
  {
    c as int - '0' as int
  }

  predicate IsDigits(s: string) {
    forall i :: 0 <= i < |s| ==> '0' <= s[i] <= '9'
  }

  /** `${n}` for a non-negative integer: decimal digits, no leading zero. */
  function NatToString(n: nat): (r: string)
    ensures |r| > 0 && IsDigits(r)
    ensures |r| > 1 ==> r[0] != '0'
  {
    if n < 10 then [DigitChar(n)] else NatToString(n / 10) + [DigitChar(n % 10)]
  }

  /** `${n}` for an integer: a minus sign in front of negative numbers. */
  function IntToString(n: int): string {
    if n < 0 then "-" + NatToString(-n) else NatToString(n)
  }

  /** Reads a string of decimal digits back as a number. */
  function ParseDigits(s: string): nat
    requires IsDigits(s)
  {
    if |s| == 0 then 0 else 10 * ParseDigits(s[..|s| - 1]) + DigitValue(s[|s| - 1])
  }

  /** Reads an optionally signed decimal numeral back as a number. */
  function ParseInt(s: string): int
    requires |s| > 0 ==> (s[0] == '-' && IsDigits(s[1..])) || IsDigits(s)
  {
    if |s| > 0 && s[0] == '-' then -(ParseDigits(s[1..]) as int) else ParseDigits(s)
  }

  /** Rendering a natural number loses nothing: parsing gives it back. */
  lemma {:induction false} NatToStringRoundTrip(n: nat)
    ensures ParseDigits(NatToString(n)) == n
  {
    if n >= 10 {
      var s := NatToString(n);
      var p := NatToString(n / 10);
      assert s[..|s| - 1] == p;
      NatToStringRoundTrip(n / 10);
    }
  }

  /** Rendering an integer loses nothing: parsing gives it back. */
  lemma IntToStringRoundTrip(n: int)
    ensures var s := IntToString(n);
            |s| > 0 && ((s[0] == '-' && IsDigits(s[1..])) || IsDigits(s)) && ParseInt(s) == n
  {
    var s := IntToString(n);
    if n < 0 {
      assert s[1..] == NatToString(-n);
      NatToStringRoundTrip(-n);
    } else {
      NatToStringRoundTrip(n);
    }
  }

  /** Different integers render as different strings. */
  lemma IntToStringInjective(a: int, b: int)
    requires IntToString(a) == IntToString(b)
    ensures a == b
  {
    IntToStringRoundTrip(a);
    IntToStringRoundTrip(b);
  }
}
