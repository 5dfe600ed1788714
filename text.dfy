/** String helpers shared by the model: the JavaScript string operations the app relies on
    (`trim`, `toLowerCase`, `split(c).pop()`, `includes`, decimal `String(n)`, `padStart`),
    each written out with what it guarantees. */
module Text {

  datatype Option<+T> = None | Some(value: T) {
    function GetOr(default: T): T {
      match this
      case Some(v) => v
      case None => default
    }
  }

  datatype Result<+T, +E> = Ok(value: T) | Err(error: E)

  /** The characters JavaScript's `trim` removes: the ECMAScript WhiteSpace and
      LineTerminator code points. */
  predicate IsJsSpace(c: char) {
    || c == ' ' || c == '\t' || c == '\n' || c == '\r'
    || c == '\U{B}' || c == '\U{C}' || c == '\U{A0}' || c == '\U{FEFF}'
    || c == '\U{1680}' || ('\U{2000}' <= c <= '\U{200A}')
    || c == '\U{2028}' || c == '\U{2029}' || c == '\U{202F}' || c == '\U{205F}' || c == '\U{3000}'
  }

  predicate AllSpace(s: string) {
    forall k :: 0 <= k < |s| ==> IsJsSpace(s[k])
  }

  /** `s` holds only white space before index `i` and from index `j` on. */
  predicate SpaceOutside(s: string, i: int, j: int)
    requires 0 <= i <= j <= |s|
  {
    (forall k :: 0 <= k < i ==> IsJsSpace(s[k])) && (forall k :: j <= k < |s| ==> IsJsSpace(s[k]))
  }

  /** The first index at or after `i` that does not hold white space (`|s|` if none). */
  function FirstNonSpace(s: string, i: nat): (j: nat)
    requires i <= |s|
    ensures i <= j <= |s|
    ensures forall k :: i <= k < j ==> IsJsSpace(s[k])
    ensures j < |s| ==> !IsJsSpace(s[j])
    decreases |s| - i
  {
    if i < |s| && IsJsSpace(s[i]) then FirstNonSpace(s, i + 1) else i
  }

  /** The end of `s[lo..j]` once its trailing white space is dropped. */
  function EndOfNonSpace(s: string, lo: nat, j: nat): (e: nat)
    requires lo <= j <= |s|
    ensures lo <= e <= j
    ensures forall k :: e <= k < j ==> IsJsSpace(s[k])
    ensures e > lo ==> !IsJsSpace(s[e - 1])
  {
    if j > lo && IsJsSpace(s[j - 1]) then EndOfNonSpace(s, lo, j - 1) else j
  }

  /** JavaScript `s.trim()`: a slice of `s` with only white space outside it, neither
      starting nor ending with white space. */
  function Trim(s: string): (r: string)
    ensures exists i, j :: 0 <= i <= j <= |s| && r == s[i..j] && SpaceOutside(s, i, j)
    ensures r == [] || (!IsJsSpace(r[0]) && !IsJsSpace(r[|r| - 1]))
  {
    var i := FirstNonSpace(s, 0);
    var j := EndOfNonSpace(s, i, |s|);
    assert SpaceOutside(s, i, j);
    s[i..j]
  }

  /** A string trims to nothing exactly when it is all white space (this is how `!x.trim()`
      reads in the source). */
  lemma TrimEmptyIffAllSpace(s: string)
    ensures Trim(s) == [] <==> AllSpace(s)
  {
    var i := FirstNonSpace(s, 0);
    var j := EndOfNonSpace(s, i, |s|);
    assert Trim(s) == s[i..j];
  }

  /** Trimming twice is trimming once. */
  lemma TrimIdempotent(s: string)
    ensures Trim(Trim(s)) == Trim(s)
  {
    var r := Trim(s);
    if r != [] {
      assert FirstNonSpace(r, 0) == 0;
      assert EndOfNonSpace(r, 0, |r|) == |r|;
      assert r[0..|r|] == r;
    }
  }


  /** ASCII lower-casing, the part of `toLowerCase` the app's comparisons exercise. */
  function LowerChar(c: char): (d: char)
    ensures 'A' <= c <= 'Z' ==> d as int == c as int + 32
    ensures !('A' <= c <= 'Z') ==> d == c
  {
    if 'A' <= c <= 'Z' then (c as int + 32) as char else c
  }

  function ToLower(s: string): (r: string)
    ensures |r| == |s|
    ensures forall k :: 0 <= k < |s| ==> r[k] == LowerChar(s[k])
  {
    seq(|s|, k requires 0 <= k < |s| => LowerChar(s[k]))
  }

  /** `s.includes(p)`: `p` occurs at some position of `s`. */
  predicate Contains(s: string, p: string) {
    exists i :: 0 <= i <= |s| - |p| && OccursAt(s, p, i)
  }

  predicate OccursAt(s: string, p: string, i: nat)
    requires i + |p| <= |s|
  {
    s[i..i + |p|] == p
  }

  /** Text that occurs in a string occurs in any string around it. */
  lemma ContainsWithin(x: string, a: string, y: string, p: string)
    requires Contains(a, p)
    ensures Contains(x + a + y, p)
  {
    var i :| 0 <= i <= |a| - |p| && OccursAt(a, p, i);
    assert (x + a + y)[|x| + i..|x| + i + |p|] == a[i..i + |p|];
    assert OccursAt(x + a + y, p, |x| + i);
  }

  /** `s.split(c).pop()`: the text after the last `c`, or all of `s` when `c` does not occur. */
  function AfterLast(s: string, c: char): (r: string)
    ensures |r| <= |s| && r == s[|s| - |r|..]
    ensures c !in r
    ensures |r| == |s| || s[|s| - |r| - 1] == c
  {
    if s == [] then []
    else if s[|s| - 1] == c then []
    else
      var r := AfterLast(s[..|s| - 1], c);
      assert s[..|s| - 1][|s| - 1 - |r|..] + [s[|s| - 1]] == s[|s| - |r| - 1..];
      r + [s[|s| - 1]]
  }

  /** A separator-free string is its own last piece. */
  lemma {:induction false} AfterLastWithoutSeparator(s: string, c: char)
    requires c !in s
    ensures AfterLast(s, c) == s
  {
    if s != [] {
      assert c !in s[..|s| - 1];
      AfterLastWithoutSeparator(s[..|s| - 1], c);
    }
  }

  /** The piece after the last separator of `s + [c] + t`, when `t` has no separator, is `t`. */
  lemma {:induction false} AfterLastAppend(s: string, c: char, t: string)
    requires c !in t
    ensures AfterLast(s + [c] + t, c) == t
  {
    var u := s + [c] + t;
    if t != [] {
      var t' := t[..|t| - 1];
      assert u[..|u| - 1] == s + [c] + t';
      assert c !in t';
      AfterLastAppend(s, c, t');
      assert t' + [t[|t| - 1]] == t;
    }
  }

  predicate IsDigit(c: char) {
    '0' <= c <= '9'
  }

  function DigitChar(d: nat): (c: char)
    requires d < 10
    ensures IsDigit(c) && c as int - '0' as int == d
  {
    ('0' as int + d) as char
  }

  /** `String(n)` for a natural number: its decimal digits, without leading zeros. */
  function Decimal(n: nat): (r: string)
    ensures 1 <= |r|
    ensures forall k :: 0 <= k < |r| ==> IsDigit(r[k])
    ensures n < 10 <==> |r| == 1
  {
    if n < 10 then [DigitChar(n)] else Decimal(n / 10) + [DigitChar(n % 10)]
  }

  /** Distinct numbers print differently. */
  lemma {:induction false} DecimalInjective(a: nat, b: nat)
    requires Decimal(a) == Decimal(b)
    ensures a == b
  {
    if a >= 10 && b >= 10 {
      var da, db := Decimal(a), Decimal(b);
      assert da[|da| - 1] == DigitChar(a % 10) && db[|db| - 1] == DigitChar(b % 10);
      assert Decimal(a / 10) == da[..|da| - 1] == db[..|db| - 1] == Decimal(b / 10);
      DecimalInjective(a / 10, b / 10);
    } else if a < 10 && b < 10 {
      assert Decimal(a)[0] == DigitChar(a);
      assert Decimal(b)[0] == DigitChar(b);
    }
  }

  /** `String(n).padStart(2, "0")`. */
  function Pad2(n: nat): (r: string)
    ensures n < 100 ==> |r| == 2
    ensures forall k :: 0 <= k < |r| ==> IsDigit(r[k])
    ensures n >= 10 ==> r == Decimal(n)
  {
    var d := Decimal(n);
    if |d| < 2 then "0" + d else d
  }

  /** Two-digit padding loses nothing below 100. */
  lemma Pad2Injective(a: nat, b: nat)
    requires a < 100 && b < 100 && Pad2(a) == Pad2(b)
    ensures a == b
  {
    if a < 10 && b < 10 {
      assert Decimal(a) == Pad2(a)[1..] == Pad2(b)[1..] == Decimal(b);
    } else if a >= 10 && b >= 10 {
      DecimalInjective(a, b);
    } else if a < 10 {
      TwoDigits(b);
    } else {
      TwoDigits(a);
    }
  }

  lemma TwoDigits(n: nat)
    requires 10 <= n < 100
    ensures Pad2(n)[0] == DigitChar(n / 10) != '0'
  {
    assert Decimal(n / 10) == [DigitChar(n / 10)];
  }

  /** Concatenation regroups freely. */
  lemma AppendAssoc<T>(a: seq<T>, b: seq<T>, c: seq<T>)
    ensures a + (b + c) == a + b + c
  {
  }

  /** A slice of a slice is a slice of the whole. */
  lemma SliceOfSlice<T>(s: seq<T>, i: nat, j: nat, a: nat, b: nat)
    requires i <= j <= |s| && a <= b <= j - i
    ensures s[i..j][a..b] == s[i + a..i + b]
  {
    forall m | 0 <= m < b - a ensures s[i..j][a..b][m] == s[i + a..i + b][m] {
      assert s[i..j][a..b][m] == s[i..j][a + m] == s[i + a + m];
    }
  }
}
