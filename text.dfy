/** String helpers with the meaning the JavaScript built-ins have in the
    profile code: `trim`, `toLowerCase` (ASCII letters), `split` on one
    character, `join`, `includes`, `startsWith` ignoring case, and the
    decimal rendering of a natural number used in template strings. */
module Text {

  /** The characters `String.prototype.trim` removes: ECMAScript's
      WhiteSpace and LineTerminator code points. */
  predicate IsSpace(c: char) {
    || c == '\t' || c == '\n' || c == '\U{000B}' || c == '\U{000C}' || c == '\r'
    || c == ' ' || c == '\U{00A0}' || c == '\U{1680}'
    || ('\U{2000}' <= c <= '\U{200A}')
    || c == '\U{2028}' || c == '\U{2029}' || c == '\U{202F}' || c == '\U{205F}'
    || c == '\U{3000}' || c == '\U{FEFF}'
  }

  predicate AllSpace(s: string) {
    forall i :: 0 <= i < |s| ==> IsSpace(s[i])
  }

  /** Neither the first nor the last character is white space. */
  predicate IsTrimmed(s: string) {
    s == [] || (!IsSpace(s[0]) && !IsSpace(s[|s| - 1]))
  }

  /** The first position at or after `i` that is not white space. */
  function SkipSpaceForward(s: string, i: nat): (j: nat)
    requires i <= |s|
    ensures i <= j <= |s|
    ensures forall k :: i <= k < j ==> IsSpace(s[k])
    ensures j == |s| || !IsSpace(s[j])
    decreases |s| - i
  {
    if i < |s| && IsSpace(s[i]) then SkipSpaceForward(s, i + 1) else i
  }

  /** The last position at or before `j`, and not before `lo`, that follows
      a character other than white space (or is `lo`). */
  function SkipSpaceBackward(s: string, lo: nat, j: nat): (i: nat)
    requires lo <= j <= |s|
    ensures lo <= i <= j
    ensures forall k :: i <= k < j ==> IsSpace(s[k])
    ensures i == lo || !IsSpace(s[i - 1])
    decreases j
  {
    if lo < j && IsSpace(s[j - 1]) then SkipSpaceBackward(s, lo, j - 1) else j
  }

  /** `s.trim()`: the infix of `s` left after removing white space at both ends. */
  function Trim(s: string): (r: string)
    ensures IsTrimmed(r)
    ensures IsTrimmed(s) ==> r == s
  {
    var i := SkipSpaceForward(s, 0);
    var j := SkipSpaceBackward(s, i, |s|);
    assert IsTrimmed(s) && s != [] ==> i == 0 && j == |s|;
    s[i..j]
  }

  /** What `trim` removes is white space, from the two ends only. */
  lemma TrimIsInfix(s: string)
    ensures var r := Trim(s);
            exists i :: 0 <= i <= |s| - |r| && r == s[i..i + |r|]
                        && AllSpace(s[..i]) && AllSpace(s[i + |r|..])
  {
    var i := SkipSpaceForward(s, 0);
    var j := SkipSpaceBackward(s, i, |s|);
    assert AllSpace(s[..i]) && AllSpace(s[j..]);
  }

  /** Trimming removes exactly the white space padding around a trimmed string. */
  lemma TrimOfPadded(a: string, w: string, b: string)
    requires AllSpace(a) && AllSpace(b) && IsTrimmed(w)
    ensures Trim(a + w + b) == w
  {
    var s := a + w + b;
    assert forall k :: 0 <= k < |a| ==> s[k] == a[k];
    assert forall k :: |a| + |w| <= k < |s| ==> s[k] == b[k - |a| - |w|];
    if w == [] {
      ForwardOverSpace(s, 0, |s|);
    } else {
      assert s[|a|] == w[0] && s[|a| + |w| - 1] == w[|w| - 1];
      ForwardOverSpace(s, 0, |a|);
      BackwardOverSpace(s, |a|, |a| + |w|, |s|);
      assert s[|a|..|a| + |w|] == w;
    }
  }

  /** Skipping forward from `i` over white space up to `m` stops at `m` when
      `s[m]` is not white space (or `m` is the end). */
  lemma {:induction false} ForwardOverSpace(s: string, i: nat, m: nat)
    requires i <= m <= |s|
    requires forall k :: i <= k < m ==> IsSpace(s[k])
    requires m == |s| || !IsSpace(s[m])
    ensures SkipSpaceForward(s, i) == m
    decreases m - i
  {
    if i < m {
      ForwardOverSpace(s, i + 1, m);
    }
  }

  lemma {:induction false} BackwardOverSpace(s: string, lo: nat, m: nat, j: nat)
    requires lo <= m <= j <= |s|
    requires forall k :: m <= k < j ==> IsSpace(s[k])
    requires m == lo || !IsSpace(s[m - 1])
    ensures SkipSpaceBackward(s, lo, j) == m
    decreases j
  {
    if m < j {
      BackwardOverSpace(s, lo, m, j - 1);
    }
  }

  /** `c.toLowerCase()` on the ASCII letters. */
  function LowerChar(c: char): char {
    if 'A' <= c <= 'Z' then (c as int + 32) as char else c
  }

  /** `s.toLowerCase()`, ASCII letters only. */
  function Lower(s: string): (r: string)
    ensures |r| == |s|
    ensures forall i :: 0 <= i < |r| ==> !('A' <= r[i] <= 'Z')
    ensures forall i :: 0 <= i < |s| ==>
              r[i] == s[i] || ('A' <= s[i] <= 'Z' && r[i] as int == s[i] as int + 32)
  {
    seq(|s|, i requires 0 <= i < |s| => LowerChar(s[i]))
  }

  lemma LowerIdempotent(s: string)
    ensures Lower(Lower(s)) == Lower(s)
  {
  }

  /** Lowercasing commutes with slicing. */
  lemma LowerOfSlice(s: string, a: nat, b: nat)
    requires a <= b <= |s|
    ensures Lower(s)[a..b] == Lower(s[a..b])
  {
  }

  /** Lowercasing keeps prefixes. */
  lemma LowerOfPrefix(a: string, s: string)
    requires a <= s
    ensures Lower(a) <= Lower(s)
  {
  }

  /** `s.split(sep)`: the pieces between the occurrences of `sep`, always at
      least one, none of them containing `sep`. */
  function Split(s: string, sep: char): (r: seq<string>)
    ensures |r| >= 1
    ensures forall k :: 0 <= k < |r| ==> sep !in r[k]
    decreases |s|
  {
    if s == [] then [""]
    else
      var rest := Split(s[1..], sep);
      if s[0] == sep then [""] + rest
      else [[s[0]] + rest[0]] + rest[1..]
  }

  /** `xs.join(sep)`: starts with the first piece; no pieces join to "". */
  function Join(xs: seq<string>, sep: string): (r: string)
    ensures xs == [] ==> r == ""
    ensures |xs| > 0 ==> xs[0] <= r
    decreases |xs|
  {
    if |xs| == 0 then ""
    else if |xs| == 1 then xs[0]
    else xs[0] + sep + Join(xs[1..], sep)
  }

  /** The pieces with `p` put in front of every piece but the first. */
  function PadAfterFirst(xs: seq<string>, p: string): (r: seq<string>)
    ensures |r| == |xs|
    ensures |xs| > 0 ==> r[0] == xs[0]
    ensures forall k :: 0 < k < |xs| ==> r[k] == p + xs[k]
  {
    seq(|xs|, k requires 0 <= k < |xs| => if k == 0 then xs[0] else p + xs[k])
  }

  /** Putting `p` in front of the first piece puts it in front of the join. */
  lemma JoinPrefixFirst(zs: seq<string>, sep: string, p: string)
    requires |zs| > 0
    ensures p + Join(zs, sep) == Join(zs[0 := p + zs[0]], sep)
  {
    if |zs| > 1 {
      assert zs[0 := p + zs[0]][1..] == zs[1..];
    }
  }

  /** Joining with `sep + p` is joining with `sep` after padding every piece
      but the first with `p`. */
  lemma {:induction false} JoinWiderSeparator(xs: seq<string>, sep: string, p: string)
    ensures Join(xs, sep + p) == Join(PadAfterFirst(xs, p), sep)
    decreases |xs|
  {
    if |xs| == 1 {
      assert PadAfterFirst(xs, p) == xs;
    } else if |xs| > 1 {
      var ys := xs[1..];
      JoinWiderSeparator(ys, sep, p);
      var zs := PadAfterFirst(ys, p);
      JoinPrefixFirst(zs, sep, p);
      assert PadAfterFirst(xs, p)[1..] == zs[0 := p + zs[0]];
    }
  }

  /** Joining the pieces of a split with the separator gives the string back. */
  lemma {:induction false} JoinSplit(s: string, sep: char)
    ensures Join(Split(s, sep), [sep]) == s
    decreases |s|
  {
    if s != [] {
      var rest := Split(s[1..], sep);
      JoinSplit(s[1..], sep);
      if s[0] == sep {
        assert ([""] + rest)[1..] == rest;
      } else if |rest| == 1 {
        assert s == [s[0]] + s[1..];
      } else {
        var r := [[s[0]] + rest[0]] + rest[1..];
        assert r[1..] == rest[1..];
        assert Join(rest, [sep]) == rest[0] + [sep] + Join(rest[1..], [sep]);
        assert s == [s[0]] + s[1..];
      }
    }
  }

  /** A separator-free prefix glues onto the first piece of a split. */
  lemma {:induction false} SplitPrefix(a: string, b: string, sep: char)
    requires sep !in a
    ensures var sb := Split(b, sep);
            Split(a + b, sep) == [a + sb[0]] + sb[1..]
    decreases |a|
  {
    if a == [] {
      var sb := Split(b, sep);
      assert a + b == b && a + sb[0] == sb[0];
      assert sb == [sb[0]] + sb[1..];
    } else {
      var sb := Split(b, sep);
      SplitPrefix(a[1..], b, sep);
      assert (a + b)[0] == a[0] && (a + b)[1..] == a[1..] + b;
      var rest := Split(a[1..] + b, sep);
      assert rest == [a[1..] + sb[0]] + sb[1..];
      assert rest[1..] == sb[1..];
      assert [a[0]] + rest[0] == a + sb[0];
    }
  }

  /** Splitting a join of separator-free pieces gives the pieces back. */
  lemma {:induction false} SplitJoin(xs: seq<string>, sep: char)
    requires |xs| >= 1
    requires forall k :: 0 <= k < |xs| ==> sep !in xs[k]
    ensures Split(Join(xs, [sep]), sep) == xs
    decreases |xs|
  {
    if |xs| == 1 {
      SplitPrefix(xs[0], "", sep);
      assert xs[0] + "" == xs[0];
    } else {
      var j := Join(xs[1..], [sep]);
      SplitJoin(xs[1..], sep);
      assert ([sep] + j)[1..] == j;
      assert Split([sep] + j, sep) == [""] + xs[1..];
      assert xs[0] + [sep] + j == xs[0] + ([sep] + j);
      SplitPrefix(xs[0], [sep] + j, sep);
      assert xs[0] + "" == xs[0];
      assert xs == [xs[0]] + xs[1..];
    }
  }

  /** `h.includes(n)`: some position of `h` starts with `n`. */
  predicate Contains(h: string, n: string)
    decreases |h|
  {
    n <= h || (|h| > 0 && Contains(h[1..], n))
  }

  /** `n` occurs in `h` starting at position `i`. */
  predicate OccursAt(h: string, n: string, i: int) {
    0 <= i <= |h| - |n| && h[i..i + |n|] == n
  }

  /** A slice of the tail is the slice one position further on. */
  lemma SliceOfTail(h: string, i: nat, m: nat)
    requires i <= m < |h|
    ensures h[1..][i..m] == h[i + 1..m + 1]
  {
  }

  /** `Contains` agrees with the positional definition of a substring. */
  lemma {:induction false} ContainsIff(h: string, n: string)
    ensures Contains(h, n) <==> exists i :: OccursAt(h, n, i)
    decreases |h|
  {
    if exists i :: OccursAt(h, n, i) {
      var i :| OccursAt(h, n, i);
      if i > 0 {
        SliceOfTail(h, i - 1, i - 1 + |n|);
        assert OccursAt(h[1..], n, i - 1);
        ContainsIff(h[1..], n);
      } else {
        assert n <= h;
      }
    }
    if Contains(h, n) {
      if n <= h {
        assert OccursAt(h, n, 0);
      } else {
        ContainsIff(h[1..], n);
        var i :| OccursAt(h[1..], n, i);
        SliceOfTail(h, i, i + |n|);
        assert OccursAt(h, n, i + 1);
      }
    }
  }

  /** Every piece occurs in the join of the pieces. */
  lemma {:induction false} JoinHasPiece(xs: seq<string>, sep: string, k: nat)
    requires k < |xs|
    ensures exists i :: OccursAt(Join(xs, sep), xs[k], i)
    decreases |xs|
  {
    var j := Join(xs, sep);
    if k == 0 {
      assert OccursAt(j, xs[0], 0);
    } else {
      JoinHasPiece(xs[1..], sep, k - 1);
      var rest := Join(xs[1..], sep);
      var i :| OccursAt(rest, xs[1..][k - 1], i);
      var off := |xs[0]| + |sep|;
      assert j == xs[0] + sep + rest;
      assert j[off + i..off + i + |xs[k]|] == rest[i..i + |xs[k]|];
      assert OccursAt(j, xs[k], off + i);
    }
  }

  /** The lowercased join contains every lowercased piece. */
  lemma LowerJoinContainsPieces(xs: seq<string>, sep: string)
    ensures forall k :: 0 <= k < |xs| ==> Contains(Lower(Join(xs, sep)), Lower(xs[k]))
  {
    var j := Join(xs, sep);
    forall k | 0 <= k < |xs|
      ensures Contains(Lower(j), Lower(xs[k]))
    {
      JoinHasPiece(xs, sep, k);
      var i :| OccursAt(j, xs[k], i);
      LowerOfSlice(j, i, i + |xs[k]|);
      assert OccursAt(Lower(j), Lower(xs[k]), i);
      ContainsIff(Lower(j), Lower(xs[k]));
    }
  }

  /** `s.startsWith(p)` with ASCII letters compared case-insensitively. */
  predicate StartsWithIgnoringCase(s: string, p: string): (b: bool)
    ensures b <==> Lower(p) <= Lower(s)
  {
    LowerOfSlice(s, 0, if |p| <= |s| then |p| else |s|);
    |p| <= |s| && Lower(s[..|p|]) == Lower(p)
  }

  /** The regular expression `/^https?:\/\//i`: the lowercased string starts
      with one of the two schemes. */
  predicate HasHttpScheme(s: string): (b: bool)
    ensures b <==> "http://" <= Lower(s) || "https://" <= Lower(s)
  {
    LowercaseSchemes();
    StartsWithIgnoringCase(s, "http://") || StartsWithIgnoringCase(s, "https://")
  }

  /** Both schemes are already lowercase. */
  lemma LowercaseSchemes()
    ensures Lower("http://") == "http://" && Lower("https://") == "https://"
  {
  }

  predicate IsDigit(c: char) {
    '0' <= c <= '9'
  }

  /** The decimal digits of `n` as a template string shows them. */
  function NatToString(n: nat): (r: string)
    ensures |r| >= 1
    ensures forall k :: 0 <= k < |r| ==> IsDigit(r[k])
    ensures n >= 10 ==> |r| >= 2
    ensures n < 10 ==> |r| == 1
    ensures r[|r| - 1] as int - '0' as int == n % 10
  {
    if n < 10 then [(n + '0' as int) as char]
    else NatToString(n / 10) + [((n % 10) + '0' as int) as char]
  }

  /** Different numbers have different decimal renderings. */
  lemma {:induction false} NatToStringInjective(n: nat, m: nat)
    requires NatToString(n) == NatToString(m)
    ensures n == m
  {
    var a, b := NatToString(n), NatToString(m);
    if n >= 10 && m >= 10 {
      assert a[..|a| - 1] == NatToString(n / 10);
      assert b[..|b| - 1] == NatToString(m / 10);
      NatToStringInjective(n / 10, m / 10);
      assert a[|a| - 1] == b[|b| - 1];
    }
  }
}
