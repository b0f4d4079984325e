/**
  The pieces of Rust's `str` API that the client relies on: `trim`,
  `starts_with`, `split` on one character, `join`, and finding the first
  element equal to a value. Strings are sequences of Unicode scalar values.
 */
module Text {
  import opened Wrappers

  /** `char::is_whitespace`: the characters with the Unicode White_Space property. */
  predicate IsWhitespace(c: char) {
    || ('\t' <= c <= '\r')
    || c == ' '
    || c == '\U{0085}'
    || c == '\U{00A0}'
    || c == '\U{1680}'
    || ('\U{2000}' <= c <= '\U{200A}')
    || c == '\U{2028}'
    || c == '\U{2029}'
    || c == '\U{202F}'
    || c == '\U{205F}'
    || c == '\U{3000}'
  }

  /** Every character is whitespace (so the empty string is blank). */
  predicate IsBlank(s: string) {
    forall i :: 0 <= i < |s| ==> IsWhitespace(s[i])
  }

  /** The start of the longest blank suffix: where `trim_end` cuts. */
  function BlankSuffix(s: string): (k: nat)
    ensures k <= |s|
    ensures forall i :: k <= i < |s| ==> IsWhitespace(s[i])
    ensures 0 < k ==> !IsWhitespace(s[k - 1])
    decreases |s|
  {
    if |s| > 0 && IsWhitespace(s[|s| - 1]) then BlankSuffix(s[..|s| - 1]) else |s|
  }

  /** `trim`: `s` without its leading and trailing whitespace. */
  function Trim(s: string): (r: string)
    ensures r == [] <==> IsBlank(s)
    ensures r == [] || (!IsWhitespace(r[0]) && !IsWhitespace(r[|r| - 1]))
    decreases |s|
  {
    if |s| > 0 && IsWhitespace(s[0]) then
      var r := Trim(s[1..]);
      assert IsBlank(s) <==> IsBlank(s[1..]) by {
        if IsBlank(s[1..]) {
          forall i | 0 <= i < |s| ensures IsWhitespace(s[i]) {
            if i > 0 { assert s[i] == s[1..][i - 1]; }
          }
        }
      }
      r
    else
      s[..BlankSuffix(s)]
  }

  /** Trimming only removes characters. */
  lemma {:induction false} TrimInside(s: string)
    ensures forall c :: c in Trim(s) ==> c in s
    decreases |s|
  {
    if |s| > 0 && IsWhitespace(s[0]) {
      TrimInside(s[1..]);
    } else {
      var k := BlankSuffix(s);
      forall c | c in s[..k] ensures c in s {
        var i :| 0 <= i < k && s[..k][i] == c;
        assert s[i] == c;
      }
    }
  }

  /** Trimming removes exactly blank surroundings from a core with non-blank ends. */
  lemma {:induction false} TrimAround(a: string, m: string, b: string)
    requires IsBlank(a) && IsBlank(b)
    requires m != [] && !IsWhitespace(m[0]) && !IsWhitespace(m[|m| - 1])
    ensures Trim(a + m + b) == m
    decreases |a|
  {
    var s := a + m + b;
    if |a| > 0 {
      assert s[1..] == a[1..] + m + b;
      TrimAround(a[1..], m, b);
    } else {
      assert s == m + b;
      assert s[|m| - 1] == m[|m| - 1];
      assert BlankSuffix(s) == |m|;
    }
  }

  /** `starts_with`. */
  predicate StartsWith(s: string, prefix: string) {
    prefix <= s
  }

  /** `slice.join(sep)`: the pieces in order with `sep` between neighbours. */
  function Join(xs: seq<string>, sep: string): (r: string)
    ensures |xs| == 0 ==> r == []
    ensures |xs| == 1 ==> r == xs[0]
  {
    if |xs| == 0 then []
    else if |xs| == 1 then xs[0]
    else xs[0] + sep + Join(xs[1..], sep)
  }

  /** `split(sep)` collected into a vector: the maximal runs between separators. */
  function Split(s: string, sep: char): (parts: seq<string>)
    ensures |parts| >= 1
    ensures forall i :: 0 <= i < |parts| ==> sep !in parts[i]
    ensures Join(parts, [sep]) == s
    decreases |s|
  {
    if |s| == 0 then [[]]
    else
      var rest := Split(s[1..], sep);
      if s[0] == sep then
        assert Join([[]] + rest, [sep]) == [sep] + Join(rest, [sep]) by {
          JoinCons([], rest, [sep]);
        }
        [[]] + rest
      else
        var parts := [[s[0]] + rest[0]] + rest[1..];
        assert Join(parts, [sep]) == [s[0]] + Join(rest, [sep]) by {
          if |rest| > 1 {
            JoinCons(rest[0], rest[1..], [sep]);
            JoinCons([s[0]] + rest[0], rest[1..], [sep]);
            assert rest == [rest[0]] + rest[1..];
          }
        }
        parts
  }

  /** Unfolding `Join` at the head of a non-empty tail. */
  lemma JoinCons(x: string, xs: seq<string>, sep: string)
    requires |xs| > 0
    ensures Join([x] + xs, sep) == x + sep + Join(xs, sep)
  {
    assert ([x] + xs)[1..] == xs;
  }

  /** A join ends with its last piece. */
  lemma {:induction false} JoinLast(xs: seq<string>, sep: string)
    requires |xs| > 0
    ensures var r, last := Join(xs, sep), xs[|xs| - 1];
            |last| <= |r| && r[|r| - |last|..] == last
    decreases |xs|
  {
    if |xs| > 1 {
      JoinLast(xs[1..], sep);
      JoinCons(xs[0], xs[1..], sep);
      assert xs == [xs[0]] + xs[1..];
    }
  }

  /** Joining two non-empty lists puts one separator between the two joins. */
  lemma {:induction false} JoinAppend(xs: seq<string>, ys: seq<string>, sep: string)
    requires |xs| > 0 && |ys| > 0
    ensures Join(xs + ys, sep) == Join(xs, sep) + sep + Join(ys, sep)
    decreases |xs|
  {
    if |xs| == 1 {
      JoinCons(xs[0], ys, sep);
      assert xs + ys == [xs[0]] + ys;
    } else {
      JoinAppend(xs[1..], ys, sep);
      assert xs + ys == [xs[0]] + (xs[1..] + ys);
      JoinCons(xs[0], xs[1..] + ys, sep);
      JoinCons(xs[0], xs[1..], sep);
      assert xs == [xs[0]] + xs[1..];
    }
  }

  /** Text after a join extends its last piece. */
  lemma JoinExtendLast(xs: seq<string>, sep: string, t: string)
    requires |xs| > 0
    ensures Join(xs, sep) + t == Join(xs[..|xs| - 1] + [xs[|xs| - 1] + t], sep)
  {
    var init, last := xs[..|xs| - 1], xs[|xs| - 1];
    if |init| > 0 {
      assert xs == init + [last];
      JoinAppend(init, [last], sep);
      JoinAppend(init, [last + t], sep);
    }
  }

  /** No piece holds the separator. */
  predicate SeparatorFree(xs: seq<string>, sep: char) {
    forall i :: 0 <= i < |xs| ==> sep !in xs[i]
  }

  /** A join of separator-free pieces holds the separator exactly when there are two pieces or more. */
  lemma JoinHasSeparator(xs: seq<string>, sep: char)
    requires |xs| > 0 && SeparatorFree(xs, sep)
    ensures sep in Join(xs, [sep]) <==> |xs| > 1
  {
    if |xs| > 1 {
      JoinCons(xs[0], xs[1..], [sep]);
      assert xs == [xs[0]] + xs[1..];
      assert Join(xs, [sep])[|xs[0]|] == sep;
    }
  }

  /** A join over one-character separators determines its pieces. */
  lemma {:induction false} JoinInjective(xs: seq<string>, ys: seq<string>, sep: char)
    requires |xs| > 0 && |ys| > 0
    requires SeparatorFree(xs, sep) && SeparatorFree(ys, sep)
    requires Join(xs, [sep]) == Join(ys, [sep])
    ensures xs == ys
    decreases |xs|
  {
    var j := Join(xs, [sep]);
    JoinHasSeparator(xs, sep);
    JoinHasSeparator(ys, sep);
    if |xs| == 1 || |ys| == 1 {
      assert |xs| == 1 && |ys| == 1;
    } else {
      JoinCons(xs[0], xs[1..], [sep]);
      JoinCons(ys[0], ys[1..], [sep]);
      assert xs == [xs[0]] + xs[1..];
      assert ys == [ys[0]] + ys[1..];
      assert j[|xs[0]|] == sep && j[|ys[0]|] == sep;
      assert |xs[0]| == |ys[0]|;
      assert xs[0] == j[..|xs[0]|] == ys[0];
      var n := |xs[0]| + 1;
      assert Join(xs[1..], [sep]) == j[n..] == Join(ys[1..], [sep]);
      JoinInjective(xs[1..], ys[1..], sep);
    }
  }

  /** `split` undoes `join`: the round trip from pieces to text and back. */
  lemma SplitJoin(xs: seq<string>, sep: char)
    requires |xs| > 0 && SeparatorFree(xs, sep)
    ensures Split(Join(xs, [sep]), sep) == xs
  {
    var s := Join(xs, [sep]);
    JoinInjective(Split(s, sep), xs, sep);
  }

  /** Splitting at a separator splits the two sides independently. */
  lemma SplitAround(a: string, b: string, sep: char)
    ensures Split(a + [sep] + b, sep) == Split(a, sep) + Split(b, sep)
  {
    var pa, pb := Split(a, sep), Split(b, sep);
    JoinAppend(pa, pb, [sep]);
    var s := a + [sep] + b;
    assert SeparatorFree(pa + pb, sep) by {
      forall i | 0 <= i < |pa + pb| ensures sep !in (pa + pb)[i] {
        if i < |pa| { assert (pa + pb)[i] == pa[i]; } else { assert (pa + pb)[i] == pb[i - |pa|]; }
      }
    }
    JoinInjective(Split(s, sep), pa + pb, sep);
  }

  /** Splitting off a first part that holds no separator. */
  lemma SplitFirst(a: string, b: string, sep: char)
    requires sep !in a
    ensures Split(a + [sep] + b, sep) == [a] + Split(b, sep)
  {
    SplitAround(a, b, sep);
    SplitWhole(a, sep);
  }

  /** A text without the separator is one piece. */
  lemma SplitWhole(s: string, sep: char)
    requires sep !in s
    ensures Split(s, sep) == [s]
  {
    JoinInjective(Split(s, sep), [s], sep);
  }

  /** The position of the first element equal to `x` (`iter().enumerate().find`). */
  function FirstIndex<T(==)>(xs: seq<T>, x: T): (r: Option<nat>)
    ensures r.None? <==> x !in xs
    ensures r.Some? ==> r.value < |xs| && xs[r.value] == x && x !in xs[..r.value]
  {
    if |xs| == 0 then None
    else if xs[0] == x then Some(0)
    else match FirstIndex(xs[1..], x)
      case None => None
      case Some(i) =>
        assert xs[..i + 1] == [xs[0]] + xs[1..][..i];
        Some(i + 1)
  }

  /** `FirstIndex` finds exactly the position before which `x` does not occur. */
  lemma {:induction false} FirstIndexAt<T>(xs: seq<T>, x: T, i: nat)
    requires i < |xs| && xs[i] == x && x !in xs[..i]
    ensures FirstIndex(xs, x) == Some(i)
    decreases i
  {
    if i > 0 {
      assert xs[0] in xs[..i];
      assert xs[1..][..i - 1] == xs[..i][1..];
      FirstIndexAt(xs[1..], x, i - 1);
    }
  }
}
