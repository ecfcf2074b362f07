/** Shared vocabulary: optional values, results, and the array operations the source leans on. */
module Prelude {

  datatype Option<+T> = None | Some(value: T)

  datatype Result<+T, +E> = Ok(value: T) | Err(error: E)

  /** `xs.filter(keep)`. */
  function Filter<T>(xs: seq<T>, keep: T -> bool): (r: seq<T>)
    ensures |r| <= |xs|
    ensures forall x <- r :: x in xs && keep(x)
    ensures forall x <- xs | keep(x) :: x in r
  {
    if xs == [] then []
    else
      var rest := Filter(xs[..|xs| - 1], keep);
      var last := xs[|xs| - 1];
      assert xs == xs[..|xs| - 1] + [last];
      if keep(last) then rest + [last] else rest
  }

  lemma {:induction false} FilterAppend<T>(xs: seq<T>, ys: seq<T>, keep: T -> bool)
    ensures Filter(xs + ys, keep) == Filter(xs, keep) + Filter(ys, keep)
  {
    if ys == [] {
      assert xs + ys == xs;
    } else {
      var n := |ys| - 1;
      assert (xs + ys)[..|xs + ys| - 1] == xs + ys[..n];
      FilterAppend(xs, ys[..n], keep);
    }
  }

  lemma FilterPush<T>(xs: seq<T>, x: T, keep: T -> bool)
    ensures Filter(xs + [x], keep) == Filter(xs, keep) + if keep(x) then [x] else []
  {
    assert (xs + [x])[..|xs|] == xs;
  }

  lemma {:induction false} FilterNone<T>(xs: seq<T>, keep: T -> bool)
    requires forall x <- xs :: !keep(x)
    ensures Filter(xs, keep) == []
  {
    if xs != [] {
      FilterNone(xs[..|xs| - 1], keep);
    }
  }

  lemma {:induction false} FilterAtMostOne<T>(xs: seq<T>, keep: T -> bool, at: int)
    requires forall k | 0 <= k < |xs| && keep(xs[k]) :: k == at
    ensures |Filter(xs, keep)| <= 1
    ensures 0 <= at < |xs| && keep(xs[at]) ==> |Filter(xs, keep)| == 1
  {
    if xs != [] {
      if keep(xs[|xs| - 1]) {
        FilterNone(xs[..|xs| - 1], keep);
      } else {
        FilterAtMostOne(xs[..|xs| - 1], keep, at);
      }
    }
  }

  lemma {:induction false} FilterAll<T>(xs: seq<T>, keep: T -> bool)
    requires forall x <- xs :: keep(x)
    ensures Filter(xs, keep) == xs
  {
    if xs != [] {
      FilterAll(xs[..|xs| - 1], keep);
      assert xs == xs[..|xs| - 1] + [xs[|xs| - 1]];
    }
  }

  /** Filtering twice keeps what both conditions keep. */
  lemma {:induction false} FilterTwice<T>(xs: seq<T>, first: T -> bool, second: T -> bool, both: T -> bool)
    requires forall x <- xs :: both(x) <==> first(x) && second(x)
    ensures Filter(Filter(xs, first), second) == Filter(xs, both)
  {
    if xs != [] {
      var init, last := xs[..|xs| - 1], xs[|xs| - 1];
      FilterTwice(init, first, second, both);
      FilterAppend(Filter(init, first), [last], second);
      assert Filter([last], second) == if second(last) then [last] else [] by {
        assert [last][..0] == [];
      }
    }
  }

  lemma {:induction false} FilterSplitsMultiset<T>(xs: seq<T>, keep: T -> bool, drop: T -> bool)
    requires forall x <- xs :: keep(x) <==> !drop(x)
    ensures multiset(Filter(xs, keep)) + multiset(Filter(xs, drop)) == multiset(xs)
  {
    if xs != [] {
      var init, last := xs[..|xs| - 1], xs[|xs| - 1];
      assert xs == init + [last];
      FilterSplitsMultiset(init, keep, drop);
      FilterPush(init, last, keep);
      FilterPush(init, last, drop);
      var kept, dropped := multiset(Filter(init, keep)), multiset(Filter(init, drop));
      if keep(last) {
        assert multiset(Filter(xs, keep)) == kept + multiset{last};
      } else {
        assert multiset(Filter(xs, drop)) == dropped + multiset{last};
      }
    }
  }

  /** Filtering keeps each kept element as often as it occurred. */
  lemma {:induction false} FilterCounts<T>(xs: seq<T>, keep: T -> bool, e: T)
    ensures multiset(Filter(xs, keep))[e] == if keep(e) then multiset(xs)[e] else 0
  {
    if xs != [] {
      var init, last := xs[..|xs| - 1], xs[|xs| - 1];
      assert xs == init + [last];
      FilterCounts(init, keep, e);
    }
  }

  /** Permuting before filtering is permuting after. */
  lemma FilterPermutes<T(!new)>(xs: seq<T>, ys: seq<T>, keep: T -> bool)
    requires multiset(xs) == multiset(ys)
    ensures multiset(Filter(xs, keep)) == multiset(Filter(ys, keep))
  {
    forall e: T
      ensures multiset(Filter(xs, keep))[e] == multiset(Filter(ys, keep))[e]
    {
      FilterCounts(xs, keep, e);
      FilterCounts(ys, keep, e);
    }
    assert multiset(Filter(xs, keep)) <= multiset(Filter(ys, keep)) <= multiset(Filter(xs, keep));
  }

  /** No two elements share a key. */
  ghost predicate UniqueBy<T, K>(xs: seq<T>, key: T -> K) {
    forall i, j | 0 <= i < j < |xs| :: key(xs[i]) != key(xs[j])
  }

  lemma UniquePush<T, K>(xs: seq<T>, x: T, key: T -> K)
    ensures UniqueBy(xs + [x], key) <==> UniqueBy(xs, key) && forall e <- xs :: key(e) != key(x)
  {
    var all := xs + [x];
    if UniqueBy(all, key) {
      forall i | 0 <= i < |xs| ensures key(xs[i]) != key(x) {
        assert key(all[i]) != key(all[|xs|]);
      }
      forall i, j | 0 <= i < j < |xs| ensures key(xs[i]) != key(xs[j]) {
        assert key(all[i]) != key(all[j]);
      }
    }
  }

  lemma {:induction false} FilterKeepsUniqueBy<T, K>(xs: seq<T>, keep: T -> bool, key: T -> K)
    requires UniqueBy(xs, key)
    ensures UniqueBy(Filter(xs, keep), key)
  {
    if xs != [] {
      var init, last := xs[..|xs| - 1], xs[|xs| - 1];
      assert xs == init + [last];
      UniquePush(init, last, key);
      FilterKeepsUniqueBy(init, keep, key);
      UniquePush(Filter(init, keep), last, key);
    }
  }

  /** With unique keys, elements with one key are one element. */
  lemma UniqueMeansSame<T, K>(xs: seq<T>, key: T -> K, a: T, b: T)
    requires UniqueBy(xs, key) && a in xs && b in xs && key(a) == key(b)
    ensures a == b
  {
    var i :| 0 <= i < |xs| && xs[i] == a;
    var j :| 0 <= j < |xs| && xs[j] == b;
    if i < j { assert false; }
    if j < i { assert false; }
  }

  /** The entries from position `|xs| - n` on: `xs.slice(Math.max(0, xs.length - n))`. */
  function LastN<T>(xs: seq<T>, n: nat): seq<T> {
    if |xs| <= n then xs else xs[|xs| - n..]
  }

  /** `xs.flat()` for one level of nesting. */
  function Flatten<T>(xss: seq<seq<T>>): seq<T> {
    if xss == [] then [] else Flatten(xss[..|xss| - 1]) + xss[|xss| - 1]
  }

  function Zeros(n: nat): string { seq(n, _ => '0') }

  /** `s.padEnd(n, "0")` and `s.padStart(n, "0")` */
  function PadEnd(s: string, n: int): string { if |s| >= n then s else s + Zeros(n - |s|) }

  function PadStart(s: string, n: int): string { if |s| >= n then s else Zeros(n - |s|) + s }

  /** `parts.join(sep)` */
  function Join<T>(parts: seq<seq<T>>, sep: seq<T>): seq<T> {
    if parts == [] then []
    else if |parts| == 1 then parts[0]
    else parts[0] + sep + Join(parts[1..], sep)
  }

  /** Order on strings used by the source's `<`: lexicographic by character. */
  predicate StringLess(a: string, b: string)
    decreases |a|
  {
    b != [] && (a == [] || a[0] < b[0] || (a[0] == b[0] && StringLess(a[1..], b[1..])))
  }

  lemma {:induction false} StringLessTrichotomy(a: string, b: string)
    ensures a == b || StringLess(a, b) || StringLess(b, a)
    ensures !(StringLess(a, b) && StringLess(b, a))
    ensures !StringLess(a, a)
    decreases |a|
  {
    if a != [] && b != [] {
      StringLessTrichotomy(a[1..], b[1..]);
      assert a == [a[0]] + a[1..] && b == [b[0]] + b[1..];
    } else if a != [] {
      StringLessTrichotomy(a[1..], b);
    }
  }

  lemma {:induction false} StringLessTransitive(a: string, b: string, c: string)
    requires StringLess(a, b) && StringLess(b, c)
    ensures StringLess(a, c)
    decreases |a|
  {
    if a != [] && a[0] == b[0] == c[0] {
      StringLessTransitive(a[1..], b[1..], c[1..]);
    }
  }

  /** The characters `String.prototype.trim` strips. */
  predicate IsJsSpace(c: char) {
    || c == ' ' || ('\t' <= c <= '\r') || c == '\U{00A0}' || c == '\U{1680}'
    || ('\U{2000}' <= c <= '\U{200A}') || c == '\U{2028}' || c == '\U{2029}' || c == '\U{202F}'
    || c == '\U{205F}' || c == '\U{3000}' || c == '\U{FEFF}'
  }

  function TrimStart(s: string): string {
    if s != [] && IsJsSpace(s[0]) then TrimStart(s[1..]) else s
  }

  function TrimEnd(s: string): string {
    if s != [] && IsJsSpace(s[|s| - 1]) then TrimEnd(s[..|s| - 1]) else s
  }

  function Trim(s: string): string {
    TrimEnd(TrimStart(s))
  }

  /** Case mapping on the ASCII letters. */
  function UpperChar(c: char): char {
    if 'a' <= c <= 'z' then c - ('a' - 'A') else c
  }

  function LowerChar(c: char): char {
    if 'A' <= c <= 'Z' then c + ('a' - 'A') else c
  }

  function ToUpper(s: string): string {
    seq(|s|, i requires 0 <= i < |s| => UpperChar(s[i]))
  }

  function ToLower(s: string): string {
    seq(|s|, i requires 0 <= i < |s| => LowerChar(s[i]))
  }

  /** Apart from the case of ASCII letters, the same text. */
  ghost predicate SameIgnoringCase(a: string, b: string) {
    |a| == |b| && forall i | 0 <= i < |a| :: a[i] == b[i] || CaseTwins(a[i], b[i]) || CaseTwins(b[i], a[i])
  }

  /** A small letter and its capital. */
  ghost predicate CaseTwins(small: char, capital: char) {
    'a' <= small <= 'z' && small as int - capital as int == 32
  }

  lemma UpperMeans(a: string, b: string)
    ensures ToUpper(a) == ToUpper(b) <==> SameIgnoringCase(a, b)
  {
    if |a| == |b| {
      forall i | 0 <= i < |a|
        ensures ToUpper(a)[i] == ToUpper(b)[i] <==> a[i] == b[i] || CaseTwins(a[i], b[i]) || CaseTwins(b[i], a[i])
      {
        SameUpper(a[i], b[i]);
      }
      assert ToUpper(a) == ToUpper(b) <==> forall i | 0 <= i < |a| :: ToUpper(a)[i] == ToUpper(b)[i];
    } else {
      assert |ToUpper(a)| == |a| && |ToUpper(b)| == |b|;
    }
  }

  lemma SameUpper(x: char, y: char)
    ensures UpperChar(x) == UpperChar(y) <==> x == y || CaseTwins(x, y) || CaseTwins(y, x)
  {
  }

  lemma LowerMeans(a: string, b: string)
    ensures ToLower(a) == ToLower(b) <==> SameIgnoringCase(a, b)
  {
    if |a| == |b| {
      forall i | 0 <= i < |a|
        ensures ToLower(a)[i] == ToLower(b)[i] <==> a[i] == b[i] || CaseTwins(a[i], b[i]) || CaseTwins(b[i], a[i])
      {
        SameLower(a[i], b[i]);
      }
      assert ToLower(a) == ToLower(b) <==> forall i | 0 <= i < |a| :: ToLower(a)[i] == ToLower(b)[i];
    } else {
      assert |ToLower(a)| == |a| && |ToLower(b)| == |b|;
    }
  }

  lemma SameLower(x: char, y: char)
    ensures LowerChar(x) == LowerChar(y) <==> x == y || CaseTwins(x, y) || CaseTwins(y, x)
  {
  }

  ghost predicate AllSpace(s: string) { forall c <- s :: IsJsSpace(c) }

  /** Trimming takes off exactly the spaces at both ends. */
  ghost predicate Trimmed(s: string, t: string) {
    && (t != [] ==> !IsJsSpace(t[0]) && !IsJsSpace(t[|t| - 1]))
    && exists front, back :: AllSpace(front) && AllSpace(back) && s == front + t + back
  }

  lemma {:induction false} TrimStartMeans(s: string) returns (front: string)
    ensures AllSpace(front) && s == front + TrimStart(s)
    ensures TrimStart(s) != [] ==> !IsJsSpace(TrimStart(s)[0])
  {
    if s != [] && IsJsSpace(s[0]) {
      front := TrimStartMeans(s[1..]);
      front := [s[0]] + front;
    } else {
      front := [];
    }
  }

  lemma {:induction false} TrimEndMeans(s: string) returns (back: string)
    ensures AllSpace(back) && s == TrimEnd(s) + back
    ensures TrimEnd(s) != [] ==> !IsJsSpace(TrimEnd(s)[|TrimEnd(s)| - 1])
  {
    if s != [] && IsJsSpace(s[|s| - 1]) {
      back := TrimEndMeans(s[..|s| - 1]);
      back := back + [s[|s| - 1]];
    } else {
      back := [];
    }
  }

  lemma TrimMeans(s: string)
    ensures Trimmed(s, Trim(s))
  {
    hide IsJsSpace, TrimStart, TrimEnd;
    var front := TrimStartMeans(s);
    var back := TrimEndMeans(TrimStart(s));
    assert s == front + Trim(s) + back;
    if Trim(s) != [] {
      assert TrimStart(s)[0] == Trim(s)[0];
    }
  }
}
