/** Small value types and string helpers shared by the other modules. */
module Common {

  datatype Option<+T> = None | Some(value: T)

  /** True when `s` ends with `suffix` (`String.prototype.endsWith`). */
  predicate EndsWith(s: string, suffix: string)
  {
    |suffix| <= |s| && s[|s| - |suffix|..] == suffix
  }

  /** True when `s` begins with `prefix` (`String.prototype.startsWith`). */
  predicate StartsWith(s: string, prefix: string)
  {
    |prefix| <= |s| && s[..|prefix|] == prefix
  }

  /** True when `xs` holds no value twice. */
  predicate NoDuplicates<T(==)>(xs: seq<T>)
  {
    forall i, j :: 0 <= i < j < |xs| ==> xs[i] != xs[j]
  }

  /** `a` is obtained from `b` by deleting elements, keeping the order of the rest. */
  predicate IsSubsequence<T(==)>(a: seq<T>, b: seq<T>)
    decreases |b|
  {
    if b == [] then a == []
    else (a != [] && a[0] == b[0] && IsSubsequence(a[1..], b[1..])) || IsSubsequence(a, b[1..])
  }

  /**
   * The string JavaScript produces for an array of strings in a template
   * literal: the elements joined by ",".
   */
  function JoinWithCommas(xs: seq<string>): (r: string)
    ensures xs == [] ==> r == ""
    ensures |xs| == 1 ==> r == xs[0]
    ensures |r| >= |xs| - 1
  {
    if xs == [] then ""
    else if |xs| == 1 then xs[0]
    else xs[0] + "," + JoinWithCommas(xs[1..])
  }

  /** Joining one more element appends a comma and that element. */
  lemma {:induction false} JoinWithCommasSnoc(xs: seq<string>, x: string)
    requires |xs| >= 1
    ensures JoinWithCommas(xs + [x]) == JoinWithCommas(xs) + "," + x
    decreases |xs|
  {
    if |xs| == 1 {
      assert xs + [x] == [xs[0], x];
      assert [xs[0], x][1..] == [x];
    } else {
      JoinWithCommasSnoc(xs[1..], x);
      assert (xs + [x])[1..] == xs[1..] + [x];
    }
  }

  /** The position of the first `c` in `s`. */
  function IndexOf(s: string, c: char): (i: nat)
    requires c in s
    ensures i < |s| && s[i] == c && c !in s[..i]
  {
    if s[0] == c then 0
    else
      assert s == [s[0]] + s[1..];
      var j := IndexOf(s[1..], c);
      assert s[..j + 1] == [s[0]] + s[1..][..j];
      j + 1
  }

  /** The position of a `c` with no `c` before it is the first one. */
  lemma IndexOfFirst(s: string, c: char, i: nat)
    requires i < |s| && s[i] == c && c !in s[..i]
    ensures IndexOf(s, c) == i
  {
    var j := IndexOf(s, c);
    if j < i {
      assert false;
    } else if i < j {
      assert false;
    }
  }

  /** Splits `s` at every comma, the inverse of `JoinWithCommas` on comma-free elements. */
  function SplitOnCommas(s: string): seq<string>
    decreases |s|
  {
    if ',' !in s then [s]
    else
      var i := IndexOf(s, ',');
      [s[..i]] + SplitOnCommas(s[i + 1..])
  }

  /** Splitting the join of comma-free elements gives the elements back. */
  lemma {:induction false} SplitJoin(xs: seq<string>)
    requires xs != []
    requires forall k :: 0 <= k < |xs| ==> ',' !in xs[k]
    ensures SplitOnCommas(JoinWithCommas(xs)) == xs
    decreases |xs|
  {
    if |xs| > 1 {
      var rest := JoinWithCommas(xs[1..]);
      var s := xs[0] + "," + rest;
      assert JoinWithCommas(xs) == s;
      var n := |xs[0]|;
      assert s[..n] == xs[0];
      assert s[n] == ',';
      IndexOfFirst(s, ',', n);
      assert s[n + 1..] == rest;
      assert SplitOnCommas(s) == [xs[0]] + SplitOnCommas(rest);
      assert forall k :: 0 <= k < |xs[1..]| ==> ',' !in xs[1..][k] by {
        forall k | 0 <= k < |xs[1..]| ensures ',' !in xs[1..][k] { assert xs[1..][k] == xs[k + 1]; }
      }
      SplitJoin(xs[1..]);
      assert xs == [xs[0]] + xs[1..];
    }
  }

  /** Removes repeated elements; the rest keep their order (`DedupInOrder`). */
  function Dedup<T(==,!new)>(xs: seq<T>): (r: seq<T>)
    ensures NoDuplicates(r)
    ensures forall x :: x in r <==> x in xs
    ensures |r| <= |xs|
    decreases |xs|
  {
    if xs == [] then []
    else
      var d := Dedup(xs[..|xs| - 1]);
      var x := xs[|xs| - 1];
      assert xs == xs[..|xs| - 1] + [x];
      if x in d then d else d + [x]
  }

  /** A subsequence stays one when the longer sequence grows at its end. */
  lemma {:induction false} SubsequenceSnoc<T>(a: seq<T>, b: seq<T>, x: T)
    requires IsSubsequence(a, b)
    ensures IsSubsequence(a, b + [x])
    ensures IsSubsequence(a + [x], b + [x])
    decreases |b|
  {
    if b == [] {
      assert a == [];
      assert ([x] + [])[1..] == [];
      assert [] + [x] == [x];
    } else {
      assert (b + [x])[1..] == b[1..] + [x];
      if a != [] && a[0] == b[0] && IsSubsequence(a[1..], b[1..]) {
        SubsequenceSnoc(a[1..], b[1..], x);
        assert (a + [x])[1..] == a[1..] + [x];
      } else {
        SubsequenceSnoc(a, b[1..], x);
      }
    }
  }

  /** Removing repeats keeps the order: the result is a subsequence of the input. */
  lemma {:induction false} DedupInOrder<T(!new)>(xs: seq<T>)
    ensures IsSubsequence(Dedup(xs), xs)
    decreases |xs|
  {
    if xs == [] {
    } else {
      var init := xs[..|xs| - 1];
      DedupInOrder(init);
      SubsequenceSnoc(Dedup(init), init, xs[|xs| - 1]);
      assert init + [xs[|xs| - 1]] == xs;
    }
  }

  /** A sequence without duplicates is left as it is by `Dedup`. */
  lemma {:induction false} DedupOfDistinct<T(!new)>(xs: seq<T>)
    requires NoDuplicates(xs)
    ensures Dedup(xs) == xs
    decreases |xs|
  {
    if xs != [] {
      var init := xs[..|xs| - 1];
      assert NoDuplicates(init);
      DedupOfDistinct(init);
      assert xs[|xs| - 1] !in init;
      assert init + [xs[|xs| - 1]] == xs;
    }
  }
}
