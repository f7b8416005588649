/**
 * Placeholders in an options source: `<FINISH>_<COLOR>_paint_options`
 * names another preference by its upper-cased id between angle brackets.
 * This module finds the placeholders in a template, substitutes values for
 * them and enumerates every combination of candidate values.
 */
module Placeholders {
  import opened Common

  /** The characters allowed between `<` and `>` of a placeholder. */
  predicate IsTokenChar(c: char)
  {
    ('A' <= c <= 'Z') || ('0' <= c <= '9') || c == '_'
  }

  predicate IsTokenName(t: string)
  {
    t != [] && forall k :: 0 <= k < |t| ==> IsTokenChar(t[k])
  }

  /** ASCII upper-casing (`String.prototype.toUpperCase` on ASCII ids). */
  function UpperChar(c: char): (u: char)
    ensures 'a' <= c <= 'z' ==> 'A' <= u <= 'Z' && u as int == c as int - 32
    ensures !('a' <= c <= 'z') ==> u == c
  {
    if 'a' <= c <= 'z' then (c as int - 32) as char else c
  }

  function Upper(s: string): (u: string)
    ensures |u| == |s|
    ensures forall k :: 0 <= k < |s| ==> u[k] == UpperChar(s[k])
  {
    seq(|s|, k requires 0 <= k < |s| => UpperChar(s[k]))
  }

  /** An upper-cased id has no lower-case ASCII letter left. */
  lemma UpperHasNoLowerCase(s: string)
    ensures forall k :: 0 <= k < |Upper(s)| ==> !('a' <= Upper(s)[k] <= 'z')
  {
    forall k | 0 <= k < |Upper(s)| ensures !('a' <= Upper(s)[k] <= 'z') {
      assert Upper(s)[k] == UpperChar(s[k]);
    }
  }

  /** Upper-casing twice is upper-casing once. */
  lemma UpperIdempotent(s: string)
    ensures Upper(Upper(s)) == Upper(s)
  {
    UpperHasNoLowerCase(s);
    assert forall k :: 0 <= k < |s| ==> Upper(Upper(s))[k] == UpperChar(Upper(s)[k]);
  }

  /** Number of token characters at the start of `s`. */
  function RunLength(s: string): (n: nat)
    ensures n <= |s|
    ensures forall k :: 0 <= k < n ==> IsTokenChar(s[k])
    ensures n < |s| ==> !IsTokenChar(s[n])
  {
    if s == [] || !IsTokenChar(s[0]) then 0 else 1 + RunLength(s[1..])
  }

  /**
   * The name of the placeholder `s` starts with, if it starts with one.
   */
  function LeadingToken(s: string): (r: Option<string>)
    ensures r.Some? ==> IsTokenName(r.value) && |r.value| + 2 <= |s|
    ensures r.Some? ==> s[..|r.value| + 2] == "<" + r.value + ">"
  {
    if |s| >= 1 && s[0] == '<' then
      var n := RunLength(s[1..]);
      if 0 < n && n + 1 < |s| && s[n + 1] == '>' then
        assert s[..n + 2] == "<" + s[1..n + 1] + ">";
        Some(s[1..n + 1])
      else None
    else None
  }

  /** The converse of LeadingToken's contract: a placeholder at the start is found. */
  lemma LeadingTokenFinds(t: string, rest: string)
    requires IsTokenName(t)
    ensures LeadingToken("<" + t + ">" + rest) == Some(t)
  {
    var s := "<" + t + ">" + rest;
    assert s[1..] == t + (">" + rest);
    RunLengthOfName(t, ">" + rest);
    assert RunLength(s[1..]) == |t|;
    assert s[|t| + 1] == '>';
    assert s[1..|t| + 1] == t;
  }

  lemma {:induction false} RunLengthOfName(t: string, rest: string)
    requires forall k :: 0 <= k < |t| ==> IsTokenChar(t[k])
    requires rest != [] && !IsTokenChar(rest[0])
    ensures RunLength(t + rest) == |t|
    decreases |t|
  {
    if t == [] {
      assert t + rest == rest;
    } else {
      assert (t + rest)[1..] == t[1..] + rest;
      RunLengthOfName(t[1..], rest);
    }
  }

  /** Every placeholder occurrence of `s`, left to right, repeats included. */
  function Occurrences(s: string): (ts: seq<string>)
    ensures forall t :: t in ts ==> IsTokenName(t)
    decreases |s|
  {
    if s == [] then []
    else match LeadingToken(s)
      case Some(t) => [t] + Occurrences(s[|t| + 2..])
      case None => Occurrences(s[1..])
  }

  /** `s` holds the placeholder `<t>` starting at position `i`. */
  predicate OccursAt(s: string, t: string, i: nat)
  {
    i + |t| + 2 <= |s| && s[i..i + |t| + 2] == "<" + t + ">"
  }

  /** An occurrence in a suffix of `s` is an occurrence in `s`, further on. */
  lemma OccursAtShift(s: string, t: string, k: nat, j: nat)
    requires k <= |s| && OccursAt(s[k..], t, j)
    ensures OccursAt(s, t, j + k)
  {
    assert s[j + k..j + k + |t| + 2] == s[k..][j..j + |t| + 2];
  }

  /** Every name the scan finds stands between `<` and `>` somewhere in the text. */
  lemma {:induction false} OccurrencesInText(s: string, t: string)
    requires t in Occurrences(s)
    ensures IsTokenName(t) && exists i: nat :: OccursAt(s, t, i)
    decreases |s|
  {
    match LeadingToken(s)
    case Some(u) =>
      if t == u {
        assert OccursAt(s, t, 0);
      } else {
        OccurrencesInText(s[|u| + 2..], t);
        var j: nat :| OccursAt(s[|u| + 2..], t, j);
        OccursAtShift(s, t, |u| + 2, j);
      }
    case None =>
      OccurrencesInText(s[1..], t);
      var j: nat :| OccursAt(s[1..], t, j);
      OccursAtShift(s, t, 1, j);
  }

  /** An occurrence past position `k` is an occurrence in the suffix from `k`. */
  lemma OccursAtUnshift(s: string, t: string, k: nat, i: nat)
    requires k <= i && OccursAt(s, t, i)
    ensures OccursAt(s[k..], t, i - k)
  {
    assert s[k..][i - k..i - k + |t| + 2] == s[i..i + |t| + 2];
  }

  /** No `<` stands inside or at the closing `>` of a leading placeholder. */
  lemma NoAngleInsideLeading(s: string, u: string, i: nat)
    requires IsTokenName(u) && |u| + 2 <= |s| && s[..|u| + 2] == "<" + u + ">"
    requires 0 < i <= |u| + 1
    ensures s[i] != '<'
  {
    assert s[i] == s[..|u| + 2][i];
    if i <= |u| {
      assert s[i] == u[i - 1];
    }
  }

  /** Every `<t>` in the text with a valid name `t` is found by the scan. */
  lemma {:induction false} TextInOccurrences(s: string, t: string, i: nat)
    requires IsTokenName(t) && OccursAt(s, t, i)
    ensures t in Occurrences(s)
    decreases |s|
  {
    if i == 0 {
      assert s == "<" + t + ">" + s[|t| + 2..];
      LeadingTokenFinds(t, s[|t| + 2..]);
    } else {
      assert s[i] == s[i..i + |t| + 2][0];
      match LeadingToken(s)
      case Some(u) =>
        if i <= |u| + 1 {
          NoAngleInsideLeading(s, u, i);
          assert false;
        }
        OccursAtUnshift(s, t, |u| + 2, i);
        TextInOccurrences(s[|u| + 2..], t, i - |u| - 2);
      case None =>
        OccursAtUnshift(s, t, 1, i);
        TextInOccurrences(s[1..], t, i - 1);
    }
  }

  /** The placeholder names of `s`, without repeats. */
  function ExtractTokens(s: string): (ts: seq<string>)
    ensures NoDuplicates(ts)
    ensures forall t :: t in ts <==> t in Occurrences(s)
    ensures forall t :: t in ts ==> IsTokenName(t)
  {
    Dedup(Occurrences(s))
  }

  /** A name is extracted exactly when it is a valid name written as `<name>` somewhere in the template. */
  lemma ExtractTokensOfText(s: string, t: string)
    ensures t in ExtractTokens(s) <==> IsTokenName(t) && exists i: nat :: OccursAt(s, t, i)
  {
    if t in ExtractTokens(s) {
      OccurrencesInText(s, t);
    }
    if IsTokenName(t) && exists i: nat :: OccursAt(s, t, i) {
      var i: nat :| OccursAt(s, t, i);
      TextInOccurrences(s, t, i);
    }
  }

  /**
   * Replaces each placeholder whose name is bound in `bindings` by its value;
   * any other text, unbound placeholders included, is copied unchanged.
   */
  function Substitute(s: string, bindings: map<string, string>): (r: string)
    decreases |s|
  {
    if s == [] then []
    else match LeadingToken(s)
      case Some(t) =>
        if t in bindings then bindings[t] + Substitute(s[|t| + 2..], bindings)
        else [s[0]] + Substitute(s[1..], bindings)
      case None => [s[0]] + Substitute(s[1..], bindings)
  }

  /** A template none of whose placeholders is bound comes back unchanged. */
  lemma {:induction false} SubstituteUnbound(s: string, bindings: map<string, string>)
    requires forall t :: t in Occurrences(s) ==> t !in bindings
    ensures Substitute(s, bindings) == s
    decreases |s|
  {
    if s != [] {
      match LeadingToken(s)
      case Some(t) =>
        assert t in Occurrences(s);
        // the text after '<' holds no placeholder the whole of s lacks
        NoTokenInsideName(s, t, bindings);
        SubstituteUnbound(s[1..], bindings);
      case None =>
        SubstituteUnbound(s[1..], bindings);
    }
  }

  /** Helper for SubstituteUnbound: Occurrences(s[1..]) covers Occurrences(s[|t|+2..]). */
  lemma NoTokenInsideName(s: string, t: string, bindings: map<string, string>)
    requires LeadingToken(s) == Some(t)
    requires forall u :: u in Occurrences(s) ==> u !in bindings
    ensures forall u :: u in Occurrences(s[1..]) ==> u !in bindings
  {
    forall u | u in Occurrences(s[1..]) ensures u !in bindings {
      SkipNameOccurrences(s, t, 1);
    }
  }

  /** Inside a placeholder name no other placeholder starts. */
  lemma {:induction false} SkipNameOccurrences(s: string, t: string, i: nat)
    requires LeadingToken(s) == Some(t)
    requires 1 <= i <= |t| + 1
    ensures Occurrences(s[i..]) == Occurrences(s[|t| + 2..])
    decreases |t| + 2 - i
  {
    assert s[..|t| + 2] == "<" + t + ">";
    assert s[i] == (if i <= |t| then t[i - 1] else '>');
    assert s[i] != '<';
    assert LeadingToken(s[i..]) == None;
    assert s[i..][1..] == s[i + 1..];
    if i <= |t| {
      SkipNameOccurrences(s, t, i + 1);
    }
  }

  /** With no bindings at all, substitution is the identity. */
  lemma SubstituteNoBindings(s: string)
    ensures Substitute(s, map[]) == s
  {
    SubstituteUnbound(s, map[]);
  }

  /** Substituting into a leading placeholder emits its value first. */
  lemma SubstituteLeading(t: string, rest: string, bindings: map<string, string>)
    requires IsTokenName(t) && t in bindings
    ensures Substitute("<" + t + ">" + rest, bindings) == bindings[t] + Substitute(rest, bindings)
  {
    var s := "<" + t + ">" + rest;
    LeadingTokenFinds(t, rest);
    assert s[|t| + 2..] == rest;
  }

  /** Substitution copies a leading character that cannot open a placeholder. */
  lemma SubstitutePlainChar(c: char, rest: string, bindings: map<string, string>)
    requires c != '<'
    ensures Substitute([c] + rest, bindings) == [c] + Substitute(rest, bindings)
  {
    assert ([c] + rest)[1..] == rest;
  }

  /** Text without `<` holds no placeholder. */
  lemma {:induction false} OccurrencesNoAngle(s: string)
    requires '<' !in s
    ensures Occurrences(s) == []
    decreases |s|
  {
    if s != [] {
      assert s[0] != '<';
      assert forall k :: 0 <= k < |s[1..]| ==> s[1..][k] == s[k + 1];
      OccurrencesNoAngle(s[1..]);
    }
  }

  /** Substitution leaves text without `<` unchanged. */
  lemma SubstituteNoAngle(s: string, bindings: map<string, string>)
    requires '<' !in s
    ensures Substitute(s, bindings) == s
  {
    OccurrencesNoAngle(s);
    SubstituteUnbound(s, bindings);
  }

  /** A leading placeholder is the first occurrence. */
  lemma OccurrencesLeading(t: string, rest: string)
    requires IsTokenName(t)
    ensures Occurrences("<" + t + ">" + rest) == [t] + Occurrences(rest)
  {
    var s := "<" + t + ">" + rest;
    LeadingTokenFinds(t, rest);
    assert s[|t| + 2..] == rest;
  }

  /** A leading character other than `<` starts no occurrence. */
  lemma OccurrencesPlainChar(c: char, rest: string)
    requires c != '<'
    ensures Occurrences([c] + rest) == Occurrences(rest)
  {
    assert ([c] + rest)[1..] == rest;
  }

  /** A template made of two placeholders, a separator and a literal tail. */
  lemma TwoPlaceholderTemplate(s: string, a: string, sep: char, b: string, tail: string)
    requires IsTokenName(a) && IsTokenName(b) && a != b
    requires sep != '<' && '<' !in tail
    requires s == "<" + a + ">" + ([sep] + ("<" + b + ">" + tail))
    ensures Occurrences(s) == [a, b]
    ensures ExtractTokens(s) == [a, b]
  {
    OccurrencesNoAngle(tail);
    OccurrencesLeading(b, tail);
    OccurrencesPlainChar(sep, "<" + b + ">" + tail);
    OccurrencesLeading(a, [sep] + ("<" + b + ">" + tail));
    DedupOfDistinct([a, b]);
  }

  /** Substituting into such a template yields the two values around the separator, then the tail. */
  lemma TwoPlaceholderSubstitute(s: string, a: string, sep: char, b: string, tail: string,
                                 bindings: map<string, string>)
    requires IsTokenName(a) && IsTokenName(b)
    requires sep != '<' && '<' !in tail
    requires s == "<" + a + ">" + ([sep] + ("<" + b + ">" + tail))
    requires a in bindings && b in bindings
    ensures Substitute(s, bindings) == bindings[a] + [sep] + bindings[b] + tail
  {
    SubstituteNoAngle(tail, bindings);
    SubstituteLeading(b, tail, bindings);
    SubstitutePlainChar(sep, "<" + b + ">" + tail, bindings);
    SubstituteLeading(a, [sep] + ("<" + b + ">" + tail), bindings);
  }

  /** Pairs each token with the value at the same position; the first binding of a name wins. */
  function Bind(tokens: seq<string>, values: seq<string>): (b: map<string, string>)
    requires |tokens| == |values|
    ensures b.Keys == set t | t in tokens
    ensures NoDuplicates(tokens) ==> forall i :: 0 <= i < |tokens| ==> b[tokens[i]] == values[i]
  {
    if tokens == [] then map[]
    else Bind(tokens[1..], values[1..])[tokens[0] := values[0]]
  }

  /** `c` picks, position by position, one candidate from each list. */
  predicate IsChoice(c: seq<string>, lists: seq<seq<string>>)
  {
    |c| == |lists| && forall i :: 0 <= i < |c| ==> c[i] in lists[i]
  }

  /** The number of combinations: the product of the list lengths. */
  function Product(lists: seq<seq<string>>): nat
  {
    if lists == [] then 1 else |lists[0]| * Product(lists[1..])
  }

  /** `x` put in front of every combination of `rest`. */
  function PrependEach(x: string, rest: seq<seq<string>>): (r: seq<seq<string>>)
    ensures |r| == |rest|
    ensures forall j :: 0 <= j < |r| ==> r[j] == [x] + rest[j]
  {
    seq(|rest|, j requires 0 <= j < |rest| => [x] + rest[j])
  }

  /** For each candidate of the first list, in order, every combination of the rest. */
  function PrependAll(xs: seq<string>, rest: seq<seq<string>>): (r: seq<seq<string>>)
    ensures |r| == |xs| * |rest|
    ensures forall c :: c in r <==> exists x, d :: x in xs && d in rest && c == [x] + d
  {
    if xs == [] then []
    else
      var r := PrependEach(xs[0], rest) + PrependAll(xs[1..], rest);
      assert forall c :: c in PrependEach(xs[0], rest) <==> exists d :: d in rest && c == [xs[0]] + d;
      r
  }

  /**
   * The Cartesian product of the candidate lists; the first list varies
   * slowest, like nested loops read left to right.
   */
  function CrossProduct(lists: seq<seq<string>>): (r: seq<seq<string>>)
    ensures |r| == Product(lists)
    ensures forall c :: c in r ==> IsChoice(c, lists)
    ensures forall c :: IsChoice(c, lists) ==> c in r
  {
    if lists == [] then [[]]
    else
      var rest := CrossProduct(lists[1..]);
      var r := PrependAll(lists[0], rest);
      assert forall c :: c in r ==> IsChoice(c, lists) by {
        forall c | c in r ensures IsChoice(c, lists) {
          var x, d :| x in lists[0] && d in rest && c == [x] + d;
          assert IsChoice(d, lists[1..]);
        }
      }
      assert forall c :: IsChoice(c, lists) ==> c in r by {
        forall c | IsChoice(c, lists) ensures c in r {
          assert IsChoice(c[1..], lists[1..]);
          assert c == [c[0]] + c[1..];
        }
      }
      r
  }
}
