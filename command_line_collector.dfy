/** The token segmenter: a left fold over a token list that starts with one
    empty group, opens a new group at every separator token (optionally
    seeding it with the separator) and otherwise appends to the last group,
    together with the combiner that merges two partial results. */
module CommandLineCollector {

  type Groups = seq<seq<string>>

  // ---------------------------------------------------------------------
  // Specification
  // ---------------------------------------------------------------------

  /** One step of the accumulator. */
  function Accumulate(groups: Groups, element: string, isSeparator: string -> bool, includeSeparator: bool): (r: Groups)
    requires |groups| > 0
    ensures |r| > 0
    ensures isSeparator(element) ==> |r| == |groups| + 1 && r[..|groups|] == groups
    ensures !isSeparator(element) ==> |r| == |groups| && r[..|groups| - 1] == groups[..|groups| - 1]
  {
    if isSeparator(element) then
      groups + [if includeSeparator then [element] else []]
    else
      groups[..|groups| - 1] + [groups[|groups| - 1] + [element]]
  }

  /** How many tokens of `tokens` satisfy `isSeparator`. */
  function CountSeparators(tokens: seq<string>, isSeparator: string -> bool): nat
  {
    if tokens == [] then 0
    else CountSeparators(tokens[..|tokens| - 1], isSeparator) + (if isSeparator(tokens[|tokens| - 1]) then 1 else 0)
  }

  /** The separator tokens of `tokens`, in order. */
  function Separators(tokens: seq<string>, isSeparator: string -> bool): (r: seq<string>)
    ensures |r| == CountSeparators(tokens, isSeparator)
  {
    if tokens == [] then []
    else Separators(tokens[..|tokens| - 1], isSeparator) + (if isSeparator(tokens[|tokens| - 1]) then [tokens[|tokens| - 1]] else [])
  }

  /** The result of collecting `tokens` with the accumulator, starting from
      the supplier's single empty group. There is always one group more
      than there are separators. */
  function Split(tokens: seq<string>, isSeparator: string -> bool, includeSeparator: bool): (r: Groups)
    ensures |r| == 1 + CountSeparators(tokens, isSeparator)
    ensures tokens == [] ==> r == [[]]
    decreases |tokens|
  {
    if tokens == [] then [[]]
    else Accumulate(Split(tokens[..|tokens| - 1], isSeparator, includeSeparator), tokens[|tokens| - 1], isSeparator, includeSeparator)
  }

  /** The combiner: b's first group is appended to a's last group, then b's
      remaining groups follow. */
  function Combine(a: Groups, b: Groups): (r: Groups)
    requires |a| > 0 && |b| > 0
    ensures |r| == |a| + |b| - 1
  {
    a[..|a| - 1] + [a[|a| - 1] + b[0]] + b[1..]
  }

  /** All groups concatenated. */
  function Flatten(groups: Groups): seq<string>
  {
    if groups == [] then [] else Flatten(groups[..|groups| - 1]) + groups[|groups| - 1]
  }

  /** Every token `Separators` lists is a separator. */
  lemma {:induction false} SeparatorsAreSeparators(tokens: seq<string>, isSeparator: string -> bool)
    ensures forall i :: 0 <= i < |Separators(tokens, isSeparator)| ==> isSeparator(Separators(tokens, isSeparator)[i])
    decreases |tokens|
  {
    if tokens != [] {
      SeparatorsAreSeparators(tokens[..|tokens| - 1], isSeparator);
    }
  }

  /** The groups joined back together with `separators[i]` put between
      group i and group i + 1. */
  function Join(groups: Groups, separators: seq<string>): seq<string>
    requires |groups| == |separators| + 1
  {
    if |groups| == 1 then groups[0]
    else Join(groups[..|groups| - 1], separators[..|separators| - 1]) + [separators[|separators| - 1]] + groups[|groups| - 1]
  }

  /** The shape of a result collected with the separator kept: the first
      group holds no separator, every later group is non-empty and begins
      with its separator, and no other position holds one. */
  ghost predicate SeparatorHeaded(groups: Groups, isSeparator: string -> bool)
  {
    && |groups| > 0
    && (forall j :: 0 <= j < |groups[0]| ==> !isSeparator(groups[0][j]))
    && (forall i :: 0 < i < |groups| ==> |groups[i]| > 0 && isSeparator(groups[i][0]))
    && (forall i, j :: 0 <= i < |groups| && 0 < j < |groups[i]| ==> !isSeparator(groups[i][j]))
  }

  // ---------------------------------------------------------------------
  // Laws
  // ---------------------------------------------------------------------

  lemma {:induction false} FlattenAppendToLast(groups: Groups, tail: seq<string>)
    requires |groups| > 0
    ensures Flatten(groups[..|groups| - 1] + [groups[|groups| - 1] + tail]) == Flatten(groups) + tail
  {
    var g' := groups[..|groups| - 1] + [groups[|groups| - 1] + tail];
    assert g'[..|g'| - 1] == groups[..|groups| - 1];
  }

  lemma {:induction false} FlattenAppendGroup(groups: Groups, last: seq<string>)
    ensures Flatten(groups + [last]) == Flatten(groups) + last
  {
    assert (groups + [last])[..|groups|] == groups;
  }

  /** One accumulator step, with the separator kept, appends the token to the concatenation. */
  lemma FlattenAccumulate(g: Groups, last: string, isSeparator: string -> bool)
    requires |g| > 0
    ensures Flatten(Accumulate(g, last, isSeparator, true)) == Flatten(g) + [last]
  {
    if isSeparator(last) {
      FlattenAppendGroup(g, [last]);
    } else {
      FlattenAppendToLast(g, [last]);
    }
  }

  /** Keeping the separators, concatenating all groups gives back the input. */
  lemma {:induction false} SplitKeepingSeparatorsFlattens(tokens: seq<string>, isSeparator: string -> bool)
    ensures Flatten(Split(tokens, isSeparator, true)) == tokens
    decreases |tokens|
  {
    if tokens != [] {
      var init, last := tokens[..|tokens| - 1], tokens[|tokens| - 1];
      var g := Split(init, isSeparator, true);
      SplitKeepingSeparatorsFlattens(init, isSeparator);
      assert Split(tokens, isSeparator, true) == Accumulate(g, last, isSeparator, true);
      FlattenAccumulate(g, last, isSeparator);
      assert init + [last] == tokens;
    }
  }

  lemma {:induction false} JoinAppendToLast(groups: Groups, separators: seq<string>, tail: seq<string>)
    requires |groups| == |separators| + 1
    ensures Join(groups[..|groups| - 1] + [groups[|groups| - 1] + tail], separators) == Join(groups, separators) + tail
  {
    var g' := groups[..|groups| - 1] + [groups[|groups| - 1] + tail];
    if |groups| > 1 {
      assert g'[..|g'| - 1] == groups[..|groups| - 1];
    }
  }

  /** Dropping the separators, joining the groups with the separators put
      back reconstructs the input. */
  lemma {:induction false} SplitDroppingSeparatorsJoins(tokens: seq<string>, isSeparator: string -> bool)
    ensures |Split(tokens, isSeparator, false)| == |Separators(tokens, isSeparator)| + 1
    ensures Join(Split(tokens, isSeparator, false), Separators(tokens, isSeparator)) == tokens
    decreases |tokens|
  {
    if tokens != [] {
      var init, last := tokens[..|tokens| - 1], tokens[|tokens| - 1];
      var g, s := Split(init, isSeparator, false), Separators(init, isSeparator);
      SplitDroppingSeparatorsJoins(init, isSeparator);
      if isSeparator(last) {
        var g', s' := g + [[]], s + [last];
        assert g'[..|g'| - 1] == g && s'[..|s'| - 1] == s;
        assert Join(g', s') == Join(g, s) + [last] + [];
      } else {
        assert Separators(tokens, isSeparator) == s;
        JoinAppendToLast(g, s, [last]);
      }
      assert init + [last] == tokens;
    }
  }

  /** No group holds a separator token. */
  ghost predicate SeparatorFree(groups: Groups, isSeparator: string -> bool)
  {
    forall i, j :: 0 <= i < |groups| && 0 <= j < |groups[i]| ==> !isSeparator(groups[i][j])
  }

  /** Dropping the separators, no group holds a separator token. */
  lemma {:induction false} SplitDroppingSeparatorsHasNone(tokens: seq<string>, isSeparator: string -> bool)
    ensures SeparatorFree(Split(tokens, isSeparator, false), isSeparator)
    decreases |tokens|
  {
    if tokens != [] {
      var init, last := tokens[..|tokens| - 1], tokens[|tokens| - 1];
      var g := Split(init, isSeparator, false);
      SplitDroppingSeparatorsHasNone(init, isSeparator);
      var r := Split(tokens, isSeparator, false);
      if isSeparator(last) {
        assert r == g + [[]];
        forall i, j | 0 <= i < |r| && 0 <= j < |r[i]| ensures !isSeparator(r[i][j]) {
          assert i < |g| && r[i] == g[i];
        }
      } else {
        assert forall i :: 0 <= i < |g| - 1 ==> r[i] == g[i];
        assert r[|g| - 1] == g[|g| - 1] + [last];
      }
    }
  }

  /** Keeping the separators, every group after the first starts with its
      separator and no other position holds one. */
  lemma {:induction false} SplitKeepingSeparatorsShape(tokens: seq<string>, isSeparator: string -> bool)
    ensures SeparatorHeaded(Split(tokens, isSeparator, true), isSeparator)
    decreases |tokens|
  {
    if tokens != [] {
      var init, last := tokens[..|tokens| - 1], tokens[|tokens| - 1];
      var g := Split(init, isSeparator, true);
      SplitKeepingSeparatorsShape(init, isSeparator);
      assert Split(tokens, isSeparator, true) == Accumulate(g, last, isSeparator, true);
      if isSeparator(last) {
        ShapeAfterSeparator(g, last, isSeparator);
      } else {
        ShapeAfterPlain(g, last, isSeparator);
      }
    }
  }

  lemma ShapeAfterSeparator(g: Groups, last: string, isSeparator: string -> bool)
    requires SeparatorHeaded(g, isSeparator) && isSeparator(last)
    ensures SeparatorHeaded(g + [[last]], isSeparator)
  {
    var r := g + [[last]];
    assert r[0] == g[0];
    forall i | 0 < i < |r| ensures |r[i]| > 0 && isSeparator(r[i][0]) {
      if i < |g| { assert r[i] == g[i]; }
    }
    forall i, j | 0 <= i < |r| && 0 < j < |r[i]| ensures !isSeparator(r[i][j]) {
      assert i < |g| && r[i] == g[i];
    }
  }

  lemma ShapeAfterPlain(g: Groups, last: string, isSeparator: string -> bool)
    requires SeparatorHeaded(g, isSeparator) && !isSeparator(last)
    ensures SeparatorHeaded(g[..|g| - 1] + [g[|g| - 1] + [last]], isSeparator)
  {
    var n := |g|;
    var r := g[..n - 1] + [g[n - 1] + [last]];
    assert |r| == n;
    assert r[n - 1] == g[n - 1] + [last];
    forall i | 0 <= i < n - 1 ensures r[i] == g[i] {
      assert r[i] == g[..n - 1][i];
    }
    forall j | 0 <= j < |r[0]| ensures !isSeparator(r[0][j]) {
      if n > 1 || j < |g[0]| {
        assert r[0][j] == g[0][j];
      }
    }
    forall i | 0 < i < n ensures |r[i]| > 0 && isSeparator(r[i][0]) {
      assert r[i][0] == g[i][0];
    }
    forall i, j | 0 <= i < n && 0 < j < |r[i]| ensures !isSeparator(r[i][j]) {
      if i < n - 1 || j < |g[i]| {
        assert r[i][j] == g[i][j];
      }
    }
  }

  /** A token list without separators is collected into a single group. */
  lemma {:induction false} SplitWithoutSeparators(tokens: seq<string>, isSeparator: string -> bool, includeSeparator: bool)
    requires forall j :: 0 <= j < |tokens| ==> !isSeparator(tokens[j])
    ensures Split(tokens, isSeparator, includeSeparator) == [tokens]
    decreases |tokens|
  {
    if tokens != [] {
      var init, last := tokens[..|tokens| - 1], tokens[|tokens| - 1];
      SplitWithoutSeparators(init, isSeparator, includeSeparator);
      assert !isSeparator(last);
      assert Split(tokens, isSeparator, includeSeparator) == Accumulate([init], last, isSeparator, includeSeparator);
      assert init + [last] == tokens;
    }
  }

  /** `t` is the first token of some group after the first. */
  ghost predicate HeadsLaterGroup(groups: Groups, t: string)
  {
    exists k :: 1 <= k < |groups| && |groups[k]| > 0 && groups[k][0] == t
  }

  /** Keeping the separators, every separator token of the input is the
      head of some group after the first. */
  lemma {:induction false} SeparatorHeadsAGroup(tokens: seq<string>, isSeparator: string -> bool, t: string)
    requires t in tokens && isSeparator(t)
    ensures HeadsLaterGroup(Split(tokens, isSeparator, true), t)
    decreases |tokens|
  {
    var init, last := tokens[..|tokens| - 1], tokens[|tokens| - 1];
    var g := Split(init, isSeparator, true);
    var r := Split(tokens, isSeparator, true);
    if t == last {
      assert r == g + [[t]];
      var k := |r| - 1;
      assert 1 <= k && r[k] == [t];
      assert |r[k]| > 0 && r[k][0] == t;
    } else {
      assert tokens == init + [last];
      assert t in init;
      SeparatorHeadsAGroup(init, isSeparator, t);
      var k :| 1 <= k < |g| && |g[k]| > 0 && g[k][0] == t;
      assert r[k][0] == t;
    }
  }

  /** A separator in front leaves the first group empty. */
  lemma {:induction false} LeadingSeparatorLeavesFirstGroupEmpty(tokens: seq<string>, isSeparator: string -> bool, includeSeparator: bool)
    requires |tokens| > 0 && isSeparator(tokens[0])
    ensures |Split(tokens, isSeparator, includeSeparator)| >= 2
    ensures Split(tokens, isSeparator, includeSeparator)[0] == []
    decreases |tokens|
  {
    var init, last := tokens[..|tokens| - 1], tokens[|tokens| - 1];
    if |tokens| == 1 {
      assert init == [] && last == tokens[0];
    } else {
      assert init[0] == tokens[0];
      LeadingSeparatorLeavesFirstGroupEmpty(init, isSeparator, includeSeparator);
    }
  }

  /** Keeping the separators, a single separator between two separator-free
      runs gives exactly two groups. */
  lemma SplitAtOneSeparator(before: seq<string>, separator: string, after: seq<string>, isSeparator: string -> bool)
    requires isSeparator(separator)
    requires forall j :: 0 <= j < |before| ==> !isSeparator(before[j])
    requires forall j :: 0 <= j < |after| ==> !isSeparator(after[j])
    ensures Split(before + [separator] + after, isSeparator, true) == [before, [separator] + after]
  {
    var rest := [separator] + after;
    SeparatorThenPlain(separator, after, isSeparator);
    SplitWithoutSeparators(before, isSeparator, true);
    CombineSplits(before, rest, isSeparator, true);
    assert Combine([before], [[], rest]) == [before + [], rest];
    assert before + [] == before;
    assert before + rest == before + [separator] + after;
  }

  /** Keeping the separators, a separator followed by a separator-free run
      gives an empty first group and then the whole run. */
  lemma {:induction false} SeparatorThenPlain(separator: string, after: seq<string>, isSeparator: string -> bool)
    requires isSeparator(separator)
    requires forall j :: 0 <= j < |after| ==> !isSeparator(after[j])
    ensures Split([separator] + after, isSeparator, true) == [[], [separator] + after]
    decreases |after|
  {
    var tokens := [separator] + after;
    if after == [] {
      assert tokens == [separator] && tokens[..0] == [];
      assert Split(tokens, isSeparator, true) == Accumulate([[]], separator, isSeparator, true);
      assert Accumulate([[]], separator, isSeparator, true) == [[], [separator]];
    } else {
      var init, last := after[..|after| - 1], after[|after| - 1];
      SeparatorThenPlain(separator, init, isSeparator);
      assert tokens[..|tokens| - 1] == [separator] + init;
      assert Split(tokens, isSeparator, true) == Accumulate([[], [separator] + init], last, isSeparator, true);
      assert !isSeparator(last);
      assert [separator] + init + [last] == tokens;
    }
  }

  lemma {:induction false} AccumulateCommutesWithCombine(a: Groups, b: Groups, element: string, isSeparator: string -> bool, includeSeparator: bool)
    requires |a| > 0 && |b| > 0
    ensures Accumulate(Combine(a, b), element, isSeparator, includeSeparator)
         == Combine(a, Accumulate(b, element, isSeparator, includeSeparator))
  {
    var c := Combine(a, b);
    if isSeparator(element) {
      var newGroup: seq<string> := if includeSeparator then [element] else [];
      calc {
        Accumulate(c, element, isSeparator, includeSeparator);
        c + [newGroup];
        a[..|a| - 1] + [a[|a| - 1] + b[0]] + (b[1..] + [newGroup]);
        { assert (b + [newGroup])[1..] == b[1..] + [newGroup]; }
        Combine(a, b + [newGroup]);
      }
    } else if |b| == 1 {
      assert c[..|c| - 1] == a[..|a| - 1];
      assert c[|c| - 1] == a[|a| - 1] + b[0];
      assert Accumulate(b, element, isSeparator, includeSeparator) == [b[0] + [element]];
      assert (a[|a| - 1] + b[0]) + [element] == a[|a| - 1] + (b[0] + [element]);
      assert [b[0] + [element]][1..] == [];
    } else {
      var b' := Accumulate(b, element, isSeparator, includeSeparator);
      assert b' == b[..|b| - 1] + [b[|b| - 1] + [element]];
      var pre := a[..|a| - 1] + [a[|a| - 1] + b[0]];
      assert b[1..] == b[1..|b| - 1] + [b[|b| - 1]];
      assert c == (pre + b[1..|b| - 1]) + [b[|b| - 1]];
      assert c[..|c| - 1] == pre + b[1..|b| - 1];
      assert c[|c| - 1] == b[|b| - 1];
      assert b'[0] == b[0];
      assert b'[1..] == b[1..|b| - 1] + [b[|b| - 1] + [element]];
    }
  }

  /** The combiner law: combining the results collected from two halves
      gives the result collected from the whole. */
  lemma {:induction false} CombineSplits(a: seq<string>, b: seq<string>, isSeparator: string -> bool, includeSeparator: bool)
    ensures Combine(Split(a, isSeparator, includeSeparator), Split(b, isSeparator, includeSeparator))
         == Split(a + b, isSeparator, includeSeparator)
    decreases |b|
  {
    var sa := Split(a, isSeparator, includeSeparator);
    if b == [] {
      assert a + b == a;
      assert sa[|sa| - 1] + [] == sa[|sa| - 1];
      assert sa[..|sa| - 1] + [sa[|sa| - 1]] == sa;
    } else {
      var init, last := b[..|b| - 1], b[|b| - 1];
      CombineSplits(a, init, isSeparator, includeSeparator);
      AccumulateCommutesWithCombine(sa, Split(init, isSeparator, includeSeparator), last, isSeparator, includeSeparator);
      assert (a + b)[..|a + b| - 1] == a + init;
    }
  }

  // ---------------------------------------------------------------------
  // The mutable accumulator and the collecting methods
  // ---------------------------------------------------------------------

  /** The accumulation container of the collector: a list of groups that
      `Accept` extends in place. */
  class GroupAccumulator {
    const isSeparator: string -> bool
    const includeSeparator: bool
    var groups: Groups

    ghost predicate Valid()
      reads this
    {
      |groups| > 0
    }

    /** The supplier: one empty group. */
    constructor (isSeparator: string -> bool, includeSeparator: bool)
      ensures Valid()
      ensures this.isSeparator == isSeparator && this.includeSeparator == includeSeparator
      ensures groups == [[]]
    {
      this.isSeparator := isSeparator;
      this.includeSeparator := includeSeparator;
      groups := [[]];
    }

    /** The accumulator. */
    method Accept(element: string)
      requires Valid()
      modifies this
      ensures Valid()
      ensures groups == Accumulate(old(groups), element, isSeparator, includeSeparator)
    {
      if isSeparator(element) {
        groups := groups + [[]];
        if includeSeparator {
          assert groups[|groups| - 1] + [element] == [element];
          groups := groups[|groups| - 1 := groups[|groups| - 1] + [element]];
        }
      } else {
        groups := groups[|groups| - 1 := groups[|groups| - 1] + [element]];
      }
    }

    /** The combiner: removes the first group of `other` and appends it to
        the last group here, then appends the rest of `other`. */
    method CombineWith(other: GroupAccumulator)
      requires Valid() && other.Valid() && other != this
      modifies this, other
      ensures Valid()
      ensures groups == Combine(old(groups), old(other.groups))
      ensures other.groups == old(other.groups)[1..]
    {
      var first := other.groups[0];
      other.groups := other.groups[1..];
      groups := groups[|groups| - 1 := groups[|groups| - 1] + first];
      groups := groups + other.groups;
    }
  }

  /** Collects `tokens` with the accumulator, one token at a time. */
  method SplitBySeparator(tokens: seq<string>, isSeparator: string -> bool, includeSeparator: bool) returns (groups: Groups)
    ensures groups == Split(tokens, isSeparator, includeSeparator)
  {
    var acc := new GroupAccumulator(isSeparator, includeSeparator);
    for i := 0 to |tokens|
      invariant acc.Valid()
      invariant acc.groups == Split(tokens[..i], isSeparator, includeSeparator)
    {
      assert tokens[..i + 1][..i] == tokens[..i];
      acc.Accept(tokens[i]);
    }
    assert tokens[..|tokens|] == tokens;
    groups := acc.groups;
  }

  /** The one-argument form: separators are dropped. */
  method SplitBySeparatorDroppingSeparator(tokens: seq<string>, isSeparator: string -> bool) returns (groups: Groups)
    ensures groups == Split(tokens, isSeparator, false)
    ensures forall i, j :: 0 <= i < |groups| && 0 <= j < |groups[i]| ==> !isSeparator(groups[i][j])
  {
    groups := SplitBySeparator(tokens, isSeparator, false);
    SplitDroppingSeparatorsHasNone(tokens, isSeparator);
  }
}
