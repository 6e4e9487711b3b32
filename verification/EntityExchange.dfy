/**
 When the rendered tags are balanced, for every entity list. A closing tag shows only its name, so it closes the
 innermost open tag if that has the same name, whichever entity it belongs to. The tags are balanced exactly when the
 entities can exchange their ends, each with one of its name, so that they become nested.
*/
module EntityExchange {
  import opened EntityRendering
  import opened EntityNesting
  import B = Brackets
  import N = NamedBrackets

  // ----- Entities with exchanged ends -----

  predicate OpensBefore(spans: seq<Span>, i: nat, j: nat)
    requires i < |spans| && j < |spans|
  {
    spans[i].start < spans[j].start || (spans[i].start == spans[j].start && i < j)
  }

  predicate EndsBefore(spans: seq<Span>, i: nat, j: nat)
    requires i < |spans| && j < |spans|
  {
    spans[i].end < spans[j].end || (spans[i].end == spans[j].end && i < j)
  }

  /** Entity owner[j] ends where entity j does, and owner[k] where k does: do they cross? */
  predicate CrossAfter(spans: seq<Span>, owner: seq<nat>, j: nat, k: nat)
    requires j < |owner| && k < |owner| && owner[j] < |spans| && owner[k] < |spans| && |owner| == |spans|
  {
    OpensBefore(spans, owner[j], owner[k]) && spans[owner[k]].start < spans[j].end && EndsBefore(spans, j, k)
  }

  /** The entities exchange their ends within their names; then none is empty and no two cross. */
  ghost predicate NestedAfter(spans: seq<Span>, owner: seq<nat>) {
    && N.IsExchange(Names(spans), owner)
    && (forall j :: 0 <= j < |spans| ==> spans[owner[j]].start < spans[j].end)
    && (forall j, k :: 0 <= j < |spans| && 0 <= k < |spans| ==> !CrossAfter(spans, owner, j, k))
  }

  /** Keeping all ends is an exchange, and the nested lists are those that are nested after it. */
  lemma NestedKeepsEnds(spans: seq<Span>, own: seq<nat>)
    requires |own| == |spans| && forall j :: 0 <= j < |own| ==> own[j] == j
    ensures Nested(spans) <==> NestedAfter(spans, own)
  {
    forall i: nat | i < |spans| ensures i in own {
      assert own[i] == i;
    }
    if Nested(spans) {
      forall j, k | 0 <= j < |spans| && 0 <= k < |spans| ensures !CrossAfter(spans, own, j, k) {
        assert j < k ==> Compatible(spans[j], spans[k]);
        assert k < j ==> Compatible(spans[k], spans[j]);
      }
    }
    if NestedAfter(spans, own) {
      forall i, j | 0 <= i < j < |spans| ensures Compatible(spans[i], spans[j]) {
        assert !CrossAfter(spans, own, i, j) && !CrossAfter(spans, own, j, i);
      }
      forall i | 0 <= i < |spans| ensures spans[i].start < spans[i].end {
        assert spans[own[i]].start < spans[i].end;
      }
    }
  }

  // ----- The tags with exchanged ends -----

  lemma PairAfter(spans: seq<Span>, marks: seq<B.Mark>, owner: seq<nat>, j: nat)
    requires Regular(spans, marks) && N.IsExchange(Names(spans), owner) && B.NoRepeats(N.Handed(owner, marks)) && j < |spans|
    ensures B.Precedes(N.Handed(owner, marks), B.Open(owner[j]), B.Close(owner[j])) <==>
            spans[owner[j]].start < spans[j].end
  {
    assert N.SameName(Names(spans), owner[j], j);
    N.HandedPrecedes(marks, owner, B.Open(owner[j]), B.Close(j));
    PrecedesIsLess(spans, marks, B.Open(owner[j]), B.Close(j));
  }

  lemma CrossesIsCrossAfter(spans: seq<Span>, marks: seq<B.Mark>, owner: seq<nat>, j: nat, k: nat)
    requires Regular(spans, marks) && N.IsExchange(Names(spans), owner) && B.NoRepeats(N.Handed(owner, marks))
    requires j < |spans| && k < |spans| && owner[j] < |spans| && owner[k] < |spans|
    ensures B.Crosses(N.Handed(owner, marks), owner[j], owner[k]) <==> CrossAfter(spans, owner, j, k)
  {
    N.HandedPrecedes(marks, owner, B.Open(owner[j]), B.Open(owner[k]));
    N.HandedPrecedes(marks, owner, B.Open(owner[k]), B.Close(j));
    N.HandedPrecedes(marks, owner, B.Close(j), B.Close(k));
    PrecedesIsLess(spans, marks, B.Open(owner[j]), B.Open(owner[k]));
    PrecedesIsLess(spans, marks, B.Open(owner[k]), B.Close(j));
    PrecedesIsLess(spans, marks, B.Close(j), B.Close(k));
  }

  lemma OwnerOf(names: seq<string>, owner: seq<nat>, i: nat) returns (j: nat)
    requires N.IsExchange(names, owner) && i < |names|
    ensures j < |owner| && owner[j] == i
  {
    assert i in owner;
    j :| 0 <= j < |owner| && owner[j] == i;
  }

  lemma WellNestedAfter(spans: seq<Span>, marks: seq<B.Mark>, owner: seq<nat>)
    requires Regular(spans, marks) && NestedAfter(spans, owner)
    ensures B.WellNested(N.Handed(owner, marks))
  {
    var handed, names := N.Handed(owner, marks), Names(spans);
    N.HandedNoRepeats(names, marks, owner);
    N.HandedPaired(names, marks, owner);
    forall i: nat | B.Open(i) in handed ensures B.Precedes(handed, B.Open(i), B.Close(i)) {
      var j := OwnerOf(names, owner, i);
      PairAfter(spans, marks, owner, j);
    }
    forall i: nat, l: nat ensures !B.Crosses(handed, i, l) {
      if i < |spans| && l < |spans| {
        var j := OwnerOf(names, owner, i);
        var k := OwnerOf(names, owner, l);
        CrossesIsCrossAfter(spans, marks, owner, j, k);
      }
    }
  }

  lemma NestedAfterWellNested(spans: seq<Span>, marks: seq<B.Mark>, owner: seq<nat>)
    requires Regular(spans, marks) && N.ExchangeNests(Names(spans), marks, owner)
    ensures NestedAfter(spans, owner)
  {
    var handed, names := N.Handed(owner, marks), Names(spans);
    N.HandedNoRepeats(names, marks, owner);
    N.HandedPaired(names, marks, owner);
    forall j | 0 <= j < |spans| ensures owner[j] < |spans| && spans[owner[j]].start < spans[j].end {
      assert N.SameName(names, owner[j], j);
      assert B.Open(owner[j]) in handed;
      PairAfter(spans, marks, owner, j);
    }
    forall j, k | 0 <= j < |spans| && 0 <= k < |spans| ensures !CrossAfter(spans, owner, j, k) {
      CrossesIsCrossAfter(spans, marks, owner, j, k);
    }
  }

  lemma ExchangeNestsIffNestedAfter(spans: seq<Span>, marks: seq<B.Mark>, owner: seq<nat>)
    requires Regular(spans, marks)
    ensures N.ExchangeNests(Names(spans), marks, owner) <==> NestedAfter(spans, owner)
  {
    if N.ExchangeNests(Names(spans), marks, owner) {
      NestedAfterWellNested(spans, marks, owner);
    }
    if NestedAfter(spans, owner) {
      WellNestedAfter(spans, marks, owner);
    }
  }

  lemma SpansCloseIffExchange(text: string, spans: seq<Span>)
    requires Within(spans, |text|)
    ensures TagsClose(text, spans) <==> exists owner :: NestedAfter(spans, owner)
  {
    var marks := Marks(spans, |text|);
    MarksAreRegular(spans, |text|);
    TagsCloseIffNamed(text, spans);
    N.NamedBalancedIffExchange(Names(spans), marks);
    forall owner ensures N.ExchangeNests(Names(spans), marks, owner) <==> NestedAfter(spans, owner) {
      ExchangeNestsIffNestedAfter(spans, marks, owner);
    }
  }

  /**
   For every text and entity list the rendered tags are balanced if and only if the usable entities can exchange their
   ends within their names so that they are nested.
  */
  lemma TagsCloseIffExchange(text: string, entities: seq<Entity>)
    ensures TagsClose(text, Spans(text, entities)) <==> exists owner :: NestedAfter(Spans(text, entities), owner)
  {
    SpansWithin(text, entities);
    SpansCloseIffExchange(text, Spans(text, entities));
  }

  /** There is at most one such exchange. */
  lemma ExchangeIsUnique(spans: seq<Span>, n: nat, a: seq<nat>, b: seq<nat>)
    requires Within(spans, n) && NestedAfter(spans, a) && NestedAfter(spans, b)
    ensures a == b
  {
    var marks := Marks(spans, n);
    MarksAreRegular(spans, n);
    ExchangeNestsIffNestedAfter(spans, marks, a);
    ExchangeNestsIffNestedAfter(spans, marks, b);
    N.ExchangeIsUnique(Names(spans), marks, a);
    N.ExchangeIsUnique(Names(spans), marks, b);
  }

  // ----- Entities over the same runes -----

  ghost predicate AllOver(spans: seq<Span>, start: nat, end: nat) {
    forall i :: 0 <= i < |spans| ==> spans[i].start == start && spans[i].end == end
  }

  ghost predicate Palindrome(names: seq<string>) {
    forall i :: 0 <= i < |names| ==> names[i] == names[|names| - 1 - i]
  }

  function Backwards(n: nat): (owner: seq<nat>)
    ensures |owner| == n && forall j :: 0 <= j < n ==> owner[j] == n - 1 - j
  {
    seq(n, j requires 0 <= j < n => n - 1 - j)
  }

  lemma DecreasingIsBackwards(owner: seq<nat>)
    requires forall j :: 0 <= j < |owner| ==> owner[j] < |owner|
    requires forall j, k :: 0 <= j < k < |owner| ==> owner[j] > owner[k]
    ensures owner == Backwards(|owner|)
  {
    var n := |owner|;
    for j := 0 to n
      invariant forall i :: 0 <= i < j ==> owner[i] <= n - 1 - i
    {
      assert j > 0 ==> owner[j - 1] > owner[j];
    }
    for j := n downto 0
      invariant forall i :: j <= i < n ==> owner[i] >= n - 1 - i
    {
      assert j < n - 1 ==> owner[j] > owner[j + 1];
    }
  }

  lemma SameRunesDecrease(spans: seq<Span>, start: nat, end: nat, owner: seq<nat>, j: nat, k: nat)
    requires AllOver(spans, start, end) && start < end && |owner| == |spans| && j < k < |owner|
    requires owner[j] < |spans| && owner[k] < |spans| && owner[j] != owner[k] && !CrossAfter(spans, owner, j, k)
    ensures owner[j] > owner[k]
  {
  }

  lemma OwnerInRange(names: seq<string>, owner: seq<nat>, j: nat)
    requires N.IsExchange(names, owner) && j < |owner|
    ensures owner[j] < |names| && names[owner[j]] == names[j]
  {
    assert N.SameName(names, owner[j], j);
  }

  lemma SameRunesExchange(spans: seq<Span>, start: nat, end: nat, owner: seq<nat>)
    requires AllOver(spans, start, end) && start < end && NestedAfter(spans, owner)
    ensures owner == Backwards(|spans|)
  {
    forall j | 0 <= j < |owner| ensures owner[j] < |owner| {
      OwnerInRange(Names(spans), owner, j);
    }
    forall j, k | 0 <= j < k < |owner| ensures owner[j] > owner[k] {
      SameRunesDecrease(spans, start, end, owner, j, k);
    }
    DecreasingIsBackwards(owner);
  }

  lemma BackwardsExchanges(names: seq<string>)
    requires Palindrome(names)
    ensures N.IsExchange(names, Backwards(|names|))
  {
    var owner := Backwards(|names|);
    forall i: nat | i < |names| ensures i in owner {
      assert owner[|names| - 1 - i] == i;
    }
  }

  lemma BackwardsIsPalindrome(names: seq<string>)
    requires N.IsExchange(names, Backwards(|names|))
    ensures Palindrome(names)
  {
    forall i | 0 <= i < |names| ensures names[i] == names[|names| - 1 - i] {
      OwnerInRange(names, Backwards(|names|), i);
    }
  }

  lemma BackwardsNests(spans: seq<Span>, start: nat, end: nat)
    requires AllOver(spans, start, end) && start < end && Palindrome(Names(spans))
    ensures NestedAfter(spans, Backwards(|spans|))
  {
    BackwardsExchanges(Names(spans));
  }

  /** Entities over the same runes render balanced if and only if their names read the same backwards. */
  lemma SameRunesIffPalindrome(text: string, spans: seq<Span>, start: nat, end: nat)
    requires AllOver(spans, start, end) && start < end <= |text|
    ensures TagsClose(text, spans) <==> Palindrome(Names(spans))
  {
    SpansCloseIffExchange(text, spans);
    if owner :| NestedAfter(spans, owner) {
      SameRunesExchange(spans, start, end, owner);
      BackwardsIsPalindrome(Names(spans));
    }
    if Palindrome(Names(spans)) {
      BackwardsNests(spans, start, end);
    }
  }

  // ----- Names are not always enough -----

  /** Two entities of one name over the same runes are balanced, though each closes the other's tag. */
  lemma TwinsAreBalanced(text: string, start: nat, end: nat, style: Style)
    requires start < end <= |text|
    ensures var twins := [Span(start, end, style), Span(start, end, style)];
      TagsClose(text, twins) && !Nested(twins) && !Distinguishable(twins)
  {
    var twins := [Span(start, end, style), Span(start, end, style)];
    SameRunesIffPalindrome(text, twins, start, end);
    assert !Compatible(twins[0], twins[1]);
    assert twins[0].start < twins[1].end <= twins[0].end;
  }

  lemma SwapOfTwo(names: seq<string>)
    requires |names| == 2 && names[0] == names[1]
    ensures N.IsExchange(names, Backwards(2))
  {
    BackwardsExchanges(names);
  }

  /** Two entities of one name, the second one empty and inside the first. */
  ghost predicate EmptyInside(spans: seq<Span>) {
    && |spans| == 2 && TagName(spans[0].style) == TagName(spans[1].style)
    && spans[0].start < spans[1].start == spans[1].end < spans[0].end
  }

  lemma EmptyInsideExchanges(spans: seq<Span>)
    requires EmptyInside(spans)
    ensures NestedAfter(spans, Backwards(2))
  {
    SwapOfTwo(Names(spans));
    assert Backwards(2)[0] == 1 && Backwards(2)[1] == 0;
  }

  /** So are these: the empty entity ends the first half of the other one and starts the second. */
  lemma EmptyInsideIsBalanced(text: string, spans: seq<Span>)
    requires EmptyInside(spans) && Within(spans, |text|)
    ensures TagsClose(text, spans) && !Nested(spans) && !Distinguishable(spans)
  {
    SpansCloseIffExchange(text, spans);
    EmptyInsideExchanges(spans);
  }
}
