/**
 Brackets that show only a name. They can be read exactly when their closing brackets can be exchanged, each for one
 of its name, so that every pair opens before it closes and no two pairs cross.
*/
module NamedBrackets {
  import opened Brackets

  // ----- A reader that sees names -----

  predicate SameName(names: seq<string>, i: nat, j: nat) {
    i < |names| && j < |names| && names[i] == names[j]
  }

  /** A reader that sees the name of a closing bracket, but not which pair it comes from. */
  function NamedOne(names: seq<string>, r: Stack, m: Mark): Stack {
    if r.Stack? && m.Close? then
      if r.open != [] && SameName(names, r.open[|r.open| - 1], m.id) then Stack(r.open[..|r.open| - 1], r.seen) else Broken
    else ReadOne(r, m)
  }

  function NamedRead(names: seq<string>, marks: seq<Mark>): Stack {
    if marks == [] then Stack([], [])
    else NamedOne(names, NamedRead(names, marks[..|marks| - 1]), marks[|marks| - 1])
  }

  lemma NamedAppend(names: seq<string>, marks: seq<Mark>, m: Mark)
    ensures NamedRead(names, marks + [m]) == NamedOne(names, NamedRead(names, marks), m)
  {
    assert (marks + [m])[..|marks|] == marks;
  }

  lemma NamedNext(names: seq<string>, marks: seq<Mark>, t: nat)
    requires t < |marks|
    ensures NamedRead(names, marks[..t + 1]) == NamedOne(names, NamedRead(names, marks[..t]), marks[t])
  {
    assert marks[..t + 1] == marks[..t] + [marks[t]];
    NamedAppend(names, marks[..t], marks[t]);
  }

  lemma {:induction false} NamedPrefix(names: seq<string>, marks: seq<Mark>, t: nat)
    requires NamedRead(names, marks).Stack? && t <= |marks|
    ensures NamedRead(names, marks[..t]).Stack?
    decreases |marks| - t
  {
    if t == |marks| {
      assert marks[..t] == marks;
    } else {
      NamedPrefix(names, marks, t + 1);
      NamedNext(names, marks, t);
    }
  }

  predicate NamedBalanced(names: seq<string>, marks: seq<Mark>) {
    NamedRead(names, marks).Stack? && NamedRead(names, marks).open == []
  }

  /** Both brackets of each of the first n pairs, and no other bracket. */
  ghost predicate AllPairs(marks: seq<Mark>, n: nat) {
    forall id: nat :: (Open(id) in marks <==> id < n) && (Close(id) in marks <==> id < n)
  }

  /** Closing bracket j is given to pair owner[j]. */
  function Hand(owner: seq<nat>, m: Mark): Mark {
    if m.Close? && m.id < |owner| then Close(owner[m.id]) else m
  }

  function Handed(owner: seq<nat>, marks: seq<Mark>): (r: seq<Mark>)
    ensures |r| == |marks| && forall k :: 0 <= k < |marks| ==> r[k] == Hand(owner, marks[k])
  {
    seq(|marks|, k requires 0 <= k < |marks| => Hand(owner, marks[k]))
  }

  /** Closing brackets are exchanged for others of the same name only. */
  ghost predicate KeepsNames(names: seq<string>, owner: seq<nat>) {
    |owner| == |names| && forall j :: 0 <= j < |owner| ==> SameName(names, owner[j], j)
  }

  /** An exchange of closing brackets within a name: every pair gets exactly one. */
  ghost predicate IsExchange(names: seq<string>, owner: seq<nat>) {
    && KeepsNames(names, owner)
    && (forall j, k :: 0 <= j < k < |owner| ==> owner[j] != owner[k])
    && (forall i: nat :: i < |names| ==> i in owner)
  }

  lemma HandedNoRepeats(names: seq<string>, marks: seq<Mark>, owner: seq<nat>)
    requires NoRepeats(marks) && AllPairs(marks, |names|) && IsExchange(names, owner)
    ensures NoRepeats(Handed(owner, marks))
  {
    forall k, l | 0 <= k < l < |marks| ensures Hand(owner, marks[k]) != Hand(owner, marks[l]) {
      assert marks[k] != marks[l] && marks[k] in marks && marks[l] in marks;
    }
  }

  lemma HandedTo(marks: seq<Mark>, owner: seq<nat>, j: nat)
    requires Close(j) in marks && j < |owner|
    ensures Handed(owner, marks)[IndexOf(marks, Close(j))] == Close(owner[j])
  {
  }

  lemma OwnerCloses(names: seq<string>, marks: seq<Mark>, owner: seq<nat>, i: nat)
    requires AllPairs(marks, |names|) && |owner| == |names| && i in owner
    ensures Close(i) in Handed(owner, marks)
  {
    var j :| 0 <= j < |owner| && owner[j] == i;
    HandedTo(marks, owner, j);
  }

  lemma HandedPaired(names: seq<string>, marks: seq<Mark>, owner: seq<nat>)
    requires AllPairs(marks, |names|) && IsExchange(names, owner)
    ensures AllPairs(Handed(owner, marks), |names|)
  {
    var handed := Handed(owner, marks);
    forall id: nat ensures Open(id) in handed <==> Open(id) in marks {
      if Open(id) in marks {
        assert handed[IndexOf(marks, Open(id))] == Open(id);
      }
    }
    forall id: nat ensures Close(id) in handed <==> id < |names| {
      if id in owner {
        OwnerCloses(names, marks, owner, id);
      }
    }
  }

  /** Brackets keep their places when they are exchanged. */
  lemma HandedPrecedes(marks: seq<Mark>, owner: seq<nat>, x: Mark, y: Mark)
    requires NoRepeats(Handed(owner, marks)) && x in marks && y in marks
    ensures Precedes(Handed(owner, marks), Hand(owner, x), Hand(owner, y)) <==> Precedes(marks, x, y)
  {
    var handed := Handed(owner, marks);
    IndexIs(handed, IndexOf(marks, x));
    IndexIs(handed, IndexOf(marks, y));
    assert handed[IndexOf(marks, x)] == Hand(owner, x) && handed[IndexOf(marks, y)] == Hand(owner, y);
  }

  ghost predicate ClosesWithin(marks: seq<Mark>, n: nat) {
    forall t :: 0 <= t < |marks| && marks[t].Close? ==> marks[t].id < n
  }

  lemma HandedNextReads(names: seq<string>, marks: seq<Mark>, owner: seq<nat>, t: nat)
    requires KeepsNames(names, owner) && t < |marks| && (marks[t].Close? ==> marks[t].id < |names|)
    requires NamedRead(names, marks[..t]) == Read(Handed(owner, marks)[..t]) && Read(Handed(owner, marks)[..t + 1]).Stack?
    ensures NamedRead(names, marks[..t + 1]) == Read(Handed(owner, marks)[..t + 1])
  {
    ReadNext(Handed(owner, marks), t);
    NamedNext(names, marks, t);
  }

  /** What can be read after an exchange can be read by names, with the same stack. */
  lemma HandedReads(names: seq<string>, marks: seq<Mark>, owner: seq<nat>, n: nat)
    requires ClosesWithin(marks, |names|) && KeepsNames(names, owner) && Read(Handed(owner, marks)).Stack? && n <= |marks|
    ensures NamedRead(names, marks[..n]) == Read(Handed(owner, marks)[..n])
  {
    for t := 0 to n
      invariant NamedRead(names, marks[..t]) == Read(Handed(owner, marks)[..t])
    {
      ReadPrefix(Handed(owner, marks), t + 1);
      HandedNextReads(names, marks, owner, t);
    }
  }

  /** The pair that is innermost when closing bracket j is read. */
  function Owner(names: seq<string>, marks: seq<Mark>, j: nat): nat {
    if Close(j) !in marks then 0
    else
      var r := NamedRead(names, marks[..IndexOf(marks, Close(j))]);
      if r.Stack? && r.open != [] then r.open[|r.open| - 1] else 0
  }

  function Owners(names: seq<string>, marks: seq<Mark>): (owner: seq<nat>)
    ensures |owner| == |names| && forall j :: 0 <= j < |names| ==> owner[j] == Owner(names, marks, j)
  {
    seq(|names|, j requires 0 <= j < |names| => Owner(names, marks, j))
  }

  /** The innermost pair has not been closed yet. */
  lemma TopIsFresh(marks: seq<Mark>)
    requires NoRepeats(marks) && Read(marks).Stack? && Read(marks).open != []
    ensures Close(Read(marks).open[|Read(marks).open| - 1]) !in marks
  {
    assert marks[..|marks|] == marks;
    StackHolds(marks, |marks|);
    var top := Read(marks).open[|Read(marks).open| - 1];
    assert top in Read(marks).open;
    assert IsOpenAt(marks, |marks|, top);
  }

  /** The first t brackets are read by names as they are when every closing bracket goes to the innermost pair. */
  ghost predicate HandsOver(names: seq<string>, marks: seq<Mark>, owner: seq<nat>, t: nat)
    requires t <= |marks|
  {
    Read(Handed(owner, marks)[..t]) == NamedRead(names, marks[..t]) && NoRepeats(Handed(owner, marks)[..t])
  }

  lemma HandNext(names: seq<string>, marks: seq<Mark>, owner: seq<nat>, t: nat)
    requires t < |marks| && NamedRead(names, marks[..t]).Stack? && NamedRead(names, marks[..t + 1]).Stack?
    requires Read(Handed(owner, marks)[..t]) == NamedRead(names, marks[..t])
    requires marks[t].Close? ==> marks[t].id < |owner| && owner[marks[t].id] == Owner(names, marks, marks[t].id)
    requires NoRepeats(marks)
    ensures Read(Handed(owner, marks)[..t + 1]) == NamedRead(names, marks[..t + 1])
    ensures marks[t].Close? ==>
      var open := Read(Handed(owner, marks)[..t]).open; open != [] && Handed(owner, marks)[t] == Close(open[|open| - 1])
  {
    NamedNext(names, marks, t);
    ReadNext(Handed(owner, marks), t);
    IndexIs(marks, t);
  }

  lemma NoRepeatsNext(marks: seq<Mark>, t: nat)
    requires t < |marks| && NoRepeats(marks[..t]) && marks[t] !in marks[..t]
    ensures NoRepeats(marks[..t + 1])
  {
    assert marks[..t + 1] == marks[..t] + [marks[t]];
  }

  lemma HandsOverNext(names: seq<string>, marks: seq<Mark>, owner: seq<nat>, t: nat)
    requires NoRepeats(marks) && t < |marks| && HandsOver(names, marks, owner, t)
    requires NamedRead(names, marks[..t]).Stack? && NamedRead(names, marks[..t + 1]).Stack?
    requires marks[t].Close? ==> marks[t].id < |owner| && owner[marks[t].id] == Owner(names, marks, marks[t].id)
    ensures HandsOver(names, marks, owner, t + 1)
  {
    HandNext(names, marks, owner, t);
    if marks[t].Close? {
      TopIsFresh(Handed(owner, marks)[..t]);
    }
    NoRepeatsNext(Handed(owner, marks), t);
  }

  /** What can be read by names can be read when every closing bracket goes to the innermost pair. */
  lemma NamedHands(names: seq<string>, marks: seq<Mark>)
    requires NoRepeats(marks) && AllPairs(marks, |names|) && NamedRead(names, marks).Stack?
    ensures HandsOver(names, marks, Owners(names, marks), |marks|)
  {
    var owner := Owners(names, marks);
    for t := 0 to |marks|
      invariant HandsOver(names, marks, owner, t)
    {
      NamedPrefix(names, marks, t);
      NamedPrefix(names, marks, t + 1);
      HandsOverNext(names, marks, owner, t);
    }
  }

  lemma OwnerHasTheName(names: seq<string>, marks: seq<Mark>, j: nat)
    requires AllPairs(marks, |names|) && NamedRead(names, marks).Stack? && j < |names|
    ensures SameName(names, Owner(names, marks, j), j)
  {
    var t := IndexOf(marks, Close(j));
    NamedPrefix(names, marks, t + 1);
    NamedNext(names, marks, t);
  }

  lemma OwnersDiffer(names: seq<string>, marks: seq<Mark>, owner: seq<nat>, j: nat, k: nat)
    requires AllPairs(marks, |names|) && |owner| == |names| && NoRepeats(Handed(owner, marks)) && j < k < |names|
    ensures owner[j] != owner[k]
  {
    var a, b := IndexOf(marks, Close(j)), IndexOf(marks, Close(k));
    HandedTo(marks, owner, j);
    HandedTo(marks, owner, k);
    assert marks[a] != marks[b];
    assert a < b ==> Handed(owner, marks)[a] != Handed(owner, marks)[b];
    assert b < a ==> Handed(owner, marks)[b] != Handed(owner, marks)[a];
  }

  lemma OpenedIsClosed(names: seq<string>, marks: seq<Mark>, owner: seq<nat>, i: nat)
    requires AllPairs(marks, |names|) && NoRepeats(Handed(owner, marks)) && Balanced(Handed(owner, marks)) && i < |names|
    ensures Close(i) in Handed(owner, marks)
  {
    var handed := Handed(owner, marks);
    assert handed[..|handed|] == handed;
    StackHolds(handed, |handed|);
    assert handed[IndexOf(marks, Open(i))] == Open(i);
    assert !IsOpenAt(handed, |handed|, i);
  }

  lemma OwnersExchange(names: seq<string>, marks: seq<Mark>)
    requires NoRepeats(marks) && AllPairs(marks, |names|) && NamedBalanced(names, marks)
    ensures IsExchange(names, Owners(names, marks)) && Balanced(Handed(Owners(names, marks), marks))
  {
    var owner, n := Owners(names, marks), |marks|;
    var handed := Handed(owner, marks);
    NamedHands(names, marks);
    assert marks[..n] == marks && handed[..n] == handed;
    forall j | 0 <= j < |names| ensures SameName(names, owner[j], j) {
      OwnerHasTheName(names, marks, j);
    }
    forall j, k | 0 <= j < k < |names| ensures owner[j] != owner[k] {
      OwnersDiffer(names, marks, owner, j, k);
    }
    forall i: nat | i < |names| ensures i in owner {
      OpenedIsClosed(names, marks, owner, i);
    }
  }

  ghost predicate ExchangeNests(names: seq<string>, marks: seq<Mark>, owner: seq<nat>) {
    IsExchange(names, owner) && WellNested(Handed(owner, marks))
  }

  lemma ExchangeReads(names: seq<string>, marks: seq<Mark>, owner: seq<nat>)
    requires NoRepeats(marks) && AllPairs(marks, |names|) && ExchangeNests(names, marks, owner)
    ensures Balanced(Handed(owner, marks)) && NamedRead(names, marks) == Read(Handed(owner, marks))
  {
    var handed := Handed(owner, marks);
    HandedNoRepeats(names, marks, owner);
    HandedPaired(names, marks, owner);
    BalancedIffWellNested(handed);
    assert marks[..|marks|] == marks && handed[..|marks|] == handed;
    HandedReads(names, marks, owner, |marks|);
  }

  /**
   Named brackets can be read if and only if their closing brackets can be exchanged, each for one of its name, so
   that every pair opens before it closes and no two pairs cross.
  */
  lemma NamedBalancedIffExchange(names: seq<string>, marks: seq<Mark>)
    requires NoRepeats(marks) && AllPairs(marks, |names|)
    ensures NamedBalanced(names, marks) <==> exists owner :: ExchangeNests(names, marks, owner)
  {
    if NamedBalanced(names, marks) {
      var owner := Owners(names, marks);
      OwnersExchange(names, marks);
      HandedNoRepeats(names, marks, owner);
      HandedPaired(names, marks, owner);
      BalancedIffWellNested(Handed(owner, marks));
      assert ExchangeNests(names, marks, owner);
    }
    if owner :| ExchangeNests(names, marks, owner) {
      ExchangeReads(names, marks, owner);
    }
  }

  lemma OwnerIsTop(names: seq<string>, marks: seq<Mark>, owner: seq<nat>, j: nat)
    requires Close(j) in marks && j < |owner| && Read(Handed(owner, marks)).Stack?
    requires var t := IndexOf(marks, Close(j)); NamedRead(names, marks[..t]) == Read(Handed(owner, marks)[..t])
    ensures owner[j] == Owner(names, marks, j)
  {
    HandedTo(marks, owner, j);
    ReadClosesTop(Handed(owner, marks), IndexOf(marks, Close(j)));
  }

  lemma OwnerIsInnermost(names: seq<string>, marks: seq<Mark>, owner: seq<nat>, j: nat)
    requires AllPairs(marks, |names|) && KeepsNames(names, owner) && Read(Handed(owner, marks)).Stack? && j < |owner|
    ensures owner[j] == Owner(names, marks, j)
  {
    assert Close(j) in marks;
    HandedReads(names, marks, owner, IndexOf(marks, Close(j)));
    OwnerIsTop(names, marks, owner, j);
  }

  /** There is no choice: an exchange that nests gives every closing bracket to the innermost pair. */
  lemma ExchangeIsUnique(names: seq<string>, marks: seq<Mark>, owner: seq<nat>)
    requires NoRepeats(marks) && AllPairs(marks, |names|) && ExchangeNests(names, marks, owner)
    ensures owner == Owners(names, marks)
  {
    ExchangeReads(names, marks, owner);
    forall j | 0 <= j < |owner| ensures owner[j] == Owner(names, marks, j) {
      OwnerIsInnermost(names, marks, owner, j);
    }
  }

  // ----- When names are enough -----

  /** No pair ends while another one of its name is open. */
  ghost predicate Unambiguous(names: seq<string>, marks: seq<Mark>) {
    forall i: nat, j: nat :: i != j && SameName(names, i, j) ==>
      !(Precedes(marks, Open(i), Close(j)) && Precedes(marks, Close(j), Close(i)))
  }

  /** The innermost pair has been opened and not yet closed. */
  lemma TopIsOpen(marks: seq<Mark>, t: nat, n: nat)
    requires NoRepeats(marks) && AllPairs(marks, n) && t < |marks| && marks[t].Close?
    requires Read(marks[..t]).Stack? && Read(marks[..t]).open != []
    ensures var open := Read(marks[..t]).open;
      var top := open[|open| - 1];
      && top < n && Precedes(marks, Open(top), marks[t])
      && (top != marks[t].id ==> Precedes(marks, marks[t], Close(top)))
  {
    var open := Read(marks[..t]).open;
    var top := open[|open| - 1];
    StackHolds(marks, t);
    IndexIs(marks, t);
    assert top in open && IsOpenAt(marks, t, top);
    assert Open(top) in marks && Close(top) in marks;
    assert marks[IndexOf(marks, Close(top))] == Close(top);
  }

  lemma UnambiguousNext(names: seq<string>, marks: seq<Mark>, t: nat)
    requires NoRepeats(marks) && AllPairs(marks, |names|) && Unambiguous(names, marks) && t < |marks|
    requires NamedRead(names, marks[..t]) == Read(marks[..t])
    ensures NamedRead(names, marks[..t + 1]) == Read(marks[..t + 1])
  {
    ReadNext(marks, t);
    NamedNext(names, marks, t);
    if Read(marks[..t]).Stack? && marks[t].Close? && Read(marks[..t]).open != [] {
      TopIsOpen(marks, t, |names|);
    }
  }

  /** Then the names are read like the identities. */
  lemma UnambiguousReads(names: seq<string>, marks: seq<Mark>)
    requires NoRepeats(marks) && AllPairs(marks, |names|) && Unambiguous(names, marks)
    ensures NamedRead(names, marks) == Read(marks)
  {
    for t := 0 to |marks|
      invariant NamedRead(names, marks[..t]) == Read(marks[..t])
    {
      UnambiguousNext(names, marks, t);
    }
    assert marks[..|marks|] == marks;
  }

  /** Handing every bracket to its own pair changes nothing. */
  lemma ReadIsNamed(names: seq<string>, marks: seq<Mark>)
    requires AllPairs(marks, |names|) && Read(marks).Stack?
    ensures NamedRead(names, marks) == Read(marks)
  {
    var own := seq(|names|, j requires 0 <= j < |names| => j);
    assert Handed(own, marks) == marks && marks[..|marks|] == marks;
    HandedReads(names, marks, own, |marks|);
  }
}
