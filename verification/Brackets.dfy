/**
 Sequences of opening and closing brackets with identities, read with a stack: when no bracket occurs twice, the
 reading succeeds exactly when every pair opens before it closes and no two pairs cross.
*/
module Brackets {

  /** An opening or closing bracket of a pair, or content. */
  datatype Mark = Open(id: nat) | Close(id: nat) | Glyph(pos: nat)

  /** The open pairs, outermost first, and for every piece of content read the pairs around it. */
  datatype Stack = Stack(open: seq<nat>, seen: seq<seq<nat>>) | Broken

  function ReadOne(r: Stack, m: Mark): Stack {
    match (r, m)
    case (Broken, _) => Broken
    case (Stack(open, seen), Open(id)) => Stack(open + [id], seen)
    case (Stack(open, seen), Close(id)) =>
      if open != [] && open[|open| - 1] == id then Stack(open[..|open| - 1], seen) else Broken
    case (Stack(open, seen), Glyph(_)) => Stack(open, seen + [open])
  }

  function Read(marks: seq<Mark>): Stack {
    if marks == [] then Stack([], []) else ReadOne(Read(marks[..|marks| - 1]), marks[|marks| - 1])
  }

  lemma ReadAppend(marks: seq<Mark>, m: Mark)
    ensures Read(marks + [m]) == ReadOne(Read(marks), m)
  {
    assert (marks + [m])[..|marks|] == marks;
  }

  lemma ReadNext(marks: seq<Mark>, t: nat)
    requires t < |marks|
    ensures Read(marks[..t + 1]) == ReadOne(Read(marks[..t]), marks[t])
  {
    assert marks[..t + 1] == marks[..t] + [marks[t]];
    ReadAppend(marks[..t], marks[t]);
  }

  /** A failed reading stays failed. */
  lemma {:induction false} ReadPrefix(marks: seq<Mark>, t: nat)
    requires Read(marks).Stack? && t <= |marks|
    ensures Read(marks[..t]).Stack?
    decreases |marks| - t
  {
    if t == |marks| {
      assert marks[..t] == marks;
    } else {
      ReadPrefix(marks, t + 1);
      ReadNext(marks, t);
    }
  }

  lemma ReadStart(start: seq<Mark>, marks: seq<Mark>)
    requires start <= marks && Read(marks).Stack?
    ensures Read(start).Stack?
  {
    assert marks[..|start|] == start;
    ReadPrefix(marks, |start|);
  }

  ghost predicate NoRepeats(marks: seq<Mark>) {
    forall i, j :: 0 <= i < j < |marks| ==> marks[i] != marks[j]
  }

  function IndexOf(marks: seq<Mark>, m: Mark): (i: nat)
    requires m in marks
    ensures i < |marks| && marks[i] == m
  {
    if marks[|marks| - 1] == m then |marks| - 1 else IndexOf(marks[..|marks| - 1], m)
  }

  /** The mark occurs among the first t. */
  predicate Before(marks: seq<Mark>, t: int, m: Mark) {
    m in marks && IndexOf(marks, m) < t
  }

  predicate Precedes(marks: seq<Mark>, x: Mark, y: Mark) {
    x in marks && y in marks && IndexOf(marks, x) < IndexOf(marks, y)
  }

  lemma IndexIs(marks: seq<Mark>, i: nat)
    requires NoRepeats(marks) && i < |marks|
    ensures IndexOf(marks, marks[i]) == i
  {
    var j := IndexOf(marks, marks[i]);
    assert marks[j] == marks[i];
    assert !(i < j) && !(j < i);
  }

  // ----- What the stack holds -----

  predicate IsOpenAt(marks: seq<Mark>, t: int, id: nat) {
    Before(marks, t, Open(id)) && !Before(marks, t, Close(id))
  }

  /**
   After t marks the stack holds the pairs opened and not closed, in the order of their opening brackets, and what
   is closed was opened before.
  */
  ghost predicate StackIsRight(marks: seq<Mark>, t: int, open: seq<nat>) {
    && (forall id: nat :: id in open <==> IsOpenAt(marks, t, id))
    && (forall a, b :: 0 <= a < b < |open| ==> Precedes(marks, Open(open[a]), Open(open[b])))
    && (forall id: nat :: Before(marks, t, Close(id)) ==> Precedes(marks, Open(id), Close(id)))
  }

  lemma PushKeepsStack(marks: seq<Mark>, t: nat, open: seq<nat>)
    requires NoRepeats(marks) && t < |marks| && marks[t].Open? && StackIsRight(marks, t, open)
    ensures StackIsRight(marks, t + 1, open + [marks[t].id])
  {
    var id, now := marks[t].id, open + [marks[t].id];
    IndexIs(marks, t);
    forall other: nat ensures other in now <==> IsOpenAt(marks, t + 1, other) {
      assert other in now <==> other in open || other == id;
    }
    forall a, b | 0 <= a < b < |now| ensures Precedes(marks, Open(now[a]), Open(now[b])) {
      if b == |open| {
        assert open[a] in open;
        assert IsOpenAt(marks, t, open[a]);
      }
    }
  }

  lemma PopKeepsStack(marks: seq<Mark>, t: nat, open: seq<nat>)
    requires NoRepeats(marks) && t < |marks| && marks[t].Close? && StackIsRight(marks, t, open)
    requires open != [] && open[|open| - 1] == marks[t].id
    ensures StackIsRight(marks, t + 1, open[..|open| - 1])
  {
    var id, rest := marks[t].id, open[..|open| - 1];
    IndexIs(marks, t);
    assert open == rest + [id];
    assert id in open && IsOpenAt(marks, t, id);
    forall a | 0 <= a < |rest| ensures rest[a] != id {
      assert Precedes(marks, Open(open[a]), Open(open[|open| - 1]));
    }
    forall other: nat ensures other in rest <==> IsOpenAt(marks, t + 1, other) {
      assert other in open <==> other in rest || other == id;
    }
    forall a, b | 0 <= a < b < |rest| ensures Precedes(marks, Open(rest[a]), Open(rest[b])) {
      assert rest[a] == open[a] && rest[b] == open[b];
    }
  }

  lemma GlyphKeepsStack(marks: seq<Mark>, t: nat, open: seq<nat>)
    requires NoRepeats(marks) && t < |marks| && marks[t].Glyph? && StackIsRight(marks, t, open)
    ensures StackIsRight(marks, t + 1, open)
  {
    assert forall m: Mark :: !m.Glyph? ==> (Before(marks, t + 1, m) <==> Before(marks, t, m));
  }

  lemma {:induction false} StackHolds(marks: seq<Mark>, t: nat)
    requires NoRepeats(marks) && t <= |marks| && Read(marks[..t]).Stack?
    ensures StackIsRight(marks, t, Read(marks[..t]).open)
  {
    if t > 0 {
      ReadNext(marks, t - 1);
      StackHolds(marks, t - 1);
      var open := Read(marks[..t - 1]).open;
      match marks[t - 1]
      case Open(_) => PushKeepsStack(marks, t - 1, open);
      case Close(_) => PopKeepsStack(marks, t - 1, open);
      case Glyph(_) => GlyphKeepsStack(marks, t - 1, open);
    }
  }

  // ----- When the reading succeeds -----

  /** Every bracket has its counterpart somewhere. */
  ghost predicate Paired(marks: seq<Mark>) {
    forall id: nat :: Open(id) in marks <==> Close(id) in marks
  }

  predicate Balanced(marks: seq<Mark>) {
    Read(marks).Stack? && Read(marks).open == []
  }

  predicate Crosses(marks: seq<Mark>, i: nat, j: nat) {
    Precedes(marks, Open(i), Open(j)) && Precedes(marks, Open(j), Close(i)) && Precedes(marks, Close(i), Close(j))
  }

  ghost predicate WellNested(marks: seq<Mark>) {
    && (forall id: nat :: Open(id) in marks ==> Precedes(marks, Open(id), Close(id)))
    && (forall i: nat, j: nat :: !Crosses(marks, i, j))
  }

  /** The pair to be closed is on top, or it would cross the one that is. */
  lemma TopIsClosed(marks: seq<Mark>, t: nat)
    requires NoRepeats(marks) && Paired(marks) && WellNested(marks)
    requires t < |marks| && marks[t].Close? && Read(marks[..t]).Stack?
    ensures var open := Read(marks[..t]).open; open != [] && open[|open| - 1] == marks[t].id
  {
    var id, open := marks[t].id, Read(marks[..t]).open;
    StackHolds(marks, t);
    IndexIs(marks, t);
    assert Open(id) in marks && IsOpenAt(marks, t, id);
    assert id in open;
    var a :| 0 <= a < |open| && open[a] == id;
    var top := open[|open| - 1];
    assert top in open && IsOpenAt(marks, t, top);
    assert Open(top) in marks && Close(top) in marks;
    assert !Crosses(marks, id, top);
    assert a < |open| - 1 ==> Precedes(marks, Open(id), Open(top));
    assert marks[IndexOf(marks, Close(top))] == Close(top);
  }

  lemma {:induction false} NestedReads(marks: seq<Mark>, t: nat)
    requires NoRepeats(marks) && Paired(marks) && WellNested(marks) && t <= |marks|
    ensures Read(marks[..t]).Stack?
  {
    if t > 0 {
      NestedReads(marks, t - 1);
      ReadNext(marks, t - 1);
      if marks[t - 1].Close? {
        TopIsClosed(marks, t - 1);
      }
    }
  }

  lemma ReadClosesTop(marks: seq<Mark>, t: nat)
    requires t < |marks| && marks[t].Close? && Read(marks).Stack?
    ensures Read(marks[..t]).Stack?
    ensures var open := Read(marks[..t]).open; open != [] && open[|open| - 1] == marks[t].id
  {
    ReadPrefix(marks, t);
    ReadPrefix(marks, t + 1);
    ReadNext(marks, t);
  }

  lemma TopIsLast(marks: seq<Mark>, t: nat, open: seq<nat>, j: nat)
    requires StackIsRight(marks, t, open) && open != [] && IsOpenAt(marks, t, j)
    ensures j == open[|open| - 1] || Precedes(marks, Open(j), Open(open[|open| - 1]))
  {
    assert j in open;
    var a :| 0 <= a < |open| && open[a] == j;
    assert a < |open| - 1 ==> Precedes(marks, Open(j), Open(open[|open| - 1]));
  }

  lemma ReadableDoesNotCross(marks: seq<Mark>, i: nat, j: nat)
    requires NoRepeats(marks) && Read(marks).Stack? && Close(i) in marks
    ensures !Crosses(marks, i, j)
  {
    var t := IndexOf(marks, Close(i));
    ReadClosesTop(marks, t);
    StackHolds(marks, t);
    if IsOpenAt(marks, t, j) {
      TopIsLast(marks, t, Read(marks[..t]).open, j);
    }
  }

  /** A sequence of pairs reads well exactly when it is well nested. */
  lemma BalancedIffWellNested(marks: seq<Mark>)
    requires NoRepeats(marks) && Paired(marks)
    ensures Balanced(marks) <==> WellNested(marks)
  {
    assert marks[..|marks|] == marks;
    if WellNested(marks) {
      NestedReads(marks, |marks|);
    }
    if Read(marks).Stack? {
      StackHolds(marks, |marks|);
      forall i: nat, j: nat ensures !Crosses(marks, i, j) {
        if Close(i) in marks {
          ReadableDoesNotCross(marks, i, j);
        }
      }
      NothingStaysOpen(marks, Read(marks).open);
    }
  }

  lemma FirstIsMember(ids: seq<nat>)
    ensures ids != [] ==> ids[0] in ids
  {
  }

  lemma NothingStaysOpen(marks: seq<Mark>, open: seq<nat>)
    requires Paired(marks) && StackIsRight(marks, |marks|, open)
    ensures open == []
  {
    FirstIsMember(open);
  }
}
