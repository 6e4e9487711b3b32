/**
 When the rendered tags are well nested. Every tag is taken with the list index of its entity and read with a
 stack: every tag closes its own entity under an exact condition on the entity list. The tags themselves show their
 names only; as long as no entity ends inside another one of its name, they are balanced under the same condition.
 For entities that share no rune the order of the list does not matter either.
*/
module EntityNesting {
  import opened Prelude
  import opened EntityRendering
  import B = Brackets
  import N = NamedBrackets

  // ----- The tags with the indexes of their entities -----

  function Ending(spans: seq<Span>, p: nat): (ids: seq<nat>)
    ensures forall i <- ids :: i < |spans| && spans[i].end == p
    ensures forall k :: 0 <= k < |ids| ==> ids[k] < |spans|
    ensures forall i :: 0 <= i < |spans| && spans[i].end == p ==> i in ids
    ensures forall a, b :: 0 <= a < b < |ids| ==> ids[a] < ids[b]
  {
    if spans == [] then []
    else
      var n := |spans| - 1;
      var rest := Ending(spans[..n], p);
      if spans[n].end == p then rest + [n] else rest
  }

  function Starting(spans: seq<Span>, p: nat): (ids: seq<nat>)
    ensures forall i <- ids :: i < |spans| && spans[i].start == p
    ensures forall k :: 0 <= k < |ids| ==> ids[k] < |spans|
    ensures forall i :: 0 <= i < |spans| && spans[i].start == p ==> i in ids
    ensures forall a, b :: 0 <= a < b < |ids| ==> ids[a] < ids[b]
  {
    if spans == [] then []
    else
      var n := |spans| - 1;
      var rest := Starting(spans[..n], p);
      if spans[n].start == p then rest + [n] else rest
  }

  function Closers(ids: seq<nat>): seq<B.Mark> {
    seq(|ids|, k requires 0 <= k < |ids| => B.Close(ids[k]))
  }

  function Openers(ids: seq<nat>): seq<B.Mark> {
    seq(|ids|, k requires 0 <= k < |ids| => B.Open(ids[k]))
  }

  function MarksAt(spans: seq<Span>, p: nat): seq<B.Mark> {
    Closers(Ending(spans, p)) + Openers(Starting(spans, p))
  }

  function MarksBefore(spans: seq<Span>, p: nat): seq<B.Mark> {
    if p == 0 then [] else MarksBefore(spans, p - 1) + MarksAt(spans, p - 1) + [B.Glyph(p - 1)]
  }

  /** The tags and runes of a text with n runes. */
  function Marks(spans: seq<Span>, n: nat): seq<B.Mark> {
    MarksBefore(spans, n) + MarksAt(spans, n)
  }

  // ----- These are the rendered tokens -----

  predicate Known(text: string, spans: seq<Span>, m: B.Mark) {
    match m
    case Open(i) => i < |spans|
    case Close(i) => i < |spans|
    case Glyph(q) => q < |text|
  }

  function TokenOf(text: string, spans: seq<Span>, m: B.Mark): Token {
    if !Known(text, spans, m) then Glyph(' ')
    else match m
      case Open(i) => Open(spans[i].style)
      case Close(i) => Close(spans[i].style)
      case Glyph(q) => Glyph(text[q])
  }

  function TokensOfMarks(text: string, spans: seq<Span>, marks: seq<B.Mark>): seq<Token> {
    seq(|marks|, k requires 0 <= k < |marks| => TokenOf(text, spans, marks[k]))
  }

  lemma {:induction false} ClosersRender(text: string, spans: seq<Span>, n: nat, p: nat)
    requires n <= |spans|
    ensures TokensOfMarks(text, spans, Closers(Ending(spans[..n], p))) == Closing(spans[..n], p)
  {
    if n > 0 {
      ClosersRender(text, spans, n - 1, p);
      assert spans[..n][..n - 1] == spans[..n - 1];
    }
  }

  lemma {:induction false} OpenersRender(text: string, spans: seq<Span>, n: nat, p: nat)
    requires n <= |spans|
    ensures TokensOfMarks(text, spans, Openers(Starting(spans[..n], p))) == Opening(spans[..n], p)
  {
    if n > 0 {
      OpenersRender(text, spans, n - 1, p);
      assert spans[..n][..n - 1] == spans[..n - 1];
    }
  }

  lemma TokensOfConcat(text: string, spans: seq<Span>, a: seq<B.Mark>, b: seq<B.Mark>)
    ensures TokensOfMarks(text, spans, a + b) == TokensOfMarks(text, spans, a) + TokensOfMarks(text, spans, b)
  {
  }

  lemma MarksAtRender(text: string, spans: seq<Span>, p: nat)
    ensures TokensOfMarks(text, spans, MarksAt(spans, p)) == TagsAt(spans, p)
  {
    TokensOfConcat(text, spans, Closers(Ending(spans, p)), Openers(Starting(spans, p)));
    ClosersRender(text, spans, |spans|, p);
    OpenersRender(text, spans, |spans|, p);
    assert spans[..|spans|] == spans;
  }

  lemma OneMoreRuneRenders(text: string, spans: seq<Span>, p: nat)
    requires p < |text| && TokensOfMarks(text, spans, MarksBefore(spans, p)) == TokensBefore(text, spans, p)
    ensures TokensOfMarks(text, spans, MarksBefore(spans, p + 1)) == TokensBefore(text, spans, p + 1)
  {
    MarksAtRender(text, spans, p);
    TokensOfConcat(text, spans, MarksBefore(spans, p), MarksAt(spans, p));
    TokensOfConcat(text, spans, MarksBefore(spans, p) + MarksAt(spans, p), [B.Glyph(p)]);
    assert TokensOfMarks(text, spans, [B.Glyph(p)]) == [Glyph(text[p])];
  }

  /** The rendering is the image of the indexed tags. */
  lemma MarksRender(text: string, spans: seq<Span>)
    ensures TokensOfMarks(text, spans, Marks(spans, |text|)) == Tokens(text, spans)
  {
    for p := 0 to |text|
      invariant TokensOfMarks(text, spans, MarksBefore(spans, p)) == TokensBefore(text, spans, p)
    {
      OneMoreRuneRenders(text, spans, p);
    }
    MarksAtRender(text, spans, |text|);
    TokensOfConcat(text, spans, MarksBefore(spans, |text|), MarksAt(spans, |text|));
  }

  // ----- Their order -----

  function Pos(spans: seq<Span>, m: B.Mark): int {
    match m
    case Open(i) => if i < |spans| then spans[i].start else -1
    case Close(i) => if i < |spans| then spans[i].end else -1
    case Glyph(q) => q
  }

  function Rank(m: B.Mark): nat {
    match m case Close(_) => 0 case Open(_) => 1 case Glyph(_) => 2
  }

  function IdOf(m: B.Mark): nat {
    match m case Close(i) => i case Open(i) => i case Glyph(_) => 0
  }

  /** By position, closing tags first and runes last, and then by list index. */
  predicate Less(spans: seq<Span>, x: B.Mark, y: B.Mark) {
    if Pos(spans, x) != Pos(spans, y) then Pos(spans, x) < Pos(spans, y)
    else if Rank(x) != Rank(y) then Rank(x) < Rank(y)
    else IdOf(x) < IdOf(y)
  }

  ghost predicate Ascending(spans: seq<Span>, marks: seq<B.Mark>) {
    forall k, l :: 0 <= k < l < |marks| ==> Less(spans, marks[k], marks[l])
  }

  lemma AscendingConcat(spans: seq<Span>, a: seq<B.Mark>, b: seq<B.Mark>)
    requires Ascending(spans, a) && Ascending(spans, b)
    requires forall k, l :: 0 <= k < |a| && 0 <= l < |b| ==> Less(spans, a[k], b[l])
    ensures Ascending(spans, a + b)
  {
  }

  /** Every mark stands at position p, and none of them is a rune. */
  ghost predicate TagsOnlyAt(spans: seq<Span>, marks: seq<B.Mark>, p: int) {
    forall k :: 0 <= k < |marks| ==> Pos(spans, marks[k]) == p && Rank(marks[k]) < 2
  }

  lemma ClosersAscend(spans: seq<Span>, p: nat)
    ensures Ascending(spans, Closers(Ending(spans, p))) && TagsOnlyAt(spans, Closers(Ending(spans, p)), p)
  {
    var ids := Ending(spans, p);
    assert forall k :: 0 <= k < |ids| ==> ids[k] in ids;
  }

  lemma OpenersAscend(spans: seq<Span>, p: nat)
    ensures Ascending(spans, Openers(Starting(spans, p))) && TagsOnlyAt(spans, Openers(Starting(spans, p)), p)
  {
    var ids := Starting(spans, p);
    assert forall k :: 0 <= k < |ids| ==> ids[k] in ids;
  }

  lemma MarksAtAscend(spans: seq<Span>, p: nat)
    ensures Ascending(spans, MarksAt(spans, p)) && TagsOnlyAt(spans, MarksAt(spans, p), p)
  {
    ClosersAscend(spans, p);
    OpenersAscend(spans, p);
    AscendingConcat(spans, Closers(Ending(spans, p)), Openers(Starting(spans, p)));
  }

  ghost predicate AllBelow(spans: seq<Span>, marks: seq<B.Mark>, p: int) {
    forall k :: 0 <= k < |marks| ==> Pos(spans, marks[k]) < p
  }

  lemma MarksUpToAscend(spans: seq<Span>, p: nat)
    requires Ascending(spans, MarksBefore(spans, p)) && AllBelow(spans, MarksBefore(spans, p), p)
    ensures Ascending(spans, Marks(spans, p)) && AllBelow(spans, Marks(spans, p), p + 1)
  {
    MarksAtAscend(spans, p);
    AscendingConcat(spans, MarksBefore(spans, p), MarksAt(spans, p));
  }

  lemma OneMoreRuneAscends(spans: seq<Span>, p: nat)
    requires Ascending(spans, MarksBefore(spans, p)) && AllBelow(spans, MarksBefore(spans, p), p)
    ensures Ascending(spans, MarksBefore(spans, p + 1)) && AllBelow(spans, MarksBefore(spans, p + 1), p + 1)
  {
    MarksUpToAscend(spans, p);
    MarksAtAscend(spans, p);
    AscendingConcat(spans, Marks(spans, p), [B.Glyph(p)]);
  }

  lemma MarksAscend(spans: seq<Span>, n: nat)
    ensures Ascending(spans, MarksBefore(spans, n)) && AllBelow(spans, MarksBefore(spans, n), n)
    ensures Ascending(spans, Marks(spans, n)) && AllBelow(spans, Marks(spans, n), n + 1)
  {
    for p := 0 to n
      invariant Ascending(spans, MarksBefore(spans, p)) && AllBelow(spans, MarksBefore(spans, p), p)
    {
      OneMoreRuneAscends(spans, p);
    }
    MarksUpToAscend(spans, n);
  }

  /** Tags among the marks: exactly those of the entities that stand at or before p. */
  ghost predicate TagsUpTo(spans: seq<Span>, marks: seq<B.Mark>, p: int) {
    && (forall i: nat :: B.Open(i) in marks <==> i < |spans| && spans[i].start <= p)
    && (forall i: nat :: B.Close(i) in marks <==> i < |spans| && spans[i].end <= p)
  }

  lemma MarksAtMembers(spans: seq<Span>, p: nat)
    ensures forall i: nat :: B.Open(i) in MarksAt(spans, p) <==> i < |spans| && spans[i].start == p
    ensures forall i: nat :: B.Close(i) in MarksAt(spans, p) <==> i < |spans| && spans[i].end == p
  {
    forall i: nat ensures B.Open(i) in MarksAt(spans, p) <==> i in Starting(spans, p) {
      if i in Starting(spans, p) {
        var k :| 0 <= k < |Starting(spans, p)| && Starting(spans, p)[k] == i;
        assert Openers(Starting(spans, p))[k] == B.Open(i);
      }
    }
    forall i: nat ensures B.Close(i) in MarksAt(spans, p) <==> i in Ending(spans, p) {
      if i in Ending(spans, p) {
        var k :| 0 <= k < |Ending(spans, p)| && Ending(spans, p)[k] == i;
        assert Closers(Ending(spans, p))[k] == B.Close(i);
      }
    }
  }

  lemma MarksMembers(spans: seq<Span>, n: nat)
    ensures TagsUpTo(spans, MarksBefore(spans, n), n - 1) && TagsUpTo(spans, Marks(spans, n), n)
  {
    for p := 0 to n
      invariant TagsUpTo(spans, MarksBefore(spans, p), p - 1)
    {
      MarksAtMembers(spans, p);
    }
    MarksAtMembers(spans, n);
  }

  lemma PrecedesIsLess(spans: seq<Span>, marks: seq<B.Mark>, x: B.Mark, y: B.Mark)
    requires Ascending(spans, marks) && x in marks && y in marks
    ensures B.Precedes(marks, x, y) <==> Less(spans, x, y)
  {
    var i, j := B.IndexOf(marks, x), B.IndexOf(marks, y);
    assert marks[i] == x && marks[j] == y;
    assert i < j ==> Less(spans, marks[i], marks[j]);
    assert j < i ==> Less(spans, marks[j], marks[i]);
  }

  // ----- The exact condition -----

  /** What two entities must be for their tags not to cross, the first one listed before the second. */
  predicate Compatible(a: Span, b: Span) {
    || a.end <= b.start
    || b.end <= a.start
    || (a.start <= b.start && b.end < a.end)
    || (b.start < a.start && a.end <= b.end)
  }

  ghost predicate Nested(spans: seq<Span>) {
    && (forall i :: 0 <= i < |spans| ==> spans[i].start < spans[i].end)
    && (forall i, j :: 0 <= i < j < |spans| ==> Compatible(spans[i], spans[j]))
  }

  ghost predicate Within(spans: seq<Span>, n: nat) {
    forall i :: 0 <= i < |spans| ==> spans[i].start <= n && spans[i].end <= n
  }

  lemma CrossesIsIncompatible(spans: seq<Span>, marks: seq<B.Mark>, n: nat, i: nat, j: nat)
    requires Ascending(spans, marks) && TagsUpTo(spans, marks, n) && Within(spans, n) && i < |spans| && j < |spans|
    ensures B.Crosses(marks, i, j) <==>
            && (if i < j then spans[i].start <= spans[j].start else spans[i].start < spans[j].start)
            && spans[j].start < spans[i].end
            && (if i < j then spans[i].end <= spans[j].end else spans[i].end < spans[j].end)
  {
    PrecedesIsLess(spans, marks, B.Open(i), B.Open(j));
    PrecedesIsLess(spans, marks, B.Open(j), B.Close(i));
    PrecedesIsLess(spans, marks, B.Close(i), B.Close(j));
  }

  lemma WellNestedIffNested(spans: seq<Span>, marks: seq<B.Mark>, n: nat)
    requires Ascending(spans, marks) && TagsUpTo(spans, marks, n) && Within(spans, n)
    ensures B.WellNested(marks) <==> Nested(spans)
  {
    forall i: nat | i < |spans| ensures B.Precedes(marks, B.Open(i), B.Close(i)) <==> spans[i].start < spans[i].end {
      PrecedesIsLess(spans, marks, B.Open(i), B.Close(i));
    }
    assert forall i: nat :: B.Open(i) in marks <==> i < |spans|;
    if Nested(spans) {
      forall i: nat, j: nat ensures !B.Crosses(marks, i, j) {
        if i < |spans| && j < |spans| {
          CrossesIsIncompatible(spans, marks, n, i, j);
          assert i < j ==> Compatible(spans[i], spans[j]);
          assert j < i ==> Compatible(spans[j], spans[i]);
        }
      }
    }
    if B.WellNested(marks) {
      forall i, j | 0 <= i < j < |spans| ensures Compatible(spans[i], spans[j]) {
        CrossesIsIncompatible(spans, marks, n, i, j);
        CrossesIsIncompatible(spans, marks, n, j, i);
        assert !B.Crosses(marks, i, j) && !B.Crosses(marks, j, i);
      }
    }
  }

  lemma BalancedSpans(spans: seq<Span>, n: nat)
    requires Within(spans, n)
    ensures B.Balanced(Marks(spans, n)) <==> Nested(spans)
  {
    MarksAscend(spans, n);
    MarksMembers(spans, n);
    assert forall i: nat :: B.Open(i) in Marks(spans, n) <==> B.Close(i) in Marks(spans, n);
    B.BalancedIffWellNested(Marks(spans, n));
    WellNestedIffNested(spans, Marks(spans, n), n);
  }

  lemma SpansWithin(text: string, entities: seq<Entity>)
    ensures Within(Spans(text, entities), |text|)
  {
    var spans := Spans(text, entities);
    forall i | 0 <= i < |spans| ensures spans[i].start <= |text| && spans[i].end <= |text| {
      assert spans[i] in spans;
    }
  }

  /**
   Every rendered tag closes its own entity, and all are closed, if and only if every usable entity is non-empty and
   any two of them either share no rune or lie one inside the other, the outer one listed first when they start
   together, the inner one first when they end together.
  */
  lemma BalancedIffNested(text: string, entities: seq<Entity>)
    ensures var spans := Spans(text, entities);
      && Tokens(text, spans) == TokensOfMarks(text, spans, Marks(spans, |text|))
      && (B.Balanced(Marks(spans, |text|)) <==> Nested(spans))
  {
    SpansWithin(text, entities);
    MarksRender(text, Spans(text, entities));
    BalancedSpans(Spans(text, entities), |text|);
  }

  // ----- Disjoint entities -----

  predicate Apart(a: Span, b: Span) {
    a.end <= b.start || b.end <= a.start
  }

  ghost predicate Disjoint(spans: seq<Span>) {
    && (forall i :: 0 <= i < |spans| ==> spans[i].start < spans[i].end)
    && forall i, j :: 0 <= i < j < |spans| ==> Apart(spans[i], spans[j])
  }

  predicate Covers(s: Span, q: int) {
    s.start <= q < s.end
  }

  /** The entity around rune q. */
  function Cover(spans: seq<Span>, q: int): (i: Option<nat>)
    ensures i.Some? ==> i.value < |spans| && Covers(spans[i.value], q)
    ensures i.None? ==> forall j :: 0 <= j < |spans| ==> !Covers(spans[j], q)
  {
    if spans == [] then None
    else if Covers(spans[|spans| - 1], q) then Some(|spans| - 1)
    else Cover(spans[..|spans| - 1], q)
  }

  lemma {:induction false} NothingCloses(spans: seq<Span>, p: nat)
    requires forall i :: 0 <= i < |spans| ==> spans[i].end != p
    ensures Closing(spans, p) == []
  {
    if spans != [] {
      NothingCloses(spans[..|spans| - 1], p);
    }
  }

  lemma {:induction false} NothingOpens(spans: seq<Span>, p: nat)
    requires forall i :: 0 <= i < |spans| ==> spans[i].start != p
    ensures Opening(spans, p) == []
  {
    if spans != [] {
      NothingOpens(spans[..|spans| - 1], p);
    }
  }

  lemma {:induction false} OneCloses(spans: seq<Span>, p: nat, i: nat)
    requires Disjoint(spans) && i < |spans| && spans[i].end == p
    ensures Closing(spans, p) == [Close(spans[i].style)]
  {
    var n := |spans| - 1;
    if i == n {
      forall j | 0 <= j < n ensures spans[j].end != p {
        assert Apart(spans[j], spans[n]);
      }
      NothingCloses(spans[..n], p);
    } else {
      assert Apart(spans[i], spans[n]);
      OneCloses(spans[..n], p, i);
    }
  }

  lemma {:induction false} OneOpens(spans: seq<Span>, p: nat, i: nat)
    requires Disjoint(spans) && i < |spans| && spans[i].start == p
    ensures Opening(spans, p) == [Open(spans[i].style)]
  {
    var n := |spans| - 1;
    if i == n {
      forall j | 0 <= j < n ensures spans[j].start != p {
        assert Apart(spans[j], spans[n]);
      }
      NothingOpens(spans[..n], p);
    } else {
      assert Apart(spans[i], spans[n]);
      OneOpens(spans[..n], p, i);
    }
  }

  // ----- What a nested rendering reads as -----

  /** The entities around rune q, outermost first. */
  ghost predicate IsCover(spans: seq<Span>, q: int, ids: seq<nat>) {
    && (forall i: nat :: i in ids <==> i < |spans| && Covers(spans[i], q))
    && (forall a, b :: 0 <= a < b < |ids| ==> Less(spans, B.Open(ids[a]), B.Open(ids[b])))
  }

  lemma ReadPrefixOfMarks(spans: seq<Span>, p: nat)
    requires B.Read(MarksBefore(spans, p + 1)).Stack?
    ensures B.Read(Marks(spans, p)).Stack? && B.Read(MarksBefore(spans, p)).Stack?
    ensures B.Read(MarksBefore(spans, p + 1)) == B.ReadOne(B.Read(Marks(spans, p)), B.Glyph(p))
    ensures B.Read(MarksBefore(spans, p)).seen == B.Read(Marks(spans, p)).seen
  {
    B.ReadAppend(Marks(spans, p), B.Glyph(p));
    TagsSeeNothing(MarksBefore(spans, p), MarksAt(spans, p), spans, p);
  }

  lemma {:induction false} TagsSeeNothing(front: seq<B.Mark>, tags: seq<B.Mark>, spans: seq<Span>, p: nat)
    requires forall m <- tags :: !m.Glyph?
    requires B.Read(front + tags).Stack?
    ensures B.Read(front).Stack? && B.Read(front).seen == B.Read(front + tags).seen
  {
    if tags == [] {
      assert front + tags == front;
    } else {
      var n := |tags| - 1;
      assert front + tags == front + tags[..n] + [tags[n]];
      B.ReadAppend(front + tags[..n], tags[n]);
      TagsSeeNothing(front, tags[..n], spans, p);
    }
  }

  /** The stack before rune p holds exactly the entities around it. */
  lemma StackIsCover(spans: seq<Span>, p: nat)
    requires B.Read(Marks(spans, p)).Stack? && Nested(spans)
    ensures IsCover(spans, p, B.Read(Marks(spans, p)).open)
  {
    var marks := Marks(spans, p);
    MarksAscend(spans, p);
    MarksMembers(spans, p);
    assert marks[..|marks|] == marks;
    B.StackHolds(marks, |marks|);
    var open := B.Read(marks).open;
    forall i: nat ensures i in open <==> i < |spans| && Covers(spans[i], p) {
      assert i in open <==> B.IsOpenAt(marks, |marks|, i);
    }
    forall a, b | 0 <= a < b < |open| ensures Less(spans, B.Open(open[a]), B.Open(open[b])) {
      assert B.Precedes(marks, B.Open(open[a]), B.Open(open[b]));
      PrecedesIsLess(spans, marks, B.Open(open[a]), B.Open(open[b]));
    }
  }

  ghost predicate SeesCovers(spans: seq<Span>, p: nat, seen: seq<seq<nat>>) {
    |seen| == p && forall q :: 0 <= q < p ==> IsCover(spans, q, seen[q])
  }

  ghost predicate SeenSoFar(spans: seq<Span>, p: nat) {
    B.Read(MarksBefore(spans, p)).Stack? && SeesCovers(spans, p, B.Read(MarksBefore(spans, p)).seen)
  }

  lemma SeenOneMore(spans: seq<Span>, p: nat)
    requires Nested(spans) && SeenSoFar(spans, p) && B.Read(MarksBefore(spans, p + 1)).Stack?
    ensures SeenSoFar(spans, p + 1)
  {
    ReadPrefixOfMarks(spans, p);
    StackIsCover(spans, p);
  }

  lemma MarksBeforeGrow(spans: seq<Span>, p: nat, n: nat)
    requires p <= n
    ensures MarksBefore(spans, p) <= MarksBefore(spans, n)
  {
    for q := p to n
      invariant MarksBefore(spans, p) <= MarksBefore(spans, q)
    {
    }
  }

  lemma ReadableBefore(spans: seq<Span>, p: nat, n: nat)
    requires p <= n && B.Read(MarksBefore(spans, n)).Stack?
    ensures B.Read(MarksBefore(spans, p)).Stack?
  {
    MarksBeforeGrow(spans, p, n);
    B.ReadStart(MarksBefore(spans, p), MarksBefore(spans, n));
  }

  lemma ReadingSeesCovers(spans: seq<Span>, n: nat)
    requires Nested(spans) && B.Read(MarksBefore(spans, n)).Stack?
    ensures SeenSoFar(spans, n)
  {
    for p := 0 to n
      invariant SeenSoFar(spans, p)
    {
      ReadableBefore(spans, p + 1, n);
      SeenOneMore(spans, p);
    }
  }

  // ----- Reading the tags by their names -----

  /**
   A reader of the tokens themselves: a closing tag shows its name, but neither its entity nor its link. It keeps the
   styles of the open tags, outermost first, and those around every rune.
  */
  datatype StyleStack = StyleStack(open: seq<Style>, styled: seq<(char, seq<Style>)>) | Torn

  function ReadToken(r: StyleStack, t: Token): StyleStack {
    match (r, t)
    case (Torn, _) => Torn
    case (StyleStack(open, styled), Open(style)) => StyleStack(open + [style], styled)
    case (StyleStack(open, styled), Close(style)) =>
      if open != [] && TagName(open[|open| - 1]) == TagName(style) then StyleStack(open[..|open| - 1], styled) else Torn
    case (StyleStack(open, styled), Glyph(c)) => StyleStack(open, styled + [(c, open)])
  }

  function ReadTokens(tokens: seq<Token>): StyleStack {
    if tokens == [] then StyleStack([], []) else ReadToken(ReadTokens(tokens[..|tokens| - 1]), tokens[|tokens| - 1])
  }

  /** The rendered tags are balanced. */
  predicate TagsClose(text: string, spans: seq<Span>) {
    var r := ReadTokens(Tokens(text, spans));
    r.StyleStack? && r.open == []
  }

  function Names(spans: seq<Span>): (names: seq<string>)
    ensures |names| == |spans| && forall i :: 0 <= i < |spans| ==> names[i] == TagName(spans[i].style)
  {
    seq(|spans|, i requires 0 <= i < |spans| => TagName(spans[i].style))
  }

  function ReadNames(spans: seq<Span>, marks: seq<B.Mark>): B.Stack {
    N.NamedRead(Names(spans), marks)
  }

  function StylesOf(spans: seq<Span>, ids: seq<nat>): seq<Style> {
    seq(|ids|, k requires 0 <= k < |ids| => if ids[k] < |spans| then spans[ids[k]].style else Bold)
  }

  /** The first runes of the text, each with the styles of the given entities. */
  function Styled(text: string, spans: seq<Span>, seen: seq<seq<nat>>): seq<(char, seq<Style>)>
    requires |seen| <= |text|
  {
    seq(|seen|, q requires 0 <= q < |seen| => (text[q], StylesOf(spans, seen[q])))
  }

  /** The token reader follows the one that sees names. */
  ghost predicate Follows(text: string, spans: seq<Span>, r: B.Stack, t: StyleStack) {
    if r.Broken? then t.Torn?
    else
      && |r.seen| <= |text| && (forall k :: 0 <= k < |r.open| ==> r.open[k] < |spans|)
      && t == StyleStack(StylesOf(spans, r.open), Styled(text, spans, r.seen))
  }

  lemma FollowsOne(text: string, spans: seq<Span>, r: B.Stack, t: StyleStack, m: B.Mark)
    requires Follows(text, spans, r, t) && Known(text, spans, m)
    requires r.Stack? && m.Glyph? ==> m.pos == |r.seen|
    ensures Follows(text, spans, N.NamedOne(Names(spans), r, m), ReadToken(t, TokenOf(text, spans, m)))
  {
    if r.Stack? {
      match m
      case Open(i) => assert StylesOf(spans, r.open + [i]) == StylesOf(spans, r.open) + [spans[i].style];
      case Close(i) =>
        if r.open != [] {
          assert StylesOf(spans, r.open[..|r.open| - 1]) == StylesOf(spans, r.open)[..|r.open| - 1];
        }
      case Glyph(q) =>
        assert Styled(text, spans, r.seen + [r.open]) == Styled(text, spans, r.seen) + [(text[q], StylesOf(spans, r.open))];
    }
  }

  lemma TokensAppend(text: string, spans: seq<Span>, front: seq<B.Mark>, m: B.Mark)
    ensures ReadTokens(TokensOfMarks(text, spans, front + [m])) ==
            ReadToken(ReadTokens(TokensOfMarks(text, spans, front)), TokenOf(text, spans, m))
  {
    var tokens := TokensOfMarks(text, spans, front + [m]);
    assert tokens[..|front|] == TokensOfMarks(text, spans, front);
  }

  /** Both readings of the same marks agree, and p runes have been read. */
  ghost predicate Agrees(text: string, spans: seq<Span>, marks: seq<B.Mark>, p: nat) {
    && Follows(text, spans, ReadNames(spans, marks), ReadTokens(TokensOfMarks(text, spans, marks)))
    && (ReadNames(spans, marks).Stack? ==> |ReadNames(spans, marks).seen| == p)
  }

  lemma AgreesOne(text: string, spans: seq<Span>, marks: seq<B.Mark>, p: nat, m: B.Mark)
    requires Agrees(text, spans, marks, p) && Known(text, spans, m) && (m.Glyph? ==> m.pos == p)
    ensures Agrees(text, spans, marks + [m], if m.Glyph? then p + 1 else p)
  {
    N.NamedAppend(Names(spans), marks, m);
    TokensAppend(text, spans, marks, m);
    FollowsOne(text, spans, ReadNames(spans, marks), ReadTokens(TokensOfMarks(text, spans, marks)), m);
  }

  lemma AgreesNextTag(text: string, spans: seq<Span>, front: seq<B.Mark>, p: nat, tags: seq<B.Mark>, t: nat)
    requires t < |tags| && Agrees(text, spans, front + tags[..t], p) && !tags[t].Glyph? && Known(text, spans, tags[t])
    ensures Agrees(text, spans, front + tags[..t + 1], p)
  {
    AgreesOne(text, spans, front + tags[..t], p, tags[t]);
    assert front + tags[..t + 1] == front + tags[..t] + [tags[t]];
  }

  lemma AgreesTags(text: string, spans: seq<Span>, front: seq<B.Mark>, p: nat, tags: seq<B.Mark>)
    requires Agrees(text, spans, front, p)
    requires forall m <- tags :: !m.Glyph? && Known(text, spans, m)
    ensures Agrees(text, spans, front + tags, p)
  {
    assert front + tags[..0] == front;
    for t := 0 to |tags|
      invariant Agrees(text, spans, front + tags[..t], p)
    {
      AgreesNextTag(text, spans, front, p, tags, t);
    }
    assert tags[..|tags|] == tags;
  }

  lemma MarksAtKnown(text: string, spans: seq<Span>, p: nat)
    ensures forall m <- MarksAt(spans, p) :: !m.Glyph? && Known(text, spans, m)
  {
  }

  lemma AgreesOneMore(text: string, spans: seq<Span>, p: nat)
    requires p < |text| && Agrees(text, spans, MarksBefore(spans, p), p)
    ensures Agrees(text, spans, MarksBefore(spans, p + 1), p + 1)
  {
    MarksAtKnown(text, spans, p);
    AgreesTags(text, spans, MarksBefore(spans, p), p, MarksAt(spans, p));
    AgreesOne(text, spans, Marks(spans, p), p, B.Glyph(p));
  }

  lemma NothingRead(text: string, spans: seq<Span>)
    ensures Agrees(text, spans, [], 0)
  {
    assert TokensOfMarks(text, spans, []) == [];
  }

  /** Reading the rendered tokens is reading the indexed tags by name. */
  lemma TokensFollowNames(text: string, spans: seq<Span>)
    ensures Follows(text, spans, ReadNames(spans, Marks(spans, |text|)), ReadTokens(Tokens(text, spans)))
  {
    NothingRead(text, spans);
    for p := 0 to |text|
      invariant Agrees(text, spans, MarksBefore(spans, p), p)
    {
      AgreesOneMore(text, spans, p);
    }
    MarksAtKnown(text, spans, |text|);
    AgreesTags(text, spans, MarksBefore(spans, |text|), |text|, MarksAt(spans, |text|));
    MarksRender(text, spans);
  }

  lemma TagsCloseIffNamed(text: string, spans: seq<Span>)
    ensures TagsClose(text, spans) <==> N.NamedBalanced(Names(spans), Marks(spans, |text|))
  {
    TokensFollowNames(text, spans);
  }

  /** The marks of a list within the text: every tag once, in ascending order. */
  ghost predicate Regular(spans: seq<Span>, marks: seq<B.Mark>) {
    && Ascending(spans, marks) && B.NoRepeats(marks) && N.AllPairs(marks, |spans|)
  }

  lemma MarksAreRegular(spans: seq<Span>, n: nat)
    requires Within(spans, n)
    ensures Regular(spans, Marks(spans, n))
  {
    MarksAscend(spans, n);
    MarksMembers(spans, n);
  }

  lemma NestedReadsItsNames(spans: seq<Span>, n: nat)
    requires Nested(spans) && Within(spans, n)
    ensures ReadNames(spans, Marks(spans, n)) == B.Read(Marks(spans, n))
  {
    BalancedSpans(spans, n);
    MarksAreRegular(spans, n);
    N.ReadIsNamed(Names(spans), Marks(spans, n));
  }

  lemma NestedSeesCovers(spans: seq<Span>, n: nat)
    requires Nested(spans) && B.Read(Marks(spans, n)).Stack?
    ensures SeesCovers(spans, n, B.Read(Marks(spans, n)).seen)
  {
    TagsSeeNothing(MarksBefore(spans, n), MarksAt(spans, n), spans, n);
    ReadingSeesCovers(spans, n);
  }

  lemma NestedReadsTokens(text: string, spans: seq<Span>, seen: seq<seq<nat>>)
    requires Nested(spans) && Within(spans, |text|) && B.Read(Marks(spans, |text|)) == B.Stack([], seen)
    ensures |seen| <= |text| && ReadTokens(Tokens(text, spans)) == StyleStack([], Styled(text, spans, seen))
  {
    NestedReadsItsNames(spans, |text|);
    TokensFollowNames(text, spans);
  }

  lemma NestedReads(spans: seq<Span>, n: nat) returns (seen: seq<seq<nat>>)
    requires Nested(spans) && Within(spans, n)
    ensures B.Read(Marks(spans, n)) == B.Stack([], seen) && SeesCovers(spans, n, seen)
  {
    BalancedSpans(spans, n);
    NestedSeesCovers(spans, n);
    seen := B.Read(Marks(spans, n)).seen;
  }

  /**
   A nested list reads back from the tokens alone: everything is closed at the end, and every rune has the styles
   of exactly the entities around it, outermost first.
  */
  lemma NestedEntitiesReadBack(text: string, entities: seq<Entity>) returns (seen: seq<seq<nat>>)
    requires Nested(Spans(text, entities))
    ensures var spans := Spans(text, entities);
      && SeesCovers(spans, |text|, seen)
      && ReadTokens(Tokens(text, spans)) == StyleStack([], Styled(text, spans, seen))
  {
    SpansWithin(text, entities);
    seen := NestedReads(Spans(text, entities), |text|);
    NestedReadsTokens(text, Spans(text, entities), seen);
  }

  // ----- When names are enough -----

  /** No entity ends inside another one of its name, or together with it. */
  ghost predicate Distinguishable(spans: seq<Span>) {
    forall i, j :: 0 <= i < |spans| && 0 <= j < |spans| && i != j && TagName(spans[i].style) == TagName(spans[j].style) ==>
      !(spans[i].start < spans[j].end <= spans[i].end)
  }

  /** In particular when no two entities of one name share a rune. */
  lemma SeparateIsDistinguishable(spans: seq<Span>)
    requires forall i :: 0 <= i < |spans| ==> spans[i].start < spans[i].end
    requires forall i, j :: 0 <= i < j < |spans| && TagName(spans[i].style) == TagName(spans[j].style) ==>
      Apart(spans[i], spans[j])
    ensures Distinguishable(spans)
  {
    forall i, j | 0 <= i < |spans| && 0 <= j < |spans| && i != j && TagName(spans[i].style) == TagName(spans[j].style)
      ensures !(spans[i].start < spans[j].end <= spans[i].end)
    {
      assert i < j ==> Apart(spans[i], spans[j]);
      assert j < i ==> Apart(spans[j], spans[i]);
    }
  }

  lemma DistinguishableIsUnambiguous(spans: seq<Span>, marks: seq<B.Mark>)
    requires Distinguishable(spans) && Regular(spans, marks)
    ensures N.Unambiguous(Names(spans), marks)
  {
    forall i: nat, j: nat | i != j && N.SameName(Names(spans), i, j)
      ensures !(B.Precedes(marks, B.Open(i), B.Close(j)) && B.Precedes(marks, B.Close(j), B.Close(i)))
    {
      PrecedesIsLess(spans, marks, B.Open(i), B.Close(j));
      PrecedesIsLess(spans, marks, B.Close(j), B.Close(i));
    }
  }

  /** As long as no entity ends inside another one of its name, the rendered tags are balanced exactly for nested lists. */
  lemma TagsCloseIffNested(text: string, entities: seq<Entity>)
    requires Distinguishable(Spans(text, entities))
    ensures TagsClose(text, Spans(text, entities)) <==> Nested(Spans(text, entities))
  {
    var spans := Spans(text, entities);
    SpansWithin(text, entities);
    MarksAreRegular(spans, |text|);
    DistinguishableIsUnambiguous(spans, Marks(spans, |text|));
    N.UnambiguousReads(Names(spans), Marks(spans, |text|));
    TagsCloseIffNamed(text, spans);
    BalancedIffNested(text, entities);
  }

  // ----- Disjoint entities read back -----

  /** The entity around rune q, if there is one. */
  function OnlyCover(spans: seq<Span>, q: int): seq<nat> {
    var i := Cover(spans, q);
    if i.Some? then [i.value] else []
  }

  lemma FirstTwoDiffer(spans: seq<Span>, ids: seq<nat>)
    requires |ids| >= 2 && forall a, b :: 0 <= a < b < |ids| ==> Less(spans, B.Open(ids[a]), B.Open(ids[b]))
    ensures ids[0] != ids[1]
  {
    assert Less(spans, B.Open(ids[0]), B.Open(ids[1]));
  }

  lemma DisjointCover(spans: seq<Span>, q: int, ids: seq<nat>)
    requires Disjoint(spans) && IsCover(spans, q, ids)
    ensures ids == OnlyCover(spans, q)
  {
    forall a | 0 <= a < |ids| ensures Cover(spans, q) == Some(ids[a]) {
      assert ids[a] in ids;
    }
    if |ids| >= 2 {
      FirstTwoDiffer(spans, ids);
    }
    B.FirstIsMember(ids);
    if Cover(spans, q).Some? {
      assert Cover(spans, q).value in ids;
    }
  }

  /**
   For disjoint non-empty entities the output is balanced and reads back as the text in which every rune has the
   style of the one entity that covers it, and no style where none does.
  */
  lemma DisjointEntitiesReadBack(text: string, entities: seq<Entity>)
    requires Disjoint(Spans(text, entities))
    ensures var spans := Spans(text, entities);
      ReadTokens(Tokens(text, spans)) ==
      StyleStack([], Styled(text, spans, seq(|text|, q requires 0 <= q < |text| => OnlyCover(spans, q))))
  {
    var spans := Spans(text, entities);
    var seen := NestedEntitiesReadBack(text, entities);
    forall q | 0 <= q < |text| ensures seen[q] == OnlyCover(spans, q) {
      DisjointCover(spans, q, seen[q]);
    }
    assert seen == seq(|text|, q requires 0 <= q < |text| => OnlyCover(spans, q));
  }

  // ----- Two ways to fail -----

  /**
   Of two entities over the same runes one closes the other's tag, wherever they stand in the list; the tags are then
   out of balance unless names are mistaken for each other.
  */
  lemma SharedBoundariesCross(text: string, entities: seq<Entity>, i: nat, j: nat)
    requires var spans := Spans(text, entities);
      i < j < |spans| && spans[i].start == spans[j].start < spans[i].end == spans[j].end
    ensures !B.Balanced(Marks(Spans(text, entities), |text|))
    ensures Distinguishable(Spans(text, entities)) ==> !TagsClose(text, Spans(text, entities))
  {
    BalancedIffNested(text, entities);
    assert !Compatible(Spans(text, entities)[i], Spans(text, entities)[j]);
    if Distinguishable(Spans(text, entities)) {
      TagsCloseIffNested(text, entities);
    }
  }

  /** For instance two entities over a single rune: they open in list order and close in list order. */
  lemma BoldItalicTokens()
    ensures Tokens("x", [Span(0, 1, Bold), Span(0, 1, Italic)]) ==
            [Open(Bold), Open(Italic), Glyph('x'), Close(Bold), Close(Italic)]
  {
    var spans := [Span(0, 1, Bold), Span(0, 1, Italic)];
    assert spans[..1] == [Span(0, 1, Bold)] && [Span(0, 1, Bold)][..0] == [];
    assert Opening(spans, 0) == [Open(Bold), Open(Italic)] && Closing(spans, 0) == [];
    assert Closing(spans, 1) == [Close(Bold), Close(Italic)] && Opening(spans, 1) == [];
  }

  /** An entity of length zero never closes its own tag, with the same consequence. */
  lemma EmptyEntityClosesFirst(text: string, entities: seq<Entity>, i: nat)
    requires i < |Spans(text, entities)| && Spans(text, entities)[i].start >= Spans(text, entities)[i].end
    ensures !B.Balanced(Marks(Spans(text, entities), |text|))
    ensures Distinguishable(Spans(text, entities)) ==> !TagsClose(text, Spans(text, entities))
  {
    BalancedIffNested(text, entities);
    if Distinguishable(Spans(text, entities)) {
      TagsCloseIffNested(text, entities);
    }
  }

  lemma EmptyEntityTags(p: nat, style: Style)
    ensures TagsAt([Span(p, p, style)], p) == [Close(style), Open(style)]
  {
    SpanAddsTagsAt([], Span(p, p, style), p);
    assert [] + [Span(p, p, style)] == [Span(p, p, style)];
  }

  // ----- The order of the list -----

  lemma {:induction false} SpansConcat(text: string, a: seq<Entity>, b: seq<Entity>)
    ensures Spans(text, a + b) == Spans(text, a) + Spans(text, b)
  {
    if b == [] {
      assert a + b == a;
    } else {
      assert (a + b)[..|a + b| - 1] == a + b[..|b| - 1];
      SpansConcat(text, a, b[..|b| - 1]);
    }
  }

  lemma SpansOfOne(text: string, e: Entity)
    ensures Spans(text, [e]) == SpanOf(text, e)
  {
    assert [e][..0] == [];
  }

  lemma SpansWithout(text: string, left: seq<Entity>, e: Entity, right: seq<Entity>)
    ensures multiset(Spans(text, left + [e] + right)) == multiset(Spans(text, left + right)) + multiset(SpanOf(text, e))
  {
    SpansConcat(text, left, right);
    SpansConcat(text, left + [e], right);
    SpansConcat(text, left, [e]);
    SpansOfOne(text, e);
  }

  lemma RemoveOne(a: seq<Entity>, left: seq<Entity>, e: Entity, right: seq<Entity>)
    requires multiset(a + [e]) == multiset(left + [e] + right)
    ensures multiset(a) == multiset(left + right)
  {
    assert multiset(a + [e]) - multiset{e} == multiset(a);
    assert multiset(left + [e] + right) - multiset{e} == multiset(left + right);
  }

  lemma {:induction false} SpansPermute(text: string, a: seq<Entity>, b: seq<Entity>)
    requires multiset(a) == multiset(b)
    ensures multiset(Spans(text, a)) == multiset(Spans(text, b))
    decreases |a|
  {
    if a == [] {
      assert |multiset(b)| == 0;
    } else {
      var front, last := a[..|a| - 1], a[|a| - 1];
      assert a == front + [last];
      assert last in multiset(b);
      var k :| 0 <= k < |b| && b[k] == last;
      var left, right := b[..k], b[k + 1..];
      assert b == left + [last] + right;
      RemoveOne(front, left, last, right);
      SpansPermute(text, front, left + right);
      SpansWithout(text, left, last, right);
      SpansWithout(text, front, last, []);
      assert front + [last] + [] == a && front + [] == front;
    }
  }

  lemma TwiceIsMultiple(s: seq<Span>, i: nat, j: nat)
    requires i < j < |s| && s[i] == s[j]
    ensures multiset(s)[s[i]] >= 2
  {
    assert s == s[..i] + [s[i]] + s[i + 1..j] + [s[j]] + s[j + 1..];
  }

  lemma {:induction false} DisjointHasNoTwins(s: seq<Span>, x: Span)
    requires Disjoint(s)
    ensures multiset(s)[x] <= 1
  {
    if s != [] {
      var n := |s| - 1;
      DisjointHasNoTwins(s[..n], x);
      assert s == s[..n] + [s[n]];
      forall i | 0 <= i < n ensures s[i] != s[n] {
        assert Apart(s[i], s[n]);
      }
      assert s[n] !in s[..n];
    }
  }

  lemma DisjointPermutes(a: seq<Span>, b: seq<Span>)
    requires Disjoint(a) && multiset(a) == multiset(b)
    ensures Disjoint(b)
  {
    forall i | 0 <= i < |b| ensures b[i].start < b[i].end {
      assert b[i] in multiset(a);
    }
    forall i, j | 0 <= i < j < |b| ensures Apart(b[i], b[j]) {
      assert b[i] in multiset(a) && b[j] in multiset(a);
      var k :| 0 <= k < |a| && a[k] == b[i];
      var m :| 0 <= m < |a| && a[m] == b[j];
      if k == m {
        TwiceIsMultiple(b, i, j);
        DisjointHasNoTwins(a, b[i]);
      } else {
        assert Apart(a[if k < m then k else m], a[if k < m then m else k]);
      }
    }
  }

  lemma SameMember(a: seq<Span>, b: seq<Span>, i: nat) returns (j: nat)
    requires multiset(a) == multiset(b) && i < |a|
    ensures j < |b| && b[j] == a[i]
  {
    assert a[i] in multiset(b);
    j :| 0 <= j < |b| && b[j] == a[i];
  }

  lemma ClosingIgnoresOrder(a: seq<Span>, b: seq<Span>, p: nat)
    requires Disjoint(a) && Disjoint(b) && multiset(a) == multiset(b)
    ensures Closing(a, p) == Closing(b, p)
  {
    if i :| 0 <= i < |a| && a[i].end == p {
      var j := SameMember(a, b, i);
      OneCloses(a, p, i);
      OneCloses(b, p, j);
    } else {
      forall j | 0 <= j < |b| ensures b[j].end != p {
        var i := SameMember(b, a, j);
      }
      NothingCloses(a, p);
      NothingCloses(b, p);
    }
  }

  lemma OpeningIgnoresOrder(a: seq<Span>, b: seq<Span>, p: nat)
    requires Disjoint(a) && Disjoint(b) && multiset(a) == multiset(b)
    ensures Opening(a, p) == Opening(b, p)
  {
    if i :| 0 <= i < |a| && a[i].start == p {
      var j := SameMember(a, b, i);
      OneOpens(a, p, i);
      OneOpens(b, p, j);
    } else {
      forall j | 0 <= j < |b| ensures b[j].start != p {
        var i := SameMember(b, a, j);
      }
      NothingOpens(a, p);
      NothingOpens(b, p);
    }
  }

  lemma TokensIgnoreOrder(text: string, a: seq<Span>, b: seq<Span>, p: nat)
    requires Disjoint(a) && Disjoint(b) && multiset(a) == multiset(b) && p <= |text|
    ensures TokensBefore(text, a, p) == TokensBefore(text, b, p)
  {
    for i := 0 to p
      invariant TokensBefore(text, a, i) == TokensBefore(text, b, i)
    {
      ClosingIgnoresOrder(a, b, i);
      OpeningIgnoresOrder(a, b, i);
    }
  }

  /** For disjoint non-empty entities the order of the list makes no difference. */
  lemma RenderingIgnoresListOrder(text: string, a: seq<Entity>, b: seq<Entity>)
    requires multiset(a) == multiset(b) && Disjoint(Spans(text, a))
    ensures Written(Tokens(text, Spans(text, a))) == Written(Tokens(text, Spans(text, b)))
  {
    SpansPermute(text, a, b);
    DisjointPermutes(Spans(text, a), Spans(text, b));
    TokensIgnoreOrder(text, Spans(text, a), Spans(text, b), |text|);
    ClosingIgnoresOrder(Spans(text, a), Spans(text, b), |text|);
    OpeningIgnoresOrder(Spans(text, a), Spans(text, b), |text|);
  }
}
