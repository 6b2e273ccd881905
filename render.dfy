/**
 What the deck draws: the terminal view once every card is swiped, otherwise
 one entry per card of the data, in reverse order so that the top card is
 painted last and so lies over the others.
 */
module Render {
  import opened Swipe

  /**
   What one card of the data is drawn as: nothing (already swiped), the
   interactive top card with the gesture handlers, laid out at the drag offset,
   or a static card pushed down by `top` pixels.
   */
  datatype CardView = Omitted | Interactive(card: Card, at: Offset) | Stacked(card: Card, top: int)

  datatype Plan = NoMoreCards | Stack(views: seq<CardView>)

  /** The per-card case of the render pass. */
  function ViewOf(card: Card, cardIndex: nat, index: nat, offset: Offset): CardView {
    if cardIndex < index then Omitted
    else if cardIndex == index then Interactive(card, offset)
    else Stacked(card, 10 * (cardIndex - index))
  }

  /** The render pass over the data, in data order, before the reversal. */
  function MapCards(data: seq<Card>, index: nat, offset: Offset): (views: seq<CardView>) {
    seq(|data|, k requires 0 <= k < |data| => ViewOf(data[k], k, index, offset))
  }

  function Reverse<T>(s: seq<T>): (r: seq<T>)
    ensures |r| == |s|
    decreases |s|
  {
    if s == [] then [] else [s[|s| - 1]] + Reverse(s[..|s| - 1])
  }

  /**
   The render plan of a deck with this data, top-card index and drag offset.
   It is defined for every index, also one past the end of the data.
   */
  function RenderPlan(data: seq<Card>, index: nat, offset: Offset): (p: Plan)
    ensures p.NoMoreCards? <==> index >= |data|
    ensures p.Stack? ==> |p.views| == |data|
  {
    if index >= |data| then NoMoreCards else Stack(Reverse(MapCards(data, index, offset)))
  }

  /** The cards that are drawn at all, in paint order. */
  function Drawn(views: seq<CardView>): seq<Card>
    decreases |views|
  {
    if views == [] then []
    else (if views[0].Omitted? then [] else [views[0].card]) + Drawn(views[1..])
  }

  predicate HasHandlers(p: Plan) {
    p.Stack? && exists j :: 0 <= j < |p.views| && p.views[j].Interactive?
  }

  lemma {:induction false} ReverseAt<T>(s: seq<T>, k: nat)
    requires k < |s|
    ensures Reverse(s)[k] == s[|s| - 1 - k]
    decreases |s|
  {
    if k > 0 {
      ReverseAt(s[..|s| - 1], k - 1);
    }
  }

  lemma ReverseConcat<T>(a: seq<T>, b: seq<T>)
    ensures Reverse(a + b) == Reverse(b) + Reverse(a)
  {
    forall k | 0 <= k < |a + b| ensures Reverse(a + b)[k] == (Reverse(b) + Reverse(a))[k] {
      ReverseAt(a + b, k);
      if k < |b| {
        ReverseAt(b, k);
      } else {
        ReverseAt(a, k - |b|);
      }
    }
  }

  lemma {:induction false} DrawnConcat(a: seq<CardView>, b: seq<CardView>)
    ensures Drawn(a + b) == Drawn(a) + Drawn(b)
    decreases |a|
  {
    if a != [] {
      assert (a + b)[1..] == a[1..] + b;
      DrawnConcat(a[1..], b);
    } else {
      assert a + b == b;
    }
  }

  /** Dropping the omitted entries commutes with the reversal. */
  lemma {:induction false} DrawnReverse(v: seq<CardView>)
    ensures Drawn(Reverse(v)) == Reverse(Drawn(v))
    decreases |v|
  {
    if v != [] {
      var init, last := v[..|v| - 1], v[|v| - 1];
      assert v == init + [last];
      DrawnReverse(init);
      DrawnConcat([last], Reverse(init));
      DrawnConcat(init, [last]);
      ReverseConcat(Drawn(init), Drawn([last]));
      assert [last][1..] == [];
      assert Reverse(Drawn([last])) == Drawn([last]);
    }
  }

  lemma {:induction false} DrawnFrom(data: seq<Card>, index: nat, offset: Offset, k: nat)
    requires index <= |data| && k <= |data|
    ensures Drawn(MapCards(data, index, offset)[k..]) == data[if k < index then index else k..]
    decreases |data| - k
  {
    var m := MapCards(data, index, offset);
    if k < |data| {
      assert m[k..][1..] == m[k + 1..];
      DrawnFrom(data, index, offset, k + 1);
    } else {
      assert m[k..] == [];
    }
  }

  /**
   Entry by entry, the plan of a deck that is not exhausted draws position `j`
   from card `|data| - 1 - j`: nothing for a card before the index, the
   interactive view laid out at the drag offset for the card at the index, and
   a static view pushed down by ten pixels per place behind the top card for
   every later one.
   */
  lemma PlanEntries(data: seq<Card>, index: nat, offset: Offset)
    requires index < |data|
    ensures RenderPlan(data, index, offset).Stack?
    ensures var v := RenderPlan(data, index, offset).views;
      forall j :: 0 <= j < |v| ==>
        var c := |data| - 1 - j;
        && (c < index ==> v[j] == Omitted)
        && (c == index ==> v[j] == Interactive(data[index], offset))
        && (c > index ==> v[j] == Stacked(data[c], 10 * (c - index)) && 10 * (c - index) > 0)
  {
    var m := MapCards(data, index, offset);
    forall j | 0 <= j < |data| ensures Reverse(m)[j] == m[|data| - 1 - j] {
      ReverseAt(m, j);
    }
  }

  /**
   Exactly one entry carries the gesture handlers, the top card's, and every
   entry painted after it is empty, so the top card is painted last.
   */
  lemma TopCardPaintedLast(data: seq<Card>, index: nat, offset: Offset)
    requires index < |data|
    ensures var v := RenderPlan(data, index, offset).views;
      var t := |data| - 1 - index;
      && v[t] == Interactive(data[index], offset)
      && (forall j :: 0 <= j < |v| ==> (v[j].Interactive? <==> j == t))
      && (forall j :: t < j < |v| ==> v[j] == Omitted)
  {
    PlanEntries(data, index, offset);
  }

  /** The drawn cards are the cards not yet swiped, furthest from the top first. */
  lemma DrawnIsRemainingDeckReversed(data: seq<Card>, index: nat, offset: Offset)
    requires index < |data|
    ensures Drawn(RenderPlan(data, index, offset).views) == Reverse(data[index..])
  {
    DrawnReverse(MapCards(data, index, offset));
    DrawnFrom(data, index, offset, 0);
    assert MapCards(data, index, offset)[0..] == MapCards(data, index, offset);
  }

  /** The plan carries gesture handlers exactly when a top card exists. */
  lemma HandlersOnlyWithTopCard(data: seq<Card>, index: nat, offset: Offset)
    ensures HasHandlers(RenderPlan(data, index, offset)) <==> index < |data|
    ensures index >= |data| ==> RenderPlan(data, index, offset) == NoMoreCards
  {
    if index < |data| {
      TopCardPaintedLast(data, index, offset);
    }
  }

  /**
   Pointer events reach a deck only through the handlers in its render plan: a
   drag move or release can occur exactly when the plan carries them and no
   swipe-out animation is running.
   */
  lemma GesturesOnlyThroughHandlers(s: DeckState, dx: real, dy: real)
    ensures Enabled(s, DragMove(dx, dy)) <==>
              HasHandlers(RenderPlan(s.data, s.index, s.offset)) && !s.phase.SwipingOut?
    ensures Enabled(s, DragRelease(dx)) <==>
              HasHandlers(RenderPlan(s.data, s.index, s.offset)) && !s.phase.SwipingOut?
  {
    HandlersOnlyWithTopCard(s.data, s.index, s.offset);
  }
}
