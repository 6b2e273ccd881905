/**
 The deck component as an object whose event handlers update its state in
 place. Each handler is proved against `Swipe.Step`, so that every sequence of
 handler calls is a `Swipe.Run` and the trace lemmas of module `Swipe` apply.
 */
module Deck {
  import opened Swipe
  import opened Render

  class Deck {
    const screenWidth: real
    var data: seq<Card>
    var index: nat
    var offX: real
    var offY: real
    var phase: Phase
    var log: seq<Event>

    function State(): DeckState
      reads this
    {
      DeckState(data, index, Offset(offX, offY), phase, log)
    }

    ghost predicate Valid()
      reads this
    {
      screenWidth > 0.0 && ValidState(State())
    }

    /** Mounting: the first card is on top, nothing is offset, nothing has been swiped. */
    constructor (width: real, cards: seq<Card>)
      requires width > 0.0
      ensures Valid() && screenWidth == width
      ensures State() == Initial(cards)
    {
      screenWidth := width;
      data := cards;
      index := 0;
      offX, offY := 0.0, 0.0;
      phase := Idle;
      log := [];
    }

    /** A pan move puts the top card exactly at the gesture delta and changes nothing else. */
    method Move(dx: real, dy: real)
      requires Valid() && Enabled(State(), DragMove(dx, dy))
      modifies this
      ensures Valid()
      ensures State() == Step(old(State()), screenWidth, DragMove(dx, dy))
      ensures offX == dx && offY == dy && phase == Dragging
      ensures data == old(data) && index == old(index) && log == old(log)
    {
      offX, offY := dx, dy;
      phase := Dragging;
    }

    /**
     A pan release starts the swipe-out animation to the side whose threshold
     `dx` strictly passes, or the spring back to the centre; it fires no
     callback and leaves the index and the offset alone.
     */
    method Release(dx: real) returns (outcome: ReleaseOutcome)
      requires Valid() && Enabled(State(), DragRelease(dx))
      modifies this
      ensures Valid()
      ensures State() == Step(old(State()), screenWidth, DragRelease(dx))
      ensures outcome == Classify(dx, screenWidth)
      ensures phase == (if outcome.ForceSwipe? then SwipingOut(outcome.direction) else Reverting)
      ensures AnimationTarget(phase, screenWidth) ==
                if outcome == ForceSwipe(Right) then Some(Offset(screenWidth, 0.0))
                else if outcome == ForceSwipe(Left) then Some(Offset(-screenWidth, 0.0))
                else Some(Origin)
      ensures data == old(data) && index == old(index) && log == old(log)
      ensures offX == old(offX) && offY == old(offY)
    {
      outcome := Classify(dx, screenWidth);
      match outcome
      case ForceSwipe(d) => phase := SwipingOut(d);
      case Revert => phase := Reverting;
    }

    /**
     The end of the swipe-out animation: the callback of the animation's
     direction fires once with the card that was on top, the offset goes back
     to the origin and the next card comes to the top.
     */
    method CompleteSwipe()
      requires Valid() && Enabled(State(), SwipeOutFinished)
      modifies this
      ensures Valid()
      ensures State() == Step(old(State()), screenWidth, SwipeOutFinished)
      ensures log == old(log) + [Swiped(old(phase).direction, old(data)[old(index)])]
      ensures index == old(index) + 1
      ensures offX == 0.0 && offY == 0.0 && phase == Idle
      ensures data == old(data)
    {
      var item := data[index];
      log := log + [Swiped(phase.direction, item)];
      offX, offY := 0.0, 0.0;
      index := index + 1;
      phase := Idle;
    }

    /** The spring has settled at the origin; no callback fires and the index stays. */
    method SettleSpring()
      requires Valid() && Enabled(State(), SpringFinished)
      modifies this
      ensures Valid()
      ensures State() == Step(old(State()), screenWidth, SpringFinished)
      ensures offX == 0.0 && offY == 0.0 && phase == Idle
      ensures data == old(data) && index == old(index) && log == old(log)
    {
      offX, offY := 0.0, 0.0;
      phase := Idle;
    }

    /** New data restarts the deck at its first card, whatever the index was. */
    method DataChanged(cards: seq<Card>)
      requires Valid() && Enabled(State(), NewData(cards))
      modifies this
      ensures Valid()
      ensures State() == Step(old(State()), screenWidth, NewData(cards))
      ensures data == cards && index == 0
      ensures offX == old(offX) && offY == old(offY) && phase == old(phase) && log == old(log)
    {
      data := cards;
      index := 0;
    }

    /**
     The render pass for the current state; reading it changes nothing. The top
     card is laid out at the current drag offset.
     */
    method RenderCards() returns (p: Plan)
      requires Valid()
      ensures p == RenderPlan(data, index, Offset(offX, offY))
      ensures p.NoMoreCards? <==> index >= |data|
      ensures HasHandlers(p) <==> index < |data|
      ensures p.Stack? ==> Drawn(p.views) == Reverse(data[index..])
      ensures p.Stack? ==> p.views[|data| - 1 - index] == Interactive(data[index], Offset(offX, offY))
    {
      p := RenderPlan(data, index, Offset(offX, offY));
      HandlersOnlyWithTopCard(data, index, Offset(offX, offY));
      if index < |data| {
        DrawnIsRemainingDeckReversed(data, index, Offset(offX, offY));
        TopCardPaintedLast(data, index, Offset(offX, offY));
      }
    }
  }
}
