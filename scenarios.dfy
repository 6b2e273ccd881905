/** Whole-deck scenarios: swiping through a deck, one swipe and one spring-back, an empty deck. */
module Scenarios {
  import opened Swipe
  import opened Render

  /**
   Swiping right once per card from a freshly mounted deck calls the right
   callback with every card in order, exhausts the deck, shows only the
   terminal view, and leaves no pointer event that can reach the deck.
   */
  lemma SwipingEveryCardExhaustsDeck(data: seq<Card>, screenWidth: real, dx: real)
    requires dx > Threshold(screenWidth)
    ensures Admissible(Initial(data), screenWidth, SwipeInputs(|data|, dx))
    ensures var r := Run(Initial(data), screenWidth, SwipeInputs(|data|, dx));
      && r.index == |data|
      && r.log == RightSwipes(data)
      && RenderPlan(r.data, r.index, r.offset) == NoMoreCards
      && !HasHandlers(RenderPlan(r.data, r.index, r.offset))
      && (forall x, y :: !Enabled(r, DragMove(x, y)))
      && (forall x :: !Enabled(r, DragRelease(x)))
  {
    SwipeRightRepeatedly(Initial(data), screenWidth, dx, |data|);
    assert data[0..|data|] == data;
    var r := Run(Initial(data), screenWidth, SwipeInputs(|data|, dx));
    HandlersOnlyWithTopCard(r.data, r.index, r.offset);
    forall x, y ensures !Enabled(r, DragMove(x, y)) && !Enabled(r, DragRelease(x)) {
      GesturesOnlyThroughHandlers(r, x, y);
    }
  }

  /**
   Two cards on a screen 400 wide (threshold 100): a drag to 150 and a release
   call the right callback once with the first card; the second card is then on
   top, painted last, and the first is not drawn.
   */
  lemma SwipeRightPastThreshold(first: Card, second: Card)
    ensures var inputs := [DragMove(150.0, 0.0), DragRelease(150.0), SwipeOutFinished];
      && Admissible(Initial([first, second]), 400.0, inputs)
      && var r := Run(Initial([first, second]), 400.0, inputs);
      && r.log == [Swiped(Right, first)]
      && r.index == 1
      && r.offset == Origin
      && RenderPlan(r.data, r.index, r.offset) == Stack([Interactive(second, Origin), Omitted])
  {
    var s0 := Initial([first, second]);
    var inputs := [DragMove(150.0, 0.0), DragRelease(150.0), SwipeOutFinished];
    var s1 := Step(s0, 400.0, inputs[0]);
    var s2 := Step(s1, 400.0, inputs[1]);
    var s3 := Step(s2, 400.0, inputs[2]);
    assert inputs[1..][0] == inputs[1] && inputs[1..][1..] == [inputs[2]];
    assert [inputs[2]][1..] == [];
    assert Run(s0, 400.0, inputs) == s3;
    PlanEntries([first, second], 1, s3.offset);
  }

  /**
   The same deck, a drag to 50 and a release: no callback, the first card stays
   on top, and once the spring settles its offset is back at the origin.
   */
  lemma SpringBackUnderThreshold(first: Card, second: Card)
    ensures var inputs := [DragMove(50.0, 0.0), DragRelease(50.0), SpringFinished];
      && Admissible(Initial([first, second]), 400.0, inputs)
      && var r := Run(Initial([first, second]), 400.0, inputs);
      && r.log == []
      && r.index == 0
      && r.offset == Origin
      && RenderPlan(r.data, r.index, r.offset) == Stack([Stacked(second, 10), Interactive(first, Origin)])
  {
    var s0 := Initial([first, second]);
    var inputs := [DragMove(50.0, 0.0), DragRelease(50.0), SpringFinished];
    var s1 := Step(s0, 400.0, inputs[0]);
    var s2 := Step(s1, 400.0, inputs[1]);
    var s3 := Step(s2, 400.0, inputs[2]);
    assert inputs[1..][0] == inputs[1] && inputs[1..][1..] == [inputs[2]];
    assert [inputs[2]][1..] == [];
    assert Run(s0, 400.0, inputs) == s3;
    PlanEntries([first, second], 0, s3.offset);
  }

  /**
   An empty deck shows the terminal view at once; its plan carries no gesture
   handlers, so no drag can reach it.
   */
  lemma EmptyDeckIsTerminal()
    ensures RenderPlan([], 0, Origin) == NoMoreCards
    ensures !HasHandlers(RenderPlan([], 0, Origin))
    ensures forall x, y :: !Enabled(Initial([]), DragMove(x, y)) && !Enabled(Initial([]), DragRelease(x))
  {
    var s := Initial([]);
    HandlersOnlyWithTopCard(s.data, s.index, s.offset);
    forall x, y ensures !Enabled(s, DragMove(x, y)) && !Enabled(s, DragRelease(x)) {
      GesturesOnlyThroughHandlers(s, x, y);
    }
  }
}
