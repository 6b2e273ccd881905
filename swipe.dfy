/**
 The swipe interaction of the card deck as a transition system over values.

 A deck holds the cards, the index of the current top card, the drag offset of
 that card, the phase of the gesture/animation cycle and the log of swipe
 callbacks fired so far. Each pointer event, each animation completion and each
 change of the input data is an `Input`; `Step` is the effect of one input and
 `Run` the effect of a sequence of them. The class in module `Deck` is proved
 against `Step`.
 */
module Swipe {

  datatype Option<T> = None | Some(value: T)

  /** One record of the deck's input data. */
  datatype Card = Card(id: int, text: string, uri: string)

  datatype Direction = Left | Right

  /** A call of `onSwipeLeft` or `onSwipeRight` with the card that was swiped. */
  datatype Event = Swiped(direction: Direction, card: Card)

  /** The 2-D drag offset of the top card. */
  datatype Offset = Offset(x: real, y: real)

  const Origin := Offset(0.0, 0.0)

  /**
   Where the deck is in its gesture cycle: at rest, following a finger, running
   the timed swipe-out animation towards one side, or springing back to the centre.
   */
  datatype Phase = Idle | Dragging | SwipingOut(direction: Direction) | Reverting

  /** What a release decides: animate the card off to one side, or back to the centre. */
  datatype ReleaseOutcome = ForceSwipe(direction: Direction) | Revert

  datatype DeckState = DeckState(
    data: seq<Card>,
    index: nat,
    offset: Offset,
    phase: Phase,
    log: seq<Event>)

  /** The events the deck reacts to. */
  datatype Input =
    | DragMove(dx: real, dy: real)   // pan move with the cumulative gesture delta
    | DragRelease(dx: real)          // pan release with the final horizontal delta
    | SwipeOutFinished               // the timed swipe-out animation has ended
    | SpringFinished                 // the spring back to the centre has settled
    | NewData(cards: seq<Card>)      // the `data` input was replaced

  /** The deck as it is mounted: first card on top, no offset, nothing swiped. */
  function Initial(data: seq<Card>): DeckState {
    DeckState(data, 0, Origin, Idle, [])
  }

  /** A quarter of the screen width. */
  function Threshold(screenWidth: real): real {
    0.25 * screenWidth
  }

  /**
   The release decision. The right swipe is tested first; on a screen of
   non-negative width the two swipe regions are disjoint, both comparisons are
   strict, and a release exactly on either threshold springs back.
   */
  function Classify(dx: real, screenWidth: real): (r: ReleaseOutcome)
    ensures r == ForceSwipe(Right) <==> dx > Threshold(screenWidth)
    ensures screenWidth >= 0.0 ==> (r == ForceSwipe(Left) <==> dx < -Threshold(screenWidth))
    ensures screenWidth >= 0.0 ==>
              (r == Revert <==> -Threshold(screenWidth) <= dx <= Threshold(screenWidth))
  {
    if dx > Threshold(screenWidth) then ForceSwipe(Right)
    else if dx < -Threshold(screenWidth) then ForceSwipe(Left)
    else Revert
  }

  /** The horizontal end point of a forced swipe: one screen width to the chosen side. */
  function SwipeOutX(direction: Direction, screenWidth: real): real {
    if direction == Right then screenWidth else -screenWidth
  }

  /** The offset that the animation in flight, if any, is driving the top card to. */
  function AnimationTarget(phase: Phase, screenWidth: real): Option<Offset> {
    match phase
    case SwipingOut(d) => Some(Offset(SwipeOutX(d, screenWidth), 0.0))
    case Reverting => Some(Origin)
    case _ => None
  }

  /**
   The invariant of every reachable state: the index never runs past the data,
   and a swipe-out animation only runs while there is a top card to swipe.
   */
  predicate ValidState(s: DeckState) {
    && s.index <= |s.data|
    && (s.phase.SwipingOut? ==> s.index < |s.data|)
  }

  /** A top card exists, so the gesture handlers are attached to it. */
  predicate HasTopCard(s: DeckState) {
    s.index < |s.data|
  }

  /**
   Whether an input can occur in a state. Pointer events reach the deck only
   through the handlers of the top card, and only the current animation can
   report its own completion.
   */
  predicate Enabled(s: DeckState, input: Input) {
    match input
    case DragMove(_, _) => HasTopCard(s) && !s.phase.SwipingOut?
    case DragRelease(_) => HasTopCard(s) && !s.phase.SwipingOut?
    case SwipeOutFinished => s.phase.SwipingOut?
    case SpringFinished => s.phase == Reverting
    case NewData(_) => !s.phase.SwipingOut?
  }

  /** The completion of a swipe: the callback with the top card, offset reset, next card. */
  function CompleteSwipe(s: DeckState, direction: Direction): (r: DeckState)
    requires HasTopCard(s)
  {
    s.(log := s.log + [Swiped(direction, s.data[s.index])],
       offset := Origin,
       index := s.index + 1,
       phase := Idle)
  }

  /** The effect of one input; every reachable state stays valid. */
  function Step(s: DeckState, screenWidth: real, input: Input): (r: DeckState)
    requires ValidState(s) && Enabled(s, input)
    ensures ValidState(r)
  {
    match input
    case DragMove(dx, dy) => s.(offset := Offset(dx, dy), phase := Dragging)
    case DragRelease(dx) =>
      (match Classify(dx, screenWidth)
       case ForceSwipe(d) => s.(phase := SwipingOut(d))
       case Revert => s.(phase := Reverting))
    case SwipeOutFinished => CompleteSwipe(s, s.phase.direction)
    case SpringFinished => s.(offset := Origin, phase := Idle)
    case NewData(cards) => s.(data := cards, index := 0)
  }

  /** Every input of the sequence is enabled in the state it reaches. */
  predicate Admissible(s: DeckState, screenWidth: real, inputs: seq<Input>)
    requires ValidState(s)
    decreases |inputs|
  {
    inputs == [] ||
    (Enabled(s, inputs[0]) && Admissible(Step(s, screenWidth, inputs[0]), screenWidth, inputs[1..]))
  }

  function Run(s: DeckState, screenWidth: real, inputs: seq<Input>): (r: DeckState)
    requires ValidState(s) && Admissible(s, screenWidth, inputs)
    ensures ValidState(r)
    decreases |inputs|
  {
    if inputs == [] then s
    else Run(Step(s, screenWidth, inputs[0]), screenWidth, inputs[1..])
  }

  predicate NoDataChange(inputs: seq<Input>) {
    forall k :: 0 <= k < |inputs| ==> !inputs[k].NewData?
  }

  function CardsOf(events: seq<Event>): seq<Card> {
    seq(|events|, k requires 0 <= k < |events| => events[k].card)
  }

  /**
   A release never changes the index, the data, the log or the offset; it picks
   the animation from the horizontal delta alone, and that animation targets one
   screen width to the right or to the left at height zero, or the origin.
   */
  lemma ReleaseStartsAnimation(s: DeckState, screenWidth: real, dx: real)
    requires ValidState(s) && Enabled(s, DragRelease(dx)) && screenWidth > 0.0
    ensures var r := Step(s, screenWidth, DragRelease(dx));
      && r.index == s.index && r.data == s.data && r.log == s.log && r.offset == s.offset
      && (dx > Threshold(screenWidth) <==>
            r.phase == SwipingOut(Right) && AnimationTarget(r.phase, screenWidth) == Some(Offset(screenWidth, 0.0)))
      && (dx < -Threshold(screenWidth) <==>
            r.phase == SwipingOut(Left) && AnimationTarget(r.phase, screenWidth) == Some(Offset(-screenWidth, 0.0)))
      && (-Threshold(screenWidth) <= dx <= Threshold(screenWidth) <==>
            r.phase == Reverting && AnimationTarget(r.phase, screenWidth) == Some(Origin))
  {
  }

  /**
   Between two changes of the data, the data stays the same, the index only
   grows and never passes the end of the data, the log only grows, and the cards
   of the new log entries are exactly the cards the index moved past, in order:
   one callback per committed swipe, each with the card that was on top.
   */
  lemma {:induction false} SwipesBetweenDataChanges(s: DeckState, screenWidth: real, inputs: seq<Input>)
    requires ValidState(s) && Admissible(s, screenWidth, inputs) && NoDataChange(inputs)
    ensures var r := Run(s, screenWidth, inputs);
      && r.data == s.data
      && s.index <= r.index <= |s.data|
      && |s.log| <= |r.log|
      && r.log[..|s.log|] == s.log
      && CardsOf(r.log[|s.log|..]) == s.data[s.index..r.index]
    decreases |inputs|
  {
    if inputs != [] {
      var t := Step(s, screenWidth, inputs[0]);
      assert NoDataChange(inputs[1..]) by {
        forall k | 0 <= k < |inputs[1..]| ensures !inputs[1..][k].NewData? {
          assert inputs[1..][k] == inputs[k + 1];
        }
      }
      assert !inputs[0].NewData?;
      SwipesBetweenDataChanges(t, screenWidth, inputs[1..]);
      var r := Run(t, screenWidth, inputs[1..]);
      assert r == Run(s, screenWidth, inputs);
      assert t.data == s.data;
      assert t.log[..|s.log|] == s.log;
      assert CardsOf(t.log[|s.log|..]) == s.data[s.index..t.index];
      assert r.log[|s.log|..] == t.log[|s.log|..] + r.log[|t.log|..] by {
        assert r.log[..|t.log|] == t.log;
      }
      assert r.log[..|s.log|] == s.log by {
        assert r.log[..|t.log|] == t.log;
      }
      CardsOfConcat(t.log[|s.log|..], r.log[|t.log|..]);
      assert s.data[s.index..r.index] == s.data[s.index..t.index] + s.data[t.index..r.index];
    }
  }

  lemma CardsOfConcat(a: seq<Event>, b: seq<Event>)
    ensures CardsOf(a + b) == CardsOf(a) + CardsOf(b)
  {
    assert forall k :: 0 <= k < |a + b| ==> CardsOf(a + b)[k] == (CardsOf(a) + CardsOf(b))[k];
  }

  /** `n` drag-and-release cycles with delta `dx`, each followed by the end of its animation. */
  function SwipeInputs(n: nat, dx: real): (inputs: seq<Input>)
    decreases n
  {
    if n == 0 then [] else [DragRelease(dx), SwipeOutFinished] + SwipeInputs(n - 1, dx)
  }

  function RightSwipes(cards: seq<Card>): seq<Event> {
    seq(|cards|, k requires 0 <= k < |cards| => Swiped(Right, cards[k]))
  }

  /**
   Releasing `n` times past the right threshold swipes the next `n` cards to the
   right, one callback each and in deck order, and leaves the deck at rest with
   the offset at the origin.
   */
  lemma {:induction false} SwipeRightRepeatedly(s: DeckState, screenWidth: real, dx: real, n: nat)
    requires ValidState(s) && !s.phase.SwipingOut? && s.index + n <= |s.data|
    requires dx > Threshold(screenWidth)
    ensures Admissible(s, screenWidth, SwipeInputs(n, dx))
    ensures var r := Run(s, screenWidth, SwipeInputs(n, dx));
      && r.data == s.data
      && r.index == s.index + n
      && r.log == s.log + RightSwipes(s.data[s.index..s.index + n])
      && (n > 0 ==> r.phase == Idle && r.offset == Origin)
    decreases n
  {
    if n == 0 {
      assert s.data[s.index..s.index] == [];
      assert RightSwipes([]) == [];
    } else {
      var rest := SwipeInputs(n - 1, dx);
      var inputs := SwipeInputs(n, dx);
      assert inputs[0] == DragRelease(dx);
      assert inputs[1..] == [SwipeOutFinished] + rest;
      assert inputs[1..][0] == SwipeOutFinished;
      assert inputs[1..][1..] == rest;
      var t1 := Step(s, screenWidth, DragRelease(dx));
      assert t1.phase == SwipingOut(Right);
      var t2 := Step(t1, screenWidth, SwipeOutFinished);
      assert t2.index == s.index + 1 && t2.phase == Idle;
      assert t2.log == s.log + [Swiped(Right, s.data[s.index])];
      SwipeRightRepeatedly(t2, screenWidth, dx, n - 1);
      assert Admissible(t1, screenWidth, inputs[1..]);
      assert Run(s, screenWidth, inputs) == Run(t2, screenWidth, rest);
      var r := Run(t2, screenWidth, rest);
      assert r.log == s.log + [Swiped(Right, s.data[s.index])] + RightSwipes(s.data[s.index + 1..s.index + n]);
      assert RightSwipes(s.data[s.index..s.index + n])
          == [Swiped(Right, s.data[s.index])] + RightSwipes(s.data[s.index + 1..s.index + n]);
    }
  }
}
