# Swipe card deck: a verified model of the deck's interaction state machine

The `Deck` component shows a stack of cards. Only the top card reacts to a
drag, and it follows the finger both horizontally and vertically. When the drag
is released with a horizontal delta past a quarter of the screen width, the
card animates off to that side. The component then calls `onSwipeRight` or
`onSwipeLeft` with the card and brings the next card to the top. A release at
or inside the threshold springs the card back to the centre. When the `data`
input changes, the deck starts again at its first card. Once every card has
been swiped, the deck shows only the terminal "no more cards" view.

The project has four modules:

- `Swipe` (`swipe.dfy`) holds the deck's state as a value: the data, the index,
  the drag offset, the gesture/animation phase, and a log of the swipe
  callbacks fired so far. `Classify` is the release decision, `Step` is the
  effect of one input event, and `Run` is the effect of a sequence of events.
  The lemmas here are about whole traces.
- `Render` (`render.dfy`) is `renderCards`: a per-card view followed by the
  reversal, with lemmas about which card is drawn where. The top card's view
  carries the drag offset it is laid out at. A lemma ties the pointer events to
  the gesture handlers that the plan attaches.
- `Deck` (`deck.dfy`) is the component as a class. Its fields are `data`,
  `index`, `offX`, `offY`, `phase` and `log`. Its methods are the event
  handlers, and each one is proved against `Swipe.Step`.
- `Scenarios` (`scenarios.dfy`) holds concrete runs: swiping through a whole
  deck, one swipe past the threshold, one spring-back, and an empty deck.

Screen width is a positive constant of the deck (`screenWidth`), and offsets
and gesture deltas are `real`, so no floating point is involved. The two
callbacks are modelled as entries `Swiped(direction, card)` appended to `log`.
The animations are modelled as a phase (`SwipingOut(direction)` or
`Reverting`) plus an explicit completion event (`SwipeOutFinished`,
`SpringFinished`). The target that each animation drives the offset towards is
given by `AnimationTarget`.

Which events can occur in which state is given by `Swipe.Enabled`:
- Pointer events reach the deck only while it has a top card, because only the
  top card carries the gesture handlers.
- A drag that starts while the card is springing back replaces the spring
  (last writer wins).
- A completion event occurs only for the animation that is running.

## Model

| member | source | states |
|---|---|---|
| `Swipe.Classify` | src/Deck.tsx:87-93 | a release swipes right exactly when `dx > 0.25 * width`; on a non-negative width it swipes left exactly when `dx < -0.25 * width`, and springs back exactly when `dx` lies between the two thresholds, both ends included |
| `Swipe.Step` | src/Deck.tsx:48-95 | every enabled event keeps the deck invariant: the index is at most the data length, and a swipe-out only runs while a top card exists |
| `Swipe.ReleaseStartsAnimation` | src/Deck.tsx:66-73 | a release changes no index, data, log or offset; it starts the swipe-out towards `(+width, 0)` exactly when `dx` is past the right threshold, towards `(-width, 0)` exactly when past the left one, and the spring towards `(0, 0)` exactly otherwise |
| `Swipe.SwipesBetweenDataChanges` | src/Deck.tsx:52-57 | over any run without a data change, the data is unchanged, the index never decreases and stays at most the data length, the old log is a prefix of the new one, and the cards in the new log entries are exactly the cards the index moved past, in order (one callback per committed swipe) |
| `Swipe.SwipeRightRepeatedly` | src/Deck.tsx:52-57 | `n` releases past the right threshold, each followed by the end of its animation, advance the index by `n` and log a right swipe for each of the next `n` cards in order; the deck ends at rest at offset `(0, 0)` |
| `Render.RenderPlan` | src/Deck.tsx:110-140 | the plan is the terminal view exactly when `index >= data.length`; otherwise it has one entry per card |
| `Render.ReverseAt` | src/Deck.tsx:139 | position `k` of the reversed list holds element `length - 1 - k` of the original |
| `Render.PlanEntries` | src/Deck.tsx:114-139 | position `j` of a non-exhausted plan shows card `c = length - 1 - j`: nothing if `c < index`, the interactive card laid out at the drag offset if `c == index`, and a static card at vertical offset `10 * (c - index) > 0` otherwise |
| `Render.TopCardPaintedLast` | src/Deck.tsx:116-139 | exactly one entry is interactive, the one holding `data[index]`, and every entry after it is empty, so the top card is painted last |
| `Render.DrawnIsRemainingDeckReversed` | src/Deck.tsx:114-139 | the cards that are drawn, in paint order, are the cards not yet swiped in reverse order |
| `Render.HandlersOnlyWithTopCard` | src/Deck.tsx:111-125 | the plan carries gesture handlers exactly when `index < data.length`; an exhausted deck renders only the terminal view |
| `Render.GesturesOnlyThroughHandlers` | src/Deck.tsx:120-125 | a drag move or release can reach the deck exactly when its render plan carries the gesture handlers and no swipe-out is running; so an exhausted deck receives no drag |
| `Deck.Deck.constructor` | src/Deck.tsx:38-39 | a mounted deck starts at index 0 and offset `(0, 0)`, and nothing has been swiped |
| `Deck.Deck.Move` | src/Deck.tsx:77-82 | a pan move sets the offset to exactly `(dx, dy)` and changes no data, index or log |
| `Deck.Deck.Release` | src/Deck.tsx:83-94 | the release outcome is `Classify(dx)`; a forced swipe targets `(±width, 0)` and a revert targets `(0, 0)`; the index, data, log and offset are left unchanged |
| `Deck.Deck.CompleteSwipe` | src/Deck.tsx:52-57 | completing a swipe appends exactly one log entry holding the animation's direction and `data[old index]`, resets the offset to `(0, 0)`, and increments the index by exactly 1 |
| `Deck.Deck.SettleSpring` | src/Deck.tsx:59-64 | a settled spring leaves the offset at `(0, 0)`, fires no callback, and keeps the index |
| `Deck.Deck.DataChanged` | src/Deck.tsx:47-50 | new data resets the index to 0 whatever it was before, and changes nothing else |
| `Deck.Deck.RenderCards` | src/Deck.tsx:97-142 | the result is the render plan of the current data, index and offset: the terminal view exactly when the deck is exhausted, with handlers exactly when it is not, its drawn cards the remaining deck in reverse, and the top card laid out at the current offset |
| `Scenarios.SwipingEveryCardExhaustsDeck` | src/Deck.tsx:52-57 | swiping right once per card from a freshly mounted deck logs every card in order, reaches `index == data.length`, renders only the terminal view, and, since that plan has no handlers, no further drag can reach the deck |
| `Scenarios.SwipeRightPastThreshold` | src/Deck.tsx:87-88 | on a two-card deck of width 400 (threshold 100), a drag to 150 and a release log one right swipe of the first card; the next plan shows the second card interactive at offset `(0, 0)` and the first card absent |
| `Scenarios.SpringBackUnderThreshold` | src/Deck.tsx:91-92 | on the same deck, a drag to 50 and a release fire no callback and keep the first card on top; once the spring settles, the rendered top card is laid out at `(0, 0)` again |
| `Scenarios.EmptyDeckIsTerminal` | src/Deck.tsx:111-113 | an empty deck renders only the terminal view, has no gesture handlers, and so accepts no drag move or release |

## Left out

- Animation timing and physics are not modelled: the 250 ms timed animation (src/Deck.tsx:17, 68-72), the spring dynamics (src/Deck.tsx:60-63) and the layout-animation setup effect (src/Deck.tsx:41-45). Each animation is a phase that ends with an explicit completion event, and the intermediate offsets are not modelled.
- The rotation of the top card (`getCardStyle`, src/Deck.tsx:97-108) is left out. It is a floating-point, degree-string interpolation done inside the framework, and the source does not say how it extrapolates outside its input range, so the model assumes neither clamping nor extension. The layout part of that style, the drag offset, is kept: the interactive view carries it.
- The gesture responder, the animated-value objects, `Dimensions` and the styles (src/Deck.tsx:14-15, 75-76, 156-165) are framework plumbing. The screen width becomes the `screenWidth` constant, and the screen height, used only for styles, is dropped.
- `renderCard` and `renderNoMoreCards` are caller-supplied renderers. A plan entry holds the card record instead of the visual node the renderer would return, and the React `key` is not modelled.
- The default callbacks that write to the console (src/Deck.tsx:147-154) become log entries; the text they print is not modelled.
- Move: not enabled while a swipe-out animation is in flight. In the source the top card still carries its handlers then, and a new drag would overlap the running timing animation on the shared offset. That is concurrency with the animation loop, so it is not modelled.
- Release: not enabled while a swipe-out animation is in flight, for the same reason as Move.
- DataChanged: not enabled while a swipe-out animation is in flight. In the source the completion callback would still run with the data and index of the render in which the release happened, which interleaves with the reset. That interleaving is not modelled.
- DataChanged: replaces the data and resets the index in one step. In the source the reset is an effect (src/Deck.tsx:48-50) that runs only after the render that already received the new data. That one render pairs the new data with the old index, and during it the index may exceed the new length. The model does not have this intermediate state, so the invariant `index <= |data|` is a property of the model's states only. The render of that state is still `RenderPlan(new data, old index, offset)`, because `RenderPlan` is defined for every index: the terminal view when the old index is at or past the new length (which is why src/Deck.tsx:111 tests `>=`), and otherwise the new deck drawn from the old index.
- App.tsx is not part of this model: it supplies static sample data, theming, the status bar and third-party card and button widgets.
