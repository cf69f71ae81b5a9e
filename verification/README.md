# Headroom scroll controller, modelled in Dafny

This project models the scroll controller inside the `Headroom` React
component. Headroom hides a fixed header or footer while the page scrolls
in one direction and shows it again when the page scrolls back. The
component is modelled as a deterministic state machine over one immutable
record, `HeadroomState.Headroom`. The record holds:

- the props;
- the React state: the pin label (`pinned`, `unpinned` or `unfixed`),
  `translateY`, `className` and the measured `height`;
- the instance fields `currentScrollY`, `lastKnownScrollY` and `ticking`;
- two counters that stand for the deferred-work queues: updates queued on
  the animation-frame scheduler, and zero-delay timeouts that finish an unpin;
- the sequence of user callbacks fired so far (`onPin`, `onUnpin`, `onUnfix`).

Modules:

- `HeadroomState` (state.dfy) holds the data model, the class-name labels,
  the "style follows state" predicate `Consistent`, and the constructor `Init`.
- `HeadroomController` (controller.dfy) holds `IsOutOfBound`, `HandleScroll`,
  `Pin`, `Unpin` and its deferred `SettleUnpin`, `Unfix`, `Dispatch`, the
  per-frame `Update`, `RunFrame`, `ReceiveProps` (the disable toggle) and
  `SetHeight`.
- `HeadroomView` (view.dfy) holds `View`. This is the part of `render` that
  derives the position, anchor, transform, transition, class name and
  wrapper height.
- `HeadroomTrace` (trace.dfy) holds `Step` and `Run` over an event stream:
  scroll, frame, settle, new props and measurement. It also holds the
  invariants proved over every run.

The pin/unpin/unfix decision comes from `./shouldUpdate`, which is not part
of this model. It is a function-valued parameter, `decide: Oracle`. It
receives the last known offset, the current offset, the props and the React
state, and it returns `PinAction`, `UnpinAction`, `UnfixAction` or
`NoAction`. Every property below holds for every oracle.

Scheduling is made explicit:

- `raf(this.update)` becomes a `Frame` event. The event carries the DOM
  reading: scroll offset, scroller physical height and scroller height.
- The `setTimeout` that finishes an unpin becomes a `Settle` event.
- Firing either event with nothing queued changes nothing.

Behaviour worth knowing, all of it visible in the model:

- Unpin happens in two steps. `Unpin` changes the class name and the
  translation at once, but the pin label stays the same until `SettleUnpin`
  runs.
- A pin can run while an unpin's timeout is still queued. The timeout then
  marks the element `unpinned`, but it still shows as pinned and is not
  translated (`PinBeforeSettleDesyncs`).
- The display invariant `DisplayInv` is therefore proved only for prompt
  schedules (`RunKeepsDisplayInv`). In a prompt schedule, a queued timeout
  fires before the next frame runs and before new props arrive.
- On every schedule a weaker agreement holds (`RunKeepsStyleAgrees`). The
  class name is always one of the three label classes, and the element is
  translated exactly when the class is the unpinned one. Only the pin label
  can drift from the class.
- Only the current offset is checked against the bounds. `Update` refreshes
  `lastKnownScrollY` even when the reading is out of bound, so `shouldUpdate`
  can receive a previous offset that was out of bound (src/index.js:208-225).
- A callback fires once for every action the oracle returns. No callback
  fires per actual change of label. For example, a repeated unpin fires
  `onUnpin` again. Whether repeats happen is up to the oracle.

## Model

| member | source | states |
|---|---|---|
| HeadroomState.Init | src/index.js:42-55 | A footer starts pinned and anything else starts unfixed, never unpinned. translateY is 0, the class name matches the label, the offsets are 0, ticking is off, nothing is queued and no callback has fired. |
| HeadroomState.ClassFor | src/index.js:53 | The class name is the `headroom headroom--` prefix followed by the label, and cutting off the prefix gives back the label. The same template is used at src/index.js:177, 190 and 200. |
| HeadroomState.DefaultIsUnfixedHeader | src/index.js:27-54 | With the default props the component is an enabled header with upTolerance 5. It starts unfixed with the class `headroom headroom--unfixed`. |
| HeadroomState.StyleAgreesWithLabel | src/index.js:53 | A consistent view satisfies the weaker style agreement. An agreeing view whose class carries its own label is consistent. |
| HeadroomState.ClassForInjective | src/index.js:53 | Two pin labels give the same `headroom headroom--<label>` class name only if they are the same label. |
| HeadroomController.IsOutOfBound | src/index.js:152-161 | An offset is in bound exactly when 0 <= y <= scrollerHeight - physicalHeight. Offset 0 is in bound exactly when physicalHeight <= scrollerHeight. Every offset is out of bound when the visible height exceeds the scrollable height. |
| HeadroomController.HandleScroll | src/index.js:163-168 | When ticking is already latched, nothing changes. Otherwise ticking is latched and exactly one update is queued. Nothing else changes, and afterwards ticking is always on. |
| HeadroomController.Pin | src/index.js:185-193 | Sets the pinned label with a matching class name and zero translation. Appends exactly one onPin. Height, props, offsets and queues are unchanged. |
| HeadroomController.Unfix | src/index.js:195-203 | Sets the unfixed label with a matching class name and zero translation. Appends exactly one onUnfix. Everything else is unchanged. |
| HeadroomController.Unpin | src/index.js:170-183 | Sets the unpinned class name and a translation other than the number 0 at once: `${height}px` for a footer, '-100%' otherwise. Appends one onUnpin and queues one settle timeout. The pin label is not changed yet. |
| HeadroomController.SettleUnpin | src/index.js:178-182 | A queued timeout sets the label to unpinned and is consumed. It fires no callback. With nothing queued it changes nothing. |
| HeadroomController.UnpinThenSettle | src/index.js:170-183 | Unpin followed by its timeout, starting with nothing queued, ends unpinned and consistent, with one onUnpin fired and nothing left queued. |
| HeadroomController.Dispatch | src/index.js:216-222 | Each action appends exactly its own callback once and the result is exactly that action's transformer (`Pin`, `Unpin` or `Unfix`). For an unpin this includes the footer-dependent translation. Any other answer leaves the record unchanged. Offsets, ticking, props and height are never touched. |
| HeadroomController.Update | src/index.js:205-227 | The offset is always recorded as current and last known, and ticking is released. Out of bound: label, translation, class name, callbacks and queues are unchanged. In bound: exactly the effect of the oracle's answer for (last known offset, offset, props, state). |
| HeadroomController.RunFrame | src/index.js:166 | A queued update is consumed and the result is exactly `Update` on the remaining queue, so the bound check and the oracle's action apply as `Update` states. The current and last known offsets become the reading, ticking is released, and props and height are unchanged. With nothing queued, nothing changes. |
| HeadroomController.ReceiveProps | src/index.js:64-71 | Switching disable from off to on unfixes the element: unfixed label, consistent style, one onUnfix. Every other prop change only replaces the props. |
| HeadroomController.SetHeight | src/index.js:92-96 | A measurement stores the element's offset height and changes nothing else. |
| HeadroomView.View | src/index.js:249-293 | Position is relative exactly when disabled or unfixed. The anchor is bottom exactly for a footer. Transitions and the ` headroom--scrolled` suffix appear exactly when not unfixed. The transform is translateY. The wrapper height is the measured height unless it is missing or 0. |
| HeadroomView.StyleFollowsState | src/index.js:249-279 | For a consistent, enabled record the rendered style is fixed by the label. Unfixed is relative, untranslated, without transition and with the bare class. Pinned is fixed, untranslated and scrolled. Unpinned is fixed, scrolled and has a translation other than 0. |
| HeadroomView.ClassNameNamesState | src/index.js:264-279 | Two consistent records that render the same class name have the same pin label. |
| HeadroomTrace.Run | src/index.js:163-227 | The event loop: the record after a whole stream of events. The callbacks before the run are a prefix of the callbacks after it. |
| HeadroomTrace.RunAppend | src/index.js:163-227 | Running two streams one after the other equals running their concatenation. |
| HeadroomTrace.Step | src/index.js:163-227 | One event appends at most one callback and keeps earlier callbacks. Scroll, settle and measurement events fire none. |
| HeadroomTrace.StepKeepsSchedulerInv | src/index.js:163-168 | One event keeps "queued frames = 1 if ticking else 0". |
| HeadroomTrace.RunKeepsSchedulerInv | src/index.js:163-168 | Over any event stream and any oracle, a frame is queued exactly while ticking is latched, so at most one update is ever pending. |
| HeadroomTrace.InitSchedulerInv | src/index.js:45-47 | From construction on, at most one update is ever queued. |
| HeadroomTrace.ScrollsCoalesce | src/index.js:163-168 | Any burst of one or more scroll events before a frame has the same effect as a single scroll event. |
| HeadroomTrace.FrameAfterFrameIsInert | src/index.js:205-227 | After the queued update has run, another frame before the next scroll changes nothing. |
| HeadroomTrace.RunCallbacks | src/index.js:170-203 | Over any stream, callbacks are only appended. Their number grows by at most the number of frame and prop-change events. |
| HeadroomTrace.StepKeepsDisplayInv | src/index.js:170-203 | One event scheduled promptly keeps the display invariant. |
| HeadroomTrace.RunKeepsDisplayInv | src/index.js:170-203 | On a prompt schedule, with no unpin in flight, class name, translation and label agree. While one is in flight (at most one), the element shows the unpinned class and a translation other than 0. |
| HeadroomTrace.InitDisplayInv | src/index.js:49-54 | The constructed record satisfies the display invariant. |
| HeadroomTrace.StepKeepsStyleAgrees | src/index.js:170-203 | One event, on any schedule, keeps the weaker style agreement. |
| HeadroomTrace.RunKeepsStyleAgrees | src/index.js:170-203 | Over any stream, schedule and oracle, the class name stays a label class and the translation is non-zero exactly when the class is the unpinned one. |
| HeadroomTrace.InitStyleAgrees | src/index.js:49-54 | From construction on, the weaker style agreement holds after every stream of events. |
| HeadroomTrace.PinBeforeSettleDesyncs | src/index.js:170-193 | Unpin, then pin, then the unpin's timeout leaves the label unpinned while the class says pinned and the translation is 0. The weaker style agreement still holds, so only the label drifts. |

## Left out

- DOM measurement (`getScrollY`, `getViewportHeight`, `getDocumentHeight`, `getElementPhysicalHeight`, `getElementHeight`, the parent-is-window choice, src/index.js:98-150). These are foreign reads. Their results arrive as the integers of a `Reading` and of a `Measure` event.
- Fractional scroll offsets and heights. The browser reports floats, and the model uses `int`.
- Adding and removing the scroll listener on mount, unmount and disable toggles (src/index.js:57-62, 67-69, 87-90). A `Scroll` event stands for a delivered call to `handleScroll`. Whether the listener is attached is not tracked.
- The timing of `raf` and `setTimeout`. Only their queues are modelled. Which event fires when is the event stream's choice.
- The rules inside `shouldUpdate`. That file is not part of this model, so the decision is an arbitrary oracle parameter.
- `componentDidUpdate`'s test for changed children (src/index.js:80-85). Re-measurement is the `Measure` event, given as input.
- `shouldComponentUpdate` with `shallowequal`, the removal of props before rendering, merging the user `style` and `wrapperStyle`, `disableInlineStyles`, and the JSX output (src/index.js:73-78, 230-246, 281-296). These are React rendering details.
- CSS text. Translations are the datatype `Zero | FullUp | Down(height)` and not the `translateY(...)` string. The fixed `left`, `right` and `zIndex` values are not modelled.
- HeadroomTrace.RunKeepsDisplayInv: the full "style follows state" invariant is proved only for prompt schedules, in which an unpin's zero-delay timeout fires before the next frame and before new props. The source does not guarantee that order (src/index.js:178-181). On every schedule only the weaker `StyleAgrees` is proved, and `PinBeforeSettleDesyncs` shows the full invariant can fail.
- HeadroomController.Unpin: a footer's translation `Down(height)` differs from `Zero` only as a value. When the measured height is 0 (`0px`) or not yet measured (`undefinedpx`, modelled as `Down(None)`), the element does not actually move. No visual displacement is claimed.
- The user callbacks are recorded in a trace and are not run. Whatever they do is outside the model.
