# haptic-ripple, modelled in Dafny

haptic-ripple is a browser library that draws a "ripple" under the pointer when the user
presses an element. A `HapticRipple` controller is built from a set of options. It enables
or disables itself on elements given as a CSS selector, one element or an array of elements.
On an interaction start (`mousedown` or `touchstart`) it appends a ripple element centred on
the contact point. The repository holds three revisions of the class, and each one is a
module here:

- `TransitionRipple` models src/index.ts. The ripple grows by a CSS transition. `create`
  attaches an end handler for each ripple and records it in the element's handler entry.
- `KeyframeRipple` models src/haptic-ripple.ts. The ripple runs one keyframe animation and a
  timer removes it.
- `FrameLoopRipple` models dist/index.umd.js, the oldest revision. Its options have no
  easing and it has no debounce. Every element gets both a `mousedown` and a `touchstart`
  listener, and the ripple is animated frame by frame.

Shared logic sits in five modules:

- `Common`: element identities, the argument shapes of `enable`/`disable` and how they
  resolve, interaction events, and contact-point placement.
- `OptionRules`: constructor defaulting with JavaScript `||` and the shallow merge of
  `updateOptions`.
- `Debounce`: the 100 ms rule shared by the two TypeScript revisions.
- `Styles`: the class statics `idCounter` and `commonStylesInjected`, plus the style
  elements in the head.
- `Handlers`: the enable/disable bookkeeping of all three revisions.

State layout:

- The DOM state a class's instances share (listeners, per-element handler tables, appended
  ripples, the class statics) is one object of class `Page` per revision.
- `element._hapticRippleHandlers[styleId]` is kept as one side table keyed by element and
  instance number.
- Listener functions are values `Closure(kind, instance, element, serial)`. Each evaluation
  of an arrow function makes a distinct function object, and the serial stands for that.
- `enable` and `disable` are loops. Each is proved to compute a left fold `EnableAll` /
  `DisableAll` of one step per element. The lemmas of `Handlers` are about those folds.
- Every public operation (the constructor, `UpdateOptions`, `Enable`, `Disable`, `Create` and
  the listeners) keeps the instance invariant `Valid()`. The loop helpers `EnableEach`,
  `EnableOne` and `DisableEach` are specified by the folds alone, and `Enable`/`Disable`
  re-establish the invariant through `Handlers.EnableAllInv`/`Handlers.DisableAllInv`. The
  invariant says:
  - an element is in `instances` exactly when it has this instance's entry;
  - the start listeners of the instance on an element are exactly what its entry records;
  - entries have the revision's shape and close over their own element;
  - only end handlers listen to end events;
  - every listener and entry belongs to an instance already constructed;
  - the instance owns exactly one style element, and that element renders its current
    options.

Behaviour of the code worth knowing (the model follows it):

- The debounce clock `lastInteractionTime` is a class static. A `create` on any element by
  any instance therefore suppresses every other `create` within 100 ms, not only repeats on
  the same element.
- The default colour of src/index.ts is the literal `rgba(0, 0, 0`, without its closing
  parenthesis. It is kept as written.
- `disable` in src/index.ts removes the recorded end handler from the *start* event. `create`
  attached it to the end events, so this removal detaches nothing. A ripple in flight keeps
  its end listeners and can still fade (`Handlers.DisableDetachesStarts`).
- A touch event whose `touches` list is empty makes `create` throw (`touches[0]` is
  undefined). In the TypeScript revisions this happens after the debounce time is recorded.
- In src/index.ts, `create` on an element where this instance has no entry throws. This
  happens after the ripple and its end listeners are already in place, and a direct call of
  the public `create` can reach it. The listener that `enable` attaches never does
  (`TransitionRipple.HapticRipple.HandleInteraction`).

## Model

| member | source | states |
|---|---|---|
| Common.Resolve | src/index.ts:206-221 | a selector yields its matches, one element yields itself, an array yields its elements; anything else throws, and so does a selector with a syntax error; exactly the designated elements are listed |
| Common.Place | src/index.ts:129-138 | the ripple's left/top put its centre exactly on the contact point relative to the element's box |
| Common.PlaceTranslationInvariant | src/haptic-ripple.ts:146-155 | placement depends only on the contact point relative to the element's box |
| Common.PlaceCoversContact | src/haptic-ripple.ts:146-155 | a ripple of non-negative size covers the contact point |
| OptionRules.WithDefaultsTruthy | src/haptic-ripple.ts:26-34 | with truthy defaults, no effective option is falsy |
| OptionRules.WithDefaultsKeepsTruthy | src/haptic-ripple.ts:26-34 | a complete truthy option set is kept as given; no options give exactly the defaults |
| OptionRules.WithDefaultsIdempotent | src/index.ts:24-32 | defaulting an already effective option set changes nothing |
| OptionRules.MergeLaws | src/haptic-ripple.ts:168-171 | merging nothing is the identity, merging a complete set replaces, merging twice is merging once |
| OptionRules.MergeOverlay | src/haptic-ripple.ts:168-171 | two updates equal one update with the combined argument |
| OptionRules.ZeroSurvivesMergeOnly | src/index.ts:24-32 | a supplied 0 is replaced by the constructor's default but kept by updateOptions |
| OptionRules.LegacyMergeLaws | dist/index.umd.js:134-137 | the oldest revision's merge is the identity on no fields, replaces everything when every field is supplied, and is idempotent |
| OptionRules.LegacyAgrees | dist/index.umd.js:12-18 | on the five options it has, the oldest revision defaults and merges exactly as the later revisions do on an argument without easing |
| OptionRules.LegacyWithDefaultsLaws | dist/index.umd.js:12-18 | with truthy defaults no effective option is falsy, defaulting effective options changes nothing, and no options give exactly the defaults |
| Debounce.AcceptedSpaced | src/index.ts:102-109 | accepted interactions are at least 100 ms apart, the first is 100 ms after the initial clock, and the clock holds the last accepted time |
| Debounce.AcceptedSnoc | src/haptic-ripple.ts:114-121 | one more call is accepted exactly when it is 100 ms past the recorded time, which it then becomes |
| Debounce.SpacedApart | src/index.ts:102-109 | any two accepted interactions are 100 ms apart per accepted interaction between them |
| Debounce.AcceptedFromCalls | src/haptic-ripple.ts:114-121 | only times at which a call was made are accepted, and no more of them than calls |
| Debounce.DuplicatePairSuppressed | src/index.ts:100-109 | a touchstart and a mousedown less than 100 ms later give a single accepted interaction |
| Styles.StyleRegistry.constructor | src/index.ts:11-13 | the statics at load: the counter at 1, the common style not yet injected |
| Styles.StyleRegistry.TakeStyleId | src/index.ts:35 | the instance takes the counter's current value, never handed out before, and increments it |
| Styles.StyleRegistry.InjectCommonStyles | src/index.ts:46-70 | the common style is appended only if none exists; afterwards the flag is set |
| Styles.StyleRegistry.InjectInstanceStyles | src/index.ts:72-97 | the previous style element of the instance is removed and a new one rendering the options appended; the instance owns exactly that one |
| Handlers.EnableAllKeeps | src/index.ts:223-271 | enable keeps the instance's consistency and the page's well-formedness |
| Handlers.EnableAllListeners | src/haptic-ripple.ts:190-223 | enable detaches nothing; every listener it adds is this instance's start listener on a resolved element that was not enabled before |
| Handlers.EnableAllSlots | src/index.ts:223-271 | after enable an element is registered exactly when it was, or is resolved; entries are added only for this instance and existing ones are not overwritten |
| Handlers.EnableAllShape | dist/index.umd.js:152-179 | all of enable's effect together: the three lemmas above |
| Handlers.EnableAllEntries | src/index.ts:264-271 | each newly enabled element gets the revision's fresh entry, allocated during the call |
| Handlers.DisableAllKeeps | src/index.ts:291-314 | disable keeps the instance's consistency and the page's well-formedness |
| Handlers.DisableAllSlots | src/haptic-ripple.ts:243-261 | after disable an element is registered exactly when it was and is not resolved; only this instance's entries of resolved elements go |
| Handlers.DisableAllListeners | dist/index.umd.js:195-205 | disable detaches exactly this instance's start listeners on the resolved elements |
| Handlers.DisableAllShape | src/index.ts:291-314 | all of disable's effect together |
| Handlers.EnableAllSkipsEnabled | src/index.ts:224-228 | enable leaves an element this instance already has untouched |
| Handlers.DisableAllSkipsUnregistered | src/index.ts:292-297 | disable leaves an element without this instance's entry untouched |
| Handlers.EnableIdempotent | src/haptic-ripple.ts:190-196 | enabling a target twice is enabling it once: no listener is attached twice |
| Handlers.DisableIdempotent | dist/index.umd.js:195-199 | disabling a target twice is disabling it once |
| Handlers.EnableThenDisable | src/index.ts:206-315 | disable after enable leaves registry, entries and listeners as disable alone would |
| Handlers.EnableThenDisableSlots | src/haptic-ripple.ts:173-262 | the registry and entries half of it |
| Handlers.EnableThenDisableListeners | dist/index.umd.js:138-206 | the listeners half of it |
| Handlers.EnableThenDisableRestores | src/index.ts:206-315 | enabling elements none of which was enabled, then disabling them, restores everything but the allocation counter |
| Handlers.ExactlyRecorded | src/index.ts:265-270 | an enabled element carries exactly the start listeners of this instance that its entry records |
| Handlers.DisableDetachesStarts | src/index.ts:299-310 | after disable no start listener of the instance remains on a resolved element, while attached end handlers stay |
| Handlers.OthersUntouched | src/index.ts:223-314 | enable and disable by one instance leave other instances' entries and listeners unchanged |
| Handlers.EnableStepKeepsOther | src/index.ts:264-271 | another instance stays consistent when one element is enabled |
| Handlers.EnableAllKeepsOther | src/haptic-ripple.ts:190-223 | another instance stays consistent when a target is enabled |
| Handlers.DisableAllKeepsOther | dist/index.umd.js:195-205 | another instance stays consistent when a target is disabled |
| Handlers.AttachEndKeeps | src/index.ts:180-194 | attaching an end handler's listeners keeps every instance's consistency and the page's well-formedness |
| Handlers.DetachEndKeeps | src/index.ts:167-177 | detaching them keeps the same |
| Handlers.SetEndHandlerKeeps | src/index.ts:196-198 | recording the end handler in an entry changes no recorded listener |
| Handlers.EnableAllInv | src/index.ts:206-272 | enable keeps the whole instance invariant |
| Handlers.DisableAllInv | src/index.ts:274-315 | disable keeps the whole instance invariant |
| Handlers.AllocKeeps | src/index.ts:111-113 | allocating a new ripple or closure keeps the invariant |
| Handlers.FreshInv | src/index.ts:24-44 | a new instance, enabled nowhere, is consistent on any well-formed page |
| TransitionRipple.Page.constructor | src/index.ts:11-17 | the shared state at load: no listeners, entries or ripples, the clock at 0 |
| TransitionRipple.EndAttachedKeeps | src/index.ts:180-194 | attaching a ripple's end listeners keeps the instance invariant |
| TransitionRipple.EndRecordedKeeps | src/index.ts:196-198 | recording the end handler keeps the instance invariant |
| TransitionRipple.EndDetachedKeeps | src/index.ts:167-177 | the end handler detaching itself keeps the instance invariant |
| TransitionRipple.HapticRipple.constructor | src/index.ts:24-44 | defaults by `\|\|`, a fresh number, the common style injected once, and the instance's own style element |
| TransitionRipple.HapticRipple.UpdateOptions | src/index.ts:201-204 | the options become the shallow merge, and the style element is replaced by one rendering them |
| TransitionRipple.HapticRipple.Enable | src/index.ts:206-272 | an invalid target throws with nothing changed; otherwise the bookkeeping becomes the enable fold over the resolved elements |
| TransitionRipple.HapticRipple.EnableEach | src/index.ts:223-271 | the forEach loop computes the enable fold |
| TransitionRipple.HapticRipple.EnableOne | src/index.ts:224-270 | one iteration: skip an enabled element, else register it with a new start listener and its entry |
| TransitionRipple.HapticRipple.Disable | src/index.ts:274-315 | an invalid target throws with nothing changed; otherwise the bookkeeping becomes the disable fold |
| TransitionRipple.HapticRipple.DisableEach | src/index.ts:291-314 | the forEach loop computes the disable fold |
| TransitionRipple.HapticRipple.Create | src/index.ts:99-199 | a call within 100 ms of the last accepted one changes nothing but is recorded; otherwise the clock takes `now` and the ripple is made as Spawn states |
| TransitionRipple.HapticRipple.Spawn | src/index.ts:111-198 | a touch without touches throws with nothing changed; else a ripple centred on the contact is appended and its end handler attached to both end events; the handler is recorded in the element's entry, or no entry throws |
| TransitionRipple.HapticRipple.AppendRipple | src/index.ts:111-141 | one new ripple with this instance's class and the given position is appended, and nothing else changes |
| TransitionRipple.HapticRipple.ListenForEnd | src/index.ts:180-194 | the end handler is attached to touchend/touchcancel on touch devices and to mouseup/mouseleave otherwise |
| TransitionRipple.HapticRipple.RecordEnd | src/index.ts:196-198 | the element's entry gets its end handler and nothing else changes |
| TransitionRipple.HapticRipple.HandleInteraction | src/index.ts:243-248 | a non-primary mouse button is ignored with nothing changed; anything else has exactly the effect of create (debounce, then the ripple, end handler and entry update as Spawn states), and never throws MissingHandlerEntry for an element this instance enabled |
| TransitionRipple.HapticRipple.HandleInteractionEnd | src/index.ts:154-178 | the ripple fades and its end listeners are detached |
| KeyframeRipple.Page.constructor | src/haptic-ripple.ts:13-19 | the shared state at load: no listeners, entries or ripples, the clock at 0 |
| KeyframeRipple.HapticRipple.constructor | src/haptic-ripple.ts:26-46 | defaults by `\|\|`, a fresh number, the common style injected once, and the instance's own style element |
| KeyframeRipple.HapticRipple.UpdateOptions | src/haptic-ripple.ts:168-171 | the options become the shallow merge, and the style element is replaced by one rendering them |
| KeyframeRipple.HapticRipple.Enable | src/haptic-ripple.ts:173-224 | an invalid target throws with nothing changed; otherwise the bookkeeping becomes the enable fold |
| KeyframeRipple.HapticRipple.EnableEach | src/haptic-ripple.ts:190-223 | the forEach loop computes the enable fold |
| KeyframeRipple.HapticRipple.EnableOne | src/haptic-ripple.ts:191-222 | one iteration: skip an enabled element, else register it with a new start listener and its entry |
| KeyframeRipple.HapticRipple.Disable | src/haptic-ripple.ts:226-262 | an invalid target throws with nothing changed; otherwise the bookkeeping becomes the disable fold |
| KeyframeRipple.HapticRipple.DisableEach | src/haptic-ripple.ts:243-261 | the forEach loop computes the disable fold, removing the handler from the event it was attached to |
| KeyframeRipple.HapticRipple.Create | src/haptic-ripple.ts:112-166 | the debounce as in Create above; past it, a touch without touches throws, otherwise one ripple centred on the contact is appended; listeners and entries never change |
| KeyframeRipple.HapticRipple.AppendRipple | src/haptic-ripple.ts:129-158 | one new ripple with this instance's class and the given position is appended, and nothing else changes |
| KeyframeRipple.HapticRipple.HandleInteraction | src/haptic-ripple.ts:200-205 | a non-primary mouse button is ignored with nothing changed; anything else has exactly the effect of create: debounce, a touch without touches throws, otherwise one ripple centred on the contact is appended |
| FrameLoopRipple.Page.constructor | dist/index.umd.js:208-210 | the shared state at load: no listeners, entries or ripples |
| FrameLoopRipple.HapticRipple.constructor | dist/index.umd.js:9-27 | defaults by `\|\|`, a fresh number, the common style injected once, and the instance's own style element |
| FrameLoopRipple.HapticRipple.UpdateOptions | dist/index.umd.js:134-137 | the options become the shallow merge, and the style element is replaced by one rendering them |
| FrameLoopRipple.HapticRipple.Enable | dist/index.umd.js:138-180 | an invalid target throws with nothing changed; otherwise the bookkeeping becomes the enable fold |
| FrameLoopRipple.HapticRipple.EnableEach | dist/index.umd.js:152-179 | the forEach loop computes the enable fold |
| FrameLoopRipple.HapticRipple.EnableOne | dist/index.umd.js:153-178 | one iteration: skip an enabled element, else register it with a mousedown and a touchstart listener and an entry holding both |
| FrameLoopRipple.HapticRipple.Disable | dist/index.umd.js:181-206 | an invalid target throws with nothing changed; otherwise the bookkeeping becomes the disable fold |
| FrameLoopRipple.HapticRipple.DisableEach | dist/index.umd.js:195-205 | the forEach loop computes the disable fold, removing both listeners |
| FrameLoopRipple.HapticRipple.Create | dist/index.umd.js:73-110 | a touch without touches throws with nothing changed; otherwise one ripple centred on the contact is appended; listeners and entries never change |
| FrameLoopRipple.HapticRipple.HandleMouseDown | dist/index.umd.js:160-165 | only the primary button appends a ripple |
| FrameLoopRipple.HapticRipple.HandleTouchStart | dist/index.umd.js:166-168 | every touch start calls create: one without touches throws and changes nothing, any other appends one ripple at the first touch and advances the id counter |

## Left out

- Timers and animation frames (`setTimeout`, `requestAnimationFrame`, `animateRipple`): a ripple's later growth, fading by time and removal are not modelled. Ripples stay in `Page.ripples` once appended.
- The clock: `Date.now()` is the `now` parameter of `create`.
- `"ontouchstart" in window` is the boolean `Page.touch`, fixed for a page.
- The text of the style elements (CSS custom properties, keyframes): a style element records the options it renders.
- Inline styling of elements and ripples (`position`, `isolation`, `userSelect`, tap highlight, opacity, transform), the `getComputedStyle` checks that decide it, and forced reflows. The model records a ripple's position only, as a real-valued point.
- JavaScript number corner cases: NaN, -0 and string conversion in the pixel values. Numbers are reals, and only 0 counts as falsy.
- An options argument with a property explicitly set to `undefined`: fields are modelled as present or absent.
- `removeChild` throwing for a style element that was taken out of the head by other code.
- The `createHapticRipple` wrapper (src/index.ts:331-348, src/haptic-ripple.ts:277-293, dist/index.umd.js:212-225): it only forwards to the constructor and the methods above.
- dist/index.esm.js, dist/index.js, dist/index.d.ts and rollup.config.js: build outputs, a type declaration and build configuration, not part of this model.
- Events dispatched while a handler runs, and listener options such as `passive`.
