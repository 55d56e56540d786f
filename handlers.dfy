/** The enable/disable bookkeeping of every revision: a controller's set of enabled
    elements (`instances`), the handler table each element carries
    (`element._hapticRippleHandlers[styleId]`, kept here as one side table keyed by element
    and instance) and the event listeners attached to elements. `enable` and `disable` are
    loops over the resolved elements; their effect is the left fold of one step per element,
    defined here, and the classes of each revision are proved to compute exactly that fold. */
module Handlers {
  import opened Common

  /** The three revisions differ in the handler-table entry they record. */
  datatype Revision =
    | Transition   // src/index.ts: {startHandler, endHandler, isTouchEnabled}
    | Keyframe     // src/haptic-ripple.ts: {handler, isTouchEnabled}
    | FrameLoop    // dist/index.umd.js: {mousedown, touchstart}

  /** What a listener function runs. */
  datatype Kind =
    | Interaction         // handleInteraction: the start handler of the TypeScript revisions
    | InteractionEnd      // handleInteractionEnd, registered by create in src/index.ts
    | MouseDownHandler    // handleMouseDown of dist/index.umd.js
    | TouchStartHandler   // handleTouchStart of dist/index.umd.js

  /** A listener function object: what it runs, the instance (`styleId`) and the element it
      closes over, and an allocation number, since every evaluation of an arrow function
      yields a new function object. */
  datatype Closure = Closure(kind: Kind, styleId: nat, elem: Elem, serial: nat)

  datatype EventName = MouseDown | TouchStart | MouseUp | MouseLeave | TouchEnd | TouchCancel

  /** An attached listener. The DOM keys a listener by (event type, function), so the
      attached listeners form a set. */
  datatype Listener = Listener(target: Elem, event: EventName, handler: Closure)

  /** One instance's entry in an element's handler table. */
  datatype Entry =
    | StartEnd(startHandler: Closure, endHandler: Option<Closure>, isTouchEnabled: bool)
    | Single(handler: Closure, isTouchEnabled: bool)
    | Pair(mousedown: Closure, touchstart: Closure)

  /** `element._hapticRippleHandlers[styleId]` is the side-table entry at `Slot(element, styleId)`. */
  datatype Slot = Slot(elem: Elem, styleId: nat)

  /** What enable and disable read and write: a controller's `instances` and the shared
      handler table, listener set and allocation counter. */
  datatype Book = Book(instances: set<Elem>, handlers: map<Slot, Entry>, listeners: set<Listener>, nextId: nat)

  /** The start event of the TypeScript revisions: touchstart when `"ontouchstart" in window`, else mousedown. */
  function StartEvent(touch: bool): EventName
  {
    if touch then TouchStart else MouseDown
  }

  predicate IsEndEvent(ev: EventName)
  {
    ev.MouseUp? || ev.MouseLeave? || ev.TouchEnd? || ev.TouchCancel?
  }

  /** The two listeners create in src/index.ts attaches for its end handler. */
  function EndListeners(e: Elem, h: Closure, touch: bool): (ls: set<Listener>)
    ensures forall l | l in ls :: l.target == e && l.handler == h && IsEndEvent(l.event)
    ensures |ls| == 2
  {
    var ls := if touch then {Listener(e, TouchEnd, h), Listener(e, TouchCancel, h)}
              else {Listener(e, MouseUp, h), Listener(e, MouseLeave, h)};
    assert Listener(e, TouchEnd, h) != Listener(e, TouchCancel, h);
    assert Listener(e, MouseUp, h) != Listener(e, MouseLeave, h);
    ls
  }

  /** A listener by which instance `k` reacts to the start of an interaction. */
  predicate Owned(l: Listener, k: nat)
  {
    l.handler.styleId == k && l.handler.kind != InteractionEnd
  }

  /** The entry enable records for a newly enabled element, its closures allocated as number `id`. */
  function NewEntry(rev: Revision, k: nat, e: Elem, id: nat, touch: bool): Entry
  {
    match rev
    case Transition => StartEnd(Closure(Interaction, k, e, id), None, touch)
    case Keyframe => Single(Closure(Interaction, k, e, id), touch)
    case FrameLoop => Pair(Closure(MouseDownHandler, k, e, id), Closure(TouchStartHandler, k, e, id))
  }

  /** The allocation number of an entry's start closure(s). */
  function EntrySerial(en: Entry): nat
  {
    match en
    case StartEnd(h, _, _) => h.serial
    case Single(h, _) => h.serial
    case Pair(m, _) => m.serial
  }

  /** The listeners an entry says are attached to `e`: what enable added for it. */
  function Recorded(e: Elem, en: Entry): (ls: set<Listener>)
    ensures forall l | l in ls :: l.target == e
  {
    match en
    case StartEnd(h, _, t) => {Listener(e, StartEvent(t), h)}
    case Single(h, t) => {Listener(e, StartEvent(t), h)}
    case Pair(m, t) => {Listener(e, MouseDown, m), Listener(e, TouchStart, t)}
  }

  /** The (event, function) pairs disable passes to removeEventListener for an entry. Beyond
      the recorded listeners, src/index.ts also removes its end handler, but from the start
      event, where create never attached it. */
  function Removed(e: Elem, en: Entry): (ls: set<Listener>)
    ensures Recorded(e, en) <= ls
    ensures forall l | l in ls :: l.target == e
    ensures forall l | l in ls && l !in Recorded(e, en) ::
      en.StartEnd? && en.endHandler == Some(l.handler) && l.event == StartEvent(en.isTouchEnabled)
  {
    match en
    case StartEnd(h, end, t) =>
      {Listener(e, StartEvent(t), h)} + (if end.Some? then {Listener(e, StartEvent(t), end.value)} else {})
    case Single(h, t) => {Listener(e, StartEvent(t), h)}
    case Pair(m, t) => {Listener(e, MouseDown, m), Listener(e, TouchStart, t)}
  }

  /** An entry of the revision's shape whose closures close over the slot's element and instance. */
  ghost predicate WfEntry(rev: Revision, s: Slot, en: Entry)
  {
    match en
    case StartEnd(h, end, _) =>
      && rev == Transition && h.kind == Interaction && h.styleId == s.styleId && h.elem == s.elem
      && (end.Some? ==> end.value.kind == InteractionEnd && end.value.styleId == s.styleId && end.value.elem == s.elem)
    case Single(h, _) =>
      rev == Keyframe && h.kind == Interaction && h.styleId == s.styleId && h.elem == s.elem
    case Pair(m, t) =>
      && rev == FrameLoop && m.kind == MouseDownHandler && t.kind == TouchStartHandler
      && m.styleId == s.styleId && t.styleId == s.styleId && m.elem == s.elem && t.elem == s.elem
  }

  /** The page-wide facts every instance relies on: entries have the revision's shape, every
      listener closes over the element it is attached to and was allocated already, and end
      handlers, and only they, listen to end events. */
  ghost predicate WellFormed(rev: Revision, handlers: map<Slot, Entry>, listeners: set<Listener>, nextId: nat)
  {
    && (forall s | s in handlers :: WfEntry(rev, s, handlers[s]))
    && (forall l | l in listeners ::
          l.handler.serial < nextId && l.handler.elem == l.target
          && (l.handler.kind == InteractionEnd <==> IsEndEvent(l.event)))
  }

  /** Every entry and listener belongs to an instance constructed already. */
  ghost predicate AllIssued(handlers: map<Slot, Entry>, listeners: set<Listener>, issued: set<nat>)
  {
    && (forall s | s in handlers :: s.styleId in issued)
    && (forall l | l in listeners :: l.handler.styleId in issued)
  }

  ghost predicate Wf(rev: Revision, b: Book)
  {
    WellFormed(rev, b.handlers, b.listeners, b.nextId)
  }

  /** An element is in `instances` exactly when it has an entry for `k`: the part of
      Consistent that enable and disable consult. */
  ghost predicate Registered(b: Book, k: nat)
  {
    forall e :: e in b.instances <==> Slot(e, k) in b.handlers
  }

  /** Instance `k`'s invariant: an element is in `instances` exactly when it has an entry for
      `k`, and the start listeners of `k` attached to an element are exactly its entry's recorded ones. */
  ghost predicate Consistent(b: Book, k: nat)
  {
    && Registered(b, k)
    && (forall e | Slot(e, k) in b.handlers :: Recorded(e, b.handlers[Slot(e, k)]) <= b.listeners)
    && (forall l | l in b.listeners && Owned(l, k) ::
          Slot(l.target, k) in b.handlers && l in Recorded(l.target, b.handlers[Slot(l.target, k)]))
  }

  /** One iteration of enable's forEach: skip an element this instance already has, otherwise
      mark it, attach the new start listener(s) and record them. */
  function EnableStep(rev: Revision, touch: bool, k: nat, b: Book, e: Elem): Book
  {
    if e in b.instances then b
    else
      var en := NewEntry(rev, k, e, b.nextId, touch);
      Book(b.instances + {e}, b.handlers[Slot(e, k) := en], b.listeners + Recorded(e, en), b.nextId + 1)
  }

  function EnableAll(rev: Revision, touch: bool, k: nat, b: Book, es: seq<Elem>): Book
    decreases |es|
  {
    if es == [] then b
    else EnableStep(rev, touch, k, EnableAll(rev, touch, k, b, es[..|es| - 1]), es[|es| - 1])
  }

  /** One iteration of disable's forEach: nothing without an entry for this instance,
      otherwise remove the entry's listeners, the entry and the element from `instances`. */
  function DisableStep(k: nat, b: Book, e: Elem): Book
  {
    var s := Slot(e, k);
    if s !in b.handlers then b
    else Book(b.instances - {e}, b.handlers - {s}, b.listeners - Removed(e, b.handlers[s]), b.nextId)
  }

  function DisableAll(k: nat, b: Book, es: seq<Elem>): Book
    decreases |es|
  {
    if es == [] then b
    else DisableStep(k, DisableAll(k, b, es[..|es| - 1]), es[|es| - 1])
  }

  /** A well-formed entry's recorded listeners are start listeners of its instance on start events. */
  lemma RecordedOwned(rev: Revision, s: Slot, en: Entry)
    requires WfEntry(rev, s, en)
    ensures forall l | l in Recorded(s.elem, en) ::
      Owned(l, s.styleId) && l.handler.elem == s.elem && !IsEndEvent(l.event)
  {
  }

  /** A new entry has the revision's shape and records one start listener, or two in dist/index.umd.js. */
  lemma {:induction false} NewEntryShape(rev: Revision, k: nat, e: Elem, id: nat, touch: bool)
    ensures WfEntry(rev, Slot(e, k), NewEntry(rev, k, e, id, touch))
    ensures EntrySerial(NewEntry(rev, k, e, id, touch)) == id
    ensures |Recorded(e, NewEntry(rev, k, e, id, touch))| == if rev == FrameLoop then 2 else 1
    ensures forall l | l in Recorded(e, NewEntry(rev, k, e, id, touch)) :: l.handler.serial == id
  {
    if rev == FrameLoop {
      var m := Listener(e, MouseDown, Closure(MouseDownHandler, k, e, id));
      var t := Listener(e, TouchStart, Closure(TouchStartHandler, k, e, id));
      assert m != t;
      assert Recorded(e, NewEntry(rev, k, e, id, touch)) == {m, t};
    }
  }

  lemma EnableStepKeeps(rev: Revision, touch: bool, k: nat, b: Book, e: Elem)
    requires Consistent(b, k) && Wf(rev, b)
    ensures Consistent(EnableStep(rev, touch, k, b, e), k) && Wf(rev, EnableStep(rev, touch, k, b, e))
  {
    if e !in b.instances {
      var en := NewEntry(rev, k, e, b.nextId, touch);
      NewEntryShape(rev, k, e, b.nextId, touch);
      RecordedOwned(rev, Slot(e, k), en);
      var r := EnableStep(rev, touch, k, b, e);
      forall l | l in r.listeners && Owned(l, k)
        ensures Slot(l.target, k) in r.handlers && l in Recorded(l.target, r.handlers[Slot(l.target, k)])
      {
        if l !in Recorded(e, en) {
          assert l.target != e;
        }
      }
    }
  }

  lemma DisableStepKeeps(rev: Revision, k: nat, b: Book, e: Elem)
    requires Consistent(b, k) && Wf(rev, b)
    ensures Consistent(DisableStep(k, b, e), k) && Wf(rev, DisableStep(k, b, e))
    ensures forall l :: l in DisableStep(k, b, e).listeners <==> l in b.listeners && !(Owned(l, k) && l.target == e)
  {
    var s := Slot(e, k);
    if s in b.handlers {
      var en := b.handlers[s];
      RecordedOwned(rev, s, en);
      var r := DisableStep(k, b, e);
      forall l ensures l in r.listeners <==> l in b.listeners && !(Owned(l, k) && l.target == e) {
        if l in b.listeners && l in Removed(e, en) && l !in Recorded(e, en) {
          assert false;
        }
      }
    }
  }

  /** enable keeps the instance's invariant and the page's well-formedness. */
  lemma {:induction false} EnableAllKeeps(rev: Revision, touch: bool, k: nat, b: Book, es: seq<Elem>)
    requires Consistent(b, k) && Wf(rev, b)
    ensures Consistent(EnableAll(rev, touch, k, b, es), k) && Wf(rev, EnableAll(rev, touch, k, b, es))
    decreases |es|
  {
    if es != [] {
      var init := es[..|es| - 1];
      EnableAllKeeps(rev, touch, k, b, init);
      EnableStepKeeps(rev, touch, k, EnableAll(rev, touch, k, b, init), es[|es| - 1]);
    }
  }

  /** The listeners enable adds are this instance's start listeners on resolved elements
      that were not enabled before; nothing is detached. */
  lemma {:induction false} EnableAllListeners(rev: Revision, touch: bool, k: nat, b: Book, es: seq<Elem>)
    ensures var r := EnableAll(rev, touch, k, b, es);
      && b.listeners <= r.listeners
      && (forall l | l in r.listeners && l !in b.listeners :: Owned(l, k) && l.target in es && l.target !in b.instances)
      && b.instances <= r.instances
      && b.nextId <= r.nextId
    decreases |es|
  {
    if es != [] {
      var init, x := es[..|es| - 1], es[|es| - 1];
      assert forall e | e in init :: e in es;
      EnableAllListeners(rev, touch, k, b, init);
      var r1 := EnableAll(rev, touch, k, b, init);
      if x !in r1.instances {
        NewEntryShape(rev, k, x, r1.nextId, touch);
        RecordedOwned(rev, Slot(x, k), NewEntry(rev, k, x, r1.nextId, touch));
      }
    }
  }

  /** The entries enable adds are this instance's, for the resolved elements; the entries
      already there, of this or any instance, are not overwritten. */
  lemma {:induction false} EnableAllSlots(rev: Revision, touch: bool, k: nat, b: Book, es: seq<Elem>)
    requires Registered(b, k)
    ensures var r := EnableAll(rev, touch, k, b, es);
      && (forall e :: e in r.instances <==> e in b.instances || e in es)
      && (forall s :: s in r.handlers <==> s in b.handlers || (s.styleId == k && s.elem in es))
      && (forall s | s in b.handlers :: r.handlers[s] == b.handlers[s])
    decreases |es|
  {
    if es != [] {
      var init, x := es[..|es| - 1], es[|es| - 1];
      assert es == init + [x];
      EnableAllSlots(rev, touch, k, b, init);
    }
  }

  /** What enable does to the bookkeeping, all together. */
  lemma EnableAllShape(rev: Revision, touch: bool, k: nat, b: Book, es: seq<Elem>)
    requires Consistent(b, k) && Wf(rev, b)
    ensures var r := EnableAll(rev, touch, k, b, es);
      && Consistent(r, k) && Wf(rev, r)
      && (forall e :: e in r.instances <==> e in b.instances || e in es)
      && (forall s :: s in r.handlers <==> s in b.handlers || (s.styleId == k && s.elem in es))
      && (forall s | s in b.handlers :: r.handlers[s] == b.handlers[s])
      && b.listeners <= r.listeners
      && (forall l | l in r.listeners && l !in b.listeners :: Owned(l, k) && l.target in es && l.target !in b.instances)
      && b.nextId <= r.nextId
  {
    EnableAllKeeps(rev, touch, k, b, es);
    EnableAllListeners(rev, touch, k, b, es);
    EnableAllSlots(rev, touch, k, b, es);
  }

  /** Every element enable newly registers gets the revision's fresh entry, allocated during the call. */
  lemma {:induction false} EnableAllEntries(rev: Revision, touch: bool, k: nat, b: Book, es: seq<Elem>)
    requires Consistent(b, k) && Wf(rev, b)
    ensures var r := EnableAll(rev, touch, k, b, es);
      forall e | e in es && e !in b.instances ::
        && Slot(e, k) in r.handlers
        && r.handlers[Slot(e, k)] == NewEntry(rev, k, e, EntrySerial(r.handlers[Slot(e, k)]), touch)
        && b.nextId <= EntrySerial(r.handlers[Slot(e, k)]) < r.nextId
    decreases |es|
  {
    if es != [] {
      var init, x := es[..|es| - 1], es[|es| - 1];
      assert es == init + [x];
      EnableAllEntries(rev, touch, k, b, init);
      EnableAllSlots(rev, touch, k, b, init);
      EnableAllListeners(rev, touch, k, b, init);
      var r1 := EnableAll(rev, touch, k, b, init);
      NewEntryShape(rev, k, x, r1.nextId, touch);
    }
  }

  /** disable keeps the instance's invariant and the page's well-formedness. */
  lemma {:induction false} DisableAllKeeps(rev: Revision, k: nat, b: Book, es: seq<Elem>)
    requires Consistent(b, k) && Wf(rev, b)
    ensures Consistent(DisableAll(k, b, es), k) && Wf(rev, DisableAll(k, b, es))
    decreases |es|
  {
    if es != [] {
      var init := es[..|es| - 1];
      DisableAllKeeps(rev, k, b, init);
      DisableStepKeeps(rev, k, DisableAll(k, b, init), es[|es| - 1]);
    }
  }

  /** disable takes exactly the resolved elements out of `instances` and exactly this
      instance's entries for them out of the handler tables. */
  lemma {:induction false} DisableAllSlots(k: nat, b: Book, es: seq<Elem>)
    requires Registered(b, k)
    ensures var r := DisableAll(k, b, es);
      && (forall e :: e in r.instances <==> e in b.instances && e !in es)
      && (forall s :: s in r.handlers <==> s in b.handlers && !(s.styleId == k && s.elem in es))
      && (forall s | s in r.handlers :: r.handlers[s] == b.handlers[s])
      && r.nextId == b.nextId
    decreases |es|
  {
    if es != [] {
      var init, x := es[..|es| - 1], es[|es| - 1];
      assert es == init + [x];
      DisableAllSlots(k, b, init);
    }
  }

  /** disable detaches exactly this instance's start listeners on the resolved elements. */
  lemma {:induction false} DisableAllListeners(rev: Revision, k: nat, b: Book, es: seq<Elem>)
    requires Consistent(b, k) && Wf(rev, b)
    ensures var r := DisableAll(k, b, es);
      forall l :: l in r.listeners <==> l in b.listeners && !(Owned(l, k) && l.target in es)
    decreases |es|
  {
    if es != [] {
      var init, x := es[..|es| - 1], es[|es| - 1];
      assert es == init + [x];
      DisableAllListeners(rev, k, b, init);
      DisableAllKeeps(rev, k, b, init);
      DisableStepKeeps(rev, k, DisableAll(k, b, init), x);
    }
  }

  /** What disable does to the bookkeeping, all together: nothing else changes. */
  lemma DisableAllShape(rev: Revision, k: nat, b: Book, es: seq<Elem>)
    requires Consistent(b, k) && Wf(rev, b)
    ensures var r := DisableAll(k, b, es);
      && Consistent(r, k) && Wf(rev, r)
      && (forall e :: e in r.instances <==> e in b.instances && e !in es)
      && (forall s :: s in r.handlers <==> s in b.handlers && !(s.styleId == k && s.elem in es))
      && (forall s | s in r.handlers :: r.handlers[s] == b.handlers[s])
      && (forall l :: l in r.listeners <==> l in b.listeners && !(Owned(l, k) && l.target in es))
      && r.nextId == b.nextId
  {
    DisableAllKeeps(rev, k, b, es);
    DisableAllSlots(k, b, es);
    DisableAllListeners(rev, k, b, es);
  }

  lemma {:induction false} EnableAllSkipsEnabled(rev: Revision, touch: bool, k: nat, b: Book, es: seq<Elem>)
    requires forall e | e in es :: e in b.instances
    ensures EnableAll(rev, touch, k, b, es) == b
    decreases |es|
  {
    if es != [] {
      EnableAllSkipsEnabled(rev, touch, k, b, es[..|es| - 1]);
    }
  }

  lemma {:induction false} DisableAllSkipsUnregistered(k: nat, b: Book, es: seq<Elem>)
    requires forall e | e in es :: Slot(e, k) !in b.handlers
    ensures DisableAll(k, b, es) == b
    decreases |es|
  {
    if es != [] {
      DisableAllSkipsUnregistered(k, b, es[..|es| - 1]);
    }
  }

  /** enable is idempotent: a second call with the same target changes nothing at all. */
  lemma EnableIdempotent(rev: Revision, touch: bool, k: nat, b: Book, es: seq<Elem>)
    requires Consistent(b, k) && Wf(rev, b)
    ensures EnableAll(rev, touch, k, EnableAll(rev, touch, k, b, es), es) == EnableAll(rev, touch, k, b, es)
  {
    EnableAllShape(rev, touch, k, b, es);
    EnableAllSkipsEnabled(rev, touch, k, EnableAll(rev, touch, k, b, es), es);
  }

  /** disable is idempotent. */
  lemma DisableIdempotent(rev: Revision, k: nat, b: Book, es: seq<Elem>)
    requires Consistent(b, k) && Wf(rev, b)
    ensures DisableAll(k, DisableAll(k, b, es), es) == DisableAll(k, b, es)
  {
    DisableAllShape(rev, k, b, es);
    DisableAllSkipsUnregistered(k, DisableAll(k, b, es), es);
  }

  /** disable removes exactly what enable recorded: enabling then disabling a target leaves
      the registry, the handler tables and the listeners as disabling alone would. */
  lemma EnableThenDisable(rev: Revision, touch: bool, k: nat, b: Book, es: seq<Elem>)
    requires Consistent(b, k) && Wf(rev, b)
    ensures var r := DisableAll(k, EnableAll(rev, touch, k, b, es), es);
      var d := DisableAll(k, b, es);
      r.instances == d.instances && r.handlers == d.handlers && r.listeners == d.listeners
  {
    EnableAllKeeps(rev, touch, k, b, es);
    EnableThenDisableSlots(rev, touch, k, b, es);
    EnableThenDisableListeners(rev, touch, k, b, es);
  }

  lemma EnableThenDisableSlots(rev: Revision, touch: bool, k: nat, b: Book, es: seq<Elem>)
    requires Consistent(b, k) && Wf(rev, b)
    requires var m := EnableAll(rev, touch, k, b, es); Consistent(m, k) && Wf(rev, m)
    ensures var r := DisableAll(k, EnableAll(rev, touch, k, b, es), es);
      var d := DisableAll(k, b, es);
      r.instances == d.instances && r.handlers == d.handlers
  {
    var m := EnableAll(rev, touch, k, b, es);
    EnableAllSlots(rev, touch, k, b, es);
    DisableAllSlots(k, m, es);
    DisableAllSlots(k, b, es);
    var r, d := DisableAll(k, m, es), DisableAll(k, b, es);
    assert r.instances == d.instances;
    assert r.handlers.Keys == d.handlers.Keys;
  }

  lemma EnableThenDisableListeners(rev: Revision, touch: bool, k: nat, b: Book, es: seq<Elem>)
    requires Consistent(b, k) && Wf(rev, b)
    requires var m := EnableAll(rev, touch, k, b, es); Consistent(m, k) && Wf(rev, m)
    ensures DisableAll(k, EnableAll(rev, touch, k, b, es), es).listeners == DisableAll(k, b, es).listeners
  {
    var m := EnableAll(rev, touch, k, b, es);
    EnableAllListeners(rev, touch, k, b, es);
    DisableAllListeners(rev, k, m, es);
    DisableAllListeners(rev, k, b, es);
    assert DisableAll(k, m, es).listeners == DisableAll(k, b, es).listeners;
  }

  /** Hence enabling elements none of which was enabled, then disabling them, restores everything
      but the allocation counter. */
  lemma EnableThenDisableRestores(rev: Revision, touch: bool, k: nat, b: Book, es: seq<Elem>)
    requires Consistent(b, k) && Wf(rev, b)
    requires forall e | e in es :: e !in b.instances
    ensures var r := DisableAll(k, EnableAll(rev, touch, k, b, es), es);
      r.instances == b.instances && r.handlers == b.handlers && r.listeners == b.listeners
  {
    EnableThenDisable(rev, touch, k, b, es);
    DisableAllSkipsUnregistered(k, b, es);
  }

  /** After enable, each resolved element carries exactly one listener set of this instance:
      the one its entry records. */
  lemma ExactlyRecorded(rev: Revision, k: nat, b: Book, e: Elem)
    requires Consistent(b, k) && Wf(rev, b)
    requires e in b.instances
    ensures (set l | l in b.listeners && Owned(l, k) && l.target == e) == Recorded(e, b.handlers[Slot(e, k)])
  {
    RecordedOwned(rev, Slot(e, k), b.handlers[Slot(e, k)]);
  }

  /** After disable, no listener of this instance on a resolved element reacts to an
      interaction start, while end handlers already attached stay (in-flight ripples are not
      cancelled). */
  lemma DisableDetachesStarts(rev: Revision, k: nat, b: Book, es: seq<Elem>)
    requires Consistent(b, k) && Wf(rev, b)
    ensures var r := DisableAll(k, b, es);
      && (forall l | l in r.listeners && l.target in es :: !Owned(l, k))
      && (forall l | l in b.listeners && l.handler.kind == InteractionEnd :: l in r.listeners)
  {
    DisableAllShape(rev, k, b, es);
  }

  /** enable and disable by instance `k` leave every other instance's slots and listeners alone. */
  lemma OthersUntouched(rev: Revision, touch: bool, k: nat, b: Book, es: seq<Elem>)
    requires Consistent(b, k) && Wf(rev, b)
    ensures var r := EnableAll(rev, touch, k, b, es);
      && (forall s: Slot | s.styleId != k :: (s in r.handlers <==> s in b.handlers))
      && (forall s: Slot | s.styleId != k && s in b.handlers :: r.handlers[s] == b.handlers[s])
      && (forall l: Listener | l.handler.styleId != k :: l in r.listeners <==> l in b.listeners)
    ensures var r := DisableAll(k, b, es);
      && (forall s: Slot | s.styleId != k :: (s in r.handlers <==> s in b.handlers))
      && (forall s: Slot | s.styleId != k && s in b.handlers :: r.handlers[s] == b.handlers[s])
      && (forall l: Listener | l.handler.styleId != k :: l in r.listeners <==> l in b.listeners)
  {
    EnableAllShape(rev, touch, k, b, es);
    DisableAllShape(rev, k, b, es);
  }

  /** Another instance `j` stays consistent when `k` enables one element: `others` is `j`'s registry. */
  lemma EnableStepKeepsOther(rev: Revision, touch: bool, k: nat, j: nat, b: Book, others: set<Elem>, e: Elem)
    requires j != k
    requires Consistent(b.(instances := others), j)
    ensures Consistent(EnableStep(rev, touch, k, b, e).(instances := others), j)
  {
    if e !in b.instances {
      var en := NewEntry(rev, k, e, b.nextId, touch);
      NewEntryShape(rev, k, e, b.nextId, touch);
      RecordedOwned(rev, Slot(e, k), en);
    }
  }

  /** ... and when `k` enables a whole target. */
  lemma {:induction false} EnableAllKeepsOther(rev: Revision, touch: bool, k: nat, j: nat, b: Book, others: set<Elem>, es: seq<Elem>)
    requires j != k
    requires Consistent(b.(instances := others), j)
    ensures Consistent(EnableAll(rev, touch, k, b, es).(instances := others), j)
    decreases |es|
  {
    if es != [] {
      var init := es[..|es| - 1];
      EnableAllKeepsOther(rev, touch, k, j, b, others, init);
      EnableStepKeepsOther(rev, touch, k, j, EnableAll(rev, touch, k, b, init), others, es[|es| - 1]);
    }
  }

  /** Another instance `j` stays consistent when `k` disables. */
  lemma {:induction false} DisableAllKeepsOther(rev: Revision, k: nat, j: nat, b: Book, others: set<Elem>, es: seq<Elem>)
    requires j != k
    requires Wf(rev, b)
    requires Consistent(b.(instances := others), j)
    ensures Consistent(DisableAll(k, b, es).(instances := others), j)
    ensures Wf(rev, DisableAll(k, b, es))
    decreases |es|
  {
    if es != [] {
      var init, x := es[..|es| - 1], es[|es| - 1];
      DisableAllKeepsOther(rev, k, j, b, others, init);
      var r1 := DisableAll(k, b, init);
      var s := Slot(x, k);
      if s in r1.handlers {
        var en := r1.handlers[s];
        var r := DisableStep(k, r1, x);
        forall e | Slot(e, j) in r.handlers
          ensures Recorded(e, r.handlers[Slot(e, j)]) <= r.listeners
        {
          var ej := r.handlers[Slot(e, j)];
          RecordedOwned(rev, Slot(e, j), ej);
          forall l | l in Recorded(e, ej) ensures l !in Removed(x, en) {
            if l in Removed(x, en) && l !in Recorded(x, en) {
              assert false;
            }
            if l in Recorded(x, en) {
              RecordedOwned(rev, s, en);
            }
          }
        }
      }
    }
  }

  /** Attaching an end handler's listeners keeps every instance's invariant and the page's. */
  lemma AttachEndKeeps(rev: Revision, b: Book, j: nat, e: Elem, h: Closure, touch: bool, nextId: nat)
    requires h.kind == InteractionEnd && h.elem == e && h.serial < nextId && b.nextId <= nextId
    ensures Consistent(b, j) ==> Consistent(b.(listeners := b.listeners + EndListeners(e, h, touch)), j)
    ensures Wf(rev, b) ==> Wf(rev, b.(listeners := b.listeners + EndListeners(e, h, touch), nextId := nextId))
  {
  }

  /** Detaching an end handler's listeners keeps every instance's invariant and the page's. */
  lemma DetachEndKeeps(rev: Revision, b: Book, j: nat, e: Elem, h: Closure, touch: bool)
    requires h.kind == InteractionEnd
    ensures Consistent(b, j) ==> Consistent(b.(listeners := b.listeners - EndListeners(e, h, touch)), j)
    ensures Wf(rev, b) ==> Wf(rev, b.(listeners := b.listeners - EndListeners(e, h, touch)))
  {
  }

  /** Recording an end handler in a src/index.ts entry changes no recorded listener. */
  lemma SetEndHandlerKeeps(b: Book, j: nat, s: Slot, h: Closure)
    requires s in b.handlers && b.handlers[s].StartEnd?
    requires h.kind == InteractionEnd && h.styleId == s.styleId && h.elem == s.elem
    ensures var b' := b.(handlers := b.handlers[s := b.handlers[s].(endHandler := Some(h))]);
      && (Consistent(b, j) ==> Consistent(b', j))
      && (Wf(Transition, b) ==> Wf(Transition, b'))
  {
    var b' := b.(handlers := b.handlers[s := b.handlers[s].(endHandler := Some(h))]);
    assert Recorded(s.elem, b'.handlers[s]) == Recorded(s.elem, b.handlers[s]);
  }

  /** Everything instance `k` of revision `rev` keeps true of the bookkeeping, `issued` being
      the instance numbers handed out so far. */
  ghost predicate Inv(rev: Revision, b: Book, k: nat, issued: set<nat>)
  {
    PageOk(rev, b.handlers, b.listeners, b.nextId, issued) && Consistent(b, k) && k in issued
  }

  /** The page-wide part of it. */
  ghost predicate PageOk(rev: Revision, handlers: map<Slot, Entry>, listeners: set<Listener>, nextId: nat, issued: set<nat>)
  {
    WellFormed(rev, handlers, listeners, nextId) && AllIssued(handlers, listeners, issued)
  }

  lemma EnableAllInv(rev: Revision, touch: bool, k: nat, b: Book, es: seq<Elem>, issued: set<nat>)
    requires Inv(rev, b, k, issued)
    ensures Inv(rev, EnableAll(rev, touch, k, b, es), k, issued)
  {
    EnableAllKeeps(rev, touch, k, b, es);
    EnableAllListeners(rev, touch, k, b, es);
    EnableAllSlots(rev, touch, k, b, es);
  }

  lemma DisableAllInv(rev: Revision, k: nat, b: Book, es: seq<Elem>, issued: set<nat>)
    requires Inv(rev, b, k, issued)
    ensures Inv(rev, DisableAll(k, b, es), k, issued)
  {
    DisableAllKeeps(rev, k, b, es);
    DisableAllSlots(k, b, es);
    DisableAllListeners(rev, k, b, es);
  }

  /** Allocating a number keeps the invariant. */
  lemma AllocKeeps(rev: Revision, b: Book, k: nat, issued: set<nat>, nextId: nat)
    requires Inv(rev, b, k, issued) && b.nextId <= nextId
    ensures Inv(rev, b.(nextId := nextId), k, issued)
  {
  }

  /** A new instance, numbered `k` and enabled nowhere, starts out consistent on any well-formed page. */
  lemma FreshInv(rev: Revision, handlers: map<Slot, Entry>, listeners: set<Listener>, nextId: nat, k: nat, issued: set<nat>)
    requires PageOk(rev, handlers, listeners, nextId, issued) && k !in issued
    ensures PageOk(rev, handlers, listeners, nextId, issued + {k})
    ensures Inv(rev, Book({}, handlers, listeners, nextId), k, issued + {k})
  {
  }
}
