/** The controller of src/index.ts: ripples grown by a CSS transition and faded by an end
    handler that `create` attaches for each ripple. */
module TransitionRipple {
  import opened Common
  import opened OptionRules
  import opened Handlers
  import opened Styles
  import Debounce

  /** The constructor's defaults. The colour literal lacks its closing parenthesis, as at src/index.ts:26. */
  const Defaults := Options("rgba(0, 0, 0", 16.0, 300.0, 0.3, 4.0, "ease-out")

  /** The state every instance of this class shares: its statics and the parts of the
      document the instances change. */
  class Page {
    /** `"ontouchstart" in window`, fixed for the page's lifetime. */
    const touch: bool
    /** `idCounter`, `commonStylesInjected` and the style elements in the head. */
    const styles: StyleRegistry<Options>
    /** Every element's `_hapticRippleHandlers`, as one table keyed by element and instance. */
    var handlers: map<Slot, Entry>
    var listeners: set<Listener>
    /** Allocation counter for listener functions and ripple elements. */
    var nextId: nat
    /** The ripple elements appended so far, in order. */
    var ripples: seq<Ripple>
    /** The ripples whose end handler has run (set to opacity 0, removal scheduled). */
    var faded: set<nat>
    /** `HapticRipple.lastInteractionTime`. */
    var lastInteractionTime: int
    /** The `Date.now()` reading of every `create` call made so far, by any instance. */
    ghost var calls: seq<int>

    ghost predicate Valid()
      reads this, styles
    {
      && styles.Valid()
      && PageOk(Transition, handlers, listeners, nextId, styles.issued)
      && lastInteractionTime == Debounce.Latest(0, calls)
    }

    /** The page at script load. */
    constructor (touch: bool, styles: StyleRegistry<Options>)
      requires styles.Valid()
      ensures Valid()
      ensures this.touch == touch && this.styles == styles
      ensures handlers == map[] && listeners == {} && nextId == 0
      ensures ripples == [] && faded == {} && lastInteractionTime == 0 && calls == []
    {
      this.touch := touch;
      this.styles := styles;
      handlers := map[];
      listeners := {};
      nextId := 0;
      ripples := [];
      faded := {};
      lastInteractionTime := 0;
      calls := [];
    }
  }

  /** Attaching the end handler `h` of a ripple already allocated keeps the instance's invariant. */
  lemma EndAttachedKeeps(b: Book, k: nat, issued: set<nat>, e: Elem, h: Closure, touch: bool)
    requires Inv(Transition, b, k, issued)
    requires h == Closure(InteractionEnd, k, e, h.serial) && h.serial < b.nextId
    ensures Inv(Transition, b.(listeners := b.listeners + EndListeners(e, h, touch)), k, issued)
  {
    AttachEndKeeps(Transition, b, k, e, h, touch, b.nextId);
  }

  /** Recording it in the element's entry keeps it too. */
  lemma EndRecordedKeeps(b: Book, k: nat, issued: set<nat>, s: Slot, h: Closure)
    requires Inv(Transition, b, k, issued)
    requires s in b.handlers && s.styleId == k && h == Closure(InteractionEnd, k, s.elem, h.serial)
    ensures b.handlers[s].StartEnd?
    ensures Inv(Transition, b.(handlers := b.handlers[s := b.handlers[s].(endHandler := Some(h))]), k, issued)
  {
    SetEndHandlerKeeps(b, k, s, h);
  }

  /** Detaching it keeps it. */
  lemma EndDetachedKeeps(b: Book, k: nat, issued: set<nat>, e: Elem, h: Closure, touch: bool)
    requires Inv(Transition, b, k, issued)
    requires h.kind == InteractionEnd
    ensures Inv(Transition, b.(listeners := b.listeners - EndListeners(e, h, touch)), k, issued)
  {
    DetachEndKeeps(Transition, b, k, e, h, touch);
  }

  class HapticRipple {
    var options: Options
    var styleElement: Option<StyleNode<Options>>
    /** The instance's number N; its class name and style element id are `haptic-ripple-N`. */
    const styleId: nat
    /** The keys of `this.instances`. */
    var instances: set<Elem>
    const page: Page

    ghost function Bookkeeping(): Book
      reads this, page
    {
      Book(instances, page.handlers, page.listeners, page.nextId)
    }

    ghost predicate Valid()
      reads this, page, page.styles
    {
      && page.Valid()
      && Inv(Transition, Bookkeeping(), styleId, page.styles.issued)
      && StyleOwned()
    }

    /** The instance owns exactly one style element, and it renders the current options. */
    ghost predicate StyleOwned()
      reads this, page.styles
    {
      && styleElement.Some?
      && styleElement.value in page.styles.instanceStyles
      && styleElement.value.styleId == styleId
      && styleElement.value.rules == options
      && (forall n | n in page.styles.instanceStyles && n.styleId == styleId :: n == styleElement.value)
    }

    /** `new HapticRipple(options)`: defaults filled in with `||`, a new number, the common
        style inserted by the first instance, and the instance's own style element. */
    constructor (opts: Partial, page: Page)
      requires page.Valid()
      modifies page.styles
      ensures Valid()
      ensures this.page == page && instances == {}
      ensures options == WithDefaults(opts, Defaults)
      ensures styleId == old(page.styles.idCounter) && styleId !in old(page.styles.issued)
      ensures page.styles.idCounter == old(page.styles.idCounter) + 1
      ensures page.styles.commonStylesInjected
      ensures page.styles.commonStyles ==
        if !old(page.styles.commonStylesInjected) && old(page.styles.commonStyles) == 0 then 1
        else old(page.styles.commonStyles)
      ensures page.styles.instanceStyles == old(page.styles.instanceStyles) + {styleElement.value}
      ensures styleElement.value !in old(page.styles.instanceStyles)
    {
      var styles := page.styles;
      options := WithDefaults(opts, Defaults);
      var id := styles.TakeStyleId();
      FreshInv(Transition, page.handlers, page.listeners, page.nextId, id, old(styles.issued));
      styleId := id;
      instances := {};
      this.page := page;
      styleElement := None;
      new;
      if !styles.commonStylesInjected {
        styles.InjectCommonStyles();
      }
      var node := styles.InjectInstanceStyles(styleElement, styleId, options);
      styleElement := Some(node);
    }

    /** `updateOptions`: shallow merge, then the style element is replaced by one rendering the result. */
    method UpdateOptions(p: Partial)
      requires Valid()
      modifies this, page.styles
      ensures Valid()
      ensures options == Merge(old(options), p)
      ensures instances == old(instances)
      ensures styleElement.value.rules == options && styleElement.value !in old(page.styles.instanceStyles)
      ensures page.styles.instanceStyles == old(page.styles.instanceStyles) - {old(styleElement).value} + {styleElement.value}
      ensures page.styles.idCounter == old(page.styles.idCounter)
      ensures page.styles.commonStyles == old(page.styles.commonStyles)
      ensures page.styles.commonStylesInjected == old(page.styles.commonStylesInjected)
      ensures page.styles.issued == old(page.styles.issued)
    {
      options := Merge(options, p);
      var node := page.styles.InjectInstanceStyles(styleElement, styleId, options);
      styleElement := Some(node);
    }

    /** `enable`: resolve the target (an invalid one throws before anything changes), then
        enable each resolved element. */
    method Enable(t: Target) returns (c: Completion)
      requires Valid()
      modifies this, page
      ensures Valid()
      ensures Resolve(t).Failure? ==> c == Throws(Resolve(t).error) && Bookkeeping() == old(Bookkeeping())
      ensures Resolve(t).Success? ==>
        c == Normal && Bookkeeping() == EnableAll(Transition, page.touch, styleId, old(Bookkeeping()), Resolve(t).elems)
      ensures options == old(options) && styleElement == old(styleElement)
      ensures page.ripples == old(page.ripples) && page.faded == old(page.faded)
      ensures page.lastInteractionTime == old(page.lastInteractionTime) && page.calls == old(page.calls)
    {
      var r := Resolve(t);
      if r.Failure? {
        return Throws(r.error);
      }
      EnableAllInv(Transition, page.touch, styleId, Bookkeeping(), r.elems, page.styles.issued);
      EnableEach(r.elems);
      c := Normal;
    }

    /** enable's forEach: an element this instance has already is skipped; any other is
        registered, gets a new start listener on the start event, and an entry recording it. */
    method EnableEach(es: seq<Elem>)
      modifies this, page
      ensures Bookkeeping() == EnableAll(Transition, page.touch, styleId, old(Bookkeeping()), es)
      ensures options == old(options) && styleElement == old(styleElement)
      ensures page.ripples == old(page.ripples) && page.faded == old(page.faded)
      ensures page.lastInteractionTime == old(page.lastInteractionTime) && page.calls == old(page.calls)
    {
      var i := 0;
      while i < |es|
        invariant 0 <= i <= |es|
        invariant Bookkeeping() == EnableAll(Transition, page.touch, styleId, old(Bookkeeping()), es[..i])
        invariant options == old(options) && styleElement == old(styleElement)
        invariant page.ripples == old(page.ripples) && page.faded == old(page.faded)
        invariant page.lastInteractionTime == old(page.lastInteractionTime) && page.calls == old(page.calls)
      {
        assert es[..i + 1][..i] == es[..i];
        EnableOne(es[i]);
        i := i + 1;
      }
      assert es[..|es|] == es;
    }

    /** One iteration of enable's forEach. */
    method EnableOne(e: Elem)
      modifies this, page
      ensures Bookkeeping() == EnableStep(Transition, page.touch, styleId, old(Bookkeeping()), e)
      ensures options == old(options) && styleElement == old(styleElement)
      ensures page.ripples == old(page.ripples) && page.faded == old(page.faded)
      ensures page.lastInteractionTime == old(page.lastInteractionTime) && page.calls == old(page.calls)
    {
      if e !in instances {
        instances := instances + {e};
        var h := Closure(Interaction, styleId, e, page.nextId);
        page.nextId := page.nextId + 1;
        page.listeners := page.listeners + {Listener(e, StartEvent(page.touch), h)};
        page.handlers := page.handlers[Slot(e, styleId) := StartEnd(h, None, page.touch)];
      }
    }

    /** `disable`: resolve the target (an invalid one throws before anything changes), then
        disable each resolved element. */
    method Disable(t: Target) returns (c: Completion)
      requires Valid()
      modifies this, page
      ensures Valid()
      ensures Resolve(t).Failure? ==> c == Throws(Resolve(t).error) && Bookkeeping() == old(Bookkeeping())
      ensures Resolve(t).Success? ==>
        c == Normal && Bookkeeping() == DisableAll(styleId, old(Bookkeeping()), Resolve(t).elems)
      ensures options == old(options) && styleElement == old(styleElement)
      ensures page.ripples == old(page.ripples) && page.faded == old(page.faded)
      ensures page.lastInteractionTime == old(page.lastInteractionTime) && page.calls == old(page.calls)
    {
      var r := Resolve(t);
      if r.Failure? {
        return Throws(r.error);
      }
      DisableAllInv(Transition, styleId, Bookkeeping(), r.elems, page.styles.issued);
      DisableEach(r.elems);
      c := Normal;
    }

    /** disable's forEach: an element without an entry of this instance is skipped; otherwise
        the entry's start listener is removed from the start event, and so is its end handler
        (where create never attached it), then the entry and the registration go. */
    method DisableEach(es: seq<Elem>)
      requires forall s | s in page.handlers :: page.handlers[s].StartEnd?
      modifies this, page
      ensures Bookkeeping() == DisableAll(styleId, old(Bookkeeping()), es)
      ensures options == old(options) && styleElement == old(styleElement)
      ensures page.ripples == old(page.ripples) && page.faded == old(page.faded)
      ensures page.lastInteractionTime == old(page.lastInteractionTime) && page.calls == old(page.calls)
    {
      var i := 0;
      while i < |es|
        invariant 0 <= i <= |es|
        invariant Bookkeeping() == DisableAll(styleId, old(Bookkeeping()), es[..i])
        invariant forall s | s in page.handlers :: page.handlers[s].StartEnd?
        invariant options == old(options) && styleElement == old(styleElement)
        invariant page.ripples == old(page.ripples) && page.faded == old(page.faded)
        invariant page.lastInteractionTime == old(page.lastInteractionTime) && page.calls == old(page.calls)
      {
        var e := es[i];
        assert es[..i + 1][..i] == es[..i];
        ghost var before := Bookkeeping();
        var s := Slot(e, styleId);
        if s in page.handlers {
          var en := page.handlers[s];
          var ev := if en.isTouchEnabled then TouchStart else MouseDown;
          page.listeners := page.listeners - {Listener(e, ev, en.startHandler)};
          if en.endHandler.Some? {
            page.listeners := page.listeners - {Listener(e, ev, en.endHandler.value)};
          }
          page.handlers := page.handlers - {s};
          instances := instances - {e};
        }
        assert Bookkeeping() == DisableStep(styleId, before, e);
        i := i + 1;
      }
      assert es[..|es|] == es;
    }

    /** `create`, called at time `now` with `rect` the element's bounding box: suppressed
        within 100 ms of the last accepted call of any instance; otherwise the time is
        recorded and the ripple is made. */
    method Create(element: Elem, event: Interaction, now: int, rect: Rect) returns (c: Completion)
      requires Valid()
      modifies page
      ensures Valid()
      ensures page.calls == old(page.calls) + [now]
      ensures page.faded == old(page.faded)
      ensures !Debounce.Accepts(old(page.lastInteractionTime), now) ==>
        && c == Normal && page.lastInteractionTime == old(page.lastInteractionTime)
        && page.ripples == old(page.ripples) && page.nextId == old(page.nextId)
        && page.handlers == old(page.handlers) && page.listeners == old(page.listeners)
      ensures Debounce.Accepts(old(page.lastInteractionTime), now) ==>
        page.lastInteractionTime == now && Spawned(old(page.handlers), old(page.listeners), old(page.ripples), old(page.nextId), element, event, rect, c)
    {
      page.calls := page.calls + [now];
      Debounce.AcceptedSnoc(0, old(page.calls), now);
      if now - page.lastInteractionTime < Debounce.InteractionThreshold {
        return Normal;
      }
      page.lastInteractionTime := now;
      c := Spawn(element, event, rect);
    }

    /** What the part of create after the debounce does, from the page's `handlers`,
        `listeners`, `ripples` and `nextId` before it, with outcome `c`. */
    ghost predicate Spawned(handlers: map<Slot, Entry>, listeners: set<Listener>, ripples: seq<Ripple>, nextId: nat,
                            element: Elem, event: Interaction, rect: Rect, c: Completion)
      reads this, page
    {
      if Contact(event).None? then
        && c == Throws(NoTouchPoint)
        && page.ripples == ripples && page.nextId == nextId
        && page.handlers == handlers && page.listeners == listeners
      else
        var h := Closure(InteractionEnd, styleId, element, nextId);
        var s := Slot(element, styleId);
        && page.ripples == ripples + [Ripple(nextId, element, styleId, Place(Contact(event).value, rect, options.size))]
        && page.nextId == nextId + 1
        && page.listeners == listeners + EndListeners(element, h, page.touch)
        && (s in handlers ==> c == Normal && handlers[s].StartEnd? && page.handlers == handlers[s := handlers[s].(endHandler := Some(h))])
        && (s !in handlers ==> c == Throws(MissingHandlerEntry) && page.handlers == handlers)
    }

    /** The ripple itself: read the contact point (a touch event without touches throws),
        append a ripple centred on it, attach its end handler to both end events and record
        that handler in the element's entry for this instance, which throws when there is none. */
    method Spawn(element: Elem, event: Interaction, rect: Rect) returns (c: Completion)
      requires Valid()
      modifies page
      ensures Valid()
      ensures Spawned(old(page.handlers), old(page.listeners), old(page.ripples), old(page.nextId), element, event, rect, c)
      ensures page.faded == old(page.faded)
      ensures page.lastInteractionTime == old(page.lastInteractionTime) && page.calls == old(page.calls)
    {
      var contact := Contact(event);
      if contact.None? {
        return Throws(NoTouchPoint);
      }
      var id := AppendRipple(element, Place(contact.value, rect, options.size));
      var h := Closure(InteractionEnd, styleId, element, id);
      ListenForEnd(h);
      var s := Slot(element, styleId);
      if s !in page.handlers {
        return Throws(MissingHandlerEntry);
      }
      RecordEnd(s, h);
      c := Normal;
    }

    /** Create a ripple element with this instance's class, positioned at `at`, and append it to `element`. */
    method AppendRipple(element: Elem, at: Point) returns (id: nat)
      requires Valid()
      modifies page
      ensures Valid()
      ensures id == old(page.nextId) && page.nextId == id + 1
      ensures page.ripples == old(page.ripples) + [Ripple(id, element, styleId, at)]
      ensures page.handlers == old(page.handlers) && page.listeners == old(page.listeners)
      ensures page.faded == old(page.faded)
      ensures page.lastInteractionTime == old(page.lastInteractionTime) && page.calls == old(page.calls)
    {
      id := page.nextId;
      AllocKeeps(Transition, Bookkeeping(), styleId, page.styles.issued, id + 1);
      page.nextId := id + 1;
      page.ripples := page.ripples + [Ripple(id, element, styleId, at)];
    }

    /** Attach end handler `h` to both end events of its element. */
    method ListenForEnd(h: Closure)
      requires Valid()
      requires h == Closure(InteractionEnd, styleId, h.elem, h.serial) && h.serial < page.nextId
      modifies page
      ensures Valid()
      ensures page.listeners == old(page.listeners) + EndListeners(h.elem, h, page.touch)
      ensures page.handlers == old(page.handlers) && page.ripples == old(page.ripples) && page.nextId == old(page.nextId)
      ensures page.faded == old(page.faded)
      ensures page.lastInteractionTime == old(page.lastInteractionTime) && page.calls == old(page.calls)
    {
      EndAttachedKeeps(Bookkeeping(), styleId, page.styles.issued, h.elem, h, page.touch);
      page.listeners := page.listeners + EndListeners(h.elem, h, page.touch);
    }

    /** `element._hapticRippleHandlers[styleId].endHandler = h`, for an element that has the entry. */
    method RecordEnd(s: Slot, h: Closure)
      requires Valid()
      requires s in page.handlers && s.styleId == styleId && h == Closure(InteractionEnd, styleId, s.elem, h.serial)
      modifies page
      ensures Valid()
      ensures old(page.handlers)[s].StartEnd? && page.handlers == old(page.handlers)[s := old(page.handlers)[s].(endHandler := Some(h))]
      ensures page.listeners == old(page.listeners) && page.ripples == old(page.ripples) && page.nextId == old(page.nextId)
      ensures page.faded == old(page.faded)
      ensures page.lastInteractionTime == old(page.lastInteractionTime) && page.calls == old(page.calls)
    {
      EndRecordedKeeps(Bookkeeping(), styleId, page.styles.issued, s, h);
      page.handlers := page.handlers[s := page.handlers[s].(endHandler := Some(h))];
    }

    /** The start listener enable attaches for `element`: a mouse event with a button other
        than the primary one is ignored, anything else is passed to create. */
    method HandleInteraction(element: Elem, event: Interaction, now: int, rect: Rect) returns (c: Completion)
      requires Valid()
      modifies page
      ensures Valid()
      ensures event.Mouse? && event.button != 0 ==>
        c == Normal && page.calls == old(page.calls) && page.ripples == old(page.ripples)
        && page.handlers == old(page.handlers) && page.listeners == old(page.listeners)
        && page.lastInteractionTime == old(page.lastInteractionTime) && page.nextId == old(page.nextId)
      ensures !(event.Mouse? && event.button != 0) ==>
        && page.calls == old(page.calls) + [now]
        && (!Debounce.Accepts(old(page.lastInteractionTime), now) ==>
              && c == Normal && page.lastInteractionTime == old(page.lastInteractionTime)
              && page.ripples == old(page.ripples) && page.nextId == old(page.nextId)
              && page.handlers == old(page.handlers) && page.listeners == old(page.listeners))
        && (Debounce.Accepts(old(page.lastInteractionTime), now) ==>
              page.lastInteractionTime == now
              && Spawned(old(page.handlers), old(page.listeners), old(page.ripples), old(page.nextId), element, event, rect, c))
      ensures page.faded == old(page.faded)
      ensures element in old(instances) ==> c != Throws(MissingHandlerEntry)
    {
      if event.Mouse? && event.button != 0 {
        return Normal;
      }
      c := Create(element, event, now, rect);
    }

    /** The end handler create attached for ripple `id` on `element`: the ripple fades (its
        removal is scheduled) and the handler detaches itself from both end events. */
    method HandleInteractionEnd(element: Elem, id: nat)
      requires Valid()
      modifies page
      ensures Valid()
      ensures page.faded == old(page.faded) + {id}
      ensures page.listeners == old(page.listeners) - EndListeners(element, Closure(InteractionEnd, styleId, element, id), page.touch)
      ensures page.handlers == old(page.handlers) && page.ripples == old(page.ripples) && page.nextId == old(page.nextId)
      ensures page.lastInteractionTime == old(page.lastInteractionTime) && page.calls == old(page.calls)
    {
      var h := Closure(InteractionEnd, styleId, element, id);
      EndDetachedKeeps(Bookkeeping(), styleId, page.styles.issued, element, h, page.touch);
      page.faded := page.faded + {id};
      page.listeners := page.listeners - EndListeners(element, h, page.touch);
    }
  }
}
