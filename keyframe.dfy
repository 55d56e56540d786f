/** The controller of src/haptic-ripple.ts: each ripple runs one CSS keyframe animation and
    is removed by a timer; there is no end handler. */
module KeyframeRipple {
  import opened Common
  import opened OptionRules
  import opened Handlers
  import opened Styles
  import Debounce

  /** The constructor's defaults. */
  const Defaults := Options("oklab(0.5 0 0)", 16.0, 300.0, 0.7, 4.0, "ease-out")

  /** The state every instance of this class shares: its statics and the parts of the
      document the instances change. */
  class Page {
    /** `"ontouchstart" in window`, fixed for the page's lifetime. */
    const touch: bool
    /** `idCounter`, `commonStylesInjected` and the style elements in the head. */
    const styles: StyleRegistry<Options>
    /** Every element's `_hapticRippleHandlers`, as one table keyed by element and instance. */
    var handlers: map<Slot, Entry>
    var listeners: set<Listener>
    /** Allocation counter for listener functions and ripple elements. */
    var nextId: nat
    /** The ripple elements appended so far, in order. */
    var ripples: seq<Ripple>
    /** `HapticRipple.lastInteractionTime`. */
    var lastInteractionTime: int
    /** The `Date.now()` reading of every `create` call made so far, by any instance. */
    ghost var calls: seq<int>

    ghost predicate Valid()
      reads this, styles
    {
      && styles.Valid()
      && PageOk(Keyframe, handlers, listeners, nextId, styles.issued)
      && lastInteractionTime == Debounce.Latest(0, calls)
    }

    /** The page at script load. */
    constructor (touch: bool, styles: StyleRegistry<Options>)
      requires styles.Valid()
      ensures Valid()
      ensures this.touch == touch && this.styles == styles
      ensures handlers == map[] && listeners == {} && nextId == 0
      ensures ripples == [] && lastInteractionTime == 0 && calls == []
    {
      this.touch := touch;
      this.styles := styles;
      handlers := map[];
      listeners := {};
      nextId := 0;
      ripples := [];
      lastInteractionTime := 0;
      calls := [];
    }
  }

  class HapticRipple {
    var options: Options
    var styleElement: Option<StyleNode<Options>>
    /** The instance's number N; its class name and style element id are `haptic-ripple-N`. */
    const styleId: nat
    /** The keys of `this.instances`. */
    var instances: set<Elem>
    const page: Page

    ghost function Bookkeeping(): Book
      reads this, page
    {
      Book(instances, page.handlers, page.listeners, page.nextId)
    }

    ghost predicate Valid()
      reads this, page, page.styles
    {
      && page.Valid()
      && Inv(Keyframe, Bookkeeping(), styleId, page.styles.issued)
      && StyleOwned()
    }

    /** The instance owns exactly one style element, and it renders the current options. */
    ghost predicate StyleOwned()
      reads this, page.styles
    {
      && styleElement.Some?
      && styleElement.value in page.styles.instanceStyles
      && styleElement.value.styleId == styleId
      && styleElement.value.rules == options
      && (forall n | n in page.styles.instanceStyles && n.styleId == styleId :: n == styleElement.value)
    }

    /** `new HapticRipple(options)`: defaults filled in with `||`, a new number, the common
        style inserted by the first instance, and the instance's own style element. */
    constructor (opts: Partial, page: Page)
      requires page.Valid()
      modifies page.styles
      ensures Valid()
      ensures this.page == page && instances == {}
      ensures options == WithDefaults(opts, Defaults)
      ensures styleId == old(page.styles.idCounter) && styleId !in old(page.styles.issued)
      ensures page.styles.idCounter == old(page.styles.idCounter) + 1
      ensures page.styles.commonStylesInjected
      ensures page.styles.commonStyles ==
        if !old(page.styles.commonStylesInjected) && old(page.styles.commonStyles) == 0 then 1
        else old(page.styles.commonStyles)
      ensures page.styles.instanceStyles == old(page.styles.instanceStyles) + {styleElement.value}
      ensures styleElement.value !in old(page.styles.instanceStyles)
    {
      var styles := page.styles;
      options := WithDefaults(opts, Defaults);
      var id := styles.TakeStyleId();
      FreshInv(Keyframe, page.handlers, page.listeners, page.nextId, id, old(styles.issued));
      styleId := id;
      instances := {};
      this.page := page;
      styleElement := None;
      new;
      if !styles.commonStylesInjected {
        styles.InjectCommonStyles();
      }
      var node := styles.InjectInstanceStyles(styleElement, styleId, options);
      styleElement := Some(node);
    }

    /** `updateOptions`: shallow merge, then the style element is replaced by one rendering the result. */
    method UpdateOptions(p: Partial)
      requires Valid()
      modifies this, page.styles
      ensures Valid()
      ensures options == Merge(old(options), p)
      ensures instances == old(instances)
      ensures styleElement.value.rules == options && styleElement.value !in old(page.styles.instanceStyles)
      ensures page.styles.instanceStyles == old(page.styles.instanceStyles) - {old(styleElement).value} + {styleElement.value}
      ensures page.styles.idCounter == old(page.styles.idCounter)
      ensures page.styles.commonStyles == old(page.styles.commonStyles)
      ensures page.styles.commonStylesInjected == old(page.styles.commonStylesInjected)
      ensures page.styles.issued == old(page.styles.issued)
    {
      options := Merge(options, p);
      var node := page.styles.InjectInstanceStyles(styleElement, styleId, options);
      styleElement := Some(node);
    }

    /** `enable`: resolve the target (an invalid one throws before anything changes), then
        enable each resolved element. */
    method Enable(t: Target) returns (c: Completion)
      requires Valid()
      modifies this, page
      ensures Valid()
      ensures Resolve(t).Failure? ==> c == Throws(Resolve(t).error) && Bookkeeping() == old(Bookkeeping())
      ensures Resolve(t).Success? ==>
        c == Normal && Bookkeeping() == EnableAll(Keyframe, page.touch, styleId, old(Bookkeeping()), Resolve(t).elems)
      ensures options == old(options) && styleElement == old(styleElement)
      ensures page.ripples == old(page.ripples)
      ensures page.lastInteractionTime == old(page.lastInteractionTime) && page.calls == old(page.calls)
    {
      var r := Resolve(t);
      if r.Failure? {
        return Throws(r.error);
      }
      EnableAllInv(Keyframe, page.touch, styleId, Bookkeeping(), r.elems, page.styles.issued);
      EnableEach(r.elems);
      c := Normal;
    }

    /** enable's forEach: an element this instance has already is skipped; any other is
        registered, gets a new listener on the start event, and an entry recording it. */
    method EnableEach(es: seq<Elem>)
      modifies this, page
      ensures Bookkeeping() == EnableAll(Keyframe, page.touch, styleId, old(Bookkeeping()), es)
      ensures options == old(options) && styleElement == old(styleElement)
      ensures page.ripples == old(page.ripples)
      ensures page.lastInteractionTime == old(page.lastInteractionTime) && page.calls == old(page.calls)
    {
      var i := 0;
      while i < |es|
        invariant 0 <= i <= |es|
        invariant Bookkeeping() == EnableAll(Keyframe, page.touch, styleId, old(Bookkeeping()), es[..i])
        invariant options == old(options) && styleElement == old(styleElement)
        invariant page.ripples == old(page.ripples)
        invariant page.lastInteractionTime == old(page.lastInteractionTime) && page.calls == old(page.calls)
      {
        assert es[..i + 1][..i] == es[..i];
        EnableOne(es[i]);
        i := i + 1;
      }
      assert es[..|es|] == es;
    }

    /** One iteration of enable's forEach. */
    method EnableOne(e: Elem)
      modifies this, page
      ensures Bookkeeping() == EnableStep(Keyframe, page.touch, styleId, old(Bookkeeping()), e)
      ensures options == old(options) && styleElement == old(styleElement)
      ensures page.ripples == old(page.ripples)
      ensures page.lastInteractionTime == old(page.lastInteractionTime) && page.calls == old(page.calls)
    {
      if e !in instances {
        instances := instances + {e};
        var h := Closure(Interaction, styleId, e, page.nextId);
        page.nextId := page.nextId + 1;
        page.listeners := page.listeners + {Listener(e, StartEvent(page.touch), h)};
        page.handlers := page.handlers[Slot(e, styleId) := Single(h, page.touch)];
      }
    }

    /** `disable`: resolve the target (an invalid one throws before anything changes), then
        disable each resolved element. */
    method Disable(t: Target) returns (c: Completion)
      requires Valid()
      modifies this, page
      ensures Valid()
      ensures Resolve(t).Failure? ==> c == Throws(Resolve(t).error) && Bookkeeping() == old(Bookkeeping())
      ensures Resolve(t).Success? ==>
        c == Normal && Bookkeeping() == DisableAll(styleId, old(Bookkeeping()), Resolve(t).elems)
      ensures options == old(options) && styleElement == old(styleElement)
      ensures page.ripples == old(page.ripples)
      ensures page.lastInteractionTime == old(page.lastInteractionTime) && page.calls == old(page.calls)
    {
      var r := Resolve(t);
      if r.Failure? {
        return Throws(r.error);
      }
      DisableAllInv(Keyframe, styleId, Bookkeeping(), r.elems, page.styles.issued);
      DisableEach(r.elems);
      c := Normal;
    }

    /** disable's forEach: an element without an entry of this instance is skipped; otherwise
        the entry's listener is removed from the event it was attached to, then the entry and
        the registration go. */
    method DisableEach(es: seq<Elem>)
      requires forall s | s in page.handlers :: page.handlers[s].Single?
      modifies this, page
      ensures Bookkeeping() == DisableAll(styleId, old(Bookkeeping()), es)
      ensures options == old(options) && styleElement == old(styleElement)
      ensures page.ripples == old(page.ripples)
      ensures page.lastInteractionTime == old(page.lastInteractionTime) && page.calls == old(page.calls)
    {
      var i := 0;
      while i < |es|
        invariant 0 <= i <= |es|
        invariant Bookkeeping() == DisableAll(styleId, old(Bookkeeping()), es[..i])
        invariant forall s | s in page.handlers :: page.handlers[s].Single?
        invariant options == old(options) && styleElement == old(styleElement)
        invariant page.ripples == old(page.ripples)
        invariant page.lastInteractionTime == old(page.lastInteractionTime) && page.calls == old(page.calls)
      {
        var e := es[i];
        assert es[..i + 1][..i] == es[..i];
        ghost var before := Bookkeeping();
        var s := Slot(e, styleId);
        if s in page.handlers {
          var en := page.handlers[s];
          var ev := if en.isTouchEnabled then TouchStart else MouseDown;
          page.listeners := page.listeners - {Listener(e, ev, en.handler)};
          page.handlers := page.handlers - {s};
          instances := instances - {e};
        }
        assert Bookkeeping() == DisableStep(styleId, before, e);
        i := i + 1;
      }
      assert es[..|es|] == es;
    }

    /** `create`, called at time `now` with `rect` the element's bounding box. Suppressed
        within 100 ms of the last accepted call of any instance; otherwise the time is
        recorded, a touch event without touches throws, and a ripple centred on the contact
        point is appended. */
    method Create(element: Elem, event: Interaction, now: int, rect: Rect) returns (c: Completion)
      requires Valid()
      modifies page
      ensures Valid()
      ensures page.calls == old(page.calls) + [now]
      ensures page.handlers == old(page.handlers) && page.listeners == old(page.listeners)
      ensures !Debounce.Accepts(old(page.lastInteractionTime), now) ==>
        && c == Normal && page.lastInteractionTime == old(page.lastInteractionTime)
        && page.ripples == old(page.ripples) && page.nextId == old(page.nextId)
      ensures Debounce.Accepts(old(page.lastInteractionTime), now) ==> page.lastInteractionTime == now
      ensures Debounce.Accepts(old(page.lastInteractionTime), now) && Contact(event).None? ==>
        c == Throws(NoTouchPoint) && page.ripples == old(page.ripples) && page.nextId == old(page.nextId)
      ensures Debounce.Accepts(old(page.lastInteractionTime), now) && Contact(event).Some? ==>
        && c == Normal
        && page.ripples == old(page.ripples) + [Ripple(old(page.nextId), element, styleId, Place(Contact(event).value, rect, options.size))]
        && page.nextId == old(page.nextId) + 1
    {
      page.calls := page.calls + [now];
      Debounce.AcceptedSnoc(0, old(page.calls), now);
      if now - page.lastInteractionTime < Debounce.InteractionThreshold {
        return Normal;
      }
      page.lastInteractionTime := now;
      var contact := Contact(event);
      if contact.None? {
        return Throws(NoTouchPoint);
      }
      var _ := AppendRipple(element, Place(contact.value, rect, options.size));
      c := Normal;
    }

    /** Create a ripple element with this instance's class, positioned at `at`, and append it to `element`. */
    method AppendRipple(element: Elem, at: Point) returns (id: nat)
      requires Valid()
      modifies page
      ensures Valid()
      ensures id == old(page.nextId) && page.nextId == id + 1
      ensures page.ripples == old(page.ripples) + [Ripple(id, element, styleId, at)]
      ensures page.handlers == old(page.handlers) && page.listeners == old(page.listeners)
      ensures page.lastInteractionTime == old(page.lastInteractionTime) && page.calls == old(page.calls)
    {
      id := page.nextId;
      AllocKeeps(Keyframe, Bookkeeping(), styleId, page.styles.issued, id + 1);
      page.nextId := id + 1;
      page.ripples := page.ripples + [Ripple(id, element, styleId, at)];
    }

    /** The listener enable attaches for `element`: a mouse event with a button other than
        the primary one is ignored, anything else is passed to create. */
    method HandleInteraction(element: Elem, event: Interaction, now: int, rect: Rect) returns (c: Completion)
      requires Valid()
      modifies page
      ensures Valid()
      ensures event.Mouse? && event.button != 0 ==>
        c == Normal && page.calls == old(page.calls) && page.ripples == old(page.ripples)
        && page.lastInteractionTime == old(page.lastInteractionTime) && page.nextId == old(page.nextId)
      ensures !(event.Mouse? && event.button != 0) ==>
        && page.calls == old(page.calls) + [now]
        && (!Debounce.Accepts(old(page.lastInteractionTime), now) ==>
              && c == Normal && page.lastInteractionTime == old(page.lastInteractionTime)
              && page.ripples == old(page.ripples) && page.nextId == old(page.nextId))
        && (Debounce.Accepts(old(page.lastInteractionTime), now) ==> page.lastInteractionTime == now)
        && (Debounce.Accepts(old(page.lastInteractionTime), now) && Contact(event).None? ==>
              c == Throws(NoTouchPoint) && page.ripples == old(page.ripples) && page.nextId == old(page.nextId))
        && (Debounce.Accepts(old(page.lastInteractionTime), now) && Contact(event).Some? ==>
              && c == Normal
              && page.ripples == old(page.ripples) + [Ripple(old(page.nextId), element, styleId, Place(Contact(event).value, rect, options.size))]
              && page.nextId == old(page.nextId) + 1)
      ensures page.handlers == old(page.handlers) && page.listeners == old(page.listeners)
    {
      if event.Mouse? && event.button != 0 {
        return Normal;
      }
      c := Create(element, event, now, rect);
    }
  }
}
