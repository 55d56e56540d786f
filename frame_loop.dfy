/** The controller of dist/index.umd.js, the oldest revision: options without easing, no
    debounce, both mousedown and touchstart listened to on every element regardless of the
    device, and the ripple animated frame by frame. */
module FrameLoopRipple {
  import opened Common
  import opened OptionRules
  import opened Handlers
  import opened Styles

  /** The constructor's defaults. */
  const Defaults := LegacyOptions("oklab(0.5 0 0)", 16.0, 300.0, 0.7, 4.0)

  /** The state every instance of this class shares: its statics and the parts of the
      document the instances change. */
  class Page {
    /** `idCounter`, `commonStylesInjected` and the style elements in the head. */
    const styles: StyleRegistry<LegacyOptions>
    /** Every element's `_hapticRippleHandlers`, as one table keyed by element and instance. */
    var handlers: map<Slot, Entry>
    var listeners: set<Listener>
    /** Allocation counter for listener functions and ripple elements. */
    var nextId: nat
    /** The ripple elements appended so far, in order. */
    var ripples: seq<Ripple>

    ghost predicate Valid()
      reads this, styles
    {
      styles.Valid() && PageOk(FrameLoop, handlers, listeners, nextId, styles.issued)
    }

    /** The page at script load. */
    constructor (styles: StyleRegistry<LegacyOptions>)
      requires styles.Valid()
      ensures Valid()
      ensures this.styles == styles
      ensures handlers == map[] && listeners == {} && nextId == 0 && ripples == []
    {
      this.styles := styles;
      handlers := map[];
      listeners := {};
      nextId := 0;
      ripples := [];
    }
  }

  class HapticRipple {
    var options: LegacyOptions
    var styleElement: Option<StyleNode<LegacyOptions>>
    /** The instance's number N; its class name and style element id are `haptic-ripple-N`. */
    const styleId: nat
    /** The keys of `this.instances`. */
    var instances: set<Elem>
    const page: Page

    ghost function Bookkeeping(): Book
      reads this, page
    {
      Book(instances, page.handlers, page.listeners, page.nextId)
    }

    ghost predicate Valid()
      reads this, page, page.styles
    {
      && page.Valid()
      && Inv(FrameLoop, Bookkeeping(), styleId, page.styles.issued)
      && StyleOwned()
    }

    /** The instance owns exactly one style element, and it renders the current options. */
    ghost predicate StyleOwned()
      reads this, page.styles
    {
      && styleElement.Some?
      && styleElement.value in page.styles.instanceStyles
      && styleElement.value.styleId == styleId
      && styleElement.value.rules == options
      && (forall n | n in page.styles.instanceStyles && n.styleId == styleId :: n == styleElement.value)
    }

    /** `new HapticRipple(options)`: defaults filled in with `||`, a new number, the common
        style inserted by the first instance, and the instance's own style element. */
    constructor (opts: LegacyPartial, page: Page)
      requires page.Valid()
      modifies page.styles
      ensures Valid()
      ensures this.page == page && instances == {}
      ensures options == LegacyWithDefaults(opts, Defaults)
      ensures styleId == old(page.styles.idCounter) && styleId !in old(page.styles.issued)
      ensures page.styles.idCounter == old(page.styles.idCounter) + 1
      ensures page.styles.commonStylesInjected
      ensures page.styles.commonStyles ==
        if !old(page.styles.commonStylesInjected) && old(page.styles.commonStyles) == 0 then 1
        else old(page.styles.commonStyles)
      ensures page.styles.instanceStyles == old(page.styles.instanceStyles) + {styleElement.value}
      ensures styleElement.value !in old(page.styles.instanceStyles)
    {
      var styles := page.styles;
      options := LegacyWithDefaults(opts, Defaults);
      var id := styles.TakeStyleId();
      FreshInv(FrameLoop, page.handlers, page.listeners, page.nextId, id, old(styles.issued));
      styleId := id;
      instances := {};
      this.page := page;
      styleElement := None;
      new;
      if !styles.commonStylesInjected {
        styles.InjectCommonStyles();
      }
      var node := styles.InjectInstanceStyles(styleElement, styleId, options);
      styleElement := Some(node);
    }

    /** `updateOptions`: shallow merge, then the style element is replaced by one rendering the result. */
    method UpdateOptions(p: LegacyPartial)
      requires Valid()
      modifies this, page.styles
      ensures Valid()
      ensures options == LegacyMerge(old(options), p)
      ensures instances == old(instances)
      ensures styleElement.value.rules == options && styleElement.value !in old(page.styles.instanceStyles)
      ensures page.styles.instanceStyles == old(page.styles.instanceStyles) - {old(styleElement).value} + {styleElement.value}
      ensures page.styles.idCounter == old(page.styles.idCounter)
      ensures page.styles.commonStyles == old(page.styles.commonStyles)
      ensures page.styles.commonStylesInjected == old(page.styles.commonStylesInjected)
      ensures page.styles.issued == old(page.styles.issued)
    {
      options := LegacyMerge(options, p);
      var node := page.styles.InjectInstanceStyles(styleElement, styleId, options);
      styleElement := Some(node);
    }

    /** `enable`: resolve the target (an invalid one throws before anything changes), then
        enable each resolved element. This revision does not probe for touch support; the
        `touch` argument of the bookkeeping, which its entries ignore, is `false`. */
    method Enable(t: Target) returns (c: Completion)
      requires Valid()
      modifies this, page
      ensures Valid()
      ensures Resolve(t).Failure? ==> c == Throws(Resolve(t).error) && Bookkeeping() == old(Bookkeeping())
      ensures Resolve(t).Success? ==>
        c == Normal && Bookkeeping() == EnableAll(FrameLoop, false, styleId, old(Bookkeeping()), Resolve(t).elems)
      ensures options == old(options) && styleElement == old(styleElement)
      ensures page.ripples == old(page.ripples)
    {
      var r := Resolve(t);
      if r.Failure? {
        return Throws(r.error);
      }
      EnableAllInv(FrameLoop, false, styleId, Bookkeeping(), r.elems, page.styles.issued);
      EnableEach(r.elems);
      c := Normal;
    }

    /** enable's forEach. */
    method EnableEach(es: seq<Elem>)
      modifies this, page
      ensures Bookkeeping() == EnableAll(FrameLoop, false, styleId, old(Bookkeeping()), es)
      ensures options == old(options) && styleElement == old(styleElement)
      ensures page.ripples == old(page.ripples)
    {
      var i := 0;
      while i < |es|
        invariant 0 <= i <= |es|
        invariant Bookkeeping() == EnableAll(FrameLoop, false, styleId, old(Bookkeeping()), es[..i])
        invariant options == old(options) && styleElement == old(styleElement)
        invariant page.ripples == old(page.ripples)
      {
        assert es[..i + 1][..i] == es[..i];
        EnableOne(es[i]);
        i := i + 1;
      }
      assert es[..|es|] == es;
    }

    /** One iteration of enable's forEach: an element this instance has already is skipped;
        any other is registered, gets a mousedown and a touchstart listener, and an entry
        recording both. */
    method EnableOne(e: Elem)
      modifies this, page
      ensures Bookkeeping() == EnableStep(FrameLoop, false, styleId, old(Bookkeeping()), e)
      ensures options == old(options) && styleElement == old(styleElement)
      ensures page.ripples == old(page.ripples)
    {
      if e !in instances {
        instances := instances + {e};
        var mouseDown := Closure(MouseDownHandler, styleId, e, page.nextId);
        var touchStart := Closure(TouchStartHandler, styleId, e, page.nextId);
        page.nextId := page.nextId + 1;
        page.listeners := page.listeners + {Listener(e, MouseDown, mouseDown)};
        page.listeners := page.listeners + {Listener(e, TouchStart, touchStart)};
        page.handlers := page.handlers[Slot(e, styleId) := Pair(mouseDown, touchStart)];
      }
    }

    /** `disable`: resolve the target (an invalid one throws before anything changes), then
        disable each resolved element. */
    method Disable(t: Target) returns (c: Completion)
      requires Valid()
      modifies this, page
      ensures Valid()
      ensures Resolve(t).Failure? ==> c == Throws(Resolve(t).error) && Bookkeeping() == old(Bookkeeping())
      ensures Resolve(t).Success? ==>
        c == Normal && Bookkeeping() == DisableAll(styleId, old(Bookkeeping()), Resolve(t).elems)
      ensures options == old(options) && styleElement == old(styleElement)
      ensures page.ripples == old(page.ripples)
    {
      var r := Resolve(t);
      if r.Failure? {
        return Throws(r.error);
      }
      DisableAllInv(FrameLoop, styleId, Bookkeeping(), r.elems, page.styles.issued);
      DisableEach(r.elems);
      c := Normal;
    }

    /** disable's forEach: an element without an entry of this instance is skipped; otherwise
        both recorded listeners are removed, then the entry and the registration go. */
    method DisableEach(es: seq<Elem>)
      requires forall s | s in page.handlers :: page.handlers[s].Pair?
      modifies this, page
      ensures Bookkeeping() == DisableAll(styleId, old(Bookkeeping()), es)
      ensures options == old(options) && styleElement == old(styleElement)
      ensures page.ripples == old(page.ripples)
    {
      var i := 0;
      while i < |es|
        invariant 0 <= i <= |es|
        invariant Bookkeeping() == DisableAll(styleId, old(Bookkeeping()), es[..i])
        invariant forall s | s in page.handlers :: page.handlers[s].Pair?
        invariant options == old(options) && styleElement == old(styleElement)
        invariant page.ripples == old(page.ripples)
      {
        var e := es[i];
        assert es[..i + 1][..i] == es[..i];
        ghost var before := Bookkeeping();
        var s := Slot(e, styleId);
        if s in page.handlers {
          var en := page.handlers[s];
          page.listeners := page.listeners - {Listener(e, MouseDown, en.mousedown)};
          page.listeners := page.listeners - {Listener(e, TouchStart, en.touchstart)};
          page.handlers := page.handlers - {s};
          instances := instances - {e};
        }
        assert Bookkeeping() == DisableStep(styleId, before, e);
        i := i + 1;
      }
      assert es[..|es|] == es;
    }

    /** `create`, with `rect` the element's bounding box: a touch event without touches
        throws before anything is appended; otherwise a ripple centred on the contact point
        is appended. Nothing else of the page changes. */
    method Create(element: Elem, event: Interaction, rect: Rect) returns (c: Completion)
      requires Valid()
      modifies page
      ensures Valid()
      ensures page.handlers == old(page.handlers) && page.listeners == old(page.listeners)
      ensures Contact(event).None? ==>
        c == Throws(NoTouchPoint) && page.ripples == old(page.ripples) && page.nextId == old(page.nextId)
      ensures Contact(event).Some? ==>
        && c == Normal
        && page.ripples == old(page.ripples) + [Ripple(old(page.nextId), element, styleId, Place(Contact(event).value, rect, options.size))]
        && page.nextId == old(page.nextId) + 1
    {
      var contact := Contact(event);
      if contact.None? {
        return Throws(NoTouchPoint);
      }
      var id := page.nextId;
      AllocKeeps(FrameLoop, Bookkeeping(), styleId, page.styles.issued, id + 1);
      page.nextId := id + 1;
      page.ripples := page.ripples + [Ripple(id, element, styleId, Place(contact.value, rect, options.size))];
      c := Normal;
    }

    /** `handleMouseDown`: only the primary button creates a ripple. */
    method HandleMouseDown(element: Elem, x: real, y: real, button: int, rect: Rect) returns (c: Completion)
      requires Valid()
      modifies page
      ensures Valid()
      ensures c == Normal
      ensures button != 0 ==> page.ripples == old(page.ripples) && page.nextId == old(page.nextId)
      ensures button == 0 ==>
        && page.ripples == old(page.ripples) + [Ripple(old(page.nextId), element, styleId, Place(Point(x, y), rect, options.size))]
        && page.nextId == old(page.nextId) + 1
      ensures page.handlers == old(page.handlers) && page.listeners == old(page.listeners)
    {
      c := Normal;
      if button == 0 {
        c := Create(element, Mouse(x, y, button), rect);
      }
    }

    /** `handleTouchStart`: every touch start creates a ripple, so one without touches throws. */
    method HandleTouchStart(element: Elem, touches: seq<Point>, rect: Rect) returns (c: Completion)
      requires Valid()
      modifies page
      ensures Valid()
      ensures touches == [] ==>
        c == Throws(NoTouchPoint) && page.ripples == old(page.ripples) && page.nextId == old(page.nextId)
      ensures touches != [] ==>
        && c == Normal
        && page.ripples == old(page.ripples) + [Ripple(old(page.nextId), element, styleId, Place(touches[0], rect, options.size))]
        && page.nextId == old(page.nextId) + 1
      ensures page.handlers == old(page.handlers) && page.listeners == old(page.listeners)
    {
      c := Create(element, Touch(touches), rect);
    }
  }
}
