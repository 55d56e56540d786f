/** Values shared by the three revisions of the ripple controller: element identities,
    the argument shapes `enable`/`disable` accept, interaction events, contact-point
    placement and the ripple elements a controller appends. */
module Common {

  datatype Option<T> = None | Some(value: T)

  /** The exceptions the controller lets escape. */
  datatype Error =
    | InvalidSelector       // enable/disable given something that is not a string, an element or an array
    | SelectorSyntax        // querySelectorAll rejects a string that is not a CSS selector
    | NoTouchPoint          // a touch event whose `touches` list is empty: `touches[0].clientX` throws
    | MissingHandlerEntry   // `_hapticRippleHandlers[styleId]` is undefined when create assigns endHandler

  /** How a public operation ends: normally, or by throwing. */
  datatype Completion = Normal | Throws(error: Error)

  /** An element, as an opaque identity. */
  datatype Elem = Elem(id: nat)

  /** The argument of enable/disable. A selector string is represented by what
      `document.querySelectorAll` makes of it: its list of matches, or a syntax error. */
  datatype Target =
    | Selector(matches: seq<Elem>)
    | BadSelector
    | One(elem: Elem)
    | Many(elems: seq<Elem>)
    | Invalid

  /** Whether `t` designates element `e` (a reference reading of the three accepted shapes). */
  predicate Designates(t: Target, e: Elem)
  {
    match t
    case Selector(ms) => e in ms
    case One(x) => e == x
    case Many(xs) => e in xs
    case _ => false
  }

  /** The list of elements enable/disable iterate over, or the exception thrown before any of them is touched. */
  function Resolve(t: Target): (r: Result)
    ensures r.Failure? <==> t.Invalid? || t.BadSelector?
    ensures t.Invalid? ==> r == Failure(InvalidSelector)
    ensures t.BadSelector? ==> r == Failure(SelectorSyntax)
    ensures r.Success? ==> forall e :: e in r.elems <==> Designates(t, e)
    ensures t.One? ==> r == Success([t.elem])
  {
    match t
    case Selector(ms) => Success(ms)
    case BadSelector => Failure(SelectorSyntax)
    case One(x) => Success([x])
    case Many(xs) => Success(xs)
    case Invalid => Failure(InvalidSelector)
  }

  datatype Result = Success(elems: seq<Elem>) | Failure(error: Error)

  /** Viewport coordinates, in CSS pixels. */
  datatype Point = Point(x: real, y: real)

  /** The part of `getBoundingClientRect()` the placement reads. */
  datatype Rect = Rect(left: real, top: real)

  /** An interaction event, discriminated once: a touch event with its `touches` list,
      or a mouse event with its pointer coordinates and button. */
  datatype Interaction =
    | Touch(touches: seq<Point>)
    | Mouse(x: real, y: real, button: int)

  /** The contact point `create` reads: the first touch, or the mouse pointer. None when a
      touch event has no touches: reading `touches[0].clientX` throws a TypeError there
      (src/index.ts:120, src/haptic-ripple.ts:138, dist/index.umd.js:86). */
  function Contact(ev: Interaction): Option<Point>
  {
    match ev
    case Touch(ts) => if ts == [] then None else Some(ts[0])
    case Mouse(x, y, _) => Some(Point(x, y))
  }

  /** The `left`/`top` of a ripple of width `size` for a contact at `c` on an element whose
      box starts at `r`: the ripple's centre sits exactly under the contact point. */
  function Place(c: Point, r: Rect, size: real): (p: Point)
    ensures p.x + size / 2.0 + r.left == c.x
    ensures p.y + size / 2.0 + r.top == c.y
  {
    Point(c.x - r.left - size / 2.0, c.y - r.top - size / 2.0)
  }

  /** Placement depends only on where the contact is relative to the element. */
  lemma PlaceTranslationInvariant(c: Point, r: Rect, size: real, dx: real, dy: real)
    ensures Place(Point(c.x + dx, c.y + dy), Rect(r.left + dx, r.top + dy), size) == Place(c, r, size)
  {
  }

  /** A ripple of non-negative size covers its contact point. */
  lemma PlaceCoversContact(c: Point, r: Rect, size: real)
    requires size >= 0.0
    ensures var p := Place(c, r, size);
      p.x <= c.x - r.left <= p.x + size && p.y <= c.y - r.top <= p.y + size
  {
  }

  /** A ripple element appended to `target`: its identity, the instance class it carries
      (`haptic-ripple-<styleId>`) and its `left`/`top`. */
  datatype Ripple = Ripple(id: nat, target: Elem, styleId: nat, at: Point)
}
