/** The class statics that name and style the controllers (`idCounter`,
    `commonStylesInjected`) together with the style elements they put in `document.head`.
    Every revision has this logic verbatim; each revision's class has its own statics, so
    each gets its own registry object. The text inside a style element is not modelled: an
    instance's style element records the options it renders. */
module Styles {
  import opened Common

  /** One instance's `<style id="haptic-ripple-N">` element: the instance's number N, an
      allocation number (each `createElement` is a new node) and the options it renders. */
  datatype StyleNode<O> = StyleNode(styleId: nat, serial: nat, rules: O)

  class StyleRegistry<O(==)> {
    /** `HapticRipple.idCounter`: the number the next instance takes. */
    var idCounter: nat
    /** `HapticRipple.commonStylesInjected`. */
    var commonStylesInjected: bool
    /** How many elements with id `haptic-ripple-common-styles` the page had before any instance. */
    const commonAtLoad: nat
    /** How many such elements the document has now. */
    var commonStyles: nat
    /** The per-instance style elements in the document head. */
    var instanceStyles: set<StyleNode<O>>
    var nextSerial: nat
    /** The instance numbers handed out so far. */
    ghost var issued: set<nat>

    ghost predicate Valid()
      reads this
    {
      && 1 <= idCounter
      && (forall i: nat :: i in issued <==> 1 <= i < idCounter)
      && commonAtLoad <= commonStyles <= commonAtLoad + 1
      // the shared base style is inserted at most once, and only into a page that had none
      && (commonStyles == commonAtLoad + 1 ==> commonAtLoad == 0 && commonStylesInjected)
      && (commonStylesInjected ==> 1 <= commonStyles)
      && (forall n | n in instanceStyles :: n.styleId in issued && n.serial < nextSerial)
      // at most one style element per instance
      && (forall a, b | a in instanceStyles && b in instanceStyles && a.styleId == b.styleId :: a == b)
    }

    /** The statics at script load, on a page holding `commonAtLoad` common style elements already. */
    constructor (commonAtLoad: nat)
      ensures Valid()
      ensures idCounter == 1 && !commonStylesInjected && issued == {}
      ensures this.commonAtLoad == commonAtLoad && commonStyles == commonAtLoad
      ensures instanceStyles == {}
    {
      idCounter := 1;
      commonStylesInjected := false;
      this.commonAtLoad := commonAtLoad;
      commonStyles := commonAtLoad;
      instanceStyles := {};
      nextSerial := 0;
      issued := {};
    }

    /** `HapticRipple.idCounter++`: the current number, never handed out before. */
    method TakeStyleId() returns (id: nat)
      requires Valid()
      modifies this
      ensures Valid()
      ensures id == old(idCounter) && idCounter == id + 1
      ensures id !in old(issued) && issued == old(issued) + {id}
      ensures commonStylesInjected == old(commonStylesInjected) && commonStyles == old(commonStyles)
      ensures instanceStyles == old(instanceStyles) && nextSerial == old(nextSerial)
    {
      id := idCounter;
      idCounter := idCounter + 1;
      issued := issued + {id};
    }

    /** `injectCommonStyles`: insert the shared base style unless an element with its id exists. */
    method InjectCommonStyles()
      requires Valid()
      modifies this
      ensures Valid()
      ensures commonStylesInjected
      ensures commonStyles == if old(commonStyles) == 0 then 1 else old(commonStyles)
      ensures idCounter == old(idCounter) && issued == old(issued)
      ensures instanceStyles == old(instanceStyles) && nextSerial == old(nextSerial)
    {
      if commonStyles > 0 {
        commonStylesInjected := true;
        return;
      }
      commonStyles := commonStyles + 1;
      commonStylesInjected := true;
    }

    /** `injectInstanceStyles`: remove the instance's previous style element, if any, and
        append a new one rendering `rules`. `prev` is the instance's `styleElement`. */
    method InjectInstanceStyles(prev: Option<StyleNode<O>>, styleId: nat, rules: O) returns (node: StyleNode<O>)
      requires Valid()
      requires styleId in issued
      requires forall n | n in instanceStyles && n.styleId == styleId :: prev == Some(n)
      modifies this
      ensures Valid()
      ensures node == StyleNode(styleId, old(nextSerial), rules) && node !in old(instanceStyles)
      ensures instanceStyles == (if prev.Some? then old(instanceStyles) - {prev.value} else old(instanceStyles)) + {node}
      ensures forall n | n in instanceStyles && n.styleId == styleId :: n == node
      ensures idCounter == old(idCounter) && issued == old(issued)
      ensures commonStylesInjected == old(commonStylesInjected) && commonStyles == old(commonStyles)
    {
      if prev.Some? {
        instanceStyles := instanceStyles - {prev.value};
      }
      node := StyleNode(styleId, nextSerial, rules);
      nextSerial := nextSerial + 1;
      instanceStyles := instanceStyles + {node};
    }
  }
}
