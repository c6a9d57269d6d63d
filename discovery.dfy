/**
 * Item discovery (parser.py:263-336): which elements of the document are
 * treated as products. A Kaspi-specific path runs first, then ten generic
 * patterns in a fixed order, then every element as a last resort.
 */
module Discovery {
  import opened Wrappers
  import opened Text
  import opened Tree

  /** One of the generic XPath patterns, evaluated from the root. */
  datatype Pattern =
    | DescendantsNamed(test: NameTest)       // './/name' or './/{*}name'
    | DescendantsWithAttribute(attr: string)  // './/*[@attr]'
    | ChildrenOfRoot                          // './*'

  /** `root.findall(pattern)`. */
  function FindAll(root: Element, p: Pattern): seq<Element> {
    match p
    case DescendantsNamed(t) => Named(Descendants(root), t)
    case DescendantsWithAttribute(a) => WithAttribute(Descendants(root), a)
    case ChildrenOfRoot => root.children
  }

  /** The generic patterns, in the order they are tried. */
  const GenericPatterns: seq<Pattern> := [
    DescendantsNamed(Tag("item")),
    DescendantsNamed(Tag("product")),
    DescendantsNamed(Tag("товар")),
    DescendantsNamed(Tag("offer")),
    DescendantsNamed(AnyNamespace("offer")),
    DescendantsNamed(AnyNamespace("item")),
    DescendantsNamed(AnyNamespace("product")),
    DescendantsWithAttribute("sku"),
    DescendantsWithAttribute("id"),
    ChildrenOfRoot
  ]

  /** The vendor marker looked for in the root tag and in its children's tags. */
  const VendorMarker := "kaspi"

  /** The root tag, or the tag of one of its children, contains "kaspi" in any letter case. */
  predicate KaspiMarked(root: Element) {
    Contains(Lower(root.tag), VendorMarker)
    || exists c | c in root.children :: Contains(Lower(c.tag), VendorMarker)
  }

  /** The `offers` container paths tried in turn, then the `offer` steps below the chosen one. */
  const OffersPaths: seq<NameTest> := [Tag("offers"), AnyNamespace("offers")]
  const OfferSteps: seq<NameTest> := [Tag("offer"), AnyNamespace("offer")]

  /** The first of the `offers` paths that `root.find` resolves, if any. */
  function OffersPath(root: Element): Option<NameTest> {
    if Named(Descendants(root), OffersPaths[0]) != [] then Some(OffersPaths[0])
    else if Named(Descendants(root), OffersPaths[1]) != [] then Some(OffersPaths[1])
    else None
  }

  /** What the Kaspi-specific path finds: `offer` children of every matching `offers` container. */
  function KaspiOffers(root: Element): seq<Element> {
    if !KaspiMarked(root) then []
    else match OffersPath(root)
      case None => []
      case Some(path) =>
        OfferItems(Named(Descendants(root), path))
  }

  /** The `offer` elements below the containers, by the first step that finds any. */
  function OfferItems(containers: seq<Element>): seq<Element> {
    var exact := NamedChildren(containers, OfferSteps[0]);
    if exact != [] then exact else NamedChildren(containers, OfferSteps[1])
  }

  /** The result of the first pattern in `ps` that finds something; empty when none does. */
  function FirstHit(root: Element, ps: seq<Pattern>): seq<Element> {
    if ps == [] then []
    else if FindAll(root, ps[0]) != [] then FindAll(root, ps[0])
    else FirstHit(root, ps[1..])
  }

  /** The items the extractor processes, before truncation. */
  function Discover(root: Element): seq<Element> {
    var kaspi := KaspiOffers(root);
    if kaspi != [] then kaspi
    else
      var generic := FirstHit(root, GenericPatterns);
      if generic != [] then generic else Descendants(root)
  }

  /** The strategy ladder as the source runs it: the Kaspi path, the generic sweep, then the fallback. */
  method DiscoverItems(root: Element) returns (items: seq<Element>)
    ensures items == Discover(root)
  {
    items := [];
    if KaspiMarked(root) {
      items := KaspiSearch(root);
    }
    if items == [] {
      items := GenericSweep(root);
      if items == [] {
        var all := Descendants(root);
        if |all| > 0 {
          items := all;
        }
      }
    }
  }

  /** The Kaspi path: `root.find` over the container paths, then `root.findall` over the `offer` steps. */
  method KaspiSearch(root: Element) returns (items: seq<Element>)
    requires KaspiMarked(root)
    ensures items == KaspiOffers(root)
  {
    items := [];
    var offersPath := FindOffersPath(root);
    if offersPath.Some? {
      items := FindOffers(Named(Descendants(root), offersPath.value));
    }
  }

  /** The container path loop: the first path that finds an element. */
  method FindOffersPath(root: Element) returns (offersPath: Option<NameTest>)
    ensures offersPath == OffersPath(root)
  {
    offersPath := None;
    for i := 0 to |OffersPaths|
      invariant offersPath == None
      invariant forall j :: 0 <= j < i ==> Named(Descendants(root), OffersPaths[j]) == []
    {
      if Named(Descendants(root), OffersPaths[i]) != [] {
        offersPath := Some(OffersPaths[i]);
        break;
      }
    }
  }

  /** The `offer` step loop: the first step that finds elements below the containers. */
  method FindOffers(containers: seq<Element>) returns (items: seq<Element>)
    ensures items == OfferItems(containers)
  {
    items := [];
    for i := 0 to |OfferSteps|
      invariant items == []
      invariant forall j :: 0 <= j < i ==> NamedChildren(containers, OfferSteps[j]) == []
    {
      var found := NamedChildren(containers, OfferSteps[i]);
      if found != [] {
        items := found;
        break;
      }
    }
  }

  /** The generic sweep: each pattern in turn until one finds something. */
  method GenericSweep(root: Element) returns (items: seq<Element>)
    ensures items == FirstHit(root, GenericPatterns)
  {
    items := [];
    for i := 0 to |GenericPatterns|
      invariant items == []
      invariant FirstHit(root, GenericPatterns) == FirstHit(root, GenericPatterns[i..])
    {
      assert GenericPatterns[i..][1..] == GenericPatterns[i + 1..];
      items := FindAll(root, GenericPatterns[i]);
      if items != [] {
        break;
      }
    }
  }

  /** FirstHit is empty exactly when every pattern finds nothing. */
  lemma {:induction false} FirstHitEmpty(root: Element, ps: seq<Pattern>)
    ensures FirstHit(root, ps) == [] <==> forall j :: 0 <= j < |ps| ==> FindAll(root, ps[j]) == []
  {
    if ps != [] {
      FirstHitEmpty(root, ps[1..]);
      assert forall j :: 1 <= j < |ps| ==> ps[j] == ps[1..][j - 1];
    }
  }

  /** FirstHit returns the result of the first pattern, by position, that finds something. */
  lemma {:induction false} FirstHitAt(root: Element, ps: seq<Pattern>, i: nat)
    requires i < |ps| && FindAll(root, ps[i]) != []
    requires forall j :: 0 <= j < i ==> FindAll(root, ps[j]) == []
    ensures FirstHit(root, ps) == FindAll(root, ps[i])
  {
    if i > 0 {
      assert forall j :: 0 <= j < i - 1 ==> ps[1..][j] == ps[j + 1];
      FirstHitAt(root, ps[1..], i - 1);
    }
  }

  /**
   * With no Kaspi hit, discovery returns the result of the first generic
   * pattern, in the fixed order, that finds something.
   */
  lemma FirstPatternWins(root: Element, i: nat)
    requires KaspiOffers(root) == []
    requires i < |GenericPatterns| && FindAll(root, GenericPatterns[i]) != []
    requires forall j :: 0 <= j < i ==> FindAll(root, GenericPatterns[j]) == []
    ensures Discover(root) == FindAll(root, GenericPatterns[i])
  {
    FirstHitAt(root, GenericPatterns, i);
  }

  /**
   * The all-elements fallback is never what discovery returns: the last
   * generic pattern (the direct children of the root) already finds every child of the root, and when
   * the root has no children there are no elements to fall back on.
   */
  lemma FallbackNeverUsed(root: Element)
    ensures Discover(root) == if KaspiOffers(root) != [] then KaspiOffers(root) else FirstHit(root, GenericPatterns)
  {
    FirstHitEmpty(root, GenericPatterns);
    assert GenericPatterns[9] == ChildrenOfRoot;
    if FirstHit(root, GenericPatterns) == [] {
      assert FindAll(root, GenericPatterns[9]) == [];
      DescendantsEmpty(root);
    }
  }

  /** Discovery finds nothing exactly when the root has no children; an item-less document gives no items. */
  lemma DiscoverEmptyIffChildless(root: Element)
    ensures Discover(root) == [] <==> root.children == []
  {
    FallbackNeverUsed(root);
    FirstHitEmpty(root, GenericPatterns);
    assert GenericPatterns[9] == ChildrenOfRoot;
    DescendantsEmpty(root);
    if root.children == [] {
      assert Descendants(root) == [];
      assert OffersPath(root) == None;
    }
  }

  /** What the Kaspi path returns are `offer` elements (in any namespace). */
  lemma KaspiOffersAreOffers(root: Element)
    ensures forall e :: e in KaspiOffers(root) ==> NameMatches(AnyNamespace("offer"), e.tag)
  {
  }
}
