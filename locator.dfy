/**
 * The field locator `find_element_text` (parser.py:355-378): given an item
 * and a list of candidate names, the first value found as a child element's
 * text, then as an attribute of the item.
 */
module Locator {
  import opened Wrappers
  import opened Text
  import opened Tree

  /** The position of the first element tagged exactly `name`; `|cs|` when there is none. */
  function FirstTagged(cs: seq<Element>, name: string): (j: nat)
    ensures j <= |cs|
    ensures forall k :: 0 <= k < j ==> cs[k].tag != name
    ensures j < |cs| ==> cs[j].tag == name
  {
    if cs == [] || cs[0].tag == name then 0 else 1 + FirstTagged(cs[1..], name)
  }

  /** The position of the first element whose tag ends in `}name`; `|cs|` when there is none. */
  function FirstNamespacedAt(cs: seq<Element>, name: string): (j: nat)
    ensures j <= |cs|
    ensures forall k :: 0 <= k < j ==> !EndsWith(cs[k].tag, "}" + name)
    ensures j < |cs| ==> EndsWith(cs[j].tag, "}" + name)
  {
    if cs == [] || EndsWith(cs[0].tag, "}" + name) then 0 else 1 + FirstNamespacedAt(cs[1..], name)
  }

  /** `item.findtext(name)`: the text of the first child tagged exactly `name` ("" when it has none). */
  function FindText(item: Element, name: string): (r: Option<string>)
    ensures r.Some? <==> exists c :: c in item.children && c.tag == name
    ensures r.Some? ==> r.value == item.children[FirstTagged(item.children, name)].text.GetOr("")
  {
    FindTextIn(item.children, name)
  }

  function FindTextIn(cs: seq<Element>, name: string): (r: Option<string>)
    ensures r.Some? <==> exists c :: c in cs && c.tag == name
    ensures r.Some? && r.value != "" ==> exists c :: c in cs && c.tag == name && c.text == r
    ensures r.Some? <==> FirstTagged(cs, name) < |cs|
    ensures r.Some? ==> r.value == cs[FirstTagged(cs, name)].text.GetOr("")
  {
    if cs == [] then None
    else if cs[0].tag == name then Some(cs[0].text.GetOr(""))
    else FindTextIn(cs[1..], name)
  }

  /** The first child whose tag ends in `}name`: the same local name in some namespace. */
  function FirstNamespaced(cs: seq<Element>, name: string): (r: Option<Element>)
    ensures r.Some? ==> r.value in cs && EndsWith(r.value.tag, "}" + name)
    ensures r.None? ==> forall c :: c in cs ==> !EndsWith(c.tag, "}" + name)
    ensures r.Some? <==> FirstNamespacedAt(cs, name) < |cs|
    ensures r.Some? ==> r.value == cs[FirstNamespacedAt(cs, name)]
  {
    if cs == [] then None
    else if EndsWith(cs[0].tag, "}" + name) then Some(cs[0])
    else FirstNamespaced(cs[1..], name)
  }

  /**
   * The element lookups for one candidate name. `Some(v)` means the search
   * ends here with `v`: a non-empty `findtext`, or else the text of the first
   * namespaced child, even when that text is missing or empty.
   * `None` means the search goes on with the next name.
   */
  function ElementLookup(item: Element, name: string): Option<Option<string>> {
    var t := FindText(item, name);
    if t.Some? && t.value != "" then Some(t)
    else match FirstNamespaced(item.children, name)
      case Some(c) => Some(c.text)
      case None => None
  }

  /** The element lookups for every candidate, name by name. */
  function ElementSearch(item: Element, names: seq<string>): Option<Option<string>> {
    if names == [] then None
    else match ElementLookup(item, names[0])
      case Some(v) => Some(v)
      case None => ElementSearch(item, names[1..])
  }

  /** The attribute lookups: the first candidate naming a non-empty attribute of the item. */
  function AttributeSearch(item: Element, names: seq<string>): Option<string> {
    if names == [] then None
    else if names[0] in item.attrib && item.attrib[names[0]] != "" then Some(item.attrib[names[0]])
    else AttributeSearch(item, names[1..])
  }

  /** What `find_element_text(item, names)` returns. */
  function Locate(item: Element, names: seq<string>): Option<string> {
    match ElementSearch(item, names)
    case Some(v) => v
    case None => AttributeSearch(item, names)
  }

  /** `find_element_text` with its nested loops and early returns. */
  method FindElementText(item: Element, names: seq<string>) returns (r: Option<string>)
    ensures r == Locate(item, names)
  {
    for i := 0 to |names|
      invariant ElementSearch(item, names) == ElementSearch(item, names[i..])
    {
      assert names[i..][1..] == names[i + 1..];
      var value := FindText(item, names[i]);
      if value.Some? && value.value != "" {
        return value;
      }
      var c := ScanNamespaced(item.children, names[i]);
      if c.Some? {
        return c.value.text;
      }
    }
    for i := 0 to |names|
      invariant AttributeSearch(item, names) == AttributeSearch(item, names[i..])
    {
      assert names[i..][1..] == names[i + 1..];
      if names[i] in item.attrib && item.attrib[names[i]] != "" {
        return Some(item.attrib[names[i]]);
      }
    }
    return None;
  }

  /** The loop over the children for the first one whose tag ends in `}name`. */
  method ScanNamespaced(cs: seq<Element>, name: string) returns (r: Option<Element>)
    ensures r == FirstNamespaced(cs, name)
  {
    for j := 0 to |cs|
      invariant forall k :: 0 <= k < j ==> !EndsWith(cs[k].tag, "}" + name)
    {
      if EndsWith(cs[j].tag, "}" + name) {
        FirstNamespacedSkip(cs, j, name);
        assert FirstNamespaced(cs[j..], name) == Some(cs[j]);
        return Some(cs[j]);
      }
    }
    FirstNamespacedSkip(cs, |cs|, name);
    return None;
  }

  /** Children before index `j` without the namespaced name do not change FirstNamespaced. */
  lemma {:induction false} FirstNamespacedSkip(cs: seq<Element>, j: nat, name: string)
    requires j <= |cs|
    requires forall k :: 0 <= k < j ==> !EndsWith(cs[k].tag, "}" + name)
    ensures FirstNamespaced(cs, name) == FirstNamespaced(cs[j..], name)
  {
    if j > 0 {
      assert cs[1..][j - 1..] == cs[j..];
      FirstNamespacedSkip(cs[1..], j - 1, name);
    }
  }

  /**
   * Whether one candidate name hits as an element: `findtext` gives a
   * non-empty text (it reports the FIRST exact child only), or some child
   * carries the name in a namespace.
   */
  predicate ElementHit(item: Element, name: string) {
    var t := FindText(item, name);
    (t.Some? && t.value != "") || (exists c :: c in item.children && EndsWith(c.tag, "}" + name))
  }

  lemma ElementLookupHit(item: Element, name: string)
    ensures ElementLookup(item, name).Some? <==> ElementHit(item, name)
  {
  }

  /**
   * Name-major order: when the candidates before position `i` do not hit as
   * elements and candidate `i` does, the result is that lookup's value,
   * whatever later candidates and the attributes hold.
   */
  lemma {:induction false} FirstElementHitWins(item: Element, names: seq<string>, i: nat)
    requires i < |names| && ElementHit(item, names[i])
    requires forall j :: 0 <= j < i ==> !ElementHit(item, names[j])
    ensures ElementLookup(item, names[i]).Some?
    ensures ElementSearch(item, names) == ElementLookup(item, names[i])
    ensures Locate(item, names) == ElementLookup(item, names[i]).value
  {
    ElementLookupHit(item, names[0]);
    if i > 0 {
      assert forall j :: 0 <= j < i - 1 ==> names[1..][j] == names[j + 1];
      FirstElementHitWins(item, names[1..], i - 1);
    } else {
      ElementLookupHit(item, names[i]);
    }
  }

  /** When no candidate hits as an element, the element lookups report nothing. */
  lemma {:induction false} NoElementHit(item: Element, names: seq<string>)
    requires forall j :: 0 <= j < |names| ==> !ElementHit(item, names[j])
    ensures ElementSearch(item, names) == None
  {
    if names != [] {
      ElementLookupHit(item, names[0]);
      assert forall j :: 0 <= j < |names| - 1 ==> names[1..][j] == names[j + 1];
      NoElementHit(item, names[1..]);
    }
  }

  /**
   * Attributes are consulted only after every candidate has failed as an
   * element: if any candidate hits as an element, replacing the item's
   * attributes changes nothing.
   */
  lemma {:induction false} AttributesIgnoredAfterElementHit(item: Element, names: seq<string>, attrs: map<string, string>)
    requires exists j :: 0 <= j < |names| && ElementHit(item, names[j])
    ensures Locate(item.(attrib := attrs), names) == Locate(item, names)
  {
    var j :| 0 <= j < |names| && ElementHit(item, names[j]);
    var i := FirstHitIndex(item, names, j);
    var item' := item.(attrib := attrs);
    forall k | 0 <= k < |names|
      ensures ElementHit(item', names[k]) == ElementHit(item, names[k])
      ensures ElementLookup(item', names[k]) == ElementLookup(item, names[k])
    {
      LookupIgnoresAttributes(item, attrs, names[k]);
    }
    FirstElementHitWins(item, names, i);
    FirstElementHitWins(item', names, i);
  }

  /** The element lookups read only the children, never the attributes. */
  lemma LookupIgnoresAttributes(item: Element, attrs: map<string, string>, n: string)
    ensures ElementHit(item.(attrib := attrs), n) == ElementHit(item, n)
    ensures ElementLookup(item.(attrib := attrs), n) == ElementLookup(item, n)
  {
    assert item.(attrib := attrs).children == item.children;
  }

  /** The smallest index at or below `j` whose candidate hits as an element. */
  function FirstHitIndex(item: Element, names: seq<string>, j: nat): (i: nat)
    requires j < |names| && ElementHit(item, names[j])
    ensures i <= j && ElementHit(item, names[i])
    ensures forall k :: 0 <= k < i ==> !ElementHit(item, names[k])
  {
    if exists k :: 0 <= k < j && ElementHit(item, names[k]) then
      var k :| 0 <= k < j && ElementHit(item, names[k]);
      FirstHitIndex(item, names, k)
    else j
  }

  /** When no child and no attribute of the item matches any candidate, the locator returns None. */
  lemma {:induction false} LocateNothing(item: Element, names: seq<string>)
    requires forall n, c :: n in names && c in item.children ==> !NameMatches(AnyNamespace(n), c.tag)
    requires forall n :: n in names ==> n !in item.attrib
    ensures Locate(item, names) == None
  {
    forall j | 0 <= j < |names| ensures !ElementHit(item, names[j]) {
      assert names[j] in names;
    }
    NoElementHit(item, names);
    NoAttribute(item, names);
  }

  lemma {:induction false} NoAttribute(item: Element, names: seq<string>)
    requires forall n :: n in names ==> n !in item.attrib
    ensures AttributeSearch(item, names) == None
  {
    if names != [] {
      assert forall n :: n in names[1..] ==> n in names;
      NoAttribute(item, names[1..]);
    }
  }

  /**
   * Soundness: a value the locator returns is the text of a child whose tag
   * matches a candidate (in any namespace), or a non-empty attribute of the
   * item named by a candidate.
   */
  lemma {:induction false} LocateSound(item: Element, names: seq<string>)
    requires Locate(item, names).Some?
    ensures var v := Locate(item, names).value;
      (exists n, c :: n in names && c in item.children && NameMatches(AnyNamespace(n), c.tag) && c.text == Some(v))
      || (exists n :: n in names && n in item.attrib && item.attrib[n] == v && v != "")
  {
    if names != [] {
      var n := names[0];
      var t := FindText(item, n);
      match ElementLookup(item, n)
      case Some(v) =>
        if t.Some? && t.value != "" {
          var c :| c in item.children && c.tag == n && c.text == t;
          assert NameMatches(AnyNamespace(n), c.tag);
        } else {
          var c := FirstNamespaced(item.children, n).value;
          assert NameMatches(AnyNamespace(n), c.tag);
        }
      case None =>
        if ElementSearch(item, names[1..]).Some? || AttributeSearch(item, names[1..]).Some? {
          LocateSound(item, names[1..]);
          assert forall m :: m in names[1..] ==> m in names;
        } else {
          assert n in item.attrib;
        }
    }
  }

  /**
   * A namespaced child without text ends the search with None, even when the
   * item carries the same name as a non-empty attribute.
   */
  lemma NamespacedWithoutTextMasksAttribute(item: Element, n: string)
    requires forall c :: c in item.children ==> c.tag != n
    requires FirstNamespaced(item.children, n).Some? && FirstNamespaced(item.children, n).value.text.None?
    ensures Locate(item, [n]) == None
  {
  }
}
