/**
 * The parsed document as the extractor sees it: ElementTree elements, and the
 * few ElementPath selections item discovery uses (descendants by tag, by
 * local name in any namespace, by attribute, and children by name).
 */
module Tree {
  import opened Wrappers
  import opened Text

  /**
   * One element: its tag (a namespaced tag is written `{uri}local`), its text
   * (None when the element has no text), its attributes and its children.
   */
  datatype Element = Element(tag: string, text: Option<string>, attrib: map<string, string>, children: seq<Element>)

  /** Every element strictly below `e`, in document order (`e.iter()` without `e`). */
  function Descendants(e: Element): seq<Element>
    decreases e
  {
    DescendantsOf(e.children)
  }

  /** The given elements, each followed by its own descendants. */
  function DescendantsOf(cs: seq<Element>): seq<Element>
    decreases cs
  {
    if cs == [] then [] else [cs[0]] + Descendants(cs[0]) + DescendantsOf(cs[1..])
  }

  /** An element has descendants exactly when it has children. */
  lemma DescendantsEmpty(e: Element)
    ensures Descendants(e) == [] <==> e.children == []
  {
  }

  /** An ElementPath name test: `name` (exact tag) or `{*}name` (the local name in any or no namespace). */
  datatype NameTest = Tag(name: string) | AnyNamespace(local: string)

  predicate NameMatches(t: NameTest, tag: string) {
    match t
    case Tag(n) => tag == n
    case AnyNamespace(n) => tag == n || EndsWith(tag, "}" + n)
  }

  /** The elements of `es` that pass the name test, in order. */
  function Named(es: seq<Element>, t: NameTest): (r: seq<Element>)
    ensures |r| <= |es|
    ensures forall e :: e in r <==> e in es && NameMatches(t, e.tag)
  {
    if es == [] then []
    else (if NameMatches(t, es[0].tag) then [es[0]] else []) + Named(es[1..], t)
  }

  /** The elements of `es` that carry the attribute `a`, in order. */
  function WithAttribute(es: seq<Element>, a: string): (r: seq<Element>)
    ensures |r| <= |es|
    ensures forall e :: e in r <==> e in es && a in e.attrib
  {
    if es == [] then []
    else (if a in es[0].attrib then [es[0]] else []) + WithAttribute(es[1..], a)
  }

  /** The attribute test keeps document order: selecting from two runs selects from each in turn. */
  lemma {:induction false} WithAttributeAppend(es: seq<Element>, fs: seq<Element>, a: string)
    ensures WithAttribute(es + fs, a) == WithAttribute(es, a) + WithAttribute(fs, a)
  {
    if es == [] {
      assert es + fs == fs;
    } else {
      assert (es + fs)[1..] == es[1..] + fs;
      WithAttributeAppend(es[1..], fs, a);
    }
  }

  /** On one element the attribute test keeps it exactly when it carries the attribute. */
  lemma WithAttributeSingle(e: Element, a: string)
    ensures WithAttribute([e], a) == if a in e.attrib then [e] else []
  {
    assert [e][1..] == [];
  }

  /** `container/name`: for each container in turn, its children that pass the name test. */
  function NamedChildren(containers: seq<Element>, t: NameTest): (r: seq<Element>)
    ensures forall e :: e in r ==> NameMatches(t, e.tag)
    ensures forall c, e :: c in containers && e in c.children && NameMatches(t, e.tag) ==> e in r
    ensures containers == [] ==> r == []
  {
    if containers == [] then [] else Named(containers[0].children, t) + NamedChildren(containers[1..], t)
  }

  /** The name test keeps document order: selecting from two runs selects from each in turn. */
  lemma {:induction false} NamedAppend(es: seq<Element>, fs: seq<Element>, t: NameTest)
    ensures Named(es + fs, t) == Named(es, t) + Named(fs, t)
  {
    if es == [] {
      assert es + fs == fs;
    } else {
      assert (es + fs)[1..] == es[1..] + fs;
      NamedAppend(es[1..], fs, t);
    }
  }

  /** On one element the name test keeps it exactly when it passes. */
  lemma NamedSingle(e: Element, t: NameTest)
    ensures Named([e], t) == if NameMatches(t, e.tag) then [e] else []
  {
    assert [e][1..] == [];
  }

  /** Everything `container/name` yields is a child of one of the containers. */
  lemma {:induction false} NamedChildrenAreChildren(containers: seq<Element>, t: NameTest)
    ensures forall e :: e in NamedChildren(containers, t) ==> exists c :: c in containers && e in c.children
  {
    if containers != [] {
      NamedChildrenAreChildren(containers[1..], t);
      forall e | e in NamedChildren(containers, t)
        ensures exists c :: c in containers && e in c.children
      {
        if e in Named(containers[0].children, t) {
          assert containers[0] in containers;
        } else {
          assert e in NamedChildren(containers[1..], t);
          var c :| c in containers[1..] && e in c.children;
          assert c in containers;
        }
      }
    }
  }

  /** For one container, `container/name` is the name test on its children. */
  lemma NamedChildrenSingle(c: Element, t: NameTest)
    ensures NamedChildren([c], t) == Named(c.children, t)
  {
    assert [c][1..] == [];
  }

  /** `container/name` keeps container order: the children of earlier containers come first. */
  lemma {:induction false} NamedChildrenAppend(a: seq<Element>, b: seq<Element>, t: NameTest)
    ensures NamedChildren(a + b, t) == NamedChildren(a, t) + NamedChildren(b, t)
  {
    if a == [] {
      assert a + b == b;
    } else {
      var ab := a + b;
      var x := Named(a[0].children, t);
      assert ab[0] == a[0] && ab[1..] == a[1..] + b;
      assert NamedChildren(ab, t) == x + NamedChildren(a[1..] + b, t);
      assert NamedChildren(a, t) == x + NamedChildren(a[1..], t);
      NamedChildrenAppend(a[1..], b, t);
      ConcatAssoc(x, NamedChildren(a[1..], t), NamedChildren(b, t));
    }
  }
}
