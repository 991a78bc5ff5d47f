/**
  An abstract XML element tree, standing for the lxml elements the report is built
  from and read back from: a tag, attributes, an optional text and ordered children.
*/
module ElementTree {
  import opened Wrappers

  datatype Element = Element(tag: string, attrs: map<string, string>, text: Option<string>, children: seq<Element>)

  /** A childless element with text and no attributes. */
  function Leaf(tag: string, text: string): Element
  {
    Element(tag, map[], Some(text), [])
  }

  /** An element made by `SubElement` with attributes and children but no text. */
  function Node(tag: string, attrs: map<string, string>, children: seq<Element>): Element
  {
    Element(tag, attrs, None, children)
  }

  /** The first element of `es` with tag `tag`. */
  function FindIn(es: seq<Element>, tag: string): (r: Option<Element>)
    ensures r.Some? ==> r.value.tag == tag
  {
    if es == [] then None
    else if es[0].tag == tag then Some(es[0])
    else FindIn(es[1..], tag)
  }

  /** `FindIn` finds nothing exactly when no element has the tag. */
  lemma {:induction false} FindInNone(es: seq<Element>, tag: string)
    ensures FindIn(es, tag).None? <==> forall i :: 0 <= i < |es| ==> es[i].tag != tag
  {
    if es != [] && es[0].tag != tag {
      FindInNone(es[1..], tag);
      assert forall i :: 0 <= i < |es[1..]| ==> es[1..][i] == es[i + 1];
    }
  }

  /** What `FindIn` finds is the element at the first position holding the tag. */
  lemma {:induction false} FindInFirst(es: seq<Element>, tag: string) returns (i: nat)
    requires FindIn(es, tag).Some?
    ensures i < |es| && es[i] == FindIn(es, tag).value
    ensures forall j :: 0 <= j < i ==> es[j].tag != tag
  {
    if es[0].tag == tag {
      i := 0;
    } else {
      var i' := FindInFirst(es[1..], tag);
      i := i' + 1;
    }
  }

  /** ElementTree's `e.find(tag)`: the first child with that tag. */
  function Find(e: Element, tag: string): Option<Element>
  {
    FindIn(e.children, tag)
  }

  /** Searching a concatenation searches the front first. */
  lemma {:induction false} FindInAppend(a: seq<Element>, b: seq<Element>, tag: string)
    ensures FindIn(a + b, tag) == if FindIn(a, tag).Some? then FindIn(a, tag) else FindIn(b, tag)
  {
    if a != [] {
      assert (a + b)[1..] == a[1..] + b;
      FindInAppend(a[1..], b, tag);
    } else {
      assert a + b == b;
    }
  }

  /** The elements of `es` with tag `tag`, in order. */
  function FilterTag(es: seq<Element>, tag: string): (r: seq<Element>)
    ensures |r| <= |es| && forall i :: 0 <= i < |r| ==> r[i].tag == tag
  {
    if es == [] then []
    else
      var x := es[|es| - 1];
      FilterTag(es[..|es| - 1], tag) + (if x.tag == tag then [x] else [])
  }

  /** ElementTree's `e.findall(tag)`: every child with that tag, in document order. */
  function FindAll(e: Element, tag: string): seq<Element>
  {
    FilterTag(e.children, tag)
  }

  lemma {:induction false} FilterTagAppend(a: seq<Element>, b: seq<Element>, tag: string)
    ensures FilterTag(a + b, tag) == FilterTag(a, tag) + FilterTag(b, tag)
  {
    if b != [] {
      assert (a + b)[..|a + b| - 1] == a + b[..|b| - 1];
      FilterTagAppend(a, b[..|b| - 1], tag);
    } else {
      assert a + b == a;
    }
  }

  /** When every element has the tag, filtering keeps them all. */
  lemma {:induction false} FilterTagAll(es: seq<Element>, tag: string)
    requires forall i :: 0 <= i < |es| ==> es[i].tag == tag
    ensures FilterTag(es, tag) == es
  {
    if es != [] {
      FilterTagAll(es[..|es| - 1], tag);
    }
  }

  /** When no element has the tag, filtering keeps none. */
  lemma {:induction false} FilterTagNone(es: seq<Element>, tag: string)
    requires forall i :: 0 <= i < |es| ==> es[i].tag != tag
    ensures FilterTag(es, tag) == []
  {
    if es != [] {
      FilterTagNone(es[..|es| - 1], tag);
    }
  }

  /** When exactly one element has the tag, filtering keeps just that one. */
  lemma {:induction false} FilterTagUnique(es: seq<Element>, tag: string, i: nat)
    requires i < |es| && es[i].tag == tag
    requires forall j :: 0 <= j < |es| && j != i ==> es[j].tag != tag
    ensures FilterTag(es, tag) == [es[i]]
  {
    var front := es[..|es| - 1];
    if i == |es| - 1 {
      FilterTagNone(front, tag);
    } else {
      FilterTagUnique(front, tag, i);
    }
  }
}
