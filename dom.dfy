/** The XML element the cache parser reads, and the two child lookups of Spring's `DomUtils`. */
module Dom {
  import opened Results

  /** An element: its tag, the attributes that are set on it, and its child elements in
      document order. */
  datatype Element = Element(tag: string, attributes: map<string, string>, children: seq<Element>)

  /** The elements of `cs` with the given tag, in the order they appear. */
  function WithTag(cs: seq<Element>, tag: string): (r: seq<Element>)
    ensures |r| <= |cs|
    ensures forall c :: c in r <==> c in cs && c.tag == tag
    ensures forall c :: multiset(r)[c] == if c.tag == tag then multiset(cs)[c] else 0
  {
    if cs == [] then []
    else
      assert cs == [cs[0]] + cs[1..];
      if cs[0].tag == tag then [cs[0]] + WithTag(cs[1..], tag)
      else WithTag(cs[1..], tag)
  }

  /** A single element is kept exactly when it has the tag. */
  lemma WithTagSingle(c: Element, tag: string)
    ensures WithTag([c], tag) == if c.tag == tag then [c] else []
  {
    assert [c][1..] == [];
  }

  /** Filtering distributes over concatenation: with `WithTagSingle`, the filter keeps the
      matching elements in the order they appear, each once per occurrence. */
  lemma {:induction false} WithTagConcat(a: seq<Element>, b: seq<Element>, tag: string)
    ensures WithTag(a + b, tag) == WithTag(a, tag) + WithTag(b, tag)
    decreases |a|
  {
    if a == [] {
      assert a + b == b;
    } else {
      assert (a + b)[1..] == a[1..] + b;
      WithTagConcat(a[1..], b, tag);
    }
  }

  /** The first element of `cs` with the given tag, or None when no element has it. */
  function FirstWithTag(cs: seq<Element>, tag: string): (r: Option<Element>)
    ensures r.None? <==> forall i :: 0 <= i < |cs| ==> cs[i].tag != tag
    ensures forall i :: (0 <= i < |cs| && cs[i].tag == tag && forall k :: 0 <= k < i ==> cs[k].tag != tag)
                        ==> r == Some(cs[i])
  {
    if cs == [] then None
    else if cs[0].tag == tag then Some(cs[0])
    else FirstWithTag(cs[1..], tag)
  }

  /** `DomUtils.getChildElementsByTagName`: the direct children with that tag, in document order,
      each as often as it occurs among the children. */
  function ChildElementsByTagName(e: Element, tag: string): (r: seq<Element>)
    ensures forall c :: c in r <==> c in e.children && c.tag == tag
    ensures forall c :: multiset(r)[c] == if c.tag == tag then multiset(e.children)[c] else 0
  {
    WithTag(e.children, tag)
  }

  /** `DomUtils.getChildElementByTagName`: the first direct child with that tag, or null when no
      child has it. */
  function ChildElementByTagName(e: Element, tag: string): (r: Option<Element>)
    ensures r.None? <==> forall i :: 0 <= i < |e.children| ==> e.children[i].tag != tag
    ensures forall i ::
              (0 <= i < |e.children| && e.children[i].tag == tag && forall k :: 0 <= k < i ==> e.children[k].tag != tag)
              ==> r == Some(e.children[i])
  {
    FirstWithTag(e.children, tag)
  }
}
