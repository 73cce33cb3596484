/** The part of `xml.etree.ElementTree` the dump tools use: an element with
    its tag, attributes, text and children, `find` and `findall` by a plain
    tag name, `get` of an attribute and the truth value of an element.
    Parsing text into elements (`fromstring`) is not modelled: callers take it
    as a parameter of type `string -> Option<Element>`. */
module ElementTree {
  import opened Common

  datatype Element = Element(
    tag: string,
    attrib: map<string, string>,
    text: Option<string>,
    children: seq<Element>)

  /** `e.find(tag)`: the first direct child with that tag, if any. */
  function Find(e: Element, tag: string): (r: Option<Element>)
    ensures r.Some? ==> exists i :: 0 <= i < |e.children| && e.children[i] == r.value && r.value.tag == tag
                                  && NoneBefore(e.children, tag, i)
    ensures r.None? <==> forall i :: 0 <= i < |e.children| ==> e.children[i].tag != tag
  {
    FindFrom(e.children, tag)
  }

  function FindFrom(children: seq<Element>, tag: string): (r: Option<Element>)
    ensures r.Some? ==> r.value in children && r.value.tag == tag
    ensures r.Some? ==> exists i :: 0 <= i < |children| && children[i] == r.value && NoneBefore(children, tag, i)
    ensures r.None? <==> forall i :: 0 <= i < |children| ==> children[i].tag != tag
  {
    if |children| == 0 then None
    else if children[0].tag == tag then Some(children[0])
    else
      var r := FindFrom(children[1..], tag);
      if r.Some? then
        ghost var i :| 0 <= i < |children[1..]| && children[1..][i] == r.value && NoneBefore(children[1..], tag, i);
        assert children[i + 1] == r.value && NoneBefore(children, tag, i + 1);
        r
      else r
  }

  /** No child before index `i` has the tag. */
  predicate NoneBefore(children: seq<Element>, tag: string, i: nat)
  {
    forall j :: 0 <= j < i && j < |children| ==> children[j].tag != tag
  }

  /** `e.findall(tag)`: the direct children with that tag, in document order. */
  function FindAll(e: Element, tag: string): (r: seq<Element>)
    ensures forall x :: x in r ==> x in e.children && x.tag == tag
    ensures forall i :: 0 <= i < |e.children| && e.children[i].tag == tag ==> e.children[i] in r
  {
    Filter(e.children, tag)
  }

  function Filter(children: seq<Element>, tag: string): (r: seq<Element>)
    ensures |r| <= |children|
    ensures forall x :: x in r ==> x in children && x.tag == tag
    ensures forall i :: 0 <= i < |children| && children[i].tag == tag ==> children[i] in r
  {
    if |children| == 0 then []
    else
      var rest := Filter(children[1..], tag);
      assert forall i :: 1 <= i < |children| ==> children[i] == children[1..][i - 1];
      if children[0].tag == tag then [children[0]] + rest else rest
  }

  /** Filtering a concatenation filters each part and keeps them in order. */
  lemma {:induction false} FilterAppend(a: seq<Element>, b: seq<Element>, tag: string)
    ensures Filter(a + b, tag) == Filter(a, tag) + Filter(b, tag)
  {
    if |a| > 0 {
      var head := if a[0].tag == tag then [a[0]] else [];
      assert (a + b)[0] == a[0] && (a + b)[1..] == a[1..] + b;
      assert Filter(a + b, tag) == head + Filter(a[1..] + b, tag);
      assert Filter(a, tag) == head + Filter(a[1..], tag);
      FilterAppend(a[1..], b, tag);
    } else {
      assert a + b == b;
    }
  }

  /** One child is kept, once, exactly when it has the tag. */
  lemma FilterSingle(x: Element, tag: string)
    ensures Filter([x], tag) == if x.tag == tag then [x] else []
  {
    assert [x][1..] == [];
  }

  /** `e.get(key)`: the attribute value, or `None`. */
  function Get(e: Element, key: string): Option<string>
  {
    if key in e.attrib then Some(e.attrib[key]) else None
  }

  /** The truth value of an element (`if not e:` tests it): true exactly when
      it has at least one child. */
  predicate Truthy(e: Element)
  {
    |e.children| > 0
  }
}
