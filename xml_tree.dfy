/**
 * The parsed slide document: an ordered tree of elements whose attributes
 * are updated in place, and the descendant queries over it
 * (`root.findall('.//tag')` and `elem.find('.//tag')`).
 *
 * Tags are already-qualified strings such as "am3d:ptLight"; the tag and the
 * children of an element are `const`, because no operation of the updater
 * changes the shape of the tree. Only `attrs` is ever written.
 */
module XmlTree {

  datatype Option<T> = None | Some(value: T)

  /** An attribute value: one parsed from the document, or one the updater wrote. */
  datatype AttrValue = Num(n: int) | Text(s: string)

  type Attributes = map<string, AttrValue>

  class Element {
    const tag: string
    var attrs: Attributes
    const children: seq<Element>
    /** The number of elements in the subtree rooted here: the measure for recursion. */
    const size: nat

    constructor (tag: string, attrs: Attributes, children: seq<Element>)
      requires ValidForest(children)
      ensures Valid()
      ensures this.tag == tag && this.attrs == attrs && this.children == children
    {
      this.tag := tag;
      this.attrs := attrs;
      this.children := children;
      this.size := 1 + SumSize(children);
    }

    /** The subtree rooted here is finite and well founded: every size is exact. */
    predicate Valid() {
      size == 1 + SumSize(children) && ValidForest(children)
    }
  }

  function SumSize(cs: seq<Element>): nat {
    if cs == [] then 0 else cs[0].size + SumSize(cs[1..])
  }

  /** Every element of the forest `cs`, and every element below them, is Valid. */
  predicate ValidForest(cs: seq<Element>)
    decreases SumSize(cs)
  {
    cs == [] ||
    (cs[0].size == 1 + SumSize(cs[0].children) &&
     ValidForest(cs[0].children) &&
     ValidForest(cs[1..]))
  }

  /** All elements of the forest `cs` and below it, in document (pre-)order. */
  function Preorder(cs: seq<Element>): (r: seq<Element>)
    requires ValidForest(cs)
    ensures forall x <- r :: x.Valid() && x.size <= SumSize(cs)
    decreases SumSize(cs)
  {
    if cs == [] then []
    else [cs[0]] + Preorder(cs[0].children) + Preorder(cs[1..])
  }

  /** The proper descendants of `e` in document order. */
  function Descendants(e: Element): (r: seq<Element>)
    requires e.Valid()
    ensures forall x <- r :: x.Valid()
  {
    Preorder(e.children)
  }

  /** `e` is not its own descendant: every descendant is strictly smaller. */
  lemma DescendantsAreSmaller(e: Element)
    requires e.Valid()
    ensures forall x <- Descendants(e) :: x.size < e.size
    ensures e !in Descendants(e)
  {
  }

  /** The elements of `s` whose tag is `tag`, in the order of `s`. */
  function WithTag(s: seq<Element>, tag: string): (r: seq<Element>)
    ensures forall x <- r :: x in s && x.tag == tag
    ensures forall x <- s :: x.tag == tag ==> x in r
    ensures |r| <= |s|
  {
    if s == [] then []
    else (if s[0].tag == tag then [s[0]] else []) + WithTag(s[1..], tag)
  }

  lemma {:induction false} WithTagAppend(a: seq<Element>, b: seq<Element>, tag: string)
    ensures WithTag(a + b, tag) == WithTag(a, tag) + WithTag(b, tag)
  {
    if a == [] {
      assert a + b == b;
    } else {
      assert (a + b)[0] == a[0] && (a + b)[1..] == a[1..] + b;
      WithTagAppend(a[1..], b, tag);
    }
  }

  /** The first match of `WithTag` is the first element of `s` with that tag. */
  lemma {:induction false} WithTagHead(s: seq<Element>, tag: string)
    requires WithTag(s, tag) != []
    ensures exists k :: 0 <= k < |s| && s[k] == WithTag(s, tag)[0] &&
                        forall j :: 0 <= j < k ==> s[j].tag != tag
  {
    if s[0].tag == tag {
      assert s[0] == WithTag(s, tag)[0];
    } else {
      WithTagHead(s[1..], tag);
      var k :| 0 <= k < |s[1..]| && s[1..][k] == WithTag(s[1..], tag)[0] &&
               forall j :: 0 <= j < k ==> s[1..][j].tag != tag;
      assert s[k + 1] == WithTag(s, tag)[0];
      assert forall j :: 0 <= j < k + 1 ==> s[j].tag != tag by {
        forall j | 0 <= j < k + 1 ensures s[j].tag != tag {
          if j > 0 { assert s[j] == s[1..][j - 1]; }
        }
      }
    }
  }

  /** `findall('.//tag')` over the forest `cs`, searched element by element. */
  function ListIn(cs: seq<Element>, tag: string): (r: seq<Element>)
    requires ValidForest(cs)
    ensures forall x <- r :: x.tag == tag
    decreases SumSize(cs)
  {
    if cs == [] then []
    else (if cs[0].tag == tag then [cs[0]] else []) + ListIn(cs[0].children, tag) + ListIn(cs[1..], tag)
  }

  /** The element-by-element search selects from the document order exactly the matches. */
  lemma {:induction false} ListInIsWithTag(cs: seq<Element>, tag: string)
    requires ValidForest(cs)
    ensures ListIn(cs, tag) == WithTag(Preorder(cs), tag)
    decreases SumSize(cs)
  {
    if cs != [] {
      ListInIsWithTag(cs[0].children, tag);
      ListInIsWithTag(cs[1..], tag);
      WithTagAppend([cs[0]], Preorder(cs[0].children), tag);
      WithTagAppend([cs[0]] + Preorder(cs[0].children), Preorder(cs[1..]), tag);
    }
  }

  /**
   * `list_elements(root, tag)`: the tree is only read; the result is
   * characterised by `ListElementsSpec`.
   */
  function ListElements(root: Element, tag: string): (r: seq<Element>)
    requires root.Valid()
    ensures forall x <- r :: x.Valid()
  {
    ListInIsWithTag(root.children, tag);
    ListIn(root.children, tag)
  }

  /**
   * `list_elements` returns exactly the proper descendants of `root` whose tag
   * is `tag`, in document order; `root` itself is never among them.
   */
  lemma ListElementsSpec(root: Element, tag: string)
    requires root.Valid()
    ensures ListElements(root, tag) == WithTag(Descendants(root), tag)
    ensures forall x <- ListElements(root, tag) :: x in Descendants(root) && x.tag == tag
    ensures forall x <- Descendants(root) :: x.tag == tag ==> x in ListElements(root, tag)
    ensures root !in ListElements(root, tag)
  {
    ListInIsWithTag(root.children, tag);
    DescendantsAreSmaller(root);
  }

  /** `find('.//tag')` over the forest `cs`: the first match in document order. */
  function FindIn(cs: seq<Element>, tag: string): (r: Option<Element>)
    requires ValidForest(cs)
    ensures r.Some? ==> r.value.tag == tag
    decreases SumSize(cs)
  {
    if cs == [] then None
    else if cs[0].tag == tag then Some(cs[0])
    else match FindIn(cs[0].children, tag)
      case Some(x) => Some(x)
      case None => FindIn(cs[1..], tag)
  }

  /** The early-exit search finds the head of the full search, when there is one. */
  lemma {:induction false} FindInIsFirst(cs: seq<Element>, tag: string)
    requires ValidForest(cs)
    ensures FindIn(cs, tag).None? <==> ListIn(cs, tag) == []
    ensures FindIn(cs, tag).Some? ==> FindIn(cs, tag).value == ListIn(cs, tag)[0]
    decreases SumSize(cs)
  {
    if cs != [] && cs[0].tag != tag {
      FindInIsFirst(cs[0].children, tag);
      FindInIsFirst(cs[1..], tag);
    }
  }

  /** `elem.find('.//tag')`; characterised by `FindSpec`. */
  function Find(e: Element, tag: string): (r: Option<Element>)
    requires e.Valid()
    ensures r.Some? ==> r.value.Valid() && r.value.tag == tag
  {
    FindInIsFirst(e.children, tag);
    ListInIsWithTag(e.children, tag);
    FindIn(e.children, tag)
  }

  /**
   * `find` yields nothing exactly when no proper descendant has the tag, and
   * otherwise the first match of `findall`, a descendant with that tag.
   */
  lemma FindSpec(e: Element, tag: string)
    requires e.Valid()
    ensures Find(e, tag).None? <==> forall x <- Descendants(e) :: x.tag != tag
    ensures Find(e, tag).Some? ==>
      ListElements(e, tag) != [] && Find(e, tag).value == ListElements(e, tag)[0] &&
      Find(e, tag).value.tag == tag && Find(e, tag).value in Descendants(e)
  {
    FindInIsFirst(e.children, tag);
    ListElementsSpec(e, tag);
    if Find(e, tag).Some? {
      assert Find(e, tag).value in ListElements(e, tag);
    }
  }

  /** A descendant of a descendant is a descendant: the forest version. */
  lemma {:induction false} PreorderClosed(cs: seq<Element>, x: Element)
    requires ValidForest(cs) && x in Preorder(cs)
    ensures x.Valid() && forall y <- Preorder(x.children) :: y in Preorder(cs)
    decreases SumSize(cs)
  {
    var c := cs[0];
    if x != c {
      if x in Preorder(c.children) {
        PreorderClosed(c.children, x);
      } else {
        PreorderClosed(cs[1..], x);
      }
    }
  }

  lemma DescendantsTransitive(e: Element, x: Element, y: Element)
    requires e.Valid() && x in Descendants(e)
    requires y in Descendants(x)
    ensures y in Descendants(e)
  {
    PreorderClosed(e.children, x);
  }

  /** `find` returns the first element in document order carrying the tag. */
  lemma FindIsFirstInDocumentOrder(e: Element, tag: string)
    requires e.Valid() && Find(e, tag).Some?
    ensures exists k :: 0 <= k < |Descendants(e)| && Descendants(e)[k] == Find(e, tag).value &&
                        forall j :: 0 <= j < k ==> Descendants(e)[j].tag != tag
  {
    FindSpec(e, tag);
    ListElementsSpec(e, tag);
    WithTagHead(Descendants(e), tag);
  }
}
