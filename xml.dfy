/**
 * The ElementTree side of the extractor: looking a field up on an element by
 * child element or attribute without regard to case, and collecting the
 * elements named after setup phases anywhere in a parsed tree.
 */
module Xml {
  import opened Options
  import opened Text
  import opened Dicts
  import opened Seqs

  /** A parsed XML element: tag (possibly `{namespace}local`), attributes in document order, text, children. */
  datatype Element = Element(tag: string, attrs: seq<(string, string)>, text: Option<string>, children: seq<Element>)

  /** A tag names `name` when its local part equals `name` once both are lower-cased. */
  predicate TagIs(tag: string, name: string)
  {
    SameIgnoringCase(LocalName(tag), name)
  }

  /** The test `get_child_case_insensitive` applies to each child. */
  function Named(name: string): Element -> bool
  {
    (c: Element) => TagIs(c.tag, name)
  }

  /** Position of the first child whose tag names `name`. */
  function ChildIndex(children: seq<Element>, name: string): Option<nat>
  {
    FirstIndexFrom(children, Named(name), 0)
  }

  /** `get_child_case_insensitive`: scan the children in order and return the first whose tag names `name`. */
  method GetChildCaseInsensitive(elem: Element, name: string) returns (child: Option<Element>)
    ensures child.None? <==> forall j :: 0 <= j < |elem.children| ==> !Named(name)(elem.children[j])
    ensures child.Some? ==> ChildIndex(elem.children, name).Some?
                            && child.value == elem.children[ChildIndex(elem.children, name).value]
  {
    var i := 0;
    while i < |elem.children|
      invariant 0 <= i <= |elem.children|
      invariant forall j :: 0 <= j < i ==> !Named(name)(elem.children[j])
    {
      if TagIs(elem.children[i].tag, name) {
        FirstIndexFromFinds(elem.children, Named(name), 0, i);
        return Some(elem.children[i]);
      }
      i := i + 1;
    }
    return None;
  }

  /** Text that is present and not only whitespace (Python's `t and t.strip()`). */
  predicate NonBlank(t: Option<string>)
  {
    t.Some? && Strip(t.value) != []
  }

  /** The text of the first child whose tag names `key`, if there is such a child. */
  function FirstChildText(elem: Element, key: string): Option<string>
  {
    match ChildIndex(elem.children, key)
    case None => None
    case Some(i) => elem.children[i].text
  }

  /** An attribute whose name equals `key` ignoring case and whose value is not blank. */
  predicate AttrHit(attr: (string, string), key: string)
  {
    SameIgnoringCase(attr.0, key) && Strip(attr.1) != []
  }

  function AttrNamed(key: string): ((string, string)) -> bool
  {
    (a: (string, string)) => AttrHit(a, key)
  }

  /**
   * `get_text_or_attr`: the stripped text of the first matching child when it
   * is not blank; otherwise the stripped value of the first matching attribute
   * that is not blank; otherwise nothing. Child text wins over attributes.
   */
  function GetTextOrAttr(elem: Element, key: string): (r: Option<string>)
    ensures r.Some? ==> r.value != [] && Strip(r.value) == r.value
    ensures NonBlank(FirstChildText(elem, key)) ==> r == Some(Strip(FirstChildText(elem, key).value))
    ensures !NonBlank(FirstChildText(elem, key)) ==>
              (r.None? <==> forall j :: 0 <= j < |elem.attrs| ==> !AttrNamed(key)(elem.attrs[j]))
    ensures !NonBlank(FirstChildText(elem, key)) && r.Some? ==>
              exists j :: 0 <= j < |elem.attrs| && AttrNamed(key)(elem.attrs[j]) && r.value == Strip(elem.attrs[j].1)
                          && forall i :: 0 <= i < j ==> !AttrNamed(key)(elem.attrs[i])
  {
    var t := FirstChildText(elem, key);
    if NonBlank(t) then
      StripIdempotent(t.value);
      Some(Strip(t.value))
    else
      match FirstIndexFrom(elem.attrs, AttrNamed(key), 0)
      case None => None
      case Some(j) =>
        StripIdempotent(elem.attrs[j].1);
        Some(Strip(elem.attrs[j].1))
  }

  /** `elem.iter()`: the element followed by all its descendants, depth first in document order. */
  function Iter(e: Element): (r: seq<Element>)
    ensures |r| >= 1 && r[0] == e
    decreases e
  {
    [e] + IterAll(e.children)
  }

  function IterAll(cs: seq<Element>): seq<Element>
    decreases cs
  {
    if cs == [] then [] else Iter(cs[0]) + IterAll(cs[1..])
  }

  /**
   * The walk over a list of siblings is the walk over each in turn: the
   * subtree of an earlier sibling is visited entirely before a later one.
   */
  lemma {:induction false} IterAllAppend(a: seq<Element>, b: seq<Element>)
    ensures IterAll(a + b) == IterAll(a) + IterAll(b)
    decreases |a|
  {
    if a == [] {
      assert a + b == b;
    } else {
      assert (a + b)[0] == a[0] && (a + b)[1..] == a[1..] + b;
      IterAllAppend(a[1..], b);
    }
  }

  /** The eight phase names, lower-case, that `find_sections` looks for. */
  const SectionNames: set<string> :=
    {"specialize", "oobesystem", "setupcl", "windeploy", "setup", "oobeldr", "provisioning", "pasetup"}

  /** The lower-cased local name of an element's tag. */
  function SectionName(e: Element): string
  {
    Lower(LocalName(e.tag))
  }

  predicate IsSectionName(n: string)
  {
    n in SectionNames
  }

  /** The dict `find_sections` returns after visiting `elems` in order. */
  function SectionsIn(elems: seq<Element>): (d: Dict<string, Element>)
    ensures Valid(d)
  {
    Build(Tagged(elems, SectionName, IsSectionName))
  }

  /** `find_sections(root)`: record every visited element whose local tag is a phase name, later ones overwriting. */
  method FindSections(root: Element) returns (found: Dict<string, Element>)
    ensures found == SectionsIn(Iter(root))
  {
    var elems := Iter(root);
    found := Empty();
    var i := 0;
    while i < |elems|
      invariant 0 <= i <= |elems|
      invariant found == SectionsIn(elems[..i])
    {
      var tagLower := SectionName(elems[i]);
      PrefixStep(elems, i);
      BuildTaggedStep(elems[..i + 1], SectionName, IsSectionName);
      if IsSectionName(tagLower) {
        found := Put(found, tagLower, elems[i]);
      }
      i := i + 1;
    }
    PrefixAll(elems);
  }

  /**
   * The keys of `find_sections` are exactly the phase names that some visited
   * element carries.
   */
  lemma {:induction false} FindSectionsKeys(elems: seq<Element>, k: string)
    ensures k in SectionsIn(elems).entries
            <==> IsSectionName(k) && exists i :: 0 <= i < |elems| && SectionName(elems[i]) == k
  {
    BuildTaggedHas(elems, SectionName, IsSectionName, k);
  }

  /** When several visited elements carry the same phase name, `find_sections` keeps the last one. */
  lemma {:induction false} FindSectionsLastWins(elems: seq<Element>, k: string)
    requires k in SectionsIn(elems).entries
    ensures exists i :: LastCarrier(elems, SectionName, k, i)
                        && elems[i] == SectionsIn(elems).entries[k]
  {
    BuildTaggedLastWins(elems, SectionName, IsSectionName, k);
  }

  /** `find_sections` lists its keys in order of each phase name's first appearance in the walk. */
  lemma {:induction false} FindSectionsOrder(elems: seq<Element>)
    ensures var d := Build(Tagged(elems, SectionName, IsSectionName));
      forall a, b :: 0 <= a < b < |d.keys| ==> CarriedBefore(elems, SectionName, d.keys[a], d.keys[b])
  {
    BuildTaggedFirstSeen(elems, SectionName, IsSectionName);
  }
}
