/** The parsed XML document as ElementTree presents it: each element has a
    (namespace-qualified) tag, an attribute map, the text before its first
    child, the tail text after its end tag, and its children in document
    order. An absent text or tail (`None`) is the empty string here. */
module Xml {
  import opened Results
  import opened Text

  /** A namespace-qualified name, written `{uri}local` by ElementTree. */
  datatype QName = QName(uri: string, local: string)

  datatype Element = Element(
    tag: QName,
    attrib: map<string, string>,
    text: string,
    tail: string,
    children: seq<Element>)

  /** `e.iter(tag)`: `e` itself and all its descendants whose tag is `tag`,
      in document (pre-)order. */
  function Iter(e: Element, tag: QName): (r: seq<Element>)
    ensures forall i :: 0 <= i < |r| ==> r[i].tag == tag
    decreases e, 1
  {
    (if e.tag == tag then [e] else []) + IterAll(e.children, tag)
  }

  /** The concatenation of `Iter(c, tag)` over the elements `es`, in order. */
  function IterAll(es: seq<Element>, tag: QName): (r: seq<Element>)
    ensures forall i :: 0 <= i < |r| ==> r[i].tag == tag
    decreases es, 0
  {
    if es == [] then [] else Iter(es[0], tag) + IterAll(es[1..], tag)
  }

  /** `e.attrib.get(k, '')`. The scripts index the map directly; the model
      reads through this total accessor where the script's indexing has
      already been shown to succeed. */
  function Attr(e: Element, k: string): string
  {
    if k in e.attrib then e.attrib[k] else ""
  }

  /** Every element of `es` carries each attribute in `names`, so that the
      scripts' direct indexing `e.attrib[name]` succeeds on all of them. */
  predicate AllHave(es: seq<Element>, names: set<string>)
  {
    forall k :: 0 <= k < |es| ==> names <= es[k].attrib.Keys
  }

  /** `es[i]` is the first of `es` with tag `tag`. */
  ghost predicate IsFirstMatch(es: seq<Element>, tag: QName, i: int)
  {
    0 <= i < |es| && es[i].tag == tag && forall j :: 0 <= j < i ==> es[j].tag != tag
  }

  /** `es[i]` is the last of `es` with tag `tag`. */
  ghost predicate IsLastMatch(es: seq<Element>, tag: QName, i: int)
  {
    0 <= i < |es| && es[i].tag == tag && forall j :: i < j < |es| ==> es[j].tag != tag
  }

  /** `e.find(tag)` for a plain tag: the first direct child with that tag. */
  function Find(e: Element, tag: QName): (r: Option<Element>)
    ensures r.None? <==> forall i :: 0 <= i < |e.children| ==> e.children[i].tag != tag
    ensures r.Some? ==> exists i :: IsFirstMatch(e.children, tag, i) && e.children[i] == r.value
  {
    FirstWithTag(e.children, tag)
  }

  function FirstWithTag(es: seq<Element>, tag: QName): (r: Option<Element>)
    ensures r.None? <==> forall i :: 0 <= i < |es| ==> es[i].tag != tag
    ensures r.Some? ==> exists i :: IsFirstMatch(es, tag, i) && es[i] == r.value
  {
    if es == [] then None
    else if es[0].tag == tag then Some(es[0])
    else
      var r := FirstWithTag(es[1..], tag);
      assert r.Some? ==> exists i :: IsFirstMatch(es, tag, i) && es[i] == r.value by {
        if r.Some? {
          var i :| 0 <= i < |es[1..]| && IsFirstMatch(es[1..], tag, i) && es[1..][i] == r.value;
          assert es[i + 1] == r.value;
          forall j | 0 <= j < i + 1 ensures es[j].tag != tag {
            if j > 0 { assert es[j] == es[1..][j - 1]; }
          }
          assert IsFirstMatch(es, tag, i + 1);
        }
      }
      r
  }

  /** The last of `es` whose tag is `tag`: the value a loop over `es` that
      overwrites a variable on every match leaves behind. */
  function LastWithTag(es: seq<Element>, tag: QName): Option<Element>
  {
    if es == [] then None
    else if es[|es| - 1].tag == tag then Some(es[|es| - 1])
    else LastWithTag(es[..|es| - 1], tag)
  }

  /** `LastWithTag` finds nothing exactly when no element has the tag, and
      otherwise finds a matching element after which none matches. */
  lemma {:induction false} LastWithTagIsLast(es: seq<Element>, tag: QName)
    ensures LastWithTag(es, tag).None? <==> forall i :: 0 <= i < |es| ==> es[i].tag != tag
    ensures LastWithTag(es, tag).Some? ==>
      exists i :: IsLastMatch(es, tag, i) && es[i] == LastWithTag(es, tag).value
  {
    if es != [] {
      var n := |es| - 1;
      LastWithTagIsLast(es[..n], tag);
      if es[n].tag == tag {
        assert IsLastMatch(es, tag, n);
      } else if LastWithTag(es, tag).Some? {
        var i :| IsLastMatch(es[..n], tag, i) && es[..n][i] == LastWithTag(es, tag).value;
        LastMatchExtends(es, tag, i);
      } else {
        NoMatchExtends(es, tag);
      }
    }
  }

  lemma LastMatchExtends(es: seq<Element>, tag: QName, i: int)
    requires |es| > 0 && es[|es| - 1].tag != tag
    requires IsLastMatch(es[..|es| - 1], tag, i)
    ensures IsLastMatch(es, tag, i) && es[i] == es[..|es| - 1][i]
  {
    var n := |es| - 1;
    forall j | i < j < |es| ensures es[j].tag != tag {
      if j < n { assert es[j] == es[..n][j]; }
    }
  }

  /** No element of `es` has tag `tag`. */
  predicate NoneTagged(es: seq<Element>, tag: QName)
  {
    forall i :: 0 <= i < |es| ==> es[i].tag != tag
  }

  lemma NoMatchExtends(es: seq<Element>, tag: QName)
    requires |es| > 0 && es[|es| - 1].tag != tag
    requires NoneTagged(es[..|es| - 1], tag)
    ensures NoneTagged(es, tag)
  {
    var n := |es| - 1;
    forall i | 0 <= i < |es| ensures es[i].tag != tag {
      if i < n { assert es[i] == es[..n][i]; }
    }
  }

  lemma LastWithTagSnoc(es: seq<Element>, k: nat, tag: QName)
    requires k < |es|
    ensures LastWithTag(es[..k + 1], tag) ==
      if es[k].tag == tag then Some(es[k]) else LastWithTag(es[..k], tag)
  {
    assert es[..k + 1][..k] == es[..k];
  }

  // ---------------------------------------------------------------------------
  // tostring(e, method='text')

  /** `''.join(e.itertext())`: the element's text, then for each child its
      text content followed by the child's tail. */
  function Itertext(e: Element): string
    decreases e, 1
  {
    e.text + ItertextAll(e.children)
  }

  function ItertextAll(es: seq<Element>): string
    decreases es, 0
  {
    if es == [] then "" else Itertext(es[0]) + es[0].tail + ItertextAll(es[1..])
  }

  ghost predicate IsAscii(s: string)
  {
    forall i :: 0 <= i < |s| ==> s[i] as int < 128
  }

  /** Writing one character to a US-ASCII stream with the
      `xmlcharrefreplace` error handler: a non-ASCII character becomes the
      decimal character reference `&#N;`. */
  function CharRef(c: char): (r: string)
    ensures IsAscii(r)
  {
    if c as int < 128 then [c] else "&#" + NatToString(c as int) + ";"
  }

  function CharRefs(s: string): (r: string)
    ensures IsAscii(r)
  {
    if s == [] then "" else CharRef(s[0]) + CharRefs(s[1..])
  }

  /** ASCII text passes through the encoding unchanged. */
  lemma {:induction false} CharRefsOfAscii(s: string)
    requires IsAscii(s)
    ensures CharRefs(s) == s
  {
    if s != [] {
      CharRefsOfAscii(s[1..]);
      assert [s[0]] + s[1..] == s;
    }
  }

  /** `tostring(e, method='text').decode('utf-8')`: the text content of `e`
      followed by its own tail, serialised with the default US-ASCII
      encoding. */
  function TextSerialization(e: Element): string
  {
    CharRefs(Itertext(e) + e.tail)
  }
}
