/**
 * The part of `xml.etree.ElementTree` the indexers use on a parsed document:
 * the element tree itself, `root.findall('.//{*}name')` and `root.itertext()`.
 * Parsing is not modelled; a parsed document is given as its root `Element`.
 */
module XmlTree {
  import opened Wrappers
  import opened Seqs
  import opened Text

  /**
   * An element as ElementTree stores it: its tag (`"{uri}local"` for a
   * namespaced element, the bare name otherwise), the text before its first
   * child, its children in document order, and the text after its end tag.
   */
  datatype Element = Element(tag: string, text: Option<string>, children: seq<Element>, tail: Option<string>)

  /** The text of an optional text slot, `""` when absent. */
  function TextOf(t: Option<string>): string
  {
    match t
    case None => ""
    case Some(s) => s
  }

  /** Number of elements in a tree. */
  function Size(e: Element): (n: nat)
    ensures n >= 1
  {
    1 + SizeAll(e.children)
  }

  function SizeAll(es: seq<Element>): nat
  {
    if es == [] then 0 else Size(es[0]) + SizeAll(es[1..])
  }

  // ---------------------------------------------------------------- traversal

  /** `e.iter()`: `e` and then every element below it, in document (pre-)order. */
  function Iter(e: Element): (r: seq<Element>)
    ensures r != [] && r[0] == e
  {
    [e] + IterAll(e.children)
  }

  /** The pre-order walks of a run of sibling subtrees, one after the other. */
  function IterAll(es: seq<Element>): seq<Element>
  {
    if es == [] then [] else Iter(es[0]) + IterAll(es[1..])
  }

  /** The elements strictly below `e`, in document order: what `.//` ranges over. */
  function Descendants(e: Element): seq<Element>
  {
    IterAll(e.children)
  }

  // ---------------------------------------------------------------- findall

  /** The `{*}name` test: the bare tag `name`, or any tag ending in `}name`. */
  predicate TagMatches(tag: string, name: string)
  {
    tag == name || EndsWith(tag, "}" + name)
  }

  function IsNamed(name: string): Element -> bool
  {
    (x: Element) => TagMatches(x.tag, name)
  }

  /** `root.findall('.//{*}name')`: the matching elements below the root, in document order. */
  function FindAll(root: Element, name: string): (r: seq<Element>)
    ensures |r| <= |Descendants(root)|
  {
    Filter(IsNamed(name), Descendants(root))
  }

  // ---------------------------------------------------------------- itertext

  /**
   * `root.itertext()`: the element's text, then for each child the child's own
   * text pieces followed by the child's tail; empty pieces are not yielded and
   * the root's own tail is not part of it.
   */
  function IterText(e: Element): (pieces: seq<string>)
    ensures forall k :: 0 <= k < |pieces| ==> pieces[k] != []
  {
    Piece(e.text) + IterTextAll(e.children)
  }

  function IterTextAll(es: seq<Element>): (pieces: seq<string>)
    ensures forall k :: 0 <= k < |pieces| ==> pieces[k] != []
  {
    if es == [] then [] else IterText(es[0]) + Piece(es[0].tail) + IterTextAll(es[1..])
  }

  /** A text slot as `itertext` yields it: nothing when it is absent or empty. */
  function Piece(t: Option<string>): (pieces: seq<string>)
    ensures forall k :: 0 <= k < |pieces| ==> pieces[k] != []
    ensures Flatten(pieces) == TextOf(t)
  {
    if TextOf(t) == [] then [] else
      assert Flatten([TextOf(t)]) == TextOf(t) + Flatten([]);
      [TextOf(t)]
  }

  /** `"".join(root.itertext())` */
  function RawText(root: Element): string
  {
    Flatten(IterText(root))
  }

  // ---------------------------------------------------------------- properties

  /**
   * The wildcard test is namespace-agnostic: for a local name and a query name
   * without `}`, a namespaced tag `{uri}local` and a bare tag `local` both
   * match exactly when `local` is the queried name.
   */
  lemma {:induction false} TagMatchesLocalName(uri: string, local: string, name: string)
    requires '}' !in local && '}' !in name
    ensures TagMatches("{" + uri + "}" + local, name) <==> local == name
    ensures TagMatches(local, name) <==> local == name
  {
    var tag := "{" + uri + "}" + local;
    assert tag[|tag| - |local| - 1..] == "}" + local;
    if local != name {
      assert tag != name by {
        assert tag[|tag| - |local| - 1] == '}';
      }
      if EndsWith(tag, "}" + name) {
        SuffixesWithoutBrace(tag, local, name);
      }
      if EndsWith(local, "}" + name) {
        assert false;
      }
    }
  }

  /** Two suffixes of `tag` that each start with the only `}` they contain are the same. */
  lemma {:induction false} SuffixesWithoutBrace(tag: string, a: string, b: string)
    requires '}' !in a && '}' !in b
    requires EndsWith(tag, "}" + a) && EndsWith(tag, "}" + b)
    ensures a == b
  {
    if |a| < |b| {
      LongerSuffixHasBrace(tag, a, b);
      assert false;
    } else if |b| < |a| {
      LongerSuffixHasBrace(tag, b, a);
      assert false;
    } else {
      assert a == tag[|tag| - |a|..] == b;
    }
  }

  lemma {:induction false} LongerSuffixHasBrace(tag: string, a: string, b: string)
    requires EndsWith(tag, "}" + a) && EndsWith(tag, "}" + b) && |a| < |b|
    ensures '}' in b
  {
    assert b[|b| - |a| - 1] == tag[|tag| - |a| - 1];
  }

  /** An element is never its own descendant: `.//` does not return the root. */
  lemma {:induction false} RootNotDescendant(e: Element)
    ensures e !in Descendants(e)
  {
    if e in Descendants(e) {
      IterAllSmaller(e.children, e);
    }
  }

  lemma {:induction false} IterSmaller(e: Element, x: Element)
    requires x in Iter(e)
    ensures Size(x) <= Size(e)
  {
    if x != e {
      assert x in IterAll(e.children);
      IterAllSmaller(e.children, x);
    }
  }

  lemma {:induction false} IterAllSmaller(es: seq<Element>, x: Element)
    requires x in IterAll(es)
    ensures Size(x) <= SizeAll(es)
  {
    if x in Iter(es[0]) {
      IterSmaller(es[0], x);
    } else {
      assert x in IterAll(es[1..]);
      IterAllSmaller(es[1..], x);
    }
  }

  /** `findall` returns exactly the descendants whose tag matches, each as often as it occurs below the root. */
  lemma {:induction false} FindAllMembership(root: Element, name: string, x: Element)
    ensures x in FindAll(root, name) <==> x in Descendants(root) && TagMatches(x.tag, name)
    ensures Count(FindAll(root, name), x) == (if TagMatches(x.tag, name) then Count(Descendants(root), x) else 0)
  {
    FilterMembership(IsNamed(name), Descendants(root), x);
    FilterCount(IsNamed(name), Descendants(root), x);
  }

  /** `findall` keeps document order: its result is a subsequence of the pre-order walk below the root. */
  lemma {:induction false} FindAllInDocumentOrder(root: Element, name: string)
    ensures IsSubsequence(FindAll(root, name), Descendants(root))
  {
    FilterIsSubsequence(IsNamed(name), Descendants(root));
  }

  /** A tree with no element below the root has no matches, whatever the name. */
  lemma {:induction false} FindAllLeaf(root: Element, name: string)
    requires root.children == []
    ensures FindAll(root, name) == []
  {
  }
}
