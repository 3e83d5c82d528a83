/** The XML document object model the Matroska handler edits, reduced to what the
    handler touches: elements with ordered children, text nodes, the text of a node,
    child lookup, document-order search and in-place replacement. A node is named by
    its path of child indices from the root. */
module Xml {
  import opened Common

  datatype Node = Element(name: string, children: seq<Node>) | Text(content: string)

  /** Child indices from the root down to a node; `[]` is the root itself. */
  type Path = seq<nat>

  predicate ValidPath(n: Node, p: Path)
    decreases |p|
  {
    p == [] || (n.Element? && p[0] < |n.children| && ValidPath(n.children[p[0]], p[1..]))
  }

  function At(n: Node, p: Path): Node
    requires ValidPath(n, p)
    decreases |p|
  {
    if p == [] then n else At(n.children[p[0]], p[1..])
  }

  /** `q` comes strictly before `p` in document order (a pre-order walk): `q` is an
      ancestor of `p`, or lies in an earlier sibling subtree. */
  predicate Before(q: Path, p: Path)
    decreases |q|
  {
    p != [] && (q == [] || q[0] < p[0] || (q[0] == p[0] && Before(q[1..], p[1..])))
  }

  /** Nokogiri's `text`: the concatenated text of every text node below `n`. */
  function TextOf(n: Node): string
    decreases n, 1
  {
    match n
    case Text(s) => s
    case Element(_, _) => ChildrenText(n, 0)
  }

  function ChildrenText(n: Node, i: nat): string
    requires n.Element? && i <= |n.children|
    decreases n, 0, |n.children| - i
  {
    if i == |n.children| then "" else TextOf(n.children[i]) + ChildrenText(n, i + 1)
  }

  predicate IsElementNamed(n: Node, name: string)
  {
    n.Element? && n.name == name
  }

  /** `at_xpath('./name')`: the index of the first child element called `name`. */
  function ChildIndex(n: Node, name: string): (r: Option<nat>)
    requires n.Element?
    ensures r.None? <==> forall j :: 0 <= j < |n.children| ==> !IsElementNamed(n.children[j], name)
    ensures r.Some? ==> r.value < |n.children| && IsElementNamed(n.children[r.value], name)
                        && forall j :: 0 <= j < r.value ==> !IsElementNamed(n.children[j], name)
  {
    ChildIndexFrom(n, name, 0)
  }

  function ChildIndexFrom(n: Node, name: string, i: nat): (r: Option<nat>)
    requires n.Element? && i <= |n.children|
    ensures r.None? <==> forall j :: i <= j < |n.children| ==> !IsElementNamed(n.children[j], name)
    ensures r.Some? ==> i <= r.value < |n.children| && IsElementNamed(n.children[r.value], name)
                        && forall j :: i <= j < r.value ==> !IsElementNamed(n.children[j], name)
    decreases |n.children| - i
  {
    if i == |n.children| then None
    else if IsElementNamed(n.children[i], name) then Some(i)
    else ChildIndexFrom(n, name, i + 1)
  }

  /** `//…` search: the first node in document order that satisfies `pred`. */
  function FindFirst(n: Node, pred: Node -> bool): Option<Path>
    decreases n, 1
  {
    if pred(n) then Some([])
    else if n.Text? then None
    else FindInChildren(n, 0, pred)
  }

  function FindInChildren(n: Node, i: nat, pred: Node -> bool): Option<Path>
    requires n.Element? && i <= |n.children|
    decreases n, 0, |n.children| - i
  {
    if i == |n.children| then None
    else match FindFirst(n.children[i], pred)
      case Some(p) => Some([i] + p)
      case None => FindInChildren(n, i + 1, pred)
  }

  /** The node at `p` and the node at `q` are reached through the child `q[0]`. */
  lemma StepDown(n: Node, q: Path)
    requires q != [] && ValidPath(n, q)
    ensures n.Element? && q[0] < |n.children| && ValidPath(n.children[q[0]], q[1..])
    ensures At(n, q) == At(n.children[q[0]], q[1..])
  {
  }

  lemma StepUp(n: Node, i: nat, p: Path)
    requires n.Element? && i < |n.children| && ValidPath(n.children[i], p)
    ensures ValidPath(n, [i] + p) && At(n, [i] + p) == At(n.children[i], p)
  {
    assert ([i] + p)[0] == i && ([i] + p)[1..] == p;
  }

  /** The search finds a node satisfying `pred`, and no node before it in document
      order does; it finds nothing only when no node does. */
  lemma {:induction false} FindFirstSound(n: Node, pred: Node -> bool)
    ensures FindFirst(n, pred).Some? ==>
              var p := FindFirst(n, pred).value;
              ValidPath(n, p) && pred(At(n, p)) && forall q :: ValidPath(n, q) && Before(q, p) ==> !pred(At(n, q))
    ensures FindFirst(n, pred).None? ==> forall q :: ValidPath(n, q) ==> !pred(At(n, q))
    decreases n, 1
  {
    if !pred(n) && n.Element? {
      FindInChildrenSound(n, 0, pred);
      forall q | ValidPath(n, q) && q != []
        ensures q[0] >= 0
      {
      }
    }
  }

  lemma {:induction false} FindInChildrenSound(n: Node, i: nat, pred: Node -> bool)
    requires n.Element? && i <= |n.children|
    ensures FindInChildren(n, i, pred).Some? ==>
              var p := FindInChildren(n, i, pred).value;
              p != [] && i <= p[0] && ValidPath(n, p) && pred(At(n, p))
              && forall q :: ValidPath(n, q) && q != [] && i <= q[0] && Before(q, p) ==> !pred(At(n, q))
    ensures FindInChildren(n, i, pred).None? ==>
              forall q :: ValidPath(n, q) && q != [] && i <= q[0] ==> !pred(At(n, q))
    decreases n, 0, |n.children| - i
  {
    if i < |n.children| {
      var c := n.children[i];
      FindFirstSound(c, pred);
      match FindFirst(c, pred)
      case Some(pc) =>
        StepUp(n, i, pc);
        var p := [i] + pc;
        assert p[0] == i && p[1..] == pc;
        forall q | ValidPath(n, q) && q != [] && i <= q[0] && Before(q, p)
          ensures !pred(At(n, q))
        {
          StepDown(n, q);
        }
      case None =>
        FindInChildrenSound(n, i + 1, pred);
        forall q | ValidPath(n, q) && q != [] && q[0] == i
          ensures !pred(At(n, q))
        {
          StepDown(n, q);
        }
    }
  }

  /** The tree with the node at `p` replaced by `m`. */
  function Replace(n: Node, p: Path, m: Node): (r: Node)
    requires ValidPath(n, p)
    ensures ValidPath(r, p) && At(r, p) == m
    ensures p != [] ==> r.Element? && r.name == n.name && |r.children| == |n.children|
    decreases |p|
  {
    if p == [] then m
    else
      var c := Replace(n.children[p[0]], p[1..], m);
      var r := Element(n.name, n.children[p[0] := c]);
      assert r.children[p[0]] == c;
      r
  }

  predicate IsPrefix(q: Path, p: Path)
  {
    |q| <= |p| && q == p[..|q|]
  }

  /** Replacing the node at `p` leaves every node that is neither on the way to `p`
      nor below it where it was, unchanged. */
  lemma {:induction false} ReplaceElsewhere(n: Node, p: Path, m: Node, q: Path)
    requires ValidPath(n, p) && ValidPath(n, q)
    requires !IsPrefix(q, p) && !IsPrefix(p, q)
    ensures ValidPath(Replace(n, p, m), q) && At(Replace(n, p, m), q) == At(n, q)
    decreases |p|
  {
    var r := Replace(n, p, m);
    StepDown(n, q);
    if q[0] == p[0] {
      assert !IsPrefix(q[1..], p[1..]) && !IsPrefix(p[1..], q[1..]);
      ReplaceElsewhere(n.children[p[0]], p[1..], m, q[1..]);
    }
    StepUp(r, q[0], q[1..]);
    assert [q[0]] + q[1..] == q;
  }

  /** `add_child`: append `c` as the last child of the element at `p`. */
  function AppendChild(n: Node, p: Path, c: Node): (r: Node)
    requires ValidPath(n, p) && At(n, p).Element?
    ensures ValidPath(r, p) && At(r, p) == Element(At(n, p).name, At(n, p).children + [c])
  {
    var e := At(n, p);
    Replace(n, p, Element(e.name, e.children + [c]))
  }

  /** `content =` on an element: its children become one text node. */
  function SetContent(n: Node, p: Path, s: string): (r: Node)
    requires ValidPath(n, p) && At(n, p).Element?
    ensures ValidPath(r, p) && At(r, p) == Element(At(n, p).name, [Text(s)])
  {
    Replace(n, p, Element(At(n, p).name, [Text(s)]))
  }

  /** `remove`: the child at index `i` of the element at `p` leaves the tree. */
  function RemoveChild(n: Node, p: Path, i: nat): (r: Node)
    requires ValidPath(n, p) && At(n, p).Element? && i < |At(n, p).children|
    ensures ValidPath(r, p)
    ensures At(r, p) == Element(At(n, p).name, At(n, p).children[..i] + At(n, p).children[i + 1..])
  {
    var e := At(n, p);
    Replace(n, p, Element(e.name, e.children[..i] + e.children[i + 1..]))
  }
}
