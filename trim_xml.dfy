/**
 * `trimXML` of lib/trim_xml.js: parse a document, delete from it the text
 * nodes that consist only of whitespace, and serialize it again. The pass
 * walks `childNodes` with an index and, after removing a child, still
 * advances the index, so the sibling that slid into the removed child's
 * place is passed over: neither removed nor descended into.
 */
module TrimXml {

  /** DOM node types the pass distinguishes. */
  const ElementNode := 1
  const TextNode := 3

  /** A DOM node: its type, its value (the text of a text node) and its children in document order. */
  datatype XmlNode = XmlNode(nodeType: int, nodeValue: string, childNodes: seq<XmlNode>)

  /** The characters of the JavaScript class `\s`: white space and line terminators. */
  predicate IsJsWhitespace(ch: char) {
    ch == '\t' || ch == '\n' || ch == '\U{000B}' || ch == '\U{000C}' || ch == '\r' || ch == ' '
    || ch == '\U{00A0}' || ch == '\U{1680}' || ('\U{2000}' <= ch <= '\U{200A}')
    || ch == '\U{2028}' || ch == '\U{2029}' || ch == '\U{202F}' || ch == '\U{205F}'
    || ch == '\U{3000}' || ch == '\U{FEFF}'
  }

  /** `/^\s+$/.test(s)`: one or more characters, all of them `\s`. */
  predicate IsWhitespaceOnly(s: string) {
    |s| > 0 && forall k :: 0 <= k < |s| ==> IsJsWhitespace(s[k])
  }

  /** The nodes the pass removes when it visits them. */
  predicate IsBlankText(n: XmlNode) {
    n.nodeType == TextNode && IsWhitespaceOnly(n.nodeValue)
  }

  /** `y` stands for `x` in the result: an element keeps its type and value, any other node is kept as it is. */
  predicate Kept(x: XmlNode, y: XmlNode) {
    if x.nodeType == ElementNode then y.nodeType == x.nodeType && y.nodeValue == x.nodeValue
    else y == x
  }

  /**
   * `ys` is `xs` with some whitespace-only text nodes deleted: the
   * survivors keep their order, nothing is added, and each survivor is
   * `Kept` from its original.
   */
  predicate Thinned(xs: seq<XmlNode>, ys: seq<XmlNode>)
    decreases |xs|
  {
    if xs == [] then ys == []
    else (IsBlankText(xs[0]) && Thinned(xs[1..], ys))
         || (ys != [] && Kept(xs[0], ys[0]) && Thinned(xs[1..], ys[1..]))
  }

  /** The node after one pass of `removeEmptyNodes`. */
  function Pruned(n: XmlNode): (r: XmlNode)
    ensures r.nodeType == n.nodeType && r.nodeValue == n.nodeValue
    decreases n, 1
  {
    XmlNode(n.nodeType, n.nodeValue, PruneFrom(n, 0))
  }

  /**
   * The children the pass leaves from position `i` of the original list
   * on, when it reaches position `i` with a fresh visit. A removed child
   * makes the pass step over its right-hand sibling, which survives as it
   * is; a visited element is pruned recursively.
   */
  function PruneFrom(n: XmlNode, i: nat): (r: seq<XmlNode>)
    ensures i >= |n.childNodes| ==> r == []
    decreases n, 0, |n.childNodes| - i
  {
    var cs := n.childNodes;
    if i >= |cs| then []
    else
      var c := cs[i];
      if IsBlankText(c) then
        if i + 1 < |cs| then [cs[i + 1]] + PruneFrom(n, i + 2) else []
      else if c.nodeType == ElementNode then [Pruned(c)] + PruneFrom(n, i + 1)
      else [c] + PruneFrom(n, i + 1)
  }

  /**
   * One pass only deletes whitespace-only text nodes: the surviving
   * children keep their order, nothing is added, elements keep their type
   * and value and every other survivor is unchanged.
   */
  lemma {:induction false} PruneFromThins(n: XmlNode, i: nat)
    requires i <= |n.childNodes|
    ensures Thinned(n.childNodes[i..], PruneFrom(n, i))
    decreases |n.childNodes| - i
  {
    var cs := n.childNodes;
    if i < |cs| {
      assert cs[i..][1..] == cs[i + 1..];
      if IsBlankText(cs[i]) {
        if i + 1 < |cs| {
          assert cs[i + 1..][1..] == cs[i + 2..];
          PruneFromThins(n, i + 2);
        }
      } else {
        PruneFromThins(n, i + 1);
      }
    }
  }

  /** `PruneFromThins` for a whole node. */
  lemma PrunedThins(n: XmlNode)
    ensures Thinned(n.childNodes, Pruned(n).childNodes)
  {
    PruneFromThins(n, 0);
    assert n.childNodes[0..] == n.childNodes;
  }

  /**
   * `removeEmptyNodes(node)`: the index loop over the children, removing
   * whitespace-only text nodes and descending into elements. The node is
   * a value here; the result is the node after the pass.
   */
  method RemoveEmptyNodes(node: XmlNode) returns (r: XmlNode)
    ensures r == Pruned(node)
    decreases node
  {
    var children := node.childNodes;
    // `m` is the position in the original list of the child at `index`;
    // `done` is what the pass has left of the children before it
    ghost var m := 0;
    ghost var done: seq<XmlNode> := [];
    var index := 0;
    while index < |children|
      invariant PassAt(node, m, done, children, index)
      decreases |children| - index
    {
      var current := children[index];
      VisitedChild(node, m, done, children, index);
      if current.nodeType == TextNode && IsWhitespaceOnly(current.nodeValue) {
        BlankStep(node, m, done, children, index);
        children := children[..index] + children[index + 1..];
        done := if m + 1 < |node.childNodes| then done + [node.childNodes[m + 1]] else done;
        m := m + 2;
      } else {
        if current.nodeType == ElementNode {
          var pruned := RemoveEmptyNodes(current);
          ElementStep(node, m, done, children, index, pruned);
          children := children[index := pruned];
          done := done + [pruned];
        } else {
          OtherStep(node, m, done, children, index);
          done := done + [current];
        }
        m := m + 1;
      }
      index := index + 1;
    }
    PassEnd(node, m, done, children, index);
    r := XmlNode(node.nodeType, node.nodeValue, children);
  }

  /**
   * The loop of `removeEmptyNodes` has reached `index` of the live list
   * `children`, which is the original child `m` (or past the end, when the
   * last removal stepped over the end); `done` is what the pass has left
   * of the children before it.
   */
  predicate PassAt(node: XmlNode, m: nat, done: seq<XmlNode>, children: seq<XmlNode>, index: nat) {
    var cs := node.childNodes;
    && m <= |cs| + 1
    && (m <= |cs| ==> index == |done| && children == done + cs[m..])
    && (m == |cs| + 1 ==> index == |done| + 1 && children == done)
    && done + PruneFrom(node, m) == PruneFrom(node, 0)
  }

  /** The child the loop visits is original child `m`. */
  lemma VisitedChild(node: XmlNode, m: nat, done: seq<XmlNode>, children: seq<XmlNode>, index: nat)
    requires PassAt(node, m, done, children, index) && index < |children|
    ensures m < |node.childNodes| && children[index] == node.childNodes[m]
  {
  }

  /** Removing a whitespace-only text child: the index then passes over its right-hand sibling. */
  lemma BlankStep(node: XmlNode, m: nat, done: seq<XmlNode>, children: seq<XmlNode>, index: nat)
    requires PassAt(node, m, done, children, index) && index < |children| && IsBlankText(children[index])
    ensures var cs := node.childNodes;
            PassAt(node, m + 2, if m + 1 < |cs| then done + [cs[m + 1]] else done,
                   children[..index] + children[index + 1..], index + 1)
  {
    var cs := node.childNodes;
    VisitedChild(node, m, done, children, index);
    PruneFromBlank(node, m);
    SpliceAfter(done, cs[m..]);
    if m + 1 < |cs| {
      assert cs[m..][1..] == [cs[m + 1]] + cs[m + 2..];
      Regroup(done, cs[m + 1], PruneFrom(node, m + 2));
      Regroup(done, cs[m + 1], cs[m + 2..]);
    }
  }

  /** Descending into an element child and putting the pruned element in its place. */
  lemma ElementStep(node: XmlNode, m: nat, done: seq<XmlNode>, children: seq<XmlNode>, index: nat, pruned: XmlNode)
    requires PassAt(node, m, done, children, index) && index < |children|
    requires children[index].nodeType == ElementNode && pruned == Pruned(children[index])
    ensures PassAt(node, m + 1, done + [pruned], children[index := pruned], index + 1)
  {
    var cs := node.childNodes;
    VisitedChild(node, m, done, children, index);
    PruneFromElement(node, m);
    ReplaceAfter(done, cs[m..], pruned);
    Regroup(done, pruned, PruneFrom(node, m + 1));
    assert cs[m..][1..] == cs[m + 1..];
  }

  /** Passing over any other child. */
  lemma OtherStep(node: XmlNode, m: nat, done: seq<XmlNode>, children: seq<XmlNode>, index: nat)
    requires PassAt(node, m, done, children, index) && index < |children|
    requires !IsBlankText(children[index]) && children[index].nodeType != ElementNode
    ensures PassAt(node, m + 1, done + [children[index]], children, index + 1)
  {
    var cs := node.childNodes;
    VisitedChild(node, m, done, children, index);
    PruneFromOther(node, m);
    ReplaceAfter(done, cs[m..], cs[m]);
    Regroup(done, cs[m], PruneFrom(node, m + 1));
    assert cs[m..][1..] == cs[m + 1..];
  }

  /** When the loop ends, the live list is what the pass leaves. */
  lemma PassEnd(node: XmlNode, m: nat, done: seq<XmlNode>, children: seq<XmlNode>, index: nat)
    requires PassAt(node, m, done, children, index) && index >= |children|
    ensures children == PruneFrom(node, 0)
  {
  }

  /** `removeChild` of the node right after `done`. */
  lemma SpliceAfter(done: seq<XmlNode>, rest: seq<XmlNode>)
    requires rest != []
    ensures (done + rest)[..|done|] + (done + rest)[|done| + 1..] == done + rest[1..]
  {
    assert (done + rest)[..|done|] == done;
    assert (done + rest)[|done| + 1..] == rest[1..];
  }

  /** The node right after `done` replaced by `x` (a pruned element, or the node itself). */
  lemma ReplaceAfter(done: seq<XmlNode>, rest: seq<XmlNode>, x: XmlNode)
    requires rest != []
    ensures (done + rest)[|done| := x] == (done + [x]) + rest[1..]
    ensures x == rest[0] ==> done + rest == (done + [x]) + rest[1..]
  {
  }

  /** Moving one node from the front of the rest to the end of `done`. */
  lemma Regroup(done: seq<XmlNode>, x: XmlNode, rest: seq<XmlNode>)
    ensures done + ([x] + rest) == (done + [x]) + rest
  {
  }

  /** One step of the pass at a whitespace-only text node: it goes, and its right-hand sibling stays unvisited. */
  lemma PruneFromBlank(n: XmlNode, i: nat)
    requires i < |n.childNodes| && IsBlankText(n.childNodes[i])
    ensures PruneFrom(n, i) == (if i + 1 < |n.childNodes| then [n.childNodes[i + 1]] else []) + PruneFrom(n, i + 2)
  {
  }

  /** One step of the pass at an element: it is pruned in its turn. */
  lemma PruneFromElement(n: XmlNode, i: nat)
    requires i < |n.childNodes| && n.childNodes[i].nodeType == ElementNode
    ensures PruneFrom(n, i) == [Pruned(n.childNodes[i])] + PruneFrom(n, i + 1)
  {
  }

  /** One step of the pass at a node that is neither an element nor a whitespace-only text: it stays as it is. */
  lemma PruneFromOther(n: XmlNode, i: nat)
    requires i < |n.childNodes| && !IsBlankText(n.childNodes[i]) && n.childNodes[i].nodeType != ElementNode
    ensures PruneFrom(n, i) == [n.childNodes[i]] + PruneFrom(n, i + 1)
  {
  }

  /** `trimXML(xml)`: parsing and serializing are the DOM library's, passed in. */
  method TrimXml(parse: string -> XmlNode, serialize: XmlNode -> string, xml: string) returns (out: string)
    ensures out == serialize(Pruned(parse(xml)))
  {
    var dom := parse(xml);
    var trimmed := RemoveEmptyNodes(dom);
    out := serialize(trimmed);
  }

  /** A thinned list is no longer than the original, and every node that is not a whitespace-only text node survives. */
  lemma {:induction false} ThinnedKeepsNonBlank(xs: seq<XmlNode>, ys: seq<XmlNode>)
    requires Thinned(xs, ys)
    ensures |ys| <= |xs|
    ensures |ys| >= NonBlankCount(xs)
    decreases |xs|
  {
    if xs != [] {
      if IsBlankText(xs[0]) && Thinned(xs[1..], ys) {
        ThinnedKeepsNonBlank(xs[1..], ys);
      } else {
        ThinnedKeepsNonBlank(xs[1..], ys[1..]);
      }
    }
  }

  /** How many nodes of `xs` are not whitespace-only text nodes. */
  function NonBlankCount(xs: seq<XmlNode>): (k: nat)
    ensures k <= |xs|
    ensures (forall j :: 0 <= j < |xs| ==> !IsBlankText(xs[j])) ==> k == |xs|
  {
    if xs == [] then 0 else (if IsBlankText(xs[0]) then 0 else 1) + NonBlankCount(xs[1..])
  }

  /**
   * Without whitespace-only text children, every child survives in place:
   * elements pruned, other nodes unchanged.
   */
  lemma {:induction false} NoBlankChildrenAllVisited(n: XmlNode, i: nat)
    requires i <= |n.childNodes|
    requires forall j :: 0 <= j < |n.childNodes| ==> !IsBlankText(n.childNodes[j])
    ensures |PruneFrom(n, i)| == |n.childNodes| - i
    ensures forall j :: i <= j < |n.childNodes| ==>
              PruneFrom(n, i)[j - i] == if n.childNodes[j].nodeType == ElementNode then Pruned(n.childNodes[j]) else n.childNodes[j]
    decreases |n.childNodes| - i
  {
    if i < |n.childNodes| {
      NoBlankChildrenAllVisited(n, i + 1);
    }
  }

  /**
   * The skipped sibling: of two adjacent whitespace-only text nodes only
   * the first is removed, and an element right after a removed node is not
   * descended into. So one pass can leave whitespace behind, and a second
   * pass changes the result again.
   */
  lemma SkippedSiblingExamples(blank: XmlNode, inner: XmlNode, root: XmlNode)
    requires blank == XmlNode(TextNode, " ", [])
    requires inner == XmlNode(ElementNode, "", [blank])
    requires root == XmlNode(9, "", [blank, blank])
    ensures Pruned(root).childNodes == [blank]
    ensures Pruned(Pruned(root)).childNodes == []
    ensures Pruned(XmlNode(9, "", [blank, inner])).childNodes == [inner]
    ensures Pruned(XmlNode(9, "", [inner])).childNodes == [XmlNode(ElementNode, "", [])]
  {
    assert IsBlankText(blank) by {
      assert IsJsWhitespace(blank.nodeValue[0]);
    }
    assert !IsBlankText(inner);
    PruneFromBlank(inner, 0);
    PruneFromElement(XmlNode(9, "", [inner]), 0);
  }
}
