/** `XmlNodeImpl` nodes, the finite trees they form, and document order. */
module DomTrees {
  import opened Results

  datatype NodeType = Element | Attribute | Text | CDATA | EntityRef | Entity | Instruction | Comment
                    | Document | DocType | Fragment

  /** An attribute of an element. */
  datatype Attr = Attr(name: string, value: string)

  class Node {
    var parent: Node?
    var index: int
    var childs: seq<Node>
    var document: nat
    var nodeType: NodeType
    var name: string
    var value: string
    var attributes: seq<Attr>

    /** `f` is the tree this node lives in. */
    ghost predicate In(f: Forest)
      reads Nodes(f)
    {
      Tree(f) && this in Nodes(f)
    }

    method GetRootNode(ghost f: Forest) returns (root: Node)
      requires In(f)
      ensures root == f.node
    {
      TreeChain(f, this);
      ghost var c := Chain(f, this);
      root := this;
      ghost var i := 0;
      while root.parent != null
        invariant 0 <= i < |c| && root == c[i]
        invariant root.parent == (if i + 1 < |c| then c[i + 1] else null)
        decreases |c| - i
      {
        root := root.parent;
        i := i + 1;
      }
    }

    method Contains(node: Node?, ghost f: Forest) returns (retVal: bool)
      requires node != null ==> node.In(f)
      ensures retVal <==> node != null && (node == this || Below(f, node, this))
    {
      if node == null {
        return false;
      }
      if node == this {
        return true;
      }
      retVal := node.HasAncestor(this, f);
    }

    /** The walk up the parents that `contains` and `compareDocumentPosition` share. */
    method HasAncestor(a: Node, ghost f: Forest) returns (found: bool)
      requires In(f)
      ensures found <==> Below(f, this, a)
    {
      ghost var c := Chain(f, this);
      TreeChain(f, this);
      ChainBelow(f, this, a);
      var up := this.parent;
      ghost var i := 1;
      while up != null
        invariant 1 <= i <= |c| && up == (if i < |c| then c[i] else null)
        invariant a !in c[1..i]
        decreases |c| - i
      {
        if up == a {
          return true;
        }
        up := up.parent;
        i := i + 1;
      }
      assert c[1..i] == c[1..];
      return false;
    }

    /** This node and its ancestors, innermost first. */
    method AncestorChain(ghost f: Forest) returns (chain: seq<Node>)
      requires In(f)
      ensures chain == Chain(f, this)
    {
      ghost var c := Chain(f, this);
      TreeChain(f, this);
      var node: Node? := this;
      chain := [];
      while node != null
        invariant |chain| <= |c| && chain == c[..|chain|]
        invariant node == (if |chain| < |c| then c[|chain|] else null)
        decreases |c| - |chain|
      {
        chain := chain + [node];
        node := node.parent;
      }
    }

    /** `f` is the tree of this node and `g` the tree of the other one. */
    method CompareDocumentPosition(other: Node?, ghost f: Forest, ghost g: Forest) returns (retVal: int)
      requires In(f) && (other != null ==> other.In(g))
      ensures other == null ==> retVal == DISCONNECTED
      ensures other != null && other != this && f.node != g.node ==> retVal == DISCONNECTED + PRECEDING
      ensures other != null && f.node == g.node ==> other in Nodes(f) && retVal == Position(f, this, other)
    {
      if other == null {
        return DISCONNECTED;
      }
      if f.node == g.node {
        TreeUnique(f, g);
      }
      if other == this {
        return 0;
      }
      assert allocated(Nodes(f)) && allocated(Nodes(g));
      var thisRoot := GetRootNode(f);
      var otherRoot := other.GetRootNode(g);
      if thisRoot != otherRoot {
        return DISCONNECTED + PRECEDING;
      }
      var above := HasAncestor(other, f);
      if above {
        return CONTAINS + PRECEDING;
      }
      var below := other.HasAncestor(this, f);
      if below {
        return CONTAINED_BY + FOLLOWING;
      }
      var thisChain := AncestorChain(f);
      var otherChain := other.AncestorChain(f);
      TreeChain(f, this);
      TreeChain(f, other);
      assert f.node in thisChain && f.node in otherChain;
      var i, j := FirstCommon(thisChain, otherChain);
      // both chains have a node below the meeting point, so the branches for a missing one are dead
      Meeting(f, this, other, i, j);
      var thisAncestor, otherAncestor := thisChain[i - 1], otherChain[j - 1];
      if thisAncestor.index < otherAncestor.index {
        retVal := FOLLOWING;
      } else {
        retVal := PRECEDING;
      }
    }

    /** Pre-order rewrite of the owner document with an explicit stack; `f` is this node's subtree. */
    method SetDocument(doc: nat, ghost f: Forest)
      requires f.Cons? && f.node == this && f.next.Nil? && Shape(f) && Distinct(f)
      modifies Nodes(f)`document
      ensures forall n :: n in Nodes(f) ==>
                n.document == if n in Reached(f, doc, old(Documents(f))) then doc else old(Documents(f))[n]
    {
      hide Reversed, Shape, Distinct, Nodes, Tops, Size, Reached, Append;
      assert allocated(Nodes(f));
      ghost var docs := Documents(f);
      UnfoldDistinct(f, doc, docs);
      Nothing(f.next, doc, docs);
      if document != doc {
        ghost var g, done := f, {};
        FirstStack(f);
        var stack: seq<Node> := [this];
        while stack != []
          invariant stack == Reversed(Tops(g)) && Shape(g) && Distinct(g)
          invariant Nodes(g) <= Nodes(f) && done <= Nodes(f) && done !! Nodes(g)
          invariant done + Reached(g, doc, docs) == Reached(f, doc, docs)
          invariant forall n :: n in Nodes(f) ==> n.document == if n in done then doc else docs[n]
          decreases Size(g)
        {
          Unfold(g);
          UnfoldDistinct(g, doc, docs);
          ReversedLast(Tops(g));
          var node := stack[|stack| - 1];
          stack := stack[..|stack| - 1];
          if node.document == doc {
            g := g.next;
            continue;
          }
          AppendFacts(g.kids, g.next);
          AppendDistinct(g.kids, g.next);
          ReachedAppend(g.kids, g.next, doc, docs);
          done := done + {node};
          node.document := doc;
          var childs := node.childs;
          stack := PushAll(stack, childs);
          ReversedAppend(childs, Tops(g.next));
          g := Append(g.kids, g.next);
        }
        Nothing(g, doc, docs);
      }
    }

    /** `XmlElement::getTextContent`. */
    method GetTextContent(ghost f: Forest) returns (retVal: string)
      requires nodeType == Element && f.Cons? && f.node == this && f.next.Nil? && Shape(f)
      ensures retVal == TextOf(f)
    {
      hide Reversed, Shape, Nodes, Tops, Size, TextOf, Append, Choose, Chosen;
      assert allocated(Nodes(f));
      retVal := "";
      ghost var g := f;
      FirstStack(f);
      var stack: seq<Node> := [this];
      while stack != []
        invariant stack == Reversed(Tops(g)) && Shape(g) && TextualTops(g)
        invariant retVal + TextOf(g) == TextOf(f) && Nodes(g) <= Nodes(f)
        decreases Size(g)
      {
        Unfold(g);
        UnfoldText(g);
        ReversedLast(Tops(g));
        var node := stack[|stack| - 1];
        stack := stack[..|stack| - 1];
        if node.nodeType == Text {
          retVal := retVal + node.value;
          g := g.next;
          continue;
        }
        var childs := node.childs;
        stack := PushTextual(stack, childs);
        ChosenFacts(g.kids);
        AppendFacts(Choose(g.kids), g.next);
        TextAppend(Choose(g.kids), g.next);
        ReversedAppend(Chosen(childs), Tops(g.next));
        g := Append(Choose(g.kids), g.next);
      }
      Nothing(g, 0, map n | n in Nodes(g) :: 0);
    }

    /** Type, name, value, attributes and number of children. */
    method IsEqualNodeSelf(other: Node) returns (equal: bool)
      ensures equal <==> SelfEqual(this, other)
    {
      if other.nodeType != nodeType || other.name != name || other.value != value {
        return false;
      }
      if nodeType == Element {
        if |attributes| != |other.attributes| {
          return false;
        }
        var i := 0;
        while i < |attributes|
          invariant i <= |attributes|
          invariant forall k :: 0 <= k < i ==> GetNamedItem(other.attributes, attributes[k].name) == Some(attributes[k].value)
        {
          var found := GetNamedItem(other.attributes, attributes[i].name);
          if found.None? || found.value != attributes[i].value {
            return false;
          }
          i := i + 1;
        }
      }
      equal := |childs| == |other.childs|;
    }

    /** The pairwise walk: one frame per level, holding a node of each tree. */
    method IsEqualNode(other: Node?, ghost f: Forest, ghost g: Forest) returns (retVal: bool)
      requires f.Cons? && f.node == this && f.next.Nil? && Shape(f)
      requires other != null ==> g.Cons? && g.node == other && g.next.Nil? && Shape(g)
      ensures retVal <==> other != null && DeepEqual(f, g)
    {
      if other == null {
        return false;
      }
      hide DeepEqual, Nodes, Shape, SelfEqual, TotalSize, Within, Walk;
      assert allocated(Nodes(f)) && allocated(Nodes(g));
      WalkStart(f, g);
      var equal := IsEqualNodeSelf(other);
      if !equal {
        return false;
      }
      var stack := [Frame(this, other, 0)];
      ghost var pend := [(f.kids, g.kids)];
      while stack != []
        invariant Within(stack, pend, f, g) && Walk(stack, pend, f, g)
        decreases TotalSize(pend), |stack|
      {
        equal, stack, pend := CompareNext(stack, pend, f, g);
        if !equal {
          return false;
        }
      }
      WalkEnd(pend, f, g);
      retVal := true;
    }

    /** One round of the walk. */
    static method CompareNext(stack: seq<Frame>, ghost pend: seq<(Forest, Forest)>, ghost f: Forest, ghost g: Forest)
      returns (equal: bool, stack': seq<Frame>, ghost pend': seq<(Forest, Forest)>)
      requires stack != [] && Within(stack, pend, f, g) && Walk(stack, pend, f, g)
      ensures !equal ==> !DeepEqual(f, g)
      ensures equal ==> Within(stack', pend', f, g) && Walk(stack', pend', f, g)
      ensures equal && |stack'| >= |stack| ==> TotalSize(pend') < TotalSize(pend)
      ensures equal ==> TotalSize(pend') <= TotalSize(pend)
    {
      hide DeepEqual, Nodes, Shape, SelfEqual, TotalSize, Within, Walk, FrameAt;
      assert allocated(Nodes(f)) && allocated(Nodes(g));
      LastFrame(stack, pend, f, g);
      var top := |stack| - 1;
      var rest, frame := stack[..top], stack[top];
      ghost var restP, fa, fb := pend[..top], pend[top].0, pend[top].1;
      if frame.index >= |frame.a.childs| {
        WalkPop(rest, frame, restP, fa, fb, f, g);
        return true, rest, restP;
      }
      WalkDown(rest, frame, restP, fa, fb, f, g);
      var aChild, bChild := frame.a.childs[frame.index], frame.b.childs[frame.index];
      stack' := rest + [frame.(index := frame.index + 1)];
      pend' := restP + [(fa.next, fb.next)];
      equal := aChild.IsEqualNodeSelf(bChild);
      if equal && |aChild.childs| > 0 {
        stack' := stack' + [Frame(aChild, bChild, 0)];
        pend' := pend' + [(fa.kids, fb.kids)];
      }
    }
  }

  /** One level of the pairwise walk. */
  datatype Frame = Frame(a: Node, b: Node, index: nat)

  /** A list of siblings, each with the list of its children: the finite shape behind the pointers. */
  datatype Forest = Nil | Cons(node: Node, kids: Forest, next: Forest)

  function Nodes(f: Forest): set<Node> {
    if f.Nil? then {} else {f.node} + Nodes(f.kids) + Nodes(f.next)
  }

  /** The roots of a forest in order. */
  function Tops(f: Forest): seq<Node> {
    if f.Nil? then [] else [f.node] + Tops(f.next)
  }

  function Size(f: Forest): nat {
    if f.Nil? then 0 else 1 + Size(f.kids) + Size(f.next)
  }

  function Append(f: Forest, g: Forest): Forest {
    if f.Nil? then g else Cons(f.node, f.kids, Append(f.next, g))
  }

  /** The child lists have the shape `f`. */
  ghost predicate Shape(f: Forest)
    reads Nodes(f)
  {
    f.Cons? ==> f.node.childs == Tops(f.kids) && Shape(f.kids) && Shape(f.next)
  }

  /** No node occurs twice. */
  ghost predicate Distinct(f: Forest) {
    f.Cons? ==>
      && f.node !in Nodes(f.kids) && f.node !in Nodes(f.next) && Nodes(f.kids) !! Nodes(f.next)
      && Distinct(f.kids) && Distinct(f.next)
  }

  /** Back links: every root of `f` has parent `p`, and its position in the list counted from `base`. */
  ghost predicate Linked(f: Forest, p: Node?, base: int)
    reads Nodes(f)
  {
    f.Cons? ==> f.node.parent == p && f.node.index == base && Linked(f.kids, f.node, 0) && Linked(f.next, p, base + 1)
  }

  /** `f` is the whole tree of a root: no parent above, every link below in place. */
  ghost predicate Tree(f: Forest)
    reads Nodes(f)
  {
    f.Cons? && f.next.Nil? && f.node.parent == null && Linked(f.kids, f.node, 0) && Shape(f) && Distinct(f)
  }

  /** Document order of the whole forest. */
  ghost function Preorder(f: Forest): seq<Node> {
    if f.Nil? then [] else [f.node] + Preorder(f.kids) + Preorder(f.next)
  }

  /** `a` comes before `b` in document order. */
  ghost predicate Before(f: Forest, a: Node, b: Node) {
    exists i, j :: 0 <= i < j < |Preorder(f)| && Preorder(f)[i] == a && Preorder(f)[j] == b
  }

  /** `a` lies strictly below `b`. */
  ghost predicate Below(f: Forest, a: Node, b: Node) {
    f.Cons? && ((f.node == b && a in Nodes(f.kids)) || Below(f.kids, a, b) || Below(f.next, a, b))
  }

  // ---------------------------------------------------------------- position bits

  const DISCONNECTED := 1
  const PRECEDING := 2
  const FOLLOWING := 4
  const CONTAINS := 8
  const CONTAINED_BY := 16

  /** The answer for two nodes of one tree. */
  ghost function Position(f: Forest, a: Node, b: Node): int
    requires a in Nodes(f) && b in Nodes(f)
  {
    if a == b then 0
    else if Below(f, a, b) then CONTAINS + PRECEDING
    else if Below(f, b, a) then CONTAINED_BY + FOLLOWING
    else if Before(f, a, b) then FOLLOWING
    else PRECEDING
  }

  predicate Has(position: int, bit: int)
    requires bit > 0
  {
    position / bit % 2 == 1
  }

  // ---------------------------------------------------------------- facts about shapes

  lemma {:induction false} AppendFacts(f: Forest, g: Forest)
    ensures Tops(Append(f, g)) == Tops(f) + Tops(g)
    ensures Nodes(Append(f, g)) == Nodes(f) + Nodes(g)
    ensures Size(Append(f, g)) == Size(f) + Size(g)
    ensures Shape(f) && Shape(g) ==> Shape(Append(f, g))
  {
    if f.Cons? {
      AppendFacts(f.next, g);
    }
  }

  lemma {:induction false} AppendDistinct(f: Forest, g: Forest)
    requires Distinct(f) && Distinct(g) && Nodes(f) !! Nodes(g)
    ensures Distinct(Append(f, g))
  {
    if f.Cons? {
      AppendFacts(f.next, g);
      AppendDistinct(f.next, g);
    }
  }

  /** The child lists determine the forest. */
  lemma {:induction false} ShapeUnique(f: Forest, g: Forest)
    requires Shape(f) && Shape(g) && Tops(f) == Tops(g)
    ensures f == g
  {
    if f.Cons? {
      assert Tops(f)[0] == Tops(g)[0] && Tops(f)[1..] == Tops(g)[1..];
      assert Tops(f)[1..] == Tops(f.next) && Tops(g)[1..] == Tops(g.next);
      ShapeUnique(f.kids, g.kids);
      ShapeUnique(f.next, g.next);
    }
  }

  lemma {:induction false} PreorderNodes(f: Forest)
    ensures forall n :: n in Nodes(f) ==> n in Preorder(f)
    ensures forall i :: 0 <= i < |Preorder(f)| ==> Preorder(f)[i] in Nodes(f)
  {
    if f.Cons? {
      PreorderNodes(f.kids);
      PreorderNodes(f.next);
    }
  }

  /** No node twice in document order. */
  lemma {:induction false} PreorderDistinct(f: Forest)
    requires Distinct(f)
    ensures forall i, j :: 0 <= i < j < |Preorder(f)| ==> Preorder(f)[i] != Preorder(f)[j]
  {
    if f.Cons? {
      PreorderNodes(f.kids);
      PreorderNodes(f.next);
      PreorderDistinct(f.kids);
      PreorderDistinct(f.next);
      var s, k, m := Preorder(f), Preorder(f.kids), Preorder(f.next);
      forall i, j | 0 <= i < j < |s|
        ensures s[i] != s[j]
      {
        assert i >= 1 ==> s[i] == if i <= |k| then k[i - 1] else m[i - 1 - |k|];
        assert s[j] == if j <= |k| then k[j - 1] else m[j - 1 - |k|];
      }
    }
  }

  lemma {:induction false} BelowNodes(f: Forest, a: Node, b: Node)
    requires Below(f, a, b)
    ensures a in Nodes(f) && b in Nodes(f)
  {
    if f.node == b && a in Nodes(f.kids) {
    } else if Below(f.kids, a, b) {
      BelowNodes(f.kids, a, b);
    } else {
      BelowNodes(f.next, a, b);
    }
  }

  lemma BeforeAt(f: Forest, i: nat, j: nat)
    requires i < j < |Preorder(f)|
    ensures Before(f, Preorder(f)[i], Preorder(f)[j])
  {
  }

  lemma PlaceOf(f: Forest, a: Node) returns (i: nat)
    requires a in Nodes(f)
    ensures i < |Preorder(f)| && Preorder(f)[i] == a
  {
    PreorderNodes(f);
    i :| i < |Preorder(f)| && Preorder(f)[i] == a;
  }

  /** Document order of distinct nodes is total and has no ties. */
  lemma BeforeEither(f: Forest, a: Node, b: Node)
    requires Distinct(f) && a in Nodes(f) && b in Nodes(f) && a != b
    ensures Before(f, a, b) <==> !Before(f, b, a)
  {
    hide Preorder, Nodes, Distinct;
    PreorderDistinct(f);
    var i := PlaceOf(f, a);
    var j := PlaceOf(f, b);
    if i < j {
      BeforeAt(f, i, j);
    } else {
      BeforeAt(f, j, i);
    }
  }

  /** The root first, its descendants next, the later trees last. */
  lemma RootPlace(f: Forest)
    requires f.Cons?
    ensures Preorder(f) != [] && Preorder(f)[0] == f.node
  {
  }

  lemma KidPlace(f: Forest, i: nat)
    requires f.Cons? && i < |Preorder(f.kids)|
    ensures 1 + i < |Preorder(f)| && Preorder(f)[1 + i] == Preorder(f.kids)[i]
  {
  }

  lemma NextPlace(f: Forest, i: nat)
    requires f.Cons? && i < |Preorder(f.next)|
    ensures 1 + |Preorder(f.kids)| + i < |Preorder(f)|
    ensures Preorder(f)[1 + |Preorder(f.kids)| + i] == Preorder(f.next)[i]
  {
  }

  /** How the order of a forest comes from its parts. */
  lemma BeforeParts(f: Forest, a: Node, b: Node)
    requires f.Cons?
    ensures a == f.node && b in Nodes(f.kids) + Nodes(f.next) ==> Before(f, a, b)
    ensures a in Nodes(f.kids) && b in Nodes(f.next) ==> Before(f, a, b)
    ensures Before(f.kids, a, b) || Before(f.next, a, b) ==> Before(f, a, b)
  {
    hide Preorder, Nodes;
    RootPlace(f);
    var k := |Preorder(f.kids)|;
    if b in Nodes(f.next) {
      var j := PlaceOf(f.next, b);
      NextPlace(f, j);
      if a == f.node {
        BeforeAt(f, 0, 1 + k + j);
      } else if a in Nodes(f.kids) {
        var i := PlaceOf(f.kids, a);
        KidPlace(f, i);
        BeforeAt(f, 1 + i, 1 + k + j);
      }
    }
    if a == f.node && b in Nodes(f.kids) {
      var j := PlaceOf(f.kids, b);
      KidPlace(f, j);
      BeforeAt(f, 0, 1 + j);
    }
    if Before(f.kids, a, b) {
      var i, j :| 0 <= i < j < k && Preorder(f.kids)[i] == a && Preorder(f.kids)[j] == b;
      KidPlace(f, i);
      KidPlace(f, j);
      BeforeAt(f, 1 + i, 1 + j);
    }
    if Before(f.next, a, b) {
      var i, j :| 0 <= i < j < |Preorder(f.next)| && Preorder(f.next)[i] == a && Preorder(f.next)[j] == b;
      NextPlace(f, i);
      NextPlace(f, j);
      BeforeAt(f, 1 + k + i, 1 + k + j);
    }
  }

  /** An ancestor comes before everything below it. */
  lemma {:induction false} BelowIsAfter(f: Forest, a: Node, b: Node)
    requires Distinct(f) && Below(f, a, b)
    ensures Before(f, b, a)
  {
    BeforeParts(f, b, a);
    if f.node == b && a in Nodes(f.kids) {
    } else if Below(f.kids, a, b) {
      BelowIsAfter(f.kids, a, b);
    } else {
      BelowIsAfter(f.next, a, b);
    }
  }

  // ---------------------------------------------------------------- ancestor chains

  /** The node and its ancestors inside `f`, innermost first. */
  ghost function Chain(f: Forest, a: Node): (c: seq<Node>)
    requires a in Nodes(f)
    ensures |c| > 0 && c[0] == a
  {
    if a == f.node then [a]
    else if a in Nodes(f.kids) then Chain(f.kids, a) + [f.node]
    else Chain(f.next, a)
  }

  /** The chain is what following `parent` visits. */
  lemma {:induction false} ChainLinked(f: Forest, p: Node?, base: int, a: Node)
    requires Linked(f, p, base) && a in Nodes(f)
    ensures var c := Chain(f, a);
            && (forall i :: 0 <= i < |c| - 1 ==> c[i].parent == c[i + 1])
            && c[|c| - 1].parent == p && base <= c[|c| - 1].index
            && forall i :: 0 <= i < |c| ==> c[i] in Nodes(f)
  {
    if a == f.node {
    } else if a in Nodes(f.kids) {
      ChainLinked(f.kids, f.node, 0, a);
    } else {
      ChainLinked(f.next, p, base + 1, a);
    }
  }

  lemma {:induction false} ChainTail(f: Forest, a: Node, i: nat)
    requires Distinct(f) && a in Nodes(f) && i < |Chain(f, a)|
    ensures Chain(f, a)[i] in Nodes(f) && Chain(f, Chain(f, a)[i]) == Chain(f, a)[i..]
  {
    if a == f.node {
    } else if a in Nodes(f.kids) {
      if i < |Chain(f.kids, a)| {
        ChainTail(f.kids, a, i);
      }
    } else {
      ChainTail(f.next, a, i);
    }
  }

  /** Above a node in its chain are exactly the nodes it lies below. */
  lemma {:induction false} ChainBelow(f: Forest, a: Node, b: Node)
    requires Distinct(f) && a in Nodes(f)
    ensures Below(f, a, b) <==> b in Chain(f, a)[1..]
  {
    if a == f.node {
      if Below(f, a, b) {
        NotBelowFirst(f, b);
      }
    } else if a in Nodes(f.kids) {
      ChainBelow(f.kids, a, b);
      assert Chain(f, a)[1..] == Chain(f.kids, a)[1..] + [f.node];
      if Below(f.next, a, b) {
        BelowNodes(f.next, a, b);
      }
    } else {
      ChainBelow(f.next, a, b);
      if Below(f.kids, a, b) {
        BelowNodes(f.kids, a, b);
      }
    }
  }

  lemma NotBelowFirst(f: Forest, b: Node)
    requires f.Cons? && Distinct(f)
    ensures !Below(f, f.node, b)
  {
    if Below(f.kids, f.node, b) {
      BelowNodes(f.kids, f.node, b);
    } else if Below(f.next, f.node, b) {
      BelowNodes(f.next, f.node, b);
    }
  }

  /** Two chains that part company: the order of the two siblings they come through is the order of the nodes. */
  lemma {:induction false} Diverge(f: Forest, p: Node?, base: int, a: Node, b: Node, i: nat, j: nat)
    requires Linked(f, p, base) && Distinct(f) && a in Nodes(f) && b in Nodes(f)
    requires i < |Chain(f, a)| && j < |Chain(f, b)|
    requires Chain(f, a)[i] != Chain(f, b)[j] && Chain(f, a)[i + 1..] == Chain(f, b)[j + 1..]
    ensures var u, v := Chain(f, a)[i], Chain(f, b)[j];
            && (u.index < v.index ==> Before(f, a, b))
            && (u.index >= v.index ==> Before(f, b, a))
  {
    var ca, cb := Chain(f, a), Chain(f, b);
    BeforeParts(f, a, b);
    BeforeParts(f, b, a);
    var aHere, bHere := a == f.node || a in Nodes(f.kids), b == f.node || b in Nodes(f.kids);
    if aHere && bHere {
      assert ca[|ca| - 1] == f.node && cb[|cb| - 1] == f.node;
      assert |ca| - i == |cb| - j;
      assert i < |ca| - 1;
      var ka, kb := Chain(f.kids, a), Chain(f.kids, b);
      assert ka[i + 1..] == ca[i + 1..|ca| - 1] == ca[i + 1..][..|ca| - i - 2];
      assert kb[j + 1..] == cb[j + 1..|cb| - 1] == cb[j + 1..][..|cb| - j - 2];
      Diverge(f.kids, f.node, 0, a, b, i, j);
    } else if !aHere && !bHere {
      Diverge(f.next, p, base + 1, a, b, i, j);
    } else if aHere {
      ApartTops(f, p, base, a, b, i, j);
    } else {
      ApartTops(f, p, base, b, a, j, i);
    }
  }

  lemma SameEnd(c: seq<Node>, d: seq<Node>, i: nat, j: nat)
    requires i < |c| && j < |d| && c[i + 1..] == d[j + 1..]
    ensures |c| - i == |d| - j && (i + 1 < |c| ==> c[|c| - 1] == d[|d| - 1])
  {
    assert i + 1 < |c| ==> c[i + 1..][|c| - i - 2] == d[j + 1..][|d| - j - 2];
  }

  /** One node in the first tree of the forest, the other behind it: the chains meet nowhere. */
  lemma ApartTops(f: Forest, p: Node?, base: int, a: Node, b: Node, i: nat, j: nat)
    requires Linked(f, p, base) && Distinct(f) && a in Nodes(f) && b in Nodes(f.next) && a !in Nodes(f.next)
    requires i < |Chain(f, a)| && j < |Chain(f, b)| && Chain(f, a)[i + 1..] == Chain(f, b)[j + 1..]
    ensures Chain(f, a)[i].index < Chain(f, b)[j].index
  {
    var ca, cb := Chain(f, a), Chain(f, b);
    ChainLinked(f.next, p, base + 1, b);
    assert cb == Chain(f.next, b) && ca[|ca| - 1] == f.node;
    SameEnd(ca, cb, i, j);
  }

  /** The root determines the tree. */
  lemma TreeUnique(f: Forest, g: Forest)
    requires Tree(f) && Tree(g) && f.node == g.node
    ensures f == g
  {
    assert Tops(f.next) == [] && Tops(g.next) == [];
    assert Tops(f) == [f.node];
    assert Tops(g) == [g.node];
    ShapeUnique(f, g);
  }

  /** Following `parent` from a node of a whole tree. */
  lemma TreeChain(f: Forest, a: Node)
    requires Tree(f) && a in Nodes(f)
    ensures var c := Chain(f, a);
            && (forall i :: 0 <= i < |c| - 1 ==> c[i].parent == c[i + 1])
            && c[|c| - 1] == f.node && f.node.parent == null
  {
    if a != f.node {
      ChainLinked(f.kids, f.node, 0, a);
    }
  }

  /** The nested scan of `compareDocumentPosition` for the first common ancestor. */
  method FirstCommon(thisChain: seq<Node>, otherChain: seq<Node>) returns (i: nat, j: nat)
    requires exists x :: x in thisChain && x in otherChain
    ensures i < |thisChain| && j < |otherChain| && thisChain[i] == otherChain[j]
    ensures forall k :: 0 <= k < i ==> thisChain[k] !in otherChain
    ensures thisChain[i] !in otherChain[..j]
  {
    i := 0;
    while i < |thisChain|
      invariant i <= |thisChain|
      invariant forall k :: 0 <= k < i ==> thisChain[k] !in otherChain
    {
      j := 0;
      while j < |otherChain|
        invariant j <= |otherChain| && thisChain[i] !in otherChain[..j]
      {
        if thisChain[i] == otherChain[j] {
          return;
        }
        j := j + 1;
      }
      assert otherChain[..j] == otherChain;
      i := i + 1;
    }
    assert false;
  }

  lemma BehindHead(c: seq<Node>)
    ensures forall k :: 0 < k < |c| ==> c[k] in c[1..]
  {
    forall k | 0 < k < |c|
      ensures c[k] in c[1..]
    {
      assert c[1..][k - 1] == c[k];
    }
  }

  /** Just below the first common ancestor stand two siblings, and their indexes give the document order. */
  lemma Meeting(f: Forest, a: Node, b: Node, i: nat, j: nat)
    requires Tree(f) && a in Nodes(f) && b in Nodes(f) && a != b && !Below(f, a, b) && !Below(f, b, a)
    requires i < |Chain(f, a)| && j < |Chain(f, b)| && Chain(f, a)[i] == Chain(f, b)[j]
    requires forall k :: 0 <= k < i ==> Chain(f, a)[k] !in Chain(f, b)
    ensures i > 0 && j > 0
    ensures Chain(f, a)[i - 1].index < Chain(f, b)[j - 1].index <==> Before(f, a, b)
  {
    var ca, cb := Chain(f, a), Chain(f, b);
    ChainBelow(f, a, b);
    ChainBelow(f, b, a);
    BehindHead(ca);
    BehindHead(cb);
    ChainTail(f, a, i);
    ChainTail(f, b, j);
    assert ca[i - 1] != cb[j - 1];
    assert f.node in Nodes(f) && Linked(f, null, f.node.index);
    Diverge(f, null, f.node.index, a, b, i - 1, j - 1);
    BeforeEither(f, a, b);
  }

  /** The four bits say what the standard says they say. */
  lemma PositionBits(f: Forest, a: Node, b: Node)
    requires Distinct(f) && a in Nodes(f) && b in Nodes(f) && a != b
    ensures Has(Position(f, a, b), FOLLOWING) <==> Before(f, a, b)
    ensures Has(Position(f, a, b), PRECEDING) <==> Before(f, b, a)
    ensures Has(Position(f, a, b), CONTAINS) <==> Below(f, a, b)
    ensures Has(Position(f, a, b), CONTAINED_BY) <==> Below(f, b, a)
    ensures !Has(Position(f, a, b), DISCONNECTED)
  {
    hide Before, Below, Distinct, Nodes;
    BeforeEither(f, a, b);
    if Below(f, a, b) {
      BelowIsAfter(f, a, b);
      if Below(f, b, a) {
        BelowIsAfter(f, b, a);
      }
    } else if Below(f, b, a) {
      BelowIsAfter(f, b, a);
    }
  }

  /** Asking the other way round swaps both pairs of bits. */
  lemma PositionSwaps(f: Forest, a: Node, b: Node)
    requires Distinct(f) && a in Nodes(f) && b in Nodes(f) && a != b
    ensures Has(Position(f, a, b), FOLLOWING) == Has(Position(f, b, a), PRECEDING)
    ensures Has(Position(f, a, b), CONTAINS) == Has(Position(f, b, a), CONTAINED_BY)
  {
    PositionBits(f, a, b);
    PositionBits(f, b, a);
  }

  // ---------------------------------------------------------------- stacks

  /** A vector used as a stack lists its top last. */
  function Reversed<T>(s: seq<T>): (r: seq<T>)
    ensures |r| == |s|
  {
    if s == [] then [] else Reversed(s[1..]) + [s[0]]
  }

  /** The loop that pushes children last to first. */
  method PushAll<T>(stack: seq<T>, childs: seq<T>) returns (pushed: seq<T>)
    ensures pushed == stack + Reversed(childs)
  {
    pushed := stack;
    var i := |childs|;
    while i > 0
      invariant 0 <= i <= |childs| && pushed == stack + Reversed(childs[i..])
    {
      assert childs[i - 1..][1..] == childs[i..];
      pushed := pushed + [childs[i - 1]];
      i := i - 1;
    }
    assert childs[0..] == childs;
  }

  /** The same loop, keeping elements and text nodes only. */
  method PushTextual(stack: seq<Node>, childs: seq<Node>) returns (pushed: seq<Node>)
    ensures pushed == stack + Reversed(Chosen(childs))
  {
    pushed := stack;
    var i := |childs|;
    while i > 0
      invariant 0 <= i <= |childs| && pushed == stack + Reversed(Chosen(childs[i..]))
    {
      var child := childs[i - 1];
      assert childs[i - 1..][1..] == childs[i..];
      ghost var rest := Chosen(childs[i..]);
      assert ([child] + rest)[1..] == rest;
      if child.nodeType == Element || child.nodeType == Text {
        pushed := pushed + [child];
      } else {
        assert [] + rest == rest;
      }
      i := i - 1;
    }
    assert childs[0..] == childs;
  }

  lemma ReversedLast<T>(s: seq<T>)
    requires s != []
    ensures Reversed(s)[|s| - 1] == s[0] && Reversed(s)[..|s| - 1] == Reversed(s[1..])
  {
  }

  lemma {:induction false} ReversedAppend<T>(s: seq<T>, t: seq<T>)
    ensures Reversed(s + t) == Reversed(t) + Reversed(s)
  {
    if s == [] {
      assert s + t == t;
    } else {
      ReversedAppend(s[1..], t);
      assert (s + t)[1..] == s[1..] + t;
    }
  }

  /** The stack the walks start with. */
  lemma FirstStack(f: Forest)
    requires f.Cons? && f.next.Nil?
    ensures [f.node] == Reversed(Tops(f))
  {
    assert Tops(f.next) == [];
    assert Tops(f) == [f.node];
  }

  /** What one pop uncovers. */
  lemma Unfold(g: Forest)
    requires Shape(g) && Tops(g) != []
    ensures g.Cons? && g.node.childs == Tops(g.kids) && Shape(g.kids) && Shape(g.next)
    ensures Tops(g)[0] == g.node && Tops(g)[1..] == Tops(g.next)
    ensures Nodes(g) == {g.node} + Nodes(g.kids) + Nodes(g.next)
    ensures Size(g) == 1 + Size(g.kids) + Size(g.next)
  {
  }

  // ---------------------------------------------------------------- setDocument

  ghost function Documents(f: Forest): (docs: map<Node, nat>)
    reads Nodes(f)
  {
    map n | n in Nodes(f) :: n.document
  }

  /** The nodes the walk rewrites: it does not enter a subtree whose root already has the document. */
  ghost function Reached(f: Forest, doc: nat, docs: map<Node, nat>): (r: set<Node>)
    requires Nodes(f) <= docs.Keys
    ensures r <= Nodes(f)
  {
    if f.Nil? then {}
    else (if docs[f.node] == doc then {} else {f.node} + Reached(f.kids, doc, docs)) + Reached(f.next, doc, docs)
  }

  lemma {:induction false} ReachedAppend(f: Forest, g: Forest, doc: nat, docs: map<Node, nat>)
    requires Nodes(f) <= docs.Keys && Nodes(g) <= docs.Keys
    ensures Nodes(Append(f, g)) == Nodes(f) + Nodes(g)
    ensures Reached(Append(f, g), doc, docs) == Reached(f, doc, docs) + Reached(g, doc, docs)
  {
    AppendFacts(f, g);
    if f.Cons? {
      ReachedAppend(f.next, g, doc, docs);
    }
  }

  lemma UnfoldDistinct(g: Forest, doc: nat, docs: map<Node, nat>)
    requires g.Cons? && Distinct(g) && Nodes(g) <= docs.Keys
    ensures Distinct(g.kids) && Distinct(g.next) && Nodes(g.kids) !! Nodes(g.next)
    ensures g.node in Nodes(g) && g.node !in Nodes(g.kids) && g.node !in Nodes(g.next)
    ensures Nodes(g.kids) <= Nodes(g) && Nodes(g.next) <= Nodes(g)
    ensures Reached(g, doc, docs)
         == (if docs[g.node] == doc then {} else {g.node} + Reached(g.kids, doc, docs)) + Reached(g.next, doc, docs)
  {
  }

  lemma Nothing(g: Forest, doc: nat, docs: map<Node, nat>)
    requires Nodes(g) <= docs.Keys && (g.Nil? || Tops(g) == [])
    ensures Nodes(g) == {} && Reached(g, doc, docs) == {} && TextOf(g) == ""
  {
  }

  /** Below a node that already has the document, every node has it. */
  ghost predicate Settled(f: Forest, doc: nat, docs: map<Node, nat>)
    requires Nodes(f) <= docs.Keys
  {
    f.Cons? ==>
      && (if docs[f.node] == doc then forall n :: n in Nodes(f.kids) ==> docs[n] == doc else Settled(f.kids, doc, docs))
      && Settled(f.next, doc, docs)
  }

  /** `setDocument` reaches the whole subtree exactly when no node with the document hides one without it. */
  lemma {:induction false} WholeSubtreeIff(f: Forest, doc: nat, docs: map<Node, nat>)
    requires Nodes(f) <= docs.Keys && Distinct(f)
    ensures (forall n :: n in Nodes(f) ==> docs[n] == doc || n in Reached(f, doc, docs)) <==> Settled(f, doc, docs)
  {
    if f.Cons? {
      WholeSubtreeIff(f.kids, doc, docs);
      WholeSubtreeIff(f.next, doc, docs);
      assert forall n :: n in Nodes(f.kids) ==> n !in Reached(f.next, doc, docs);
      assert forall n :: n in Nodes(f.next) ==> n !in Reached(f.kids, doc, docs);
    }
  }

  /** A subtree whose nodes share one document is rewritten as a whole. */
  lemma {:induction false} SharedDocument(f: Forest, doc: nat, docs: map<Node, nat>, shared: nat)
    requires Nodes(f) <= docs.Keys && forall n :: n in Nodes(f) ==> docs[n] == shared
    ensures Settled(f, doc, docs)
  {
    if f.Cons? {
      SharedDocument(f.kids, doc, docs, shared);
      SharedDocument(f.next, doc, docs, shared);
    }
  }

  // ---------------------------------------------------------------- text content

  predicate Textual(n: Node)
    reads n
  {
    n.nodeType == Element || n.nodeType == Text
  }

  ghost predicate TextualTops(f: Forest)
    reads Nodes(f)
  {
    f.Cons? ==> Textual(f.node) && TextualTops(f.next)
  }

  /** Text below the elements of a forest; anything that is neither element nor text is passed over. */
  ghost function TextOf(f: Forest): string
    reads Nodes(f)
  {
    if f.Nil? then ""
    else
      (if f.node.nodeType == Text then f.node.value else if f.node.nodeType == Element then TextOf(f.kids) else "")
      + TextOf(f.next)
  }

  lemma UnfoldText(g: Forest)
    requires g.Cons?
    ensures TextOf(g)
         == (if g.node.nodeType == Text then g.node.value else if g.node.nodeType == Element then TextOf(g.kids) else "")
            + TextOf(g.next)
  {
  }

  /** The children that are pushed. */
  function Chosen(s: seq<Node>): seq<Node>
    reads s
  {
    if s == [] then [] else (if Textual(s[0]) then [s[0]] else []) + Chosen(s[1..])
  }

  ghost function Choose(f: Forest): Forest
    reads Nodes(f)
  {
    if f.Nil? then Nil else if Textual(f.node) then Cons(f.node, f.kids, Choose(f.next)) else Choose(f.next)
  }

  lemma {:induction false} ChosenFacts(f: Forest)
    requires Shape(f)
    ensures Tops(Choose(f)) == Chosen(Tops(f)) && Size(Choose(f)) <= Size(f)
    ensures Nodes(Choose(f)) <= Nodes(f) && Shape(Choose(f)) && TextOf(Choose(f)) == TextOf(f)
    ensures TextualTops(Choose(f))
  {
    if f.Cons? {
      ChosenFacts(f.next);
      assert Tops(f)[1..] == Tops(f.next);
    }
  }

  lemma {:induction false} TextAppend(f: Forest, g: Forest)
    ensures TextOf(Append(f, g)) == TextOf(f) + TextOf(g)
    ensures TextualTops(f) && TextualTops(g) ==> TextualTops(Append(f, g))
  {
    if f.Cons? {
      TextAppend(f.next, g);
    }
  }

  ghost predicate OnlyElementsHaveChildren(f: Forest)
    reads Nodes(f)
  {
    f.Cons? ==>
      && (f.node.nodeType != Element ==> f.kids.Nil?)
      && OnlyElementsHaveChildren(f.kids) && OnlyElementsHaveChildren(f.next)
  }

  /** The values of the text nodes of a list, in its order. */
  ghost function Values(s: seq<Node>): string
    reads s
  {
    if s == [] then "" else (if s[0].nodeType == Text then s[0].value else "") + Values(s[1..])
  }

  lemma {:induction false} ValuesAppend(s: seq<Node>, t: seq<Node>)
    ensures Values(s + t) == Values(s) + Values(t)
  {
    if s == [] {
      assert s + t == t;
    } else {
      ValuesAppend(s[1..], t);
      assert (s + t)[1..] == s[1..] + t;
    }
  }

  /** The text content is every text node of the subtree in document order. */
  lemma {:induction false} TextInDocumentOrder(f: Forest)
    requires OnlyElementsHaveChildren(f)
    ensures TextOf(f) == Values(Preorder(f))
  {
    if f.Cons? {
      TextInDocumentOrder(f.kids);
      TextInDocumentOrder(f.next);
      ValuesAppend([f.node], Preorder(f.kids));
      ValuesAppend([f.node] + Preorder(f.kids), Preorder(f.next));
    }
  }

  // ---------------------------------------------------------------- equality

  /** The first attribute of that name. */
  function GetNamedItem(attrs: seq<Attr>, name: string): Option<string> {
    if attrs == [] then None
    else if attrs[0].name == name then Some(attrs[0].value)
    else GetNamedItem(attrs[1..], name)
  }

  predicate AttributesMatch(s: seq<Attr>, t: seq<Attr>) {
    |s| == |t| && forall k :: 0 <= k < |s| ==> GetNamedItem(t, s[k].name) == Some(s[k].value)
  }

  predicate SelfEqual(a: Node, b: Node)
    reads a, b
  {
    && a.nodeType == b.nodeType && a.name == b.name && a.value == b.value
    && (a.nodeType == Element ==> AttributesMatch(a.attributes, b.attributes))
    && |a.childs| == |b.childs|
  }

  ghost predicate DeepEqual(f: Forest, g: Forest)
    reads Nodes(f), Nodes(g)
  {
    if f.Nil? || g.Nil? then f.Nil? && g.Nil?
    else SelfEqual(f.node, g.node) && DeepEqual(f.kids, g.kids) && DeepEqual(f.next, g.next)
  }

  /** What equality is about: the subtree as a plain value, attributes as a map. */
  datatype Plain = Empty
                 | Plain(nodeType: NodeType, name: string, value: string, attributes: map<string, string>,
                         kids: Plain, next: Plain)

  ghost function View(f: Forest): Plain
    reads Nodes(f)
  {
    if f.Nil? then Empty
    else Plain(f.node.nodeType, f.node.name, f.node.value,
               if f.node.nodeType == Element then AttributeMap(f.node.attributes) else map[],
               View(f.kids), View(f.next))
  }

  function Names(attrs: seq<Attr>): set<string> {
    set k | 0 <= k < |attrs| :: attrs[k].name
  }

  /** A named node map holds each name once. */
  predicate UniqueNames(attrs: seq<Attr>) {
    forall i, j :: 0 <= i < j < |attrs| ==> attrs[i].name != attrs[j].name
  }

  ghost predicate UniqueAttributes(f: Forest)
    reads Nodes(f)
  {
    f.Cons? ==> UniqueNames(f.node.attributes) && UniqueAttributes(f.kids) && UniqueAttributes(f.next)
  }

  function AttributeMap(attrs: seq<Attr>): map<string, string> {
    map name | name in Names(attrs) && GetNamedItem(attrs, name).Some? :: GetNamedItem(attrs, name).value
  }

  lemma {:induction false} NamedItemIff(attrs: seq<Attr>, name: string)
    ensures GetNamedItem(attrs, name).Some? <==> name in Names(attrs)
    ensures GetNamedItem(attrs, name).Some? ==>
              exists k :: 0 <= k < |attrs| && attrs[k] == Attr(name, GetNamedItem(attrs, name).value)
  {
    if attrs != [] {
      NamedItemIff(attrs[1..], name);
      var s := attrs[1..];
      assert forall k :: 0 <= k < |s| ==> s[k] == attrs[k + 1];
      assert forall k :: 0 < k < |attrs| ==> attrs[k] == s[k - 1];
    }
  }

  lemma {:induction false} NamesCount(attrs: seq<Attr>)
    requires UniqueNames(attrs)
    ensures |Names(attrs)| == |attrs|
  {
    if attrs != [] {
      var s := attrs[..|attrs| - 1];
      NamesCount(s);
      var last := attrs[|attrs| - 1].name;
      assert Names(attrs) == Names(s) + {last};
      assert last !in Names(s);
    }
  }

  lemma SubsetOfSameSize(s: set<string>, t: set<string>)
    requires s <= t && |s| == |t|
    ensures s == t
  {
    assert |t - s| == |t| - |s|;
    assert t == s + (t - s);
  }

  lemma AttributesIff(s: seq<Attr>, t: seq<Attr>)
    requires UniqueNames(s) && UniqueNames(t)
    ensures AttributesMatch(s, t) <==> AttributeMap(s) == AttributeMap(t)
  {
    forall name
      ensures GetNamedItem(s, name).Some? <==> name in AttributeMap(s)
      ensures GetNamedItem(t, name).Some? <==> name in AttributeMap(t)
    {
      NamedItemIff(s, name);
      NamedItemIff(t, name);
    }
    if AttributesMatch(s, t) {
      MatchingMaps(s, t);
    } else if AttributeMap(s) == AttributeMap(t) {
      EqualMapsMatch(s, t);
    }
  }

  lemma MatchingMaps(s: seq<Attr>, t: seq<Attr>)
    requires UniqueNames(s) && UniqueNames(t) && AttributesMatch(s, t)
    ensures AttributeMap(s) == AttributeMap(t)
  {
    forall k | 0 <= k < |s|
      ensures s[k].name in Names(t)
    {
      NamedItemIff(t, s[k].name);
    }
    NamesCount(s);
    NamesCount(t);
    SubsetOfSameSize(Names(s), Names(t));
    forall name | name in Names(s)
      ensures GetNamedItem(s, name).Some? && GetNamedItem(s, name) == GetNamedItem(t, name)
    {
      NamedItemIff(s, name);
    }
  }

  lemma EqualMapsMatch(s: seq<Attr>, t: seq<Attr>)
    requires UniqueNames(s) && UniqueNames(t) && AttributeMap(s) == AttributeMap(t)
    ensures AttributesMatch(s, t)
  {
    forall name
      ensures name in Names(s) <==> name in AttributeMap(s)
      ensures name in Names(t) <==> name in AttributeMap(t)
    {
      NamedItemIff(s, name);
      NamedItemIff(t, name);
    }
    assert Names(s) == Names(t);
    NamesCount(s);
    NamesCount(t);
    forall k | 0 <= k < |s|
      ensures GetNamedItem(t, s[k].name) == Some(s[k].value)
    {
      NamedItemIff(s, s[k].name);
      NamedItemIff(t, s[k].name);
      assert s[k].name in Names(s);
      assert AttributeMap(s)[s[k].name] == s[k].value;
    }
  }

  lemma {:induction false} TopsCount(f: Forest, g: Forest)
    requires View(f) == View(g)
    ensures |Tops(f)| == |Tops(g)|
  {
    if f.Cons? {
      TopsCount(f.next, g.next);
    }
  }

  /** The walk decides equality of the two subtrees as values. */
  lemma {:induction false} EqualIffSameValue(f: Forest, g: Forest)
    requires Shape(f) && Shape(g) && UniqueAttributes(f) && UniqueAttributes(g)
    ensures DeepEqual(f, g) <==> View(f) == View(g)
  {
    hide AttributesMatch, AttributeMap, UniqueNames;
    if f.Cons? && g.Cons? {
      EqualIffSameValue(f.kids, g.kids);
      EqualIffSameValue(f.next, g.next);
      AttributesIff(f.node.attributes, g.node.attributes);
      if View(f.kids) == View(g.kids) {
        TopsCount(f.kids, g.kids);
      }
    }
  }

  /** A frame and the two lists of children it has still to compare. */
  ghost predicate FrameAt(frame: Frame, fa: Forest, fb: Forest)
    reads frame.a, frame.b, Nodes(fa), Nodes(fb)
  {
    && frame.index <= |frame.a.childs| == |frame.b.childs|
    && Tops(fa) == frame.a.childs[frame.index..] && Tops(fb) == frame.b.childs[frame.index..]
    && Shape(fa) && Shape(fb)
  }

  /** The frames and what they have still to compare lie inside the two subtrees. */
  ghost predicate Within(stack: seq<Frame>, pend: seq<(Forest, Forest)>, f: Forest, g: Forest) {
    |pend| == |stack| && forall k :: 0 <= k < |stack| ==> WithinAt(stack[k], pend[k].0, pend[k].1, f, g)
  }

  ghost predicate WithinAt(frame: Frame, fa: Forest, fb: Forest, f: Forest, g: Forest) {
    frame.a in Nodes(f) && frame.b in Nodes(g) && Nodes(fa) <= Nodes(f) && Nodes(fb) <= Nodes(g)
  }

  /** Every pair of lists still to compare is equal. */
  ghost predicate AllEqual(stack: seq<Frame>, pend: seq<(Forest, Forest)>, f: Forest, g: Forest)
    requires Within(stack, pend, f, g)
    reads Nodes(f), Nodes(g)
  {
    forall k :: 0 <= k < |pend| ==> DeepEqual(pend[k].0, pend[k].1)
  }

  /** The subtrees are equal exactly when everything still to compare is. */
  ghost predicate Walk(stack: seq<Frame>, pend: seq<(Forest, Forest)>, f: Forest, g: Forest)
    requires Within(stack, pend, f, g)
    reads Nodes(f), Nodes(g)
  {
    && (forall k :: 0 <= k < |stack| ==> FrameAt(stack[k], pend[k].0, pend[k].1))
    && (DeepEqual(f, g) <==> AllEqual(stack, pend, f, g))
  }

  ghost function TotalSize(pend: seq<(Forest, Forest)>): nat {
    if pend == [] then 0 else TotalSize(pend[..|pend| - 1]) + Size(pend[|pend| - 1].0)
  }

  lemma SizeLast(rest: seq<(Forest, Forest)>, fa: Forest, fb: Forest)
    ensures TotalSize(rest + [(fa, fb)]) == TotalSize(rest) + Size(fa)
  {
    var pend := rest + [(fa, fb)];
    assert pend[..|pend| - 1] == rest;
  }

  lemma WalkStart(f: Forest, g: Forest)
    requires f.Cons? && f.next.Nil? && Shape(f) && g.Cons? && g.next.Nil? && Shape(g)
    ensures var stack, pend := [Frame(f.node, g.node, 0)], [(f.kids, g.kids)];
            && Within(stack, pend, f, g)
            && (SelfEqual(f.node, g.node) ==> Walk(stack, pend, f, g))
            && (!SelfEqual(f.node, g.node) ==> !DeepEqual(f, g))
  {
    var stack, pend := [Frame(f.node, g.node, 0)], [(f.kids, g.kids)];
    assert Within(stack, pend, f, g);
    assert AllEqual(stack, pend, f, g) <==> DeepEqual(f.kids, g.kids) by {
      assert pend[0] == (f.kids, g.kids);
    }
  }

  lemma WalkEnd(pend: seq<(Forest, Forest)>, f: Forest, g: Forest)
    requires Within([], pend, f, g) && Walk([], pend, f, g)
    ensures DeepEqual(f, g)
  {
  }

  /** What a frame compares next, or that it has nothing left. */
  lemma FrameStep(frame: Frame, fa: Forest, fb: Forest)
    requires FrameAt(frame, fa, fb)
    ensures frame.index >= |frame.a.childs| ==> fa.Nil? && fb.Nil? && DeepEqual(fa, fb) && Size(fa) == 0
    ensures frame.index < |frame.a.childs| ==>
              && fa.Cons? && fb.Cons? && fa.node == frame.a.childs[frame.index] && fb.node == frame.b.childs[frame.index]
              && FrameAt(frame.(index := frame.index + 1), fa.next, fb.next)
              && Size(fa) == 1 + Size(fa.kids) + Size(fa.next)
              && fa.node in Nodes(fa) && fb.node in Nodes(fb)
              && Nodes(fa.kids) <= Nodes(fa) && Nodes(fa.next) <= Nodes(fa)
              && Nodes(fb.kids) <= Nodes(fb) && Nodes(fb.next) <= Nodes(fb)
              && (DeepEqual(fa, fb) <==>
                  SelfEqual(fa.node, fb.node) && DeepEqual(fa.kids, fb.kids) && DeepEqual(fa.next, fb.next))
              && (SelfEqual(fa.node, fb.node) ==> FrameAt(Frame(fa.node, fb.node, 0), fa.kids, fb.kids))
              && (SelfEqual(fa.node, fb.node) && fa.node.childs == [] ==> DeepEqual(fa.kids, fb.kids))
  {
  }

  /** The last frame apart from the others. */
  lemma LastFrame(stack: seq<Frame>, pend: seq<(Forest, Forest)>, f: Forest, g: Forest)
    requires stack != [] && Within(stack, pend, f, g) && Walk(stack, pend, f, g)
    ensures var top := |stack| - 1;
            && |pend| == |stack| && stack == stack[..top] + [stack[top]]
            && pend == pend[..top] + [(pend[top].0, pend[top].1)]
            && FrameAt(stack[top], pend[top].0, pend[top].1)
  {
  }

  lemma EqualLast(rest: seq<Frame>, frame: Frame, restP: seq<(Forest, Forest)>, fa: Forest, fb: Forest,
                  f: Forest, g: Forest)
    requires Within(rest, restP, f, g) && frame.a in Nodes(f) && frame.b in Nodes(g)
    requires Nodes(fa) <= Nodes(f) && Nodes(fb) <= Nodes(g)
    ensures Within(rest + [frame], restP + [(fa, fb)], f, g)
    ensures AllEqual(rest + [frame], restP + [(fa, fb)], f, g) <==> AllEqual(rest, restP, f, g) && DeepEqual(fa, fb)
    ensures TotalSize(restP + [(fa, fb)]) == TotalSize(restP) + Size(fa)
  {
    hide DeepEqual, Nodes, Size, TotalSize;
    SizeLast(restP, fa, fb);
    WithinLast(rest, frame, restP, fa, fb, f, g);
    hide Within;
    var pend := restP + [(fa, fb)];
    assert forall k :: 0 <= k < |restP| ==> pend[k] == restP[k];
    assert pend[|restP|] == (fa, fb);
  }

  lemma WithinLast(rest: seq<Frame>, frame: Frame, restP: seq<(Forest, Forest)>, fa: Forest, fb: Forest,
                   f: Forest, g: Forest)
    requires Within(rest, restP, f, g) && frame.a in Nodes(f) && frame.b in Nodes(g)
    requires Nodes(fa) <= Nodes(f) && Nodes(fb) <= Nodes(g)
    ensures Within(rest + [frame], restP + [(fa, fb)], f, g) && |rest| == |restP|
  {
    assert WithinAt(frame, fa, fb, f, g);
    hide WithinAt, Nodes;
    var stack, pend := rest + [frame], restP + [(fa, fb)];
    forall k | 0 <= k < |stack|
      ensures WithinAt(stack[k], pend[k].0, pend[k].1, f, g)
    {
      if k < |rest| {
        assert stack[k] == rest[k] && pend[k] == restP[k];
      }
    }
  }

  lemma FramesLast(rest: seq<Frame>, frame: Frame, restP: seq<(Forest, Forest)>, fa: Forest, fb: Forest,
                   f: Forest, g: Forest)
    requires Within(rest, restP, f, g) && Within(rest + [frame], restP + [(fa, fb)], f, g)
    requires forall k :: 0 <= k < |rest| ==> FrameAt(rest[k], restP[k].0, restP[k].1)
    requires FrameAt(frame, fa, fb)
    requires DeepEqual(f, g) <==> AllEqual(rest, restP, f, g) && DeepEqual(fa, fb)
    ensures Walk(rest + [frame], restP + [(fa, fb)], f, g)
  {
    hide DeepEqual, Nodes, FrameAt, AllEqual;
    var stack, pend := rest + [frame], restP + [(fa, fb)];
    assert stack[|rest|] == frame && pend[|rest|] == (fa, fb);
    assert frame.a in Nodes(f) && Nodes(pend[|rest|].0) <= Nodes(f) && Nodes(pend[|rest|].1) <= Nodes(g);
    EqualLast(rest, frame, restP, fa, fb, f, g);
  }

  /** Taking the last frame off. */
  lemma WithoutLast(rest: seq<Frame>, frame: Frame, restP: seq<(Forest, Forest)>, fa: Forest, fb: Forest,
                    f: Forest, g: Forest)
    requires Within(rest + [frame], restP + [(fa, fb)], f, g) && Walk(rest + [frame], restP + [(fa, fb)], f, g)
    ensures |rest| == |restP| && Within(rest, restP, f, g) && frame.a in Nodes(f) && frame.b in Nodes(g)
    ensures Nodes(fa) <= Nodes(f) && Nodes(fb) <= Nodes(g) && FrameAt(frame, fa, fb)
    ensures forall k :: 0 <= k < |rest| ==> FrameAt(rest[k], restP[k].0, restP[k].1)
    ensures DeepEqual(f, g) <==> AllEqual(rest, restP, f, g) && DeepEqual(fa, fb)
    ensures TotalSize(restP + [(fa, fb)]) == TotalSize(restP) + Size(fa)
  {
    hide DeepEqual, Nodes, FrameAt, AllEqual, Size;
    var stack, pend := rest + [frame], restP + [(fa, fb)];
    assert forall k :: 0 <= k < |rest| ==> stack[k] == rest[k] && pend[k] == restP[k];
    assert stack[|rest|] == frame && pend[|rest|] == (fa, fb);
    assert frame.a in Nodes(f) && Nodes(pend[|rest|].0) <= Nodes(f) && Nodes(pend[|rest|].1) <= Nodes(g);
    EqualLast(rest, frame, restP, fa, fb, f, g);
  }

  /** A frame without children left is dropped. */
  lemma WalkPop(rest: seq<Frame>, frame: Frame, restP: seq<(Forest, Forest)>, fa: Forest, fb: Forest,
                f: Forest, g: Forest)
    requires Within(rest + [frame], restP + [(fa, fb)], f, g) && Walk(rest + [frame], restP + [(fa, fb)], f, g)
    requires frame.index >= |frame.a.childs|
    ensures Within(rest, restP, f, g) && Walk(rest, restP, f, g)
    ensures TotalSize(restP) == TotalSize(restP + [(fa, fb)])
  {
    hide DeepEqual, Nodes, AllEqual, Size, TotalSize, Within;
    WithoutLast(rest, frame, restP, fa, fb, f, g);
    FrameStep(frame, fa, fb);
  }

  /** The next two children: unequal ones decide, equal ones leave their children and their siblings. */
  lemma WalkDown(rest: seq<Frame>, frame: Frame, restP: seq<(Forest, Forest)>, fa: Forest, fb: Forest,
                 f: Forest, g: Forest)
    requires Within(rest + [frame], restP + [(fa, fb)], f, g) && Walk(rest + [frame], restP + [(fa, fb)], f, g)
    requires frame.index < |frame.a.childs|
    ensures |frame.a.childs| == |frame.b.childs| && fa.Cons? && fb.Cons?
    ensures fa.node == frame.a.childs[frame.index] && fb.node == frame.b.childs[frame.index]
    ensures var s, p := rest + [frame.(index := frame.index + 1)], restP + [(fa.next, fb.next)];
            var t, q := s + [Frame(fa.node, fb.node, 0)], p + [(fa.kids, fb.kids)];
            && Within(s, p, f, g) && Within(t, q, f, g) && TotalSize(p) <= TotalSize(q) < TotalSize(restP + [(fa, fb)])
            && (!SelfEqual(fa.node, fb.node) ==> !DeepEqual(f, g))
            && (SelfEqual(fa.node, fb.node) && fa.node.childs != [] ==> Walk(t, q, f, g))
            && (SelfEqual(fa.node, fb.node) && fa.node.childs == [] ==> Walk(s, p, f, g))
  {
    hide DeepEqual, Nodes, AllEqual, Size, TotalSize, Within, SelfEqual, Walk;
    WithoutLast(rest, frame, restP, fa, fb, f, g);
    FrameStep(frame, fa, fb);
    var moved := frame.(index := frame.index + 1);
    EqualLast(rest, moved, restP, fa.next, fb.next, f, g);
    var s, p := rest + [moved], restP + [(fa.next, fb.next)];
    EqualLast(s, Frame(fa.node, fb.node, 0), p, fa.kids, fb.kids, f, g);
    if SelfEqual(fa.node, fb.node) {
      hide FrameAt;
      if fa.node.childs == [] {
        FramesLast(rest, moved, restP, fa.next, fb.next, f, g);
      } else {
        FramesBoth(rest, moved, restP, fa.next, fb.next);
        FramesLast(s, Frame(fa.node, fb.node, 0), p, fa.kids, fb.kids, f, g);
      }
    }
  }

  lemma FramesBoth(rest: seq<Frame>, frame: Frame, restP: seq<(Forest, Forest)>, fa: Forest, fb: Forest)
    requires |rest| == |restP| && FrameAt(frame, fa, fb)
    requires forall k :: 0 <= k < |rest| ==> FrameAt(rest[k], restP[k].0, restP[k].1)
    ensures var s, p := rest + [frame], restP + [(fa, fb)];
            forall k :: 0 <= k < |s| ==> FrameAt(s[k], p[k].0, p[k].1)
  {
  }
}
