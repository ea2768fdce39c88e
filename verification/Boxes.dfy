// The widget tree of box.c and button.c: boxes hold their children in a linked list with a tail
// pointer, and every child points to its parent. The ghost sequences spine and kids say what the
// list is; every method keeps them up to date.
module Boxes {

  datatype Widget = AButton(button: Button) | ABox(box: Box)

  class Node {
    var next: Node?
    const data: Widget

    constructor (data: Widget)
      ensures next == null && this.data == data
    {
      this.data := data;
      next := null;
    }
  }

  class Button {
    var x: int
    var y: int
    var cWidth: int
    var cHeight: int
    var xPad: int
    var yPad: int
    var bSize: int
    var isWidthSpec: bool
    var keySpanWidth: int
    var singleChar: bool              // no label longer than one character, and no image
    var actWidth: int
    var actHeight: int
    var layoutSwitch: int
    var parent: Box?

    constructor ()
      ensures cWidth == cHeight == bSize == keySpanWidth == 0 && !isWidthSpec
      ensures layoutSwitch == -1 && parent == null
    {
      cWidth, cHeight, bSize, keySpanWidth, isWidthSpec := 0, 0, 0, 0, false;
      layoutSwitch, parent := -1, null;
    }

    // The two walks over the parents. The chain of boxes above the button is a ghost parameter; a
    // button that sits in a tree has one.
    method GetAbsX(ghost chain: seq<Box>) returns (total: int)
      requires IsChain(parent, chain)
      ensures total == x + SumX(chain)
    {
      total := x;
      var tmpBox := parent;
      ghost var above := chain;
      while tmpBox != null
        invariant IsChain(tmpBox, above)
        invariant total + SumX(above) == x + SumX(chain)
        decreases |above|
      {
        total := total + tmpBox.x;
        tmpBox := tmpBox.parent;
        above := above[1..];
      }
    }

    method GetAbsY(ghost chain: seq<Box>) returns (total: int)
      requires IsChain(parent, chain)
      ensures total == y + SumY(chain)
    {
      total := y;
      var tmpBox := parent;
      ghost var above := chain;
      while tmpBox != null
        invariant IsChain(tmpBox, above)
        invariant total + SumY(above) == y + SumY(chain)
        decreases |above|
      {
        total := total + tmpBox.y;
        tmpBox := tmpBox.parent;
        above := above[1..];
      }
    }
  }

  // The boxes from here up to the one that has no parent.
  ghost predicate IsChain(b: Box?, chain: seq<Box>)
    reads chain`parent
    decreases |chain|
  {
    if b == null then chain == []
    else chain != [] && chain[0] == b && IsChain(b.parent, chain[1..])
  }

  // A chain in which the parent of one box has become another box, with a chain of its own.
  ghost function Rehung(chain: seq<Box>, b: Box, above: seq<Box>): (rehung: seq<Box>)
    ensures forall i | 0 <= i < |rehung| :: rehung[i] in chain || rehung[i] == b || rehung[i] in above
  {
    if chain == [] then []
    else if chain[0] == b then [b] + above
    else [chain[0]] + Rehung(chain[1..], b, above)
  }

  // ---------- chains, apart from the heap ----------

  // The parent of every box, at one time.
  type Parents = imap<Box, Box?>

  ghost predicate ChainIn(up: Parents, b: Box?, chain: seq<Box>)
    decreases |chain|
  {
    if b == null then chain == []
    else chain != [] && chain[0] == b && b in up && ChainIn(up, up[b], chain[1..])
  }

  lemma {:induction false} ChainIs(up: Parents, b: Box?, chain: seq<Box>)
    requires forall i | 0 <= i < |chain| :: chain[i] in up && up[chain[i]] == chain[i].parent
    ensures IsChain(b, chain) <==> ChainIn(up, b, chain)
    decreases |chain|
  {
    if b != null && chain != [] {
      ChainIs(up, b.parent, chain[1..]);
    }
  }

  // The boxes from here up to, and without, another one.
  ghost predicate PathIn(up: Parents, from: Box?, path: seq<Box>, to: Box)
    decreases |path|
  {
    if path == [] then from == to
    else from == path[0] && path[0] in up && PathIn(up, up[path[0]], path[1..], to)
  }

  // A chain follows every path from its start.
  lemma {:induction false} ChainAfterPath(up: Parents, b: Box?, path: seq<Box>, to: Box, chain: seq<Box>)
    requires PathIn(up, b, path, to) && ChainIn(up, b, chain)
    ensures |path| <= |chain| && ChainIn(up, to, chain[|path|..])
    decreases |path|
  {
    if path == [] {
      assert chain[0..] == chain;
    } else {
      ChainAfterPath(up, up[path[0]], path[1..], to, chain[1..]);
      assert chain[1..][|path| - 1..] == chain[|path|..];
    }
  }

  lemma {:induction false} PathOneMore(up: Parents, b: Box?, path: seq<Box>, last: Box, to: Box)
    requires PathIn(up, b, path, last) && last in up && up[last] == to
    ensures PathIn(up, b, path + [last], to)
    decreases |path|
  {
    if path == [] {
      assert (path + [last])[1..] == [];
    } else {
      PathOneMore(up, up[path[0]], path[1..], last, to);
      assert (path + [last])[0] == path[0] && (path + [last])[1..] == path[1..] + [last];
    }
  }

  lemma {:induction false} SameLength(up: Parents, b: Box?, c1: seq<Box>, c2: seq<Box>)
    requires ChainIn(up, b, c1) && ChainIn(up, b, c2)
    ensures |c1| == |c2|
    decreases |c1|
  {
    if b != null {
      SameLength(up, up[b], c1[1..], c2[1..]);
    }
  }

  // On a circle of parents no walk ends.
  lemma {:induction false} NoChainOnCircle(up: Parents, b: Box, path: seq<Box>, chain: seq<Box>)
    requires path != [] && PathIn(up, b, path, b)
    ensures !ChainIn(up, b, chain)
  {
    if ChainIn(up, b, chain) {
      ChainAfterPath(up, b, path, b, chain);
      SameLength(up, b, chain, chain[|path|..]);
    }
  }

  // The same parents, but for one box.
  ghost predicate Moved(up: Parents, after: Parents, b: Box, onto: Box) {
    && b in after && after[b] == onto
    && forall x | x in up && x != b :: x in after && after[x] == up[x]
  }

  // A chain without b does not notice that b moves.
  lemma {:induction false} ChainSurvives(up: Parents, after: Parents, c: Box?, chain: seq<Box>, b: Box, onto: Box)
    requires Moved(up, after, b, onto) && ChainIn(up, c, chain) && b !in chain
    ensures ChainIn(after, c, chain)
    decreases |chain|
  {
    if c != null {
      ChainSurvives(up, after, up[c], chain[1..], b, onto);
    }
  }

  lemma {:induction false} RehungIsChain(up: Parents, after: Parents, c: Box?, chain: seq<Box>, b: Box, onto: Box, above: seq<Box>)
    requires Moved(up, after, b, onto) && ChainIn(up, c, chain) && ChainIn(up, onto, above) && b !in above
    ensures ChainIn(after, c, Rehung(chain, b, above))
    decreases |chain|
  {
    if c == b {
      ChainSurvives(up, after, onto, above, b, onto);
      assert ([b] + above)[1..] == above;
    } else if c != null {
      RehungIsChain(up, after, up[c], chain[1..], b, onto, above);
      assert ([c] + Rehung(chain[1..], b, above))[1..] == Rehung(chain[1..], b, above);
    }
  }

  // The way from c up to b, which lies on its chain.
  lemma {:induction false} WayUp(up: Parents, after: Parents, c: Box?, chain: seq<Box>, b: Box, onto: Box) returns (path: seq<Box>)
    requires Moved(up, after, b, onto) && ChainIn(up, c, chain) && b in chain
    ensures PathIn(after, c, path, b)
    decreases |chain|
  {
    if c == b {
      path := [];
    } else {
      assert chain == [c] + chain[1..];
      var rest := WayUp(up, after, up[c], chain[1..], b, onto);
      path := [c] + rest;
      assert path[1..] == rest;
    }
  }

  // A box added below itself closes a circle.
  lemma {:induction false} BelowItself(up: Parents, after: Parents, onto: Box, b: Box, above: seq<Box>, chain: seq<Box>)
    requires Moved(up, after, b, onto) && ChainIn(up, onto, above) && b in above
    ensures !ChainIn(after, onto, chain) && !ChainIn(after, b, chain)
  {
    var path := WayUp(up, after, onto, above, b, onto);
    PathOneMore(after, onto, path, b, onto);
    NoChainOnCircle(after, onto, path + [b], chain);
    assert ([b] + path)[1..] == path;
    NoChainOnCircle(after, b, [b] + path, chain);
  }

  ghost function SumX(chain: seq<Box>): int
    reads chain
  {
    if chain == [] then 0 else chain[0].x + SumX(chain[1..])
  }

  ghost function SumY(chain: seq<Box>): int
    reads chain
  {
    if chain == [] then 0 else chain[0].y + SumY(chain[1..])
  }

  // A button in a row of a layout: its absolute place is its own offset plus the row's and the
  // layout's, which is where hit-testing looks for it.
  lemma {:induction false} AbsoluteOfKey(but: Button, row: Box, layout: Box)
    requires but.parent == row && row.parent == layout && layout.parent == null
    ensures IsChain(but.parent, [row, layout])
    ensures but.x + SumX([row, layout]) == but.x + layout.x + row.x
    ensures but.y + SumY([row, layout]) == but.y + layout.y + row.y
  {
    var chain := [row, layout];
    assert chain[1..] == [layout] && chain[1..][1..] == [];
    assert IsChain(layout, chain[1..]);
    assert SumX(chain[1..]) == layout.x + SumX(chain[1..][1..]) && SumY(chain[1..]) == layout.y + SumY(chain[1..][1..]);
    assert SumX(chain) == row.x + SumX(chain[1..]) && SumY(chain) == row.y + SumY(chain[1..]);
  }

  // A chain is determined by where it starts, so the walks cannot depend on which one is given.
  lemma {:induction false} ChainIsUnique(b: Box?, c1: seq<Box>, c2: seq<Box>)
    requires IsChain(b, c1) && IsChain(b, c2)
    ensures c1 == c2
    decreases |c1|
  {
    if b != null {
      ChainIsUnique(b.parent, c1[1..], c2[1..]);
      assert c1 == [c1[0]] + c1[1..] && c2 == [c2[0]] + c2[1..];
    }
  }

  class Box {
    var rootKid: Node?
    var tailKid: Node?
    var minWidth: int
    var minHeight: int
    var actWidth: int
    var actHeight: int
    var x: int
    var y: int
    var parent: Box?
    ghost var spine: seq<Node>        // the nodes of the list, in order

    // box_new leaves the other fields as malloc returns them.
    constructor ()
      ensures Linked() && spine == [] && parent == null && actWidth == actHeight == 0
    {
      rootKid, tailKid, parent, actWidth, actHeight := null, null, null, 0, 0;
      spine := [];
    }

    // The list reachable from rootKid is the spine: it has no cycle, ends in a null link, and
    // tailKid is its last node.
    ghost predicate Linked()
      reads this`rootKid, this`tailKid, this`spine, spine
    {
      && (spine == [] ==> rootKid == null)
      && (spine != [] ==> rootKid == spine[0] && tailKid == spine[|spine| - 1] && tailKid.next == null)
      && (forall i | 0 <= i < |spine| - 1 :: spine[i].next == spine[i + 1])
      && (forall i, j | 0 <= i < j < |spine| :: spine[i] != spine[j])
    }

    ghost function Kids(): seq<Widget>
      reads this, spine
    {
      seq(|spine|, i requires 0 <= i < |spine| reads this, spine => spine[i].data)
    }

    // What both add functions do to the list.
    method Append(data: Widget)
      requires Linked()
      modifies this`rootKid, this`tailKid, this`spine, spine
      ensures Linked() && Kids() == old(Kids()) + [data]
      ensures |spine| == old(|spine|) + 1 && spine[..old(|spine|)] == old(spine) && fresh(spine[old(|spine|)])
    {
      var node := new Node(data);
      if rootKid == null {
        rootKid := node;
        tailKid := rootKid;
      } else {
        var newPtr := tailKid;
        newPtr.next := node;
        tailKid := newPtr.next;
      }
      spine := spine + [node];
    }

    method AddButton(but: Button) returns (r: Button)
      requires Linked()
      modifies this`rootKid, this`tailKid, this`spine, spine, but`parent
      ensures Linked() && Kids() == old(Kids()) + [AButton(but)] && r == but && but.parent == this
      ensures |spine| == old(|spine|) + 1 && spine[..old(|spine|)] == old(spine) && fresh(spine[old(|spine|)])
      ensures forall c: Box?, chain: seq<Box> | old(allocated(c) && allocated(chain) && IsChain(c, chain)) :: IsChain(c, chain)
    {
      but.parent := this;
      Append(AButton(but));
      r := but;
    }

    // The walks over the parents still end after a box is added, exactly if it is not added below
    // itself.
    method AddBox(b: Box) returns (r: Box)
      requires Linked()
      modifies this`rootKid, this`tailKid, this`spine, spine, b`parent
      ensures Linked() && Kids() == old(Kids()) + [ABox(b)] && r == b && b.parent == this
      ensures |spine| == old(|spine|) + 1 && spine[..old(|spine|)] == old(spine) && fresh(spine[old(|spine|)])
      ensures forall c: Box?, chain: seq<Box>, above: seq<Box>
                | old(allocated(c) && allocated(chain) && allocated(above) && IsChain(c, chain) && IsChain(this, above))
                  && b !in above :: IsChain(c, Rehung(chain, b, above))
      ensures forall above: seq<Box>, chain: seq<Box> | old(allocated(above) && IsChain(this, above)) && b in above ::
                !IsChain(this, chain) && !IsChain(b, chain)
    {
      ghost var up: Parents := imap x: Box | allocated(x) :: x.parent;
      forall c: Box?, chain: seq<Box> | IsChain(c, chain) ensures ChainIn(up, c, chain) {
        ChainIs(up, c, chain);
      }
      b.parent := this;
      Append(ABox(b));
      r := b;
      ghost var after: Parents := imap x: Box | allocated(x) :: x.parent;
      forall c: Box?, chain: seq<Box>, above: seq<Box>
        | old(allocated(c) && allocated(chain) && allocated(above) && IsChain(c, chain) && IsChain(this, above)) && b !in above
        ensures IsChain(c, Rehung(chain, b, above))
      {
        RehungIsChain(up, after, c, chain, b, this, above);
        assert forall i | 0 <= i < |Rehung(chain, b, above)| :: Rehung(chain, b, above)[i] in after;
        ChainIs(after, c, Rehung(chain, b, above));
      }
      forall above: seq<Box>, chain: seq<Box> | old(allocated(above) && IsChain(this, above)) && b in above
        ensures !IsChain(this, chain) && !IsChain(b, chain)
      {
        BelowItself(up, after, this, b, above, chain);
        ChainIs(after, this, chain);
        ChainIs(after, b, chain);
      }
    }

    // The tree as kb_new builds it: a new box, and a new button. No chain that there was changes.
    method NewRow() returns (row: Box)
      requires Linked()
      modifies this`rootKid, this`tailKid, this`spine, spine
      ensures Linked() && Kids() == old(Kids()) + [ABox(row)] && fresh(row) && row.Linked() && row.spine == []
      ensures |spine| == old(|spine|) + 1 && spine[..old(|spine|)] == old(spine) && fresh(spine[old(|spine|)])
      ensures row.parent == this
      ensures forall c: Box?, chain: seq<Box> | old(allocated(c) && allocated(chain) && IsChain(c, chain)) :: IsChain(c, chain)
      ensures forall above: seq<Box> | old(allocated(above) && IsChain(this, above)) :: IsChain(row, [row] + above)
    {
      row := new Box();
      var added := AddBox(row);
      forall above: seq<Box> | old(allocated(above) && IsChain(this, above)) ensures IsChain(row, [row] + above) {
        assert ([row] + above)[1..] == above;
      }
    }

    method NewKey() returns (but: Button)
      requires Linked()
      modifies this`rootKid, this`tailKid, this`spine, spine
      ensures Linked() && Kids() == old(Kids()) + [AButton(but)] && fresh(but) && but.parent == this
      ensures |spine| == old(|spine|) + 1 && spine[..old(|spine|)] == old(spine) && fresh(spine[old(|spine|)])
      ensures forall c: Box?, chain: seq<Box> | old(allocated(c) && allocated(chain) && IsChain(c, chain)) :: IsChain(c, chain)
    {
      but := new Button();
      var added := AddButton(but);
    }

    // The keys of a new row.
    method NewKeys(n: nat) returns (keys: seq<Button>)
      requires Linked() && spine == []
      modifies this`rootKid, this`tailKid, this`spine
      ensures Linked() && |Kids()| == n == |keys| && fresh(spine)
      ensures forall k | k in keys :: fresh(k) && k.parent == this
      ensures forall c: Box?, chain: seq<Box> | old(allocated(c) && allocated(chain) && IsChain(c, chain)) :: IsChain(c, chain)
    {
      keys := [];
      while |keys| < n
        invariant Linked() && |Kids()| == |keys| <= n && fresh(spine)
        invariant forall k | k in keys :: fresh(k) && k.parent == this
        invariant forall c: Box?, chain: seq<Box> | old(allocated(c) && allocated(chain) && IsChain(c, chain)) :: IsChain(c, chain)
      {
        var key := NewKey();
        keys := keys + [key];
      }
    }

    // box_list_contents: following the links visits exactly the children, in order, and ends.
    method ListContents() returns (visited: seq<Widget>)
      requires Linked()
      ensures visited == Kids()
    {
      visited := [];
      var ptr := rootKid;
      while ptr != null
        invariant |visited| <= |spine| && visited == Kids()[..|visited|]
        invariant ptr == if |visited| < |spine| then spine[|visited|] else null
        decreases |spine| - |visited|
      {
        visited := visited + [ptr.data];
        ptr := ptr.next;
      }
    }
  }

  // The tree that the tags of one layout build: a box, a new row for every number, and that many new
  // keys in it. The walks from all keys end, at the layout.
  method BuildLayout(sizes: seq<nat>) returns (layout: Box, keys: seq<Button>)
    ensures fresh(layout) && layout.Linked() && layout.parent == null && |layout.Kids()| == |sizes|
    ensures forall k | k in keys :: k.parent != null && IsChain(k.parent, [k.parent, layout])
  {
    layout := new Box();
    keys := [];
    var i := 0;
    while i < |sizes|
      invariant 0 <= i <= |sizes| && |layout.Kids()| == i
      invariant fresh(layout) && fresh(layout.spine) && layout.Linked() && layout.parent == null
      invariant forall k | k in keys :: k.parent != null && k.parent.parent == layout
    {
      var row := layout.NewRow();
      var added := row.NewKeys(sizes[i]);
      keys := keys + added;
      i := i + 1;
    }
    forall k | k in keys ensures k.parent != null && IsChain(k.parent, [k.parent, layout]) {
      AbsoluteOfKey(k, k.parent, layout);
    }
  }
}
