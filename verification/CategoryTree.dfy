/** The nested category listing: nodes linked in place, in whatever order the rows come
    (crud_trade_categories.get_nested). */
module CategoryTree {
  import opened Prelude
  import opened Categories

  datatype Tree = Tree(id: nat, children: seq<Tree>)

  /** The rows in some order, each once. */
  predicate IsOrder(rows: Rows, order: seq<nat>) {
    && (forall i: nat | i < |order| :: order[i] in rows)
    && (forall id: nat | id in rows :: id in order)
    && (forall i: nat, j: nat | i < j < |order| :: order[i] != order[j])
  }

  /** The ids with the given parent, in the given order. */
  function Select(rows: Rows, order: seq<nat>, parent: Option<nat>): seq<nat> {
    if order == [] then []
    else
      var last := order[|order| - 1];
      Select(rows, order[..|order| - 1], parent) + if last in rows && rows[last].parent == parent then [last] else []
  }

  lemma {:induction false} Selected(rows: Rows, order: seq<nat>, parent: Option<nat>)
    ensures forall id: nat ::
              id in Select(rows, order, parent) <==> id in order && id in rows && rows[id].parent == parent
    ensures (forall i: nat, j: nat | i < j < |order| :: order[i] != order[j]) ==>
              forall i: nat, j: nat | i < j < |Select(rows, order, parent)| ::
                  Select(rows, order, parent)[i] != Select(rows, order, parent)[j]
    decreases |order|
  {
    if order != [] {
      var init, last := order[..|order| - 1], order[|order| - 1];
      Selected(rows, init, parent);
      assert order == init + [last];
    }
  }

  lemma SelectedChildren(rows: Rows, order: seq<nat>, id: nat, level: nat)
    requires AtDepth(rows, id, level)
    ensures level < |rows|
    ensures forall c: nat | c in Select(rows, order, Some(id)) :: AtDepth(rows, c, level + 1)
  {
    DepthIsBounded(rows, id, level);
    Selected(rows, order, Some(id));
  }

  lemma SelectedRoots(rows: Rows, order: seq<nat>)
    ensures forall c: nat | c in Select(rows, order, None) :: AtDepth(rows, c, 0)
  {
  }

  /** The subtree below a category, and the subtrees below several of the same depth. */
  function Build(rows: Rows, order: seq<nat>, id: nat, level: nat): Tree
    requires AtDepth(rows, id, level)
    decreases |rows| - level, 0, 0
  {
    SelectedChildren(rows, order, id, level);
    Tree(id, BuildAll(rows, order, Select(rows, order, Some(id)), level + 1))
  }

  function BuildAll(rows: Rows, order: seq<nat>, ids: seq<nat>, level: nat): (trees: seq<Tree>)
    requires forall c: nat | c in ids :: AtDepth(rows, c, level)
    ensures |trees| == |ids| && forall k: nat | k < |ids| :: trees[k].id == ids[k]
    decreases |rows| - level, 1, |ids|
  {
    if ids == [] then []
    else [Build(rows, order, ids[0], level)] + BuildAll(rows, order, ids[1..], level)
  }

  /** What the endpoint returns. */
  function Nested(rows: Rows, order: seq<nat>): seq<Tree> {
    SelectedRoots(rows, order);
    BuildAll(rows, order, Select(rows, order, None), 0)
  }

  // ─── Every category once, nested under its parent ───────────────────────────

  /** How often a category occurs in a tree, and in several. */
  function Occurrences(t: Tree, x: nat): nat
    decreases t, 0
  {
    (if t.id == x then 1 else 0) + OccurrencesIn(t.children, x)
  }

  function OccurrencesIn(ts: seq<Tree>, x: nat): nat
    decreases ts, 1
  {
    if ts == [] then 0 else Occurrences(ts[0], x) + OccurrencesIn(ts[1..], x)
  }

  /** x lies in the subtree of the category id of the given level. */
  predicate IsUnder(rows: Rows, x: nat, depth: nat, id: nat, level: nat) {
    depth >= level && Climb(rows, x, depth - level) == Some(id)
  }

  /** In the subtree of id a rooted category occurs once if it lies under id, else never. */
  lemma {:induction false} OccursOnceBelow(rows: Rows, order: seq<nat>, id: nat, level: nat, x: nat, depth: nat)
    requires IsOrder(rows, order) && AtDepth(rows, id, level) && AtDepth(rows, x, depth)
    ensures Occurrences(Build(rows, order, id, level), x) == if IsUnder(rows, x, depth, id, level) then 1 else 0
    decreases |rows| - level, 0, 0
  {
    SelectedChildren(rows, order, id, level);
    Selected(rows, order, Some(id));
    var ids := Select(rows, order, Some(id));
    OccursOnceAmong(rows, order, ids, level + 1, x, depth);
    UnderAChild(rows, ids, id, level, x, depth);
  }

  /** Whatever lies under a category and is not the category itself lies under one of its children. */
  lemma UnderAChild(rows: Rows, ids: seq<nat>, id: nat, level: nat, x: nat, depth: nat)
    requires AtDepth(rows, id, level) && AtDepth(rows, x, depth)
    requires forall c: nat :: c in ids <==> c in rows && rows[c].parent == Some(id)
    ensures (exists c: nat :: c in ids && IsUnder(rows, x, depth, c, level + 1))
            <==> IsUnder(rows, x, depth, id, level) && x != id
    ensures x == id ==> IsUnder(rows, x, depth, id, level)
  {
    if x == id { DepthIsUnique(rows, x, depth, level); }
    if IsUnder(rows, x, depth, id, level) && x != id {
      StepBelow(rows, x, depth - level);
      var c := Climb(rows, x, depth - level - 1).value;
      assert c in ids && IsUnder(rows, x, depth, c, level + 1);
    }
    forall c: nat | c in ids && IsUnder(rows, x, depth, c, level + 1)
        ensures IsUnder(rows, x, depth, id, level) && x != id {
      StepAbove(rows, x, depth - level - 1);
    }
  }

  /** The last step of a climb goes from a row to its parent. */
  lemma {:induction false} StepBelow(rows: Rows, x: nat, k: nat)
    requires Climb(rows, x, k).Some? && k > 0
    ensures Climb(rows, x, k - 1).Some?
    ensures var c := Climb(rows, x, k - 1).value; c in rows && rows[c].parent == Climb(rows, x, k)
    decreases k
  {
    if k > 1 { StepBelow(rows, rows[x].parent.value, k - 1); }
  }

  lemma {:induction false} StepAbove(rows: Rows, x: nat, k: nat)
    requires Climb(rows, x, k).Some?
    requires var c := Climb(rows, x, k).value; c in rows && rows[c].parent.Some? && rows[c].parent.value in rows
    ensures Climb(rows, x, k + 1) == rows[Climb(rows, x, k).value].parent
    decreases k
  {
    if k > 0 {
      StepAbove(rows, rows[x].parent.value, k - 1);
    } else {
      assert Climb(rows, rows[x].parent.value, 0) == rows[x].parent;
    }
  }

  lemma {:induction false} OccursOnceAmong(rows: Rows, order: seq<nat>, ids: seq<nat>, level: nat, x: nat, depth: nat)
    requires IsOrder(rows, order) && AtDepth(rows, x, depth)
    requires forall c: nat | c in ids :: AtDepth(rows, c, level)
    requires forall i: nat, j: nat | i < j < |ids| :: ids[i] != ids[j]
    ensures OccurrencesIn(BuildAll(rows, order, ids, level), x)
            == if exists c: nat :: c in ids && IsUnder(rows, x, depth, c, level) then 1 else 0
    decreases |rows| - level, 1, |ids|
  {
    if ids != [] {
      OccursOnceBelow(rows, order, ids[0], level, x, depth);
      OccursOnceAmong(rows, order, ids[1..], level, x, depth);
      assert BuildAll(rows, order, ids, level)[1..] == BuildAll(rows, order, ids[1..], level);
      if c: nat :| c in ids && IsUnder(rows, x, depth, c, level) {
        assert c == ids[0] || c in ids[1..];
      }
      if IsUnder(rows, x, depth, ids[0], level) {
        forall c: nat | c in ids[1..] ensures !IsUnder(rows, x, depth, c, level) {
        }
      }
    }
  }

  /** What has no rooted chain occurs nowhere. */
  lemma {:induction false} UnrootedNeverOccurs(rows: Rows, order: seq<nat>, ids: seq<nat>, level: nat, x: nat)
    requires !IsRooted(rows, x)
    requires forall c: nat | c in ids :: AtDepth(rows, c, level)
    ensures OccurrencesIn(BuildAll(rows, order, ids, level), x) == 0
    decreases |rows| - level, |ids|
  {
    if ids != [] {
      assert AtDepth(rows, ids[0], level);
      SelectedChildren(rows, order, ids[0], level);
      UnrootedNeverOccurs(rows, order, Select(rows, order, Some(ids[0])), level + 1, x);
      UnrootedNeverOccurs(rows, order, ids[1..], level, x);
      assert BuildAll(rows, order, ids, level)[1..] == BuildAll(rows, order, ids[1..], level);
    }
  }

  /** The nested listing holds every category whose parent chain ends in a root exactly once, and no
      other; whatever order the rows come in. */
  lemma NestedHoldsTheRootedOnce(rows: Rows, order: seq<nat>, x: nat)
    requires IsOrder(rows, order)
    ensures OccurrencesIn(Nested(rows, order), x) == if IsRooted(rows, x) then 1 else 0
  {
    SelectedRoots(rows, order);
    var roots := Select(rows, order, None);
    if depth: nat :| AtDepth(rows, x, depth) {
      Selected(rows, order, None);
      OccursOnceAmong(rows, order, roots, 0, x, depth);
      DepthAfterClimb(rows, x, depth, depth);
      var root := Climb(rows, x, depth).value;
      assert root in roots && IsUnder(rows, x, depth, root, 0);
    } else {
      UnrootedNeverOccurs(rows, order, roots, 0, x);
    }
  }

  /** It holds every category of the table exactly when the table is a forest. */
  lemma NestedIsCompleteExactlyForForests(rows: Rows, order: seq<nat>)
    requires IsOrder(rows, order)
    ensures IsForest(rows) <==> forall x: nat | x in rows :: OccurrencesIn(Nested(rows, order), x) == 1
  {
    forall x: nat ensures OccurrencesIn(Nested(rows, order), x) == if IsRooted(rows, x) then 1 else 0 {
      NestedHoldsTheRootedOnce(rows, order, x);
    }
  }

  predicate HangsTogether(rows: Rows, t: Tree)
    decreases t
  {
    && t.id in rows
    && forall k: nat | k < |t.children| ::
         t.children[k].id in rows && rows[t.children[k].id].parent == Some(t.id) && HangsTogether(rows, t.children[k])
  }

  /** Nesting is the parent relation: whatever is listed below a category has it as its parent. */
  lemma {:induction false} NestingIsTheParentRelation(rows: Rows, order: seq<nat>, ids: seq<nat>, level: nat)
    requires forall c: nat | c in ids :: AtDepth(rows, c, level)
    ensures forall k: nat | k < |ids| :: HangsTogether(rows, BuildAll(rows, order, ids, level)[k])
    decreases |rows| - level, |ids|
  {
    if ids != [] {
      var id := ids[0];
      assert AtDepth(rows, id, level);
      SelectedChildren(rows, order, id, level);
      Selected(rows, order, Some(id));
      var children := Select(rows, order, Some(id));
      NestingIsTheParentRelation(rows, order, children, level + 1);
      NestingIsTheParentRelation(rows, order, ids[1..], level);
      assert HangsTogether(rows, Build(rows, order, id, level));
    }
  }

  lemma NestedHangsTogether(rows: Rows, order: seq<nat>)
    ensures forall k: nat | k < |Nested(rows, order)| ::
              Nested(rows, order)[k].id in rows && rows[Nested(rows, order)[k].id].parent.None?
                  && HangsTogether(rows, Nested(rows, order)[k])
  {
    SelectedRoots(rows, order);
    NestingIsTheParentRelation(rows, order, Select(rows, order, None), 0);
    forall k: nat | k < |Nested(rows, order)| ensures AtDepth(rows, Nested(rows, order)[k].id, 0) {
      assert Nested(rows, order)[k].id == Select(rows, order, None)[k];
    }
  }

  // ─── Linking the nodes ──────────────────────────────────────────────────────

  class Node {
    const id: nat
    const parent: Option<nat>
    var children: seq<Node>

    constructor (id: nat, parent: Option<nat>)
      ensures this.id == id && this.parent == parent && children == []
    {
      this.id := id;
      this.parent := parent;
      children := [];
    }
  }

  ghost predicate IsIndex(rows: Rows, nodes: map<nat, Node>) {
    && nodes.Keys <= rows.Keys
    && (forall id: nat | id in nodes :: nodes[id].id == id && nodes[id].parent == rows[id].parent)
  }

  /** The lookup map: one new node per row. */
  method MakeNodes(rows: Rows, order: seq<nat>) returns (nodes: map<nat, Node>)
    requires IsOrder(rows, order)
    ensures IsIndex(rows, nodes) && nodes.Keys == rows.Keys
    ensures forall id: nat | id in nodes :: fresh(nodes[id]) && nodes[id].children == []
  {
    nodes := map[];
    var n := 0;
    while n < |order|
      invariant n <= |order| && IsIndex(rows, nodes)
      invariant forall id: nat :: id in nodes <==> id in order[..n]
      invariant forall id: nat | id in nodes :: fresh(nodes[id]) && nodes[id].children == []
    {
      var node := new Node(order[n], rows[order[n]].parent);
      nodes := nodes[order[n] := node];
      assert order[..n + 1] == order[..n] + [order[n]];
      n := n + 1;
    }
    assert order[..n] == order;
  }

  /** The node of id lists the nodes of its children among the rows seen, in the order of the rows. */
  ghost predicate IsLinkedAt(rows: Rows, seen: seq<nat>, nodes: map<nat, Node>, id: nat)
    requires id in nodes
    reads nodes[id]
  {
    var ids := Select(rows, seen, Some(id));
    |nodes[id].children| == |ids| && forall k: nat | k < |ids| ::
        ids[k] in nodes && nodes[id].children[k] == nodes[ids[k]]
  }

  ghost predicate IsLinked(rows: Rows, seen: seq<nat>, nodes: map<nat, Node>)
    reads nodes.Values
  {
    forall id: nat {:trigger IsLinkedAt(rows, seen, nodes, id)} | id in nodes :: IsLinkedAt(rows, seen, nodes, id)
  }

  lemma SelectSnoc(rows: Rows, order: seq<nat>, id: nat, parent: Option<nat>)
    ensures Select(rows, order + [id], parent)
            == Select(rows, order, parent) + if id in rows && rows[id].parent == parent then [id] else []
  {
  }

  /** The nodes of the parentless among the rows seen. */
  ghost predicate AreRoots(rows: Rows, seen: seq<nat>, index: map<nat, Node>, roots: seq<Node>) {
    var ids := Select(rows, seen, None);
    |roots| == |ids| && forall k: nat | k < |ids| :: ids[k] in index && roots[k] == index[ids[k]]
  }

  /** One more row: its node goes to the roots, or to the end of its parent's list. */
  method LinkOne(ghost rows: Rows, ghost seen: seq<nat>, id: nat, index: map<nat, Node>, roots: seq<Node>)
                 returns (roots': seq<Node>)
    requires IsIndex(rows, index) && index.Keys == rows.Keys && id in rows
    requires IsLinked(rows, seen, index) && AreRoots(rows, seen, index, roots)
    modifies index.Values
    ensures IsLinked(rows, seen + [id], index) && AreRoots(rows, seen + [id], index, roots')
  {
    var node := index[id];
    roots' := roots;
    SelectSnoc(rows, seen, id, None);
    if node.parent.None? {
      roots' := roots + [node];
    } else if node.parent.value in index {
      var parent := index[node.parent.value];
      parent.children := parent.children + [node];
    }
    forall p: nat | p in index ensures IsLinkedAt(rows, seen + [id], index, p) {
      SelectSnoc(rows, seen, id, Some(p));
      assert old(IsLinkedAt(rows, seen, index, p));
    }
  }

  /** The second pass, over the rows in the given order. */
  method LinkNodes(rows: Rows, order: seq<nat>, index: map<nat, Node>) returns (roots: seq<Node>)
    requires IsOrder(rows, order) && IsIndex(rows, index) && index.Keys == rows.Keys
    requires forall id: nat | id in index :: index[id].children == []
    modifies index.Values
    ensures IsLinked(rows, order, index) && AreRoots(rows, order, index, roots)
  {
    roots := [];
    ghost var seen: seq<nat> := [];
    var n := 0;
    while n < |order|
      invariant n <= |order| && seen == order[..n]
      invariant IsLinked(rows, seen, index) && AreRoots(rows, seen, index, roots)
    {
      roots := LinkOne(rows, seen, order[n], index, roots);
      seen := seen + [order[n]];
      n := n + 1;
    }
    assert seen == order;
  }

  /** get_nested: the forest of the rows, as linked nodes, whatever order the rows come in. */
  method GetNested(rows: Rows, order: seq<nat>) returns (roots: seq<Node>, ghost nodes: map<nat, Node>)
    requires IsOrder(rows, order)
    ensures IsIndex(rows, nodes) && nodes.Keys == rows.Keys && IsLinked(rows, order, nodes)
    ensures forall id: nat | id in nodes :: fresh(nodes[id])
    ensures |roots| == |Nested(rows, order)|
    ensures forall k: nat | k < |roots| :: Shows(roots[k], Nested(rows, order)[k], nodes.Values)
  {
    var index := MakeNodes(rows, order);
    nodes := index;
    roots := LinkNodes(rows, order, index);
    SelectedRoots(rows, order);
    forall k: nat | k < |roots| ensures Shows(roots[k], Nested(rows, order)[k], nodes.Values) {
      BuildAllAt(rows, order, Select(rows, order, None), 0, k);
      LinkedShows(rows, order, nodes, Select(rows, order, None)[k], 0);
    }
  }

  /** The nodes reachable from a node are laid out as the tree. */
  ghost predicate Shows(node: Node, t: Tree, nodes: set<Node>)
    reads nodes
    decreases t
  {
    && node in nodes && node.id == t.id
    && |node.children| == |t.children|
    && forall k: nat | k < |t.children| :: Shows(node.children[k], t.children[k], nodes)
  }

  lemma {:induction false} BuildAllAt(rows: Rows, order: seq<nat>, ids: seq<nat>, level: nat, k: nat)
    requires k < |ids| && forall c: nat | c in ids :: AtDepth(rows, c, level)
    ensures BuildAll(rows, order, ids, level)[k] == Build(rows, order, ids[k], level)
    decreases k
  {
    if k > 0 { BuildAllAt(rows, order, ids[1..], level, k - 1); }
  }

  lemma {:induction false} LinkedShows(rows: Rows, order: seq<nat>, nodes: map<nat, Node>, id: nat, level: nat)
    requires nodes.Keys == rows.Keys && IsIndex(rows, nodes) && IsLinked(rows, order, nodes)
    requires AtDepth(rows, id, level)
    ensures Shows(nodes[id], Build(rows, order, id, level), nodes.Values)
    decreases |rows| - level, 0
  {
    SelectedChildren(rows, order, id, level);
    var children := Select(rows, order, Some(id));
    var trees := BuildAll(rows, order, children, level + 1);
    assert IsLinkedAt(rows, order, nodes, id);
    forall k: nat | k < |children| ensures ShowsAt(nodes, children, k, trees) {
      ChildShows(rows, order, nodes, children, level + 1, k);
    }
    ShowsParent(nodes, id, children, trees);
  }

  lemma {:induction false} ChildShows(rows: Rows, order: seq<nat>, nodes: map<nat, Node>, ids: seq<nat>,
                                      level: nat, k: nat)
    requires nodes.Keys == rows.Keys && IsIndex(rows, nodes) && IsLinked(rows, order, nodes)
    requires k < |ids| && level <= |rows| && forall c: nat | c in ids :: AtDepth(rows, c, level)
    ensures ShowsAt(nodes, ids, k, BuildAll(rows, order, ids, level))
    decreases |rows| - level, 1
  {
    assert ids[k] in ids;
    BuildAllAt(rows, order, ids, level, k);
    LinkedShows(rows, order, nodes, ids[k], level);
  }

  /** The k-th of some nodes shows the k-th of some trees. */
  ghost predicate ShowsAt(nodes: map<nat, Node>, ids: seq<nat>, k: nat, trees: seq<Tree>)
    requires k < |ids|
    reads nodes.Values
  {
    ids[k] in nodes && k < |trees| && Shows(nodes[ids[k]], trees[k], nodes.Values)
  }

  lemma ShowsParent(nodes: map<nat, Node>, id: nat, ids: seq<nat>, trees: seq<Tree>)
    requires id in nodes && nodes[id].id == id && |trees| == |ids| == |nodes[id].children|
    requires forall k: nat | k < |ids| :: ids[k] in nodes && nodes[id].children[k] == nodes[ids[k]]
    requires forall k: nat | k < |ids| :: ShowsAt(nodes, ids, k, trees)
    ensures Shows(nodes[id], Tree(id, trees), nodes.Values)
  {
    var t := Tree(id, trees);
    forall k: nat | k < |trees| ensures Shows(nodes[id].children[k], t.children[k], nodes.Values) {
      assert ShowsAt(nodes, ids, k, trees);
    }
    assert nodes[id] in nodes.Values;
  }
}
