/** Scope resolution over the node hierarchy (`main.py`): the set of a node
    and all its descendants, and the nested tree shown on the node-tree page.
    Children are found by reverse lookup on `parentId`, as the ORM backref
    `children` does. */
module Scope {
  import opened Optional
  import opened Seqs
  import opened Models

  /** The parent relation has no cycle, witnessed by a rank that strictly
      decreases from every parent to each of its children. The source has
      no visited-set guard, so it relies on this. */
  predicate RankedForest(nodes: seq<Node>, rank: int -> nat) {
    forall n :: n in nodes && n.parentId.Some? ==> rank(n.id) < rank(n.parentId.value)
  }

  /** The nodes whose parent reference equals `parent` (`None` selects the
      roots), in table order. */
  function NodesUnder(nodes: seq<Node>, parent: Option<int>): (cs: seq<Node>)
    ensures forall c :: c in cs <==> c in nodes && c.parentId == parent
  {
    Filter(nodes, (n: Node) => n.parentId == parent)
  }

  /** `node.children`: the nodes whose parent reference is `id`, in table
      order. */
  function Children(nodes: seq<Node>, id: int): (cs: seq<Node>)
    ensures forall c :: c in cs <==> c in nodes && c.parentId == Some(id)
  {
    NodesUnder(nodes, Some(id))
  }

  /** The scope of `id`: `id` itself together with the ids of every node
      below it. */
  function Descendants(nodes: seq<Node>, rank: int -> nat, id: int): (d: set<int>)
    requires RankedForest(nodes, rank)
    ensures id in d
    ensures forall x :: x in d && x != id ==> rank(x) < rank(id)
    decreases rank(id)
  {
    {id} + (set c, x | c in nodes && c.parentId == Some(id) && x in Descendants(nodes, rank, c.id) :: x)
  }

  /** A set of ids is closed under "child of a member". */
  ghost predicate ChildClosed(nodes: seq<Node>, s: set<int>) {
    forall c :: c in nodes && c.parentId.Some? && c.parentId.value in s ==> c.id in s
  }

  /** A child of a member of the scope is a member of the scope. */
  lemma {:induction false} DescendantsClosed(nodes: seq<Node>, rank: int -> nat, id: int, x: int, c: Node)
    requires RankedForest(nodes, rank)
    requires x in Descendants(nodes, rank, id)
    requires c in nodes && c.parentId == Some(x)
    ensures c.id in Descendants(nodes, rank, id)
    decreases rank(id)
  {
    if x == id {
      ChildScopeIncluded(nodes, rank, id, c);
    } else {
      var c0 :| c0 in nodes && c0.parentId == Some(id) && x in Descendants(nodes, rank, c0.id);
      DescendantsClosed(nodes, rank, c0.id, x, c);
      ChildScopeIncluded(nodes, rank, id, c0);
    }
  }

  /** The scope of a child lies inside the scope of its parent. */
  lemma ChildScopeIncluded(nodes: seq<Node>, rank: int -> nat, id: int, c: Node)
    requires RankedForest(nodes, rank)
    requires c in nodes && c.parentId == Some(id)
    ensures Descendants(nodes, rank, c.id) <= Descendants(nodes, rank, id)
  {
  }

  /** The scope is the least child-closed set containing the start node:
      it is child-closed, and it lies inside every child-closed set that
      contains `id`. */
  lemma {:induction false} DescendantsLeastClosed(nodes: seq<Node>, rank: int -> nat, id: int, s: set<int>)
    requires RankedForest(nodes, rank)
    requires id in s && ChildClosed(nodes, s)
    ensures ChildClosed(nodes, Descendants(nodes, rank, id))
    ensures Descendants(nodes, rank, id) <= s
    decreases rank(id)
  {
    var d := Descendants(nodes, rank, id);
    forall c | c in nodes && c.parentId.Some? && c.parentId.value in d
      ensures c.id in d
    {
      DescendantsClosed(nodes, rank, id, c.parentId.value, c);
    }
    forall x | x in d ensures x in s {
      if x != id {
        var c :| c in nodes && c.parentId == Some(id) && x in Descendants(nodes, rank, c.id);
        DescendantsLeastClosed(nodes, rank, c.id, s);
      }
    }
  }

  /** Every member other than the start node is a node whose parent is
      itself in the scope: nothing unrelated is collected. */
  lemma {:induction false} DescendantsHaveParentInScope(nodes: seq<Node>, rank: int -> nat, id: int, x: int)
    requires RankedForest(nodes, rank)
    requires x in Descendants(nodes, rank, id) && x != id
    ensures exists c :: c in nodes && c.id == x && c.parentId.Some? && c.parentId.value in Descendants(nodes, rank, id)
    decreases rank(id)
  {
    var c0 :| c0 in nodes && c0.parentId == Some(id) && x in Descendants(nodes, rank, c0.id);
    if x != c0.id {
      DescendantsHaveParentInScope(nodes, rank, c0.id, x);
      var c :| c in nodes && c.id == x && c.parentId.Some? && c.parentId.value in Descendants(nodes, rank, c0.id);
      assert c.parentId.value in Descendants(nodes, rank, id);
    }
  }

  /** A node without children is its own whole scope. */
  lemma LeafScope(nodes: seq<Node>, rank: int -> nat, id: int)
    requires RankedForest(nodes, rank)
    requires forall c :: c in nodes ==> c.parentId != Some(id)
    ensures Descendants(nodes, rank, id) == {id}
  {
  }

  /** The union of the scopes of the given nodes, gathered left to right. */
  function ScopesOf(nodes: seq<Node>, rank: int -> nat, cs: seq<Node>): set<int>
    requires RankedForest(nodes, rank)
    decreases |cs|
  {
    if cs == [] then {}
    else ScopesOf(nodes, rank, cs[..|cs| - 1]) + Descendants(nodes, rank, cs[|cs| - 1].id)
  }

  /** An id is in the union exactly when it is in the scope of one of the
      nodes. */
  lemma {:induction false} ScopesOfMembers(nodes: seq<Node>, rank: int -> nat, cs: seq<Node>)
    requires RankedForest(nodes, rank)
    ensures forall x :: x in ScopesOf(nodes, rank, cs) <==> exists c :: c in cs && x in Descendants(nodes, rank, c.id)
    decreases |cs|
  {
    if cs != [] {
      var init, last := cs[..|cs| - 1], cs[|cs| - 1];
      ScopesOfMembers(nodes, rank, init);
      assert cs == init + [last];
      forall x | x in ScopesOf(nodes, rank, cs) ensures exists c :: c in cs && x in Descendants(nodes, rank, c.id) {
        if x !in Descendants(nodes, rank, last.id) {
          assert x in ScopesOf(nodes, rank, init);
          var c :| c in init && x in Descendants(nodes, rank, c.id);
          assert c in cs;
        }
      }
    }
  }

  /** The scope of `id` is `id` plus the scopes of its children. */
  lemma DescendantsViaChildren(nodes: seq<Node>, rank: int -> nat, id: int)
    requires RankedForest(nodes, rank)
    ensures Descendants(nodes, rank, id) == {id} + ScopesOf(nodes, rank, Children(nodes, id))
  {
    var cs := Children(nodes, id);
    ScopesOfMembers(nodes, rank, cs);
    var d, u := Descendants(nodes, rank, id), {id} + ScopesOf(nodes, rank, cs);
    forall x | x in d ensures x in u {
      if x != id {
        var c :| c in nodes && c.parentId == Some(id) && x in Descendants(nodes, rank, c.id);
        assert c in cs;
      }
    }
    forall x | x in u ensures x in d {
      if x != id {
        var c :| c in cs && x in Descendants(nodes, rank, c.id);
      }
    }
  }

  /** Extending the prefix by one node adds that node's scope. */
  lemma ScopesOfPrefix(nodes: seq<Node>, rank: int -> nat, cs: seq<Node>, i: nat)
    requires RankedForest(nodes, rank) && i < |cs|
    ensures ScopesOf(nodes, rank, cs[..i + 1]) == ScopesOf(nodes, rank, cs[..i]) + Descendants(nodes, rank, cs[i].id)
  {
    assert cs[..i + 1][..i] == cs[..i];
  }

  /** `get_descendant_node_ids(node, collected)`: adds `id` to `collected`,
      then recurses into each child with the same accumulator. */
  method CollectDescendants(nodes: seq<Node>, rank: int -> nat, id: int, collected: set<int>) returns (result: set<int>)
    requires RankedForest(nodes, rank)
    ensures result == collected + Descendants(nodes, rank, id)
    decreases rank(id)
  {
    result := collected + {id};
    var children := Children(nodes, id);
    var i := 0;
    while i < |children|
      invariant 0 <= i <= |children|
      invariant result == collected + {id} + ScopesOf(nodes, rank, children[..i])
    {
      var c := children[i];
      ScopesOfPrefix(nodes, rank, children, i);
      result := CollectDescendants(nodes, rank, c.id, result);
      i := i + 1;
    }
    assert children[..i] == children;
    DescendantsViaChildren(nodes, rank, id);
  }

  /** The entry point with an empty starting accumulator. */
  method GetDescendantNodeIds(nodes: seq<Node>, rank: int -> nat, node: Node) returns (ids: set<int>)
    requires RankedForest(nodes, rank)
    ensures ids == Descendants(nodes, rank, node.id)
  {
    ids := CollectDescendants(nodes, rank, node.id, {});
  }

  // ---------------------------------------------------------------------
  // build_tree

  /** One entry of the nested tree: a node's id, name and level, and the
      entries of its children. */
  datatype TreeEntry = TreeEntry(id: int, name: string, level: int, children: seq<TreeEntry>)

  /** `build_tree(parent_id)`: one entry per node under `parent`, each
      carrying the tree built below it. */
  function BuildTree(nodes: seq<Node>, rank: int -> nat, parent: Option<int>): (t: seq<TreeEntry>)
    requires RankedForest(nodes, rank)
    ensures |t| == |NodesUnder(nodes, parent)|
    ensures forall i :: 0 <= i < |t| ==>
      (exists n :: n in nodes && n.parentId == parent && t[i] == TreeEntry(n.id, n.name, n.level, t[i].children))
    decreases if parent.None? then 1 else 0, if parent.Some? then rank(parent.value) else 0, 1, 0
  {
    BuildEntries(nodes, rank, parent, NodesUnder(nodes, parent))
  }

  function BuildEntries(nodes: seq<Node>, rank: int -> nat, parent: Option<int>, cs: seq<Node>): (t: seq<TreeEntry>)
    requires RankedForest(nodes, rank)
    requires forall c :: c in cs ==> c in nodes && c.parentId == parent
    ensures |t| == |cs|
    ensures forall i :: 0 <= i < |cs| ==> t[i].id == cs[i].id && t[i].name == cs[i].name && t[i].level == cs[i].level
    decreases if parent.None? then 1 else 0, if parent.Some? then rank(parent.value) else 0, 0, |cs|
  {
    if cs == [] then []
    else
      [TreeEntry(cs[0].id, cs[0].name, cs[0].level, BuildTree(nodes, rank, Some(cs[0].id)))]
        + BuildEntries(nodes, rank, parent, cs[1..])
  }

  /** The tree `t` lists, at every level, exactly the nodes whose parent
      reference is the enclosing entry's id (the roots at the top), in
      table order, each with its name and level. */
  ghost predicate Mirrors(nodes: seq<Node>, t: seq<TreeEntry>, parent: Option<int>)
    decreases t
  {
    var cs := NodesUnder(nodes, parent);
    && |t| == |cs|
    && forall i :: 0 <= i < |t| ==>
         && t[i].id == cs[i].id && t[i].name == cs[i].name && t[i].level == cs[i].level
         && Mirrors(nodes, t[i].children, Some(t[i].id))
  }

  /** `build_tree` mirrors the parent relation at every depth. */
  lemma {:induction false} BuildTreeMirrors(nodes: seq<Node>, rank: int -> nat, parent: Option<int>)
    requires RankedForest(nodes, rank)
    ensures Mirrors(nodes, BuildTree(nodes, rank, parent), parent)
    decreases if parent.None? then 1 else 0, if parent.Some? then rank(parent.value) else 0, 1, 0
  {
    var cs := NodesUnder(nodes, parent);
    BuildEntriesMirror(nodes, rank, parent, cs);
  }

  lemma {:induction false} BuildEntriesMirror(nodes: seq<Node>, rank: int -> nat, parent: Option<int>, cs: seq<Node>)
    requires RankedForest(nodes, rank)
    requires forall c :: c in cs ==> c in nodes && c.parentId == parent
    ensures forall i :: 0 <= i < |cs| ==>
      Mirrors(nodes, BuildEntries(nodes, rank, parent, cs)[i].children, Some(cs[i].id))
    decreases if parent.None? then 1 else 0, if parent.Some? then rank(parent.value) else 0, 0, |cs|
  {
    if cs != [] {
      BuildTreeMirrors(nodes, rank, Some(cs[0].id));
      BuildEntriesMirror(nodes, rank, parent, cs[1..]);
      var t := BuildEntries(nodes, rank, parent, cs);
      forall i | 0 <= i < |cs|
        ensures Mirrors(nodes, t[i].children, Some(cs[i].id))
      {
        if i > 0 {
          assert t[i] == BuildEntries(nodes, rank, parent, cs[1..])[i - 1];
          assert cs[i] == cs[1..][i - 1];
        }
      }
    }
  }

  /** On any level of a mirroring tree, an entry with id `k` appears exactly
      when some node with id `k` has the enclosing parent reference. */
  lemma PlacedUnderIff(nodes: seq<Node>, t: seq<TreeEntry>, parent: Option<int>, k: int)
    requires Mirrors(nodes, t, parent)
    ensures (exists i :: 0 <= i < |t| && t[i].id == k) <==> (exists n :: n in nodes && n.id == k && n.parentId == parent)
  {
    if exists n :: n in nodes && n.id == k && n.parentId == parent {
      var n :| n in nodes && n.id == k && n.parentId == parent;
      NodePlaced(nodes, t, parent, n);
    }
    if exists i :: 0 <= i < |t| && t[i].id == k {
      var i :| 0 <= i < |t| && t[i].id == k;
      EntryPlaced(nodes, t, parent, i);
    }
  }

  lemma NodePlaced(nodes: seq<Node>, t: seq<TreeEntry>, parent: Option<int>, n: Node)
    requires Mirrors(nodes, t, parent) && n in nodes && n.parentId == parent
    ensures exists i :: 0 <= i < |t| && t[i].id == n.id
  {
    var cs := NodesUnder(nodes, parent);
    assert n in cs;
    var i :| 0 <= i < |cs| && cs[i] == n;
    assert t[i].id == n.id;
  }

  lemma EntryPlaced(nodes: seq<Node>, t: seq<TreeEntry>, parent: Option<int>, i: int)
    requires Mirrors(nodes, t, parent) && 0 <= i < |t|
    ensures exists n :: n in nodes && n.id == t[i].id && n.parentId == parent
  {
    var cs := NodesUnder(nodes, parent);
    assert cs[i] in cs;
  }
}
