/** SceneTree.cs: the game's scene trees. Nodes are identified by number; a world holds every tree and each
    node's `SceneTree` back-reference. */
module SceneTree {
  import opened Wrappers
  import opened Character

  /** The identity of a node, and of a scene tree. */
  type NodeId = nat
  type TreeId = nat

  /** One `SceneTree`: `m_tree` (in order), `m_free` and `Terminate`. */
  datatype Tree = Tree(nodes: seq<NodeId>, free: set<NodeId>, terminate: bool)

  /** Every scene tree, and the tree each node's `SceneTree` property points at (absent when null). */
  datatype World = World(trees: map<TreeId, Tree>, owner: map<NodeId, TreeId>)

  /** `Contract.Assert(removed)` failed: the node was not in the tree. */
  datatype Error = NotInTree(node: NodeId)

  predicate NoDup(s: seq<NodeId>)
  {
    forall i, j :: 0 <= i < j < |s| ==> s[i] != s[j]
  }

  /** The world is consistent: back-references point at existing trees, a tree holds only nodes whose
      back-reference points at it, and no tree holds a node twice. */
  predicate Valid(w: World)
  {
    (forall n :: n in w.owner ==> w.owner[n] in w.trees) &&
    (forall t, i :: t in w.trees && 0 <= i < |w.trees[t].nodes| ==>
      w.trees[t].nodes[i] in w.owner && w.owner[w.trees[t].nodes[i]] == t) &&
    (forall t :: t in w.trees ==> NoDup(w.trees[t].nodes))
  }

  /** The position of the first occurrence of `n`. */
  function IndexOf(s: seq<NodeId>, n: NodeId): (i: nat)
    requires n in s
    ensures i < |s| && s[i] == n && n !in s[..i]
  {
    if s[0] == n then 0 else assert s[1..][IndexOf(s[1..], n)] == n; 1 + IndexOf(s[1..], n)
  }

  /** `List.Remove`: drop the first occurrence of `n`, if any. */
  function RemoveFirst(s: seq<NodeId>, n: NodeId): (r: seq<NodeId>)
    ensures n !in s ==> r == s
    ensures multiset(r) == multiset(s) - multiset{n}
  {
    if s == [] then []
    else
      assert s == [s[0]] + s[1..];
      if s[0] == n then s[1..] else [s[0]] + RemoveFirst(s[1..], n)
  }

  /** `RemoveFirst` drops exactly the element at the first occurrence. */
  lemma {:induction false} RemoveFirstAtIndex(s: seq<NodeId>, n: NodeId)
    requires n in s
    ensures RemoveFirst(s, n) == s[..IndexOf(s, n)] + s[IndexOf(s, n) + 1..]
    decreases |s|
  {
    if s[0] != n {
      var t := s[1..];
      RemoveFirstAtIndex(t, n);
      var i := IndexOf(t, n);
      assert IndexOf(s, n) == i + 1;
      assert RemoveFirst(s, n) == [s[0]] + (t[..i] + t[i + 1..]);
      DropAfterHead(s, i);
    }
  }

  /** Dropping the element after position `i` of the tail is dropping the one after `i + 1` of the whole. */
  lemma DropAfterHead(s: seq<NodeId>, i: nat)
    requires i + 1 < |s|
    ensures [s[0]] + (s[1..][..i] + s[1..][i + 1..]) == s[..i + 1] + s[i + 2..]
  {
    assert [s[0]] + s[1..][..i] == s[..i + 1];
    assert s[1..][i + 1..] == s[i + 2..];
  }

  /** The nodes of `s` that are not in `f`, in order. */
  function Without(s: seq<NodeId>, f: set<NodeId>): (r: seq<NodeId>)
    ensures forall n :: n in r <==> n in s && n !in f
    ensures |r| <= |s|
  {
    if s == [] then [] else if s[0] in f then Without(s[1..], f) else [s[0]] + Without(s[1..], f)
  }

  /** `Remove`: the caller must own the node (`Contract.Requires`); the node's back-reference is left as it
      was, and a node that is not in the list fails the assertion. */
  function Remove(w: World, t: TreeId, n: NodeId): (r: Result<World, Error>)
    requires t in w.trees && n in w.owner && w.owner[n] == t
    ensures r.Failure? <==> n !in w.trees[t].nodes
    ensures r.Success? ==> r.value.owner == w.owner && r.value.trees.Keys == w.trees.Keys
    ensures r.Success? ==> r.value.trees[t] == w.trees[t].(nodes := RemoveFirst(w.trees[t].nodes, n))
    ensures r.Success? ==> forall u :: u in w.trees && u != t ==> r.value.trees[u] == w.trees[u]
  {
    if n !in w.trees[t].nodes then Failure(NotInTree(n))
    else
      var tr := w.trees[t];
      Success(w.(trees := w.trees[t := tr.(nodes := RemoveFirst(tr.nodes, n))]))
  }

  /** Attach a node to tree `t`: point its back-reference at `t` and append it. */
  function Attach(w: World, t: TreeId, n: NodeId): World
    requires t in w.trees
  {
    var tr := w.trees[t];
    World(w.trees[t := tr.(nodes := tr.nodes + [n])], w.owner[n := t])
  }

  /** `Add`: false and no change when the node already belongs to `t`; otherwise detach it from its old tree
      (whose `Remove` may fail), attach it to `t` at the end, and answer true. */
  function Add(w: World, t: TreeId, n: NodeId): (r: Result<(World, bool), Error>)
    requires t in w.trees
    requires n in w.owner ==> w.owner[n] in w.trees
    ensures r.Failure? <==> n in w.owner && w.owner[n] != t && n !in w.trees[w.owner[n]].nodes
    ensures r.Success? && !r.value.1 <==> n in w.owner && w.owner[n] == t
    ensures r.Success? && !r.value.1 ==> r.value.0 == w
    ensures r.Success? && r.value.1 ==>
      r.value.0.owner == w.owner[n := t] && r.value.0.trees.Keys == w.trees.Keys &&
      r.value.0.trees[t] == w.trees[t].(nodes := w.trees[t].nodes + [n])
    ensures r.Success? && r.value.1 ==> forall u :: u in w.trees && u != t && !(n in w.owner && w.owner[n] == u) ==>
      r.value.0.trees[u] == w.trees[u]
  {
    if n in w.owner && w.owner[n] == t then Success((w, false))
    else if n in w.owner then
      match Remove(w, w.owner[n], n)
      case Failure(e) => Failure(e)
      case Success(w1) => Success((Attach(w1, t, n), true))
    else Success((Attach(w, t, n), true))
  }

  /** `QueueFree`: remember the node to be freed. */
  function QueueFree(w: World, t: TreeId, n: NodeId): (r: World)
    requires t in w.trees
    ensures r.owner == w.owner && r.trees.Keys == w.trees.Keys
    ensures r.trees[t].free == w.trees[t].free + {n} && r.trees[t].nodes == w.trees[t].nodes
    ensures forall u :: u in w.trees && u != t ==> r.trees[u] == w.trees[u]
  {
    w.(trees := w.trees[t := w.trees[t].(free := w.trees[t].free + {n})])
  }

  /** Remove the first occurrence of each node of `order`, one after the other. */
  function RemoveEach(s: seq<NodeId>, order: seq<NodeId>): seq<NodeId>
    decreases |order|
  {
    if order == [] then s else RemoveEach(RemoveFirst(s, order[0]), order[1..])
  }

  /** Removing each node of `order` once takes exactly those occurrences away from the list. */
  lemma {:induction false} RemoveEachMultiset(s: seq<NodeId>, order: seq<NodeId>)
    ensures multiset(RemoveEach(s, order)) == multiset(s) - multiset(order)
    decreases |order|
  {
    if order != [] {
      var s1 := RemoveFirst(s, order[0]);
      assert RemoveEach(s, order) == RemoveEach(s1, order[1..]);
      RemoveEachMultiset(s1, order[1..]);
      assert order == [order[0]] + order[1..];
      assert multiset(order) == multiset{order[0]} + multiset(order[1..]);
      DifferenceOfDifference(multiset(s), multiset{order[0]}, multiset(order[1..]));
    }
  }

  lemma DifferenceOfDifference(a: multiset<NodeId>, b: multiset<NodeId>, c: multiset<NodeId>)
    ensures (a - b) - c == a - (b + c)
  {
    forall x
      ensures ((a - b) - c)[x] == (a - (b + c))[x]
    {
    }
  }

  /** A list without duplicates holds each of its elements once. */
  lemma {:induction false} NoDupCounts(s: seq<NodeId>)
    requires NoDup(s)
    ensures forall n :: multiset(s)[n] == if n in s then 1 else 0
  {
    if s != [] {
      assert NoDup(s[1..]);
      NoDupCounts(s[1..]);
      assert s == [s[0]] + s[1..];
    }
  }

  /** On a list without duplicates, removing the first occurrence removes every occurrence. */
  lemma {:induction false} RemoveFirstNoDup(s: seq<NodeId>, n: NodeId)
    requires NoDup(s)
    ensures RemoveFirst(s, n) == Without(s, {n}) && NoDup(RemoveFirst(s, n))
  {
    RemoveFirstIsWithout(s, n);
    WithoutKeepsNoDup(s, {n});
  }

  lemma {:induction false} RemoveFirstIsWithout(s: seq<NodeId>, n: NodeId)
    requires NoDup(s)
    ensures RemoveFirst(s, n) == Without(s, {n})
    decreases |s|
  {
    if s != [] {
      var t := s[1..];
      assert NoDup(t) by {
        forall i, j | 0 <= i < j < |t| ensures t[i] != t[j] {
          assert t[i] == s[i + 1] && t[j] == s[j + 1];
        }
      }
      if s[0] == n {
        assert forall i :: 0 <= i < |t| ==> t[i] == s[i + 1] && s[i + 1] != s[0];
        WithoutAbsent(t, {n});
      } else {
        RemoveFirstIsWithout(t, n);
      }
    }
  }

  /** Removing nodes a sequence does not hold changes nothing. */
  lemma {:induction false} WithoutAbsent(s: seq<NodeId>, f: set<NodeId>)
    requires forall i :: 0 <= i < |s| ==> s[i] !in f
    ensures Without(s, f) == s
    decreases |s|
  {
    if s != [] {
      WithoutAbsent(s[1..], f);
      assert s == [s[0]] + s[1..];
    }
  }

  lemma {:induction false} WithoutWithout(s: seq<NodeId>, f: set<NodeId>, g: set<NodeId>)
    ensures Without(Without(s, f), g) == Without(s, f + g)
    decreases |s|
  {
    if s != [] {
      WithoutWithout(s[1..], f, g);
      if s[0] !in f {
        assert Without(s, f) == [s[0]] + Without(s[1..], f);
        assert Without(s, f)[1..] == Without(s[1..], f);
      }
    }
  }

  lemma {:induction false} WithoutKeepsNoDup(s: seq<NodeId>, f: set<NodeId>)
    requires NoDup(s)
    ensures NoDup(Without(s, f))
    decreases |s|
  {
    if s != [] {
      WithoutKeepsNoDup(s[1..], f);
    }
  }

  /** The nodes a sequence holds. */
  function Elements(order: seq<NodeId>): (r: set<NodeId>)
    ensures forall n :: n in r <==> n in order
  {
    if order == [] then {} else {order[0]} + Elements(order[1..])
  }

  /** On a list without duplicates, removing each node of `order` once removes exactly those nodes, whatever
      the order. */
  lemma {:induction false} RemoveEachIsWithout(s: seq<NodeId>, order: seq<NodeId>)
    requires NoDup(s)
    ensures RemoveEach(s, order) == Without(s, Elements(order))
    decreases |order|
  {
    if order == [] {
      WithoutAbsent(s, {});
    } else {
      RemoveFirstNoDup(s, order[0]);
      RemoveEachIsWithout(RemoveFirst(s, order[0]), order[1..]);
      WithoutWithout(s, {order[0]}, Elements(order[1..]));
    }
  }

  /** `FreeResources`: every node in `m_free`, enumerated in `order` (the set's iteration order, which
      lists each member once), is queued and removed from the list. `m_free` is not cleared and back-references are not reset. */
  function FreeResources(w: World, t: TreeId, order: seq<NodeId>): (r: World)
    requires t in w.trees
    requires forall n :: n in order <==> n in w.trees[t].free
    requires NoDup(order)
    ensures r.owner == w.owner && r.trees.Keys == w.trees.Keys
    ensures r.trees[t].free == w.trees[t].free && r.trees[t].terminate == w.trees[t].terminate
    ensures forall u :: u in w.trees && u != t ==> r.trees[u] == w.trees[u]
    ensures forall n :: n in r.trees[t].nodes ==> n in w.trees[t].nodes
    ensures NoDup(w.trees[t].nodes) ==>
      r.trees[t].nodes == Without(w.trees[t].nodes, w.trees[t].free) && NoDup(r.trees[t].nodes)
    ensures forall n ::
      multiset(r.trees[t].nodes)[n] ==
        (if n in w.trees[t].free && n in w.trees[t].nodes then multiset(w.trees[t].nodes)[n] - 1
         else multiset(w.trees[t].nodes)[n])
  {
    var tr := w.trees[t];
    RemoveEachFrees(tr.nodes, tr.free, order);
    RemoveEachMultiset(tr.nodes, order);
    NoDupCounts(order);
    w.(trees := w.trees[t := tr.(nodes := RemoveEach(tr.nodes, order))])
  }

  lemma RemoveEachFrees(s: seq<NodeId>, f: set<NodeId>, order: seq<NodeId>)
    requires forall n :: n in order <==> n in f
    ensures forall n :: n in RemoveEach(s, order) ==> n in s
    ensures NoDup(s) ==> RemoveEach(s, order) == Without(s, f) && NoDup(RemoveEach(s, order))
  {
    RemoveEachSubset(s, order);
    if NoDup(s) {
      RemoveEachIsWithout(s, order);
      assert Elements(order) == f;
      WithoutKeepsNoDup(s, f);
    }
  }

  lemma {:induction false} RemoveEachSubset(s: seq<NodeId>, order: seq<NodeId>)
    ensures forall n :: n in RemoveEach(s, order) ==> n in s
    decreases |order|
  {
    if order != [] {
      RemoveEachSubset(RemoveFirst(s, order[0]), order[1..]);
      forall n | n in RemoveFirst(s, order[0]) ensures n in s {
        assert n in multiset(RemoveFirst(s, order[0]));
      }
    }
  }

  /** `FreeResources` keeps the world consistent. */
  lemma FreeResourcesPreservesValid(w: World, t: TreeId, order: seq<NodeId>)
    requires Valid(w) && t in w.trees
    requires forall n :: n in order <==> n in w.trees[t].free
    requires NoDup(order)
    ensures Valid(FreeResources(w, t, order))
  {
    var r := FreeResources(w, t, order);
    forall u, i | u in r.trees && 0 <= i < |r.trees[u].nodes|
      ensures r.trees[u].nodes[i] in r.owner && r.owner[r.trees[u].nodes[i]] == u
    {
      if u == t {
        assert r.trees[u].nodes[i] in w.trees[t].nodes;
      }
    }
  }

  /** After `FreeResources` no queued node is left in the tree, and running it again changes nothing. */
  lemma FreeResourcesFreesAll(w: World, t: TreeId, order: seq<NodeId>)
    requires Valid(w) && t in w.trees
    requires forall n :: n in order <==> n in w.trees[t].free
    requires NoDup(order)
    ensures forall n :: n in w.trees[t].free ==> n !in FreeResources(w, t, order).trees[t].nodes
    ensures FreeResources(FreeResources(w, t, order), t, order) == FreeResources(w, t, order)
  {
    var r := FreeResources(w, t, order);
    var f := w.trees[t].free;
    WithoutWithout(w.trees[t].nodes, f, f);
    assert f + f == f;
    var r2 := FreeResources(r, t, order);
    assert r2.trees[t] == r.trees[t];
    assert r2.trees == r.trees;
  }

  /** Adding keeps the world consistent. */
  lemma AddPreservesValid(w: World, t: TreeId, n: NodeId)
    requires Valid(w) && t in w.trees
    ensures Add(w, t, n).Success? ==> Valid(Add(w, t, n).value.0)
  {
    if n in w.owner && w.owner[n] != t && n in w.trees[w.owner[n]].nodes {
      var w1 := Remove(w, w.owner[n], n).value;
      RemovePreservesValid(w, w.owner[n], n);
      AttachPreservesValid(w1, t, n);
    } else if n !in w.owner {
      AttachPreservesValid(w, t, n);
    }
  }

  /** Removing a node from its tree keeps the world consistent, and the node is in no tree afterwards. */
  lemma RemovePreservesValid(w: World, u: TreeId, n: NodeId)
    requires Valid(w) && u in w.trees && n in w.owner && w.owner[n] == u && n in w.trees[u].nodes
    ensures Valid(Remove(w, u, n).value) && Remove(w, u, n).value.owner == w.owner
    ensures forall v :: v in Remove(w, u, n).value.trees ==> n !in Remove(w, u, n).value.trees[v].nodes
  {
    var w1 := Remove(w, u, n).value;
    RemoveFirstNoDup(w.trees[u].nodes, n);
    assert forall i :: 0 <= i < |w1.trees[u].nodes| ==> w1.trees[u].nodes[i] in w.trees[u].nodes;
  }

  /** Attaching a node that is in no tree keeps the world consistent. */
  lemma AttachPreservesValid(w: World, t: TreeId, n: NodeId)
    requires Valid(w) && t in w.trees && forall v :: v in w.trees ==> n !in w.trees[v].nodes
    ensures Valid(Attach(w, t, n))
  {
    var w1 := Attach(w, t, n);
    forall u, i | u in w1.trees && 0 <= i < |w1.trees[u].nodes|
      ensures w1.trees[u].nodes[i] in w1.owner && w1.owner[w1.trees[u].nodes[i]] == u
    {
      if u == t && i == |w.trees[t].nodes| {
      } else {
        assert w1.trees[u].nodes[i] == w.trees[u].nodes[i];
      }
    }
  }

  /** A removed node cannot be added back: its back-reference still names the tree, so `Add` answers false. */
  lemma RemovedCannotBeReadded(w: World, t: TreeId, n: NodeId)
    requires t in w.trees && n in w.owner && w.owner[n] == t && n in w.trees[t].nodes
    ensures var w1 := Remove(w, t, n).value; Add(w1, t, n) == Success((w1, false))
  {
  }

  /** A freed node cannot move to another tree either: its old tree's `Remove` fails. */
  lemma FreedCannotMove(w: World, t: TreeId, u: TreeId, n: NodeId, order: seq<NodeId>)
    requires Valid(w) && t in w.trees && u in w.trees && u != t
    requires n in w.owner && w.owner[n] == t && n in w.trees[t].free
    requires forall m :: m in order <==> m in w.trees[t].free
    requires NoDup(order)
    ensures Add(FreeResources(w, t, order), u, n).Failure?
  {
  }

  /** Offer a key to each node in order, as written: only Terminate stops the loop, so a node after one that
      handled the key still sees it. Answers the nodes that saw the key and whether the game terminates. */
  function OfferAsWritten(nodes: seq<NodeId>, outcome: NodeId -> InputOutcome): (r: (seq<NodeId>, bool))
    ensures r.0 <= nodes
    ensures r.1 <==> exists i :: 0 <= i < |nodes| && outcome(nodes[i]) == Terminate
    ensures !r.1 ==> r.0 == nodes
    ensures r.1 ==> |r.0| > 0 && outcome(r.0[|r.0| - 1]) == Terminate
    ensures forall i :: 0 <= i < |r.0| - 1 ==> outcome(r.0[i]) != Terminate
  {
    if nodes == [] then ([], false)
    else if outcome(nodes[0]) == Terminate then ([nodes[0]], true)
    else
      var r := OfferAsWritten(nodes[1..], outcome);
      assert forall i :: 1 <= i < |nodes| ==> nodes[i] == nodes[1..][i - 1];
      ([nodes[0]] + r.0, r.1)
  }

  /** Offer a key as `Node.InputOutcome` documents it: the first node that handles it (or asks to
      terminate) is the last to see it. */
  function Offer(nodes: seq<NodeId>, outcome: NodeId -> InputOutcome): (r: (seq<NodeId>, bool))
    ensures r.0 <= nodes
    ensures forall i :: 0 <= i < |r.0| - 1 ==> outcome(r.0[i]) == NotHandled
    ensures |r.0| < |nodes| ==> |r.0| > 0 && outcome(r.0[|r.0| - 1]) != NotHandled
    ensures r.1 <==> |r.0| > 0 && outcome(r.0[|r.0| - 1]) == Terminate
  {
    if nodes == [] then ([], false)
    else if outcome(nodes[0]) != NotHandled then ([nodes[0]], outcome(nodes[0]) == Terminate)
    else
      var r := Offer(nodes[1..], outcome);
      ([nodes[0]] + r.0, r.1)
  }

  /** Both agree whenever no node answers Handled. */
  lemma {:induction false} OffersAgreeWithoutHandled(nodes: seq<NodeId>, outcome: NodeId -> InputOutcome)
    requires forall i :: 0 <= i < |nodes| ==> outcome(nodes[i]) != Handled
    ensures Offer(nodes, outcome) == OfferAsWritten(nodes, outcome)
    decreases |nodes|
  {
    if nodes != [] && outcome(nodes[0]) == NotHandled {
      OffersAgreeWithoutHandled(nodes[1..], outcome);
    }
  }

  /** Two nodes that both handle a key: as written both see it, although the first one handled it. */
  lemma HandledDoesNotStopDelivery()
    ensures OfferAsWritten([1, 2], _ => Handled).0 == [1, 2]
    ensures Offer([1, 2], _ => Handled).0 == [1]
  {
    var r := OfferAsWritten([2], _ => Handled);
    assert r == ([2], false);
  }

  /** `HandleWorldInput` as written: when a key is available, offer it to the tree's nodes in order; only a
      Terminate answer stops the loop, and it sets the tree's `Terminate`. Answers the new world and the nodes
      that saw the key. */
  function HandleWorldInput(w: World, t: TreeId, key: Option<Key>, handle: (NodeId, Key) -> InputOutcome): (r: (World, seq<NodeId>))
    requires t in w.trees
    ensures key.None? ==> r == (w, [])
    ensures r.1 <= w.trees[t].nodes
    ensures r.0.owner == w.owner && r.0.trees.Keys == w.trees.Keys
    ensures r.0.trees[t] == w.trees[t].(terminate := r.0.trees[t].terminate)
    ensures forall u :: u in w.trees && u != t ==> r.0.trees[u] == w.trees[u]
    ensures key.Some? ==> r.1 == OfferAsWritten(w.trees[t].nodes, (n: NodeId) => handle(n, key.value)).0
    ensures key.Some? ==> forall i :: 0 <= i < |r.1| - 1 ==> handle(r.1[i], key.value) != Terminate
    ensures key.Some? && (forall i :: 0 <= i < |w.trees[t].nodes| ==> handle(w.trees[t].nodes[i], key.value) != Terminate) ==>
      r.1 == w.trees[t].nodes
    ensures key.Some? ==> (r.0.trees[t].terminate <==> (w.trees[t].terminate ||
      exists i :: 0 <= i < |w.trees[t].nodes| && handle(w.trees[t].nodes[i], key.value) == Terminate))
  {
    match key
    case None => (w, [])
    case Some(k) =>
      var r := OfferAsWritten(w.trees[t].nodes, (n: NodeId) => handle(n, k));
      var tr := w.trees[t];
      (w.(trees := w.trees[t := tr.(terminate := tr.terminate || r.1)]), r.0)
  }

  /** `HandleWorldInput` as `Node.InputOutcome` documents it: the first node that handles the key, or asks
      to terminate, is the last to see it. */
  function HandleWorldInputCorrected(w: World, t: TreeId, key: Option<Key>, handle: (NodeId, Key) -> InputOutcome): (r: (World, seq<NodeId>))
    requires t in w.trees
    ensures key.None? ==> r == (w, [])
    ensures r.1 <= w.trees[t].nodes
    ensures r.0.owner == w.owner && r.0.trees.Keys == w.trees.Keys
    ensures r.0.trees[t] == w.trees[t].(terminate := r.0.trees[t].terminate)
    ensures forall u :: u in w.trees && u != t ==> r.0.trees[u] == w.trees[u]
    ensures key.Some? ==> forall i :: 0 <= i < |r.1| - 1 ==> handle(r.1[i], key.value) == NotHandled
    ensures key.Some? && |r.1| < |w.trees[t].nodes| ==> |r.1| > 0 && handle(r.1[|r.1| - 1], key.value) != NotHandled
    ensures key.Some? ==> (r.0.trees[t].terminate <==>
      (w.trees[t].terminate || (|r.1| > 0 && handle(r.1[|r.1| - 1], key.value) == Terminate)))
  {
    match key
    case None => (w, [])
    case Some(k) =>
      var r := Offer(w.trees[t].nodes, (n: NodeId) => handle(n, k));
      var tr := w.trees[t];
      (w.(trees := w.trees[t := tr.(terminate := tr.terminate || r.1)]), r.0)
  }

  /** Both loops agree whenever no node answers Handled. */
  lemma HandleWorldInputsAgreeWithoutHandled(w: World, t: TreeId, key: Option<Key>, handle: (NodeId, Key) -> InputOutcome)
    requires t in w.trees
    requires key.Some? ==> forall i :: 0 <= i < |w.trees[t].nodes| ==> handle(w.trees[t].nodes[i], key.value) != Handled
    ensures HandleWorldInputCorrected(w, t, key, handle) == HandleWorldInput(w, t, key, handle)
  {
    if key.Some? {
      OffersAgreeWithoutHandled(w.trees[t].nodes, (n: NodeId) => handle(n, key.value));
    }
  }

  /** A node that handles Q followed by one that asks to terminate: as written the game terminates, as
      documented the second node never sees the key. */
  lemma HandledThenTerminate(w: World)
    requires 0 in w.trees && w.trees[0].nodes == [1, 2] && !w.trees[0].terminate
    ensures var handle := (n: NodeId, k: Key) => if n == 1 then Handled else Terminate;
      HandleWorldInput(w, 0, Some(Q), handle).0.trees[0].terminate &&
      HandleWorldInput(w, 0, Some(Q), handle).1 == [1, 2] &&
      !HandleWorldInputCorrected(w, 0, Some(Q), handle).0.trees[0].terminate &&
      HandleWorldInputCorrected(w, 0, Some(Q), handle).1 == [1]
  {
  }

  /** A node seen by `RayTrace`: its identity and position. */
  datatype Body = Body(id: NodeId, position: int)

  function Abs(x: int): nat
  {
    if x < 0 then -x else x
  }

  /** The trace from `position` towards `direction` reaches `b` within `maxDistance`. */
  predicate InSight(b: Body, position: int, direction: int, maxDistance: int)
  {
    (b.position - position) * direction >= 0 && Abs(b.position - position) <= maxDistance
  }

  /** `RayTrace`: of the candidates (the tree's nodes of the wanted type, in order), the index of the one in
      sight that is closest, the earliest among equally close ones; None when none is in sight. */
  method RayTrace(candidates: seq<Body>, position: int, direction: int, maxDistance: int) returns (r: Option<nat>)
    ensures r.None? <==> forall i :: 0 <= i < |candidates| ==> !InSight(candidates[i], position, direction, maxDistance)
    ensures r.Some? ==> r.value < |candidates| && InSight(candidates[r.value], position, direction, maxDistance)
    ensures r.Some? ==> forall j :: 0 <= j < |candidates| && InSight(candidates[j], position, direction, maxDistance) ==>
      Abs(candidates[r.value].position - position) <= Abs(candidates[j].position - position)
    ensures r.Some? ==> forall j :: 0 <= j < r.value && InSight(candidates[j], position, direction, maxDistance) ==>
      Abs(candidates[r.value].position - position) < Abs(candidates[j].position - position)
  {
    r := None;
    var k := 0;
    while k < |candidates|
      invariant 0 <= k <= |candidates|
      invariant r.None? <==> forall i :: 0 <= i < k ==> !InSight(candidates[i], position, direction, maxDistance)
      invariant r.Some? ==> r.value < k && InSight(candidates[r.value], position, direction, maxDistance)
      invariant r.Some? ==> forall j :: 0 <= j < k && InSight(candidates[j], position, direction, maxDistance) ==>
        Abs(candidates[r.value].position - position) <= Abs(candidates[j].position - position)
      invariant r.Some? ==> forall j :: 0 <= j < r.value && InSight(candidates[j], position, direction, maxDistance) ==>
        Abs(candidates[r.value].position - position) < Abs(candidates[j].position - position)
    {
      var distance := candidates[k].position - position;
      if distance * direction < 0 {
      } else if Abs(distance) > maxDistance {
      } else if r.None? {
        r := Some(k);
      } else if Abs(distance) < Abs(candidates[r.value].position - position) {
        r := Some(k);
      }
      k := k + 1;
    }
  }
}
