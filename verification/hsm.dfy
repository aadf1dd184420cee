/** The declarative shape of a hierarchical state machine, as the `[HsmStates]` methods of the samples write
    it down: a tree of states, each with optional enter/exit hooks and input edges that name a handler and
    the targets it may request. Only the data and the lookup of the handling edge are modelled here; how
    the library executes a transition (hook order, history, entering a composite) is not. */
module Hsm {
  import opened Wrappers

  /** An argument of `SetNext`: a named state, or one of the pseudo-targets `State.Self`, `State.History`. */
  datatype Target<S> = To(state: S) | Self | History

  /** `.Edge(input, handler, targets...)`: the handler bound to an input and the targets it declares. */
  datatype Edge<S, I, H> = Edge(input: I, handler: H, targets: seq<Target<S>>)

  /** `m.State(id)` (no children) or `m.Composite(id, [children])`, with `.OnStart`, `.OnEnter`,
      `.OnExit` and `.Edge` declarations. */
  datatype StateDef<S, I, H> = StateDef(
    id: S,
    children: seq<StateDef<S, I, H>>,
    start: Option<S>,
    onEnter: Option<H>,
    onExit: Option<H>,
    edges: seq<Edge<S, I, H>>)
  {
    predicate IsLeaf()
    {
      children == []
    }
  }

  /** The edge that handled an input: the state that declares it, and the edge itself. */
  datatype Handling<S, I, H> = Handling(owner: S, edge: Edge<S, I, H>)

  /** A leaf state with its edges and hooks. */
  function Leaf<S, I, H>(id: S, onEnter: Option<H>, onExit: Option<H>, edges: seq<Edge<S, I, H>>): (t: StateDef<S, I, H>)
    ensures t.IsLeaf() && t.id == id
  {
    StateDef(id, [], None, onEnter, onExit, edges)
  }

  /** All states of a tree in pre-order. */
  function Nodes<S, I, H>(t: StateDef<S, I, H>): (ns: seq<StateDef<S, I, H>>)
    ensures |ns| >= 1 && ns[0] == t
    decreases t, 1
  {
    [t] + NodesFrom(t, 0)
  }

  function NodesFrom<S, I, H>(t: StateDef<S, I, H>, i: nat): seq<StateDef<S, I, H>>
    requires i <= |t.children|
    decreases t, 0, |t.children| - i
  {
    if i == |t.children| then [] else Nodes(t.children[i]) + NodesFrom(t, i + 1)
  }

  /** The ids of all states of a tree, in pre-order. */
  function Ids<S, I, H>(t: StateDef<S, I, H>): (ids: seq<S>)
    ensures |ids| == |Nodes(t)|
    ensures forall k :: 0 <= k < |ids| ==> ids[k] == Nodes(t)[k].id
  {
    var ns := Nodes(t);
    seq(|ns|, k requires 0 <= k < |ns| => ns[k].id)
  }

  /** State ids form one flat namespace: no id is declared twice. */
  predicate UniqueIds<S(==), I, H>(t: StateDef<S, I, H>)
  {
    var ids := Ids(t);
    forall i, j :: 0 <= i < j < |ids| ==> ids[i] != ids[j]
  }

  /** No element occurs again later on: a recursive check that evaluates cheaply on a literal list. */
  predicate NoRepeats<S(==)>(s: seq<S>)
    decreases |s|
  {
    |s| == 0 || (s[0] !in s[1..] && NoRepeats(s[1..]))
  }

  /** A list without repeats holds pairwise different elements. */
  lemma {:induction false} NoRepeatsDistinct<S>(s: seq<S>)
    requires NoRepeats(s)
    ensures forall i, j :: 0 <= i < j < |s| ==> s[i] != s[j]
    decreases |s|
  {
    if |s| > 0 {
      NoRepeatsDistinct(s[1..]);
      forall i, j | 0 <= i < j < |s| ensures s[i] != s[j] {
        if i == 0 {
          assert s[j] == s[1..][j - 1];
        } else {
          assert s[i] == s[1..][i - 1] && s[j] == s[1..][j - 1];
        }
      }
    }
  }

  /** A topology whose id list has no repeats declares every id once. */
  lemma UniqueIdsFromList<S, I, H>(t: StateDef<S, I, H>, ids: seq<S>)
    requires Ids(t) == ids && NoRepeats(ids)
    ensures UniqueIds(t)
  {
    NoRepeatsDistinct(ids);
  }

  /** A declared start state lies strictly below the state that declares it. */
  predicate StartIsDescendant<S(==), I, H>(n: StateDef<S, I, H>)
  {
    n.start.Some? ==> n.start.value in Ids(n)[1..]
  }

  /** Every state an edge of `n` names is a state of the machine. */
  predicate TargetsDeclared<S(==), I, H>(ids: seq<S>, n: StateDef<S, I, H>)
  {
    forall k, j :: 0 <= k < |n.edges| && 0 <= j < |n.edges[k].targets| && n.edges[k].targets[j].To? ==>
      n.edges[k].targets[j].state in ids
  }

  /** A state binds each input at most once. */
  predicate DistinctInputs<S, I(==), H>(n: StateDef<S, I, H>)
  {
    forall k, j :: 0 <= k < j < |n.edges| ==> n.edges[k].input != n.edges[j].input
  }

  predicate NodeWellFormed<S(==), I(==), H>(ids: seq<S>, n: StateDef<S, I, H>)
  {
    StartIsDescendant(n) && TargetsDeclared(ids, n) && DistinctInputs(n)
  }

  /** The structural rules a topology is expected to obey. */
  predicate WellFormed<S(==), I(==), H(==)>(t: StateDef<S, I, H>)
  {
    && UniqueIds(t)
    && (forall n :: n in Nodes(t) ==> NodeWellFormed(Ids(t), n))
  }

  /** The edge a state declares for an input, if any. */
  function EdgeFor<S, I(==), H>(edges: seq<Edge<S, I, H>>, input: I): Option<Edge<S, I, H>>
  {
    if edges == [] then None
    else if edges[0].input == input then Some(edges[0])
    else EdgeFor(edges[1..], input)
  }

  /** The states from the root `t` down to the first state (in pre-order) named `id`, both included. */
  function PathTo<S(==), I, H>(t: StateDef<S, I, H>, id: S): Option<seq<StateDef<S, I, H>>>
    decreases t, 1, 0
  {
    if t.id == id then Some([t])
    else match PathAmong(t, 0, id)
      case Some(q) => Some([t] + q)
      case None => None
  }

  function PathAmong<S(==), I, H>(t: StateDef<S, I, H>, i: nat, id: S): Option<seq<StateDef<S, I, H>>>
    requires i <= |t.children|
    decreases t, 0, |t.children| - i
  {
    if i == |t.children| then None
    else match PathTo(t.children[i], id)
      case Some(q) => Some(q)
      case None => PathAmong(t, i + 1, id)
  }

  /** The innermost state on a root-to-leaf path that declares an edge for `input`. */
  function Innermost<S, I(==), H>(path: seq<StateDef<S, I, H>>, input: I): Option<Handling<S, I, H>>
  {
    if path == [] then None
    else
      var n := path[|path| - 1];
      match EdgeFor(n.edges, input)
      case Some(e) => Some(Handling(n.id, e))
      case None => Innermost(path[..|path| - 1], input)
  }

  /** The edge that handles `input` while `leaf` is current: the leaf's own edge if it declares one, else
      the nearest enclosing state's. None means the input is unhandled there. */
  function Dispatch<S(==), I(==), H>(root: StateDef<S, I, H>, leaf: S, input: I): Option<Handling<S, I, H>>
  {
    match PathTo(root, leaf)
    case Some(p) => Innermost(p, input)
    case None => None
  }

  /** `EdgeFor` finds an edge for the input exactly when the state declares one, and the first it finds
      is one of the state's edges. */
  lemma {:induction false} EdgeForSound<S, I, H>(edges: seq<Edge<S, I, H>>, input: I)
    ensures EdgeFor(edges, input).Some? ==>
      EdgeFor(edges, input).value in edges && EdgeFor(edges, input).value.input == input
    ensures EdgeFor(edges, input).None? <==> forall e :: e in edges ==> e.input != input
  {
    if edges != [] && edges[0].input != input {
      EdgeForSound(edges[1..], input);
      assert forall e :: e in edges ==> e == edges[0] || e in edges[1..];
    }
  }

  /** A path found by `PathTo` runs from the root, parent to child, down to a state with the id sought. */
  lemma {:induction false} PathToSound<S, I, H>(t: StateDef<S, I, H>, id: S)
    ensures var p := PathTo(t, id);
      p.Some? ==> |p.value| >= 1 && p.value[0] == t && p.value[|p.value| - 1].id == id
    ensures var p := PathTo(t, id);
      p.Some? ==> forall k :: 0 <= k < |p.value| - 1 ==> p.value[k + 1] in p.value[k].children
    decreases t, 1
  {
    if t.id != id {
      PathAmongSound(t, 0, id);
    }
  }

  lemma {:induction false} PathAmongSound<S, I, H>(t: StateDef<S, I, H>, i: nat, id: S)
    requires i <= |t.children|
    ensures var p := PathAmong(t, i, id);
      p.Some? ==> |p.value| >= 1 && p.value[0] in t.children && p.value[|p.value| - 1].id == id
    ensures var p := PathAmong(t, i, id);
      p.Some? ==> forall k :: 0 <= k < |p.value| - 1 ==> p.value[k + 1] in p.value[k].children
    decreases t, 0, |t.children| - i
  {
    if i < |t.children| {
      PathToSound(t.children[i], id);
      if PathTo(t.children[i], id).None? {
        PathAmongSound(t, i + 1, id);
      }
    }
  }

  /** `Innermost` returns an edge for the input declared by a state of the path, and finds none exactly
      when no state of the path declares one. */
  lemma {:induction false} InnermostSound<S, I, H>(path: seq<StateDef<S, I, H>>, input: I)
    ensures var r := Innermost(path, input);
      r.Some? ==> (r.value.edge.input == input &&
        exists k :: 0 <= k < |path| && path[k].id == r.value.owner && r.value.edge in path[k].edges)
    ensures Innermost(path, input).None? <==> forall k, e :: 0 <= k < |path| && e in path[k].edges ==> e.input != input
    decreases |path|
  {
    if path != [] {
      var n := path[|path| - 1];
      var front := path[..|path| - 1];
      EdgeForSound(n.edges, input);
      if EdgeFor(n.edges, input).None? {
        InnermostSound(front, input);
        assert forall k :: 0 <= k < |path| - 1 ==> front[k] == path[k];
        var r := Innermost(path, input);
        if r.Some? {
          var k :| 0 <= k < |front| && front[k].id == r.value.owner && r.value.edge in front[k].edges;
          assert path[k] == front[k];
        }
      }
    }
  }

  /** A handler's `SetNext` request conforms to its edge when it makes none, or names one of the edge's
      declared targets, or names the edge's own state explicitly (which stands for `Self`). */
  predicate Permits<S(==), I, H>(owner: S, e: Edge<S, I, H>, request: Option<Target<S>>)
  {
    match request
    case None => true
    case Some(t) => t in e.targets || t == To(owner)
  }

  /** An enter or exit hook has no edge of its own; a request it makes conforms when it names the hook's
      own state. */
  predicate HookPermits<S(==)>(owner: S, request: Option<Target<S>>)
  {
    request.None? || request == Some(Self) || request == Some(To(owner))
  }

  /** Where a request leads, taking the state it names as the one the machine rests in: the named state,
      or the current one for no request and for `Self`. For a composite that declares no start state this
      is an assumption about the engine, whose rule for entering composites is not part of this model. */
  function Follow<S>(current: S, request: Option<Target<S>>): (next: S)
    requires request != Some(History)
    ensures request.Some? && request.value.To? ==> next == request.value.state
    ensures request.None? || request == Some(Self) ==> next == current
  {
    match request
    case Some(To(s)) => s
    case _ => current
  }
}
