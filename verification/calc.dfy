/** PromiseRpcSampleProgram.cs: the `Calc` calculator object and the call script of its `Main`. Calculators
    have identity: a heap of registers, where a proxy is an index. The `long` register is an unbounded
    integer. */
module PromiseRpcSample {
  import opened Wrappers

  /** A calculator reference (a `CalcProxy`). */
  type CalcId = nat

  /** Every calculator's `m_register`. */
  datatype Heap = Heap(registers: seq<int>)

  /** The `ICalc` methods. */
  datatype Call = GetCall | ClearCall | AddCall(n: int) | AddCalcCall(other: CalcId) | CloneCall

  /** What a call resolves to: a number, plain completion, or a new proxy. */
  datatype Reply = Value(v: int) | Done | Proxy(id: CalcId)

  datatype Error = UnknownCalc(id: CalcId)

  predicate Exists(h: Heap, c: CalcId)
  {
    c < |h.registers|
  }

  /** `new Calc()`: a new calculator whose register is 0. */
  function New(h: Heap): (r: (Heap, CalcId))
    ensures Exists(r.0, r.1) && r.0.registers[r.1] == 0
    ensures r.1 == |h.registers| && r.0.registers[..|h.registers|] == h.registers
  {
    (Heap(h.registers + [0]), |h.registers|)
  }

  /** `Get`: the register, changing nothing. */
  function Get(h: Heap, c: CalcId): (r: int)
    requires Exists(h, c)
  {
    h.registers[c]
  }

  /** `Clear`: the register becomes 0; no other calculator changes. */
  function Clear(h: Heap, c: CalcId): (r: Heap)
    requires Exists(h, c)
    ensures |r.registers| == |h.registers| && Get(r, c) == 0
    ensures forall d :: Exists(h, d) && d != c ==> Get(r, d) == Get(h, d)
  {
    Heap(h.registers[c := 0])
  }

  /** `Add(n)`: the register grows by `n` and the new value is returned; no other calculator changes. */
  function Add(h: Heap, c: CalcId, n: int): (r: (Heap, int))
    requires Exists(h, c)
    ensures |r.0.registers| == |h.registers| && Get(r.0, c) == Get(h, c) + n && r.1 == Get(r.0, c)
    ensures forall d :: Exists(h, d) && d != c ==> Get(r.0, d) == Get(h, d)
  {
    var v := h.registers[c] + n;
    (Heap(h.registers[c := v]), v)
  }

  /** `AddCalc(d)`: add `d`'s register (read first) to this one. */
  function AddCalc(h: Heap, c: CalcId, d: CalcId): (r: (Heap, int))
    requires Exists(h, c) && Exists(h, d)
    ensures |r.0.registers| == |h.registers| && Get(r.0, c) == Get(h, c) + Get(h, d) && r.1 == Get(r.0, c)
    ensures forall e :: Exists(h, e) && e != c ==> Get(r.0, e) == Get(h, e)
  {
    Add(h, c, Get(h, d))
  }

  /** `Clone`: a new, independent calculator holding the same register value. */
  function Clone(h: Heap, c: CalcId): (r: (Heap, CalcId))
    requires Exists(h, c)
    ensures |r.0.registers| == |h.registers| + 1 && r.1 == |h.registers| && Get(r.0, r.1) == Get(h, c)
    ensures r.0.registers[..|h.registers|] == h.registers
  {
    (Heap(h.registers + [h.registers[c]]), |h.registers|)
  }

  /** Dispatch one call at its target; a proxy to no calculator is an error. */
  function Dispatch(h: Heap, c: CalcId, call: Call): (r: Result<(Heap, Reply), Error>)
    ensures r.Failure? <==> !Exists(h, c) || (call.AddCalcCall? && !Exists(h, call.other))
    ensures r.Success? ==> |r.value.0.registers| >= |h.registers|
  {
    if !Exists(h, c) then Failure(UnknownCalc(c))
    else
      match call
      case GetCall => Success((h, Value(Get(h, c))))
      case ClearCall => Success((Clear(h, c), Done))
      case AddCall(n) => var (h1, v) := Add(h, c, n); Success((h1, Value(v)))
      case AddCalcCall(d) =>
        if !Exists(h, d) then Failure(UnknownCalc(d))
        else var (h1, v) := AddCalc(h, c, d); Success((h1, Value(v)))
      case CloneCall => var (h1, d) := Clone(h, c); Success((h1, Proxy(d)))
  }

  /** `Get` only reads: two Gets answer the same value and leave every calculator as it was, and a Get
      answers what the call before it left in the register. */
  lemma GetReadsBack(h: Heap, c: CalcId, n: int)
    requires Exists(h, c)
    ensures Run(h, [(c, GetCall), (c, GetCall)]) == Success((h, [Value(Get(h, c)), Value(Get(h, c))]))
    ensures var r := Run(h, [(c, AddCall(n)), (c, GetCall)]);
      r.Success? && r.value.1[1] == r.value.1[0] == Value(Get(h, c) + n)
    ensures Run(h, [(c, ClearCall), (c, GetCall)]) == Success((Clear(h, c), [Done, Value(0)]))
  {
    ReadTwice(h, (c, GetCall), (c, GetCall));
    ReadTwice(h, (c, AddCall(n)), (c, GetCall));
    ReadTwice(h, (c, ClearCall), (c, GetCall));
  }

  /** A run of two calls, the second dispatched on the heap the first leaves. */
  lemma ReadTwice(h: Heap, x: (CalcId, Call), y: (CalcId, Call))
    requires Dispatch(h, x.0, x.1).Success? && Dispatch(Dispatch(h, x.0, x.1).value.0, y.0, y.1).Success?
    ensures var d := Dispatch(h, x.0, x.1).value; var e := Dispatch(d.0, y.0, y.1).value;
      Run(h, [x, y]) == Success((e.0, [d.1, e.1]))
  {
    var d := Dispatch(h, x.0, x.1).value;
    var e := Dispatch(d.0, y.0, y.1).value;
    assert Run(e.0, [y][1..]) == Success((e.0, [])) by {
      assert [y][1..] == [];
    }
    assert [e.1] + [] == [e.1];
    assert Run(d.0, [y]) == Success((e.0, [e.1]));
    assert [x, y][1..] == [y];
    assert [d.1] + [e.1] == [d.1, e.1];
  }

  /** Dispatch calls in the order they were issued (linear dispatch order), collecting the replies. */
  function Run(h: Heap, calls: seq<(CalcId, Call)>): (r: Result<(Heap, seq<Reply>), Error>)
    ensures r.Success? ==> |r.value.1| == |calls|
    decreases |calls|
  {
    if calls == [] then Success((h, []))
    else
      match Dispatch(h, calls[0].0, calls[0].1)
      case Failure(e) => Failure(e)
      case Success((h1, reply)) =>
        match Run(h1, calls[1..])
        case Failure(e) => Failure(e)
        case Success((h2, replies)) => Success((h2, [reply] + replies))
  }

  /** A run from the k-th call whose first call succeeds continues from the heap that call leaves. */
  lemma RunFrom(h: Heap, calls: seq<(CalcId, Call)>, k: nat, h1: Heap, reply: Reply, h2: Heap, replies: seq<Reply>)
    requires k < |calls| && Dispatch(h, calls[k].0, calls[k].1) == Success((h1, reply))
    requires Run(h1, calls[k + 1..]) == Success((h2, replies))
    ensures Run(h, calls[k..]) == Success((h2, [reply] + replies))
  {
    assert calls[k..][1..] == calls[k + 1..];
  }

  /** A successful run of a non-empty call list is its first call followed by a successful run of the
      rest. */
  lemma RunHead(h: Heap, calls: seq<(CalcId, Call)>, h2: Heap, replies: seq<Reply>)
    returns (h1: Heap, reply: Reply, rest: seq<Reply>)
    requires calls != [] && Run(h, calls) == Success((h2, replies))
    ensures Dispatch(h, calls[0].0, calls[0].1) == Success((h1, reply))
    ensures Run(h1, calls[1..]) == Success((h2, rest)) && replies == [reply] + rest
  {
    h1, reply := Dispatch(h, calls[0].0, calls[0].1).value.0, Dispatch(h, calls[0].0, calls[0].1).value.1;
    rest := Run(h1, calls[1..]).value.1;
  }

  /** A call made on a clone never changes the original, and one made on the original never changes the
      clone. */
  lemma CloneIsIndependent(h: Heap, c: CalcId, call: Call)
    requires Exists(h, c)
    ensures var (h1, d) := Clone(h, c);
      (Dispatch(h1, d, call).Success? ==> Get(Dispatch(h1, d, call).value.0, c) == Get(h, c)) &&
      (Dispatch(h1, c, call).Success? ==> Get(Dispatch(h1, c, call).value.0, d) == Get(h, c))
  {
  }

  /** Linear dispatch order: `Clear` issued before `Add(6)` makes `Add(6)` resolve to 6 whatever the
      register held; the other order would resolve to the old value plus 6. */
  lemma PipelineOrder(h: Heap, c: CalcId)
    requires Exists(h, c)
    ensures Run(h, [(c, ClearCall), (c, AddCall(6))]).Success?
    ensures Run(h, [(c, ClearCall), (c, AddCall(6))]).value.1 == [Done, Value(6)]
    ensures Run(h, [(c, AddCall(6)), (c, ClearCall)]).Success?
    ensures Run(h, [(c, AddCall(6)), (c, ClearCall)]).value.1 == [Value(Get(h, c) + 6), Done]
  {
    ClearThenAdd(h, c);
    AddThenClear(h, c);
  }

  lemma ClearThenAdd(h: Heap, c: CalcId)
    requires Exists(h, c)
    ensures Run(h, [(c, ClearCall), (c, AddCall(6))]) == Success((Add(Clear(h, c), c, 6).0, [Done, Value(6)]))
  {
    var h1 := Clear(h, c);
    var h3 := Add(h1, c, 6).0;
    var cs := [(c, ClearCall), (c, AddCall(6))];
    assert cs[2..] == [];
    RunFrom(h1, cs, 1, h3, Value(6), h3, []);
    RunFrom(h, cs, 0, h1, Done, h3, [Value(6)] + []);
    assert cs[0..] == cs && [Done] + ([Value(6)] + []) == [Done, Value(6)];
  }

  lemma AddThenClear(h: Heap, c: CalcId)
    requires Exists(h, c)
    ensures Run(h, [(c, AddCall(6)), (c, ClearCall)]) ==
      Success((Clear(Add(h, c, 6).0, c), [Value(Get(h, c) + 6), Done]))
  {
    var h2 := Add(h, c, 6).0;
    var h4 := Clear(h2, c);
    var ds := [(c, AddCall(6)), (c, ClearCall)];
    assert ds[2..] == [];
    RunFrom(h2, ds, 1, h4, Done, h4, []);
    RunFrom(h, ds, 0, h2, Value(Get(h, c) + 6), h4, [Done] + []);
    assert ds[0..] == ds && [Value(Get(h, c) + 6)] + ([Done] + []) == [Value(Get(h, c) + 6), Done];
  }

  /** A run of two call sequences is the run of the first, continued by the run of the second. */
  lemma {:induction false} RunAppend(h: Heap, a: seq<(CalcId, Call)>, b: seq<(CalcId, Call)>, h1: Heap, r1: seq<Reply>, h2: Heap, r2: seq<Reply>)
    requires Run(h, a) == Success((h1, r1)) && Run(h1, b) == Success((h2, r2))
    ensures Run(h, a + b) == Success((h2, r1 + r2))
    decreases |a|
  {
    if a == [] {
      RunEmpty(h, b, h1, r1);
      assert a + b == b && r1 + r2 == r2;
    } else {
      var hm, reply, rest := RunHead(h, a, h1, r1);
      RunAppend(hm, a[1..], b, h1, rest, h2, r2);
      RunCons(h, a, b, hm, reply, h2, rest + r2);
      assert [reply] + (rest + r2) == r1 + r2;
    }
  }

  /** The empty call list leaves the heap as it is and replies nothing. */
  lemma RunEmpty(h: Heap, b: seq<(CalcId, Call)>, h1: Heap, r1: seq<Reply>)
    requires Run(h, []) == Success((h1, r1))
    ensures h1 == h && r1 == [] && [] + b == b
  {
  }

  /** Prepending the first call of `a` to a run of the rest of `a + b`. */
  lemma RunCons(h: Heap, a: seq<(CalcId, Call)>, b: seq<(CalcId, Call)>, hm: Heap, reply: Reply, h2: Heap, replies: seq<Reply>)
    requires a != [] && Dispatch(h, a[0].0, a[0].1) == Success((hm, reply))
    requires Run(hm, a[1..] + b) == Success((h2, replies))
    ensures Run(h, a + b) == Success((h2, [reply] + replies))
  {
    var ab := a + b;
    assert ab[0] == a[0] && ab[1..] == a[1..] + b;
  }

  /** The first half of `Main`: three calls on `c1`, then its clone. */
  function MainCallsEarly(): seq<(CalcId, Call)>
  {
    [(0, GetCall), (0, AddCall(7)), (0, AddCall(8)), (0, CloneCall), (1, GetCall)]
  }

  /** The second half: `c1.Add(3)`, both `Get`s, and the pipelined `Clear` and `Add(6)`. */
  function MainCallsLate(): seq<(CalcId, Call)>
  {
    [(0, AddCall(3)), (0, GetCall), (1, GetCall), (0, ClearCall), (0, AddCall(6))]
  }

  /** The calls `Main` makes on `c1` (calculator 0) and its clone `c2` (calculator 1). */
  function MainCalls(): seq<(CalcId, Call)>
  {
    MainCallsEarly() + MainCallsLate()
  }

  lemma MainEarly()
    ensures Run(Heap([0]), MainCallsEarly()) ==
      Success((Heap([15, 15]), [Value(0), Value(7), Value(15), Proxy(1), Value(15)]))
  {
    assert [0][0 := 7] == [7] && [7][0 := 15] == [15] && [15] + [15] == [15, 15];
    var cs := MainCallsEarly();
    var h := Heap([15, 15]);
    assert cs[5..] == [];
    var r4 := [Value(15)] + [];
    RunFrom(h, cs, 4, h, Value(15), h, []);
    var r3 := [Proxy(1)] + r4;
    RunFrom(Heap([15]), cs, 3, h, Proxy(1), h, r4);
    var r2 := [Value(15)] + r3;
    RunFrom(Heap([7]), cs, 2, Heap([15]), Value(15), h, r3);
    var r1 := [Value(7)] + r2;
    RunFrom(Heap([0]), cs, 1, Heap([7]), Value(7), h, r2);
    RunFrom(Heap([0]), cs, 0, Heap([0]), Value(0), h, r1);
    assert cs[0..] == cs;
    assert [Value(0)] + r1 == [Value(0), Value(7), Value(15), Proxy(1), Value(15)];
  }

  lemma MainLate()
    ensures Run(Heap([15, 15]), MainCallsLate()) ==
      Success((Heap([6, 15]), [Value(18), Value(18), Value(15), Done, Value(6)]))
  {
    assert [18, 15][0 := 0] == [0, 15] && [0, 15][0 := 6] == [6, 15] && [15, 15][0 := 18] == [18, 15];
    var cs := MainCallsLate();
    var h := Heap([6, 15]);
    var g := Heap([18, 15]);
    assert cs[5..] == [];
    var r4 := [Value(6)] + [];
    RunFrom(Heap([0, 15]), cs, 4, h, Value(6), h, []);
    var r3 := [Done] + r4;
    RunFrom(g, cs, 3, Heap([0, 15]), Done, h, r4);
    var r2 := [Value(15)] + r3;
    RunFrom(g, cs, 2, g, Value(15), h, r3);
    var r1 := [Value(18)] + r2;
    RunFrom(g, cs, 1, g, Value(18), h, r2);
    RunFrom(Heap([15, 15]), cs, 0, g, Value(18), h, r1);
    assert cs[0..] == cs;
    assert [Value(18)] + r1 == [Value(18), Value(18), Value(15), Done, Value(6)];
  }

  /** `Main`'s script from a fresh calculator prints 0, 7, 15, 15, 18, 18, 15 and then 6. */
  lemma MainScript()
    ensures Run(New(Heap([])).0, MainCalls()) ==
      Success((Heap([6, 15]), [Value(0), Value(7), Value(15), Proxy(1), Value(15), Value(18), Value(18),
        Value(15), Done, Value(6)]))
  {
    MainEarly();
    MainLate();
    RunAppend(Heap([0]), MainCallsEarly(), MainCallsLate(), Heap([15, 15]),
      [Value(0), Value(7), Value(15), Proxy(1), Value(15)], Heap([6, 15]),
      [Value(18), Value(18), Value(15), Done, Value(6)]);
    assert New(Heap([])).0 == Heap([0]);
    assert [Value(0), Value(7), Value(15), Proxy(1), Value(15)] + [Value(18), Value(18), Value(15), Done, Value(6)] ==
      [Value(0), Value(7), Value(15), Proxy(1), Value(15), Value(18), Value(18), Value(15), Done, Value(6)];
  }
}
