/** The greedy solver that rewrites the flows into and out of one balanced party as direct flows
    from its payers to its payees. */
module Replacements {
  import opened Flows
  import opened FlowLists

  /** The flows a party receives and pays, and the direct flows that can stand in for them. */
  datatype FlowReplacements = FlowReplacements(incoming: seq<Flow>, outgoing: seq<Flow>, replacements: seq<Flow>)

  /** How many flows fewer the graph holds once the replacement is made. */
  function Savings(r: FlowReplacements): (n: int)
    ensures n <= |r.incoming| + |r.outgoing|
    ensures n >= 1 <==> |r.replacements| < |r.incoming| + |r.outgoing|
  {
    |r.incoming| + |r.outgoing| - |r.replacements|
  }

  /** Given the flows into a party and the flows out of it, of equal totals, pairs them off
      greedily: the smaller of the two smallest values is matched with the smallest flow on the
      other side that can cover it, a direct flow of the smaller value is recorded, and what is
      left of the two flows goes back to be matched again. */
  method GetReplacements(incoming: seq<Flow>, outgoing: seq<Flow>) returns (r: FlowReplacements)
    requires Positive(incoming) && Positive(outgoing)
    requires Total(incoming) == Total(outgoing)
    ensures r.incoming == incoming && r.outgoing == outgoing
    ensures Positive(r.replacements)
    ensures forall f :: f in r.replacements ==> Sum(incoming, PaidBy(f.source)) > 0 && Sum(outgoing, PaidTo(f.sink)) > 0
    ensures forall p :: Sum(r.replacements, PaidBy(p)) == Sum(incoming, PaidBy(p))
    ensures forall p :: Sum(r.replacements, PaidTo(p)) == Sum(outgoing, PaidTo(p))
    ensures incoming != [] ==> Savings(r) >= 1
    ensures incoming == [] ==> r.replacements == []
  {
    var inWork := incoming;
    var outWork := outgoing;
    var replacements: seq<Flow> := [];
    while inWork != []
      invariant Matching(inWork, outWork, replacements, incoming, outgoing)
      decreases |inWork| + |outWork|
    {
      TotalOfPositive(inWork);
      var smallestIncoming := SmallestValue(inWork).value;
      var smallestOutgoing := SmallestValue(outWork).value;
      var inFlow, outFlow;
      if smallestIncoming < smallestOutgoing {
        inFlow := GetFlow(inWork, smallestIncoming).value;
        outFlow := GetSmallestFlow(outWork, smallestIncoming).value;
      } else {
        outFlow := GetFlow(outWork, smallestOutgoing).value;
        inFlow := GetSmallestFlow(inWork, smallestOutgoing).value;
      }
      var flowValue := if outFlow.value < inFlow.value then outFlow.value else inFlow.value;
      ghost var in0, out0, repl0 := inWork, outWork, replacements;
      replacements := replacements + [Flow(inFlow.source, outFlow.sink, flowValue)];
      inWork := RemoveFirst(inWork, inFlow);
      outWork := RemoveFirst(outWork, outFlow);
      var newIncoming := Flow(inFlow.source, inFlow.sink, inFlow.value - flowValue);
      var newOutgoing := Flow(outFlow.source, outFlow.sink, outFlow.value - flowValue);
      if newIncoming.value > 0 {
        inWork := inWork + [newIncoming];
      }
      if newOutgoing.value > 0 {
        outWork := outWork + [newOutgoing];
      }
      assert inFlow in in0 && outFlow in out0;
      assert 0 < flowValue;
      ReduceStep(in0, inFlow, flowValue, inWork);
      ReduceStep(out0, outFlow, flowValue, outWork);
      MatchingStep(in0, out0, repl0, inFlow, outFlow, flowValue, inWork, outWork, replacements, incoming, outgoing);
    }
    TotalOfPositive(outWork);
    assert outWork == [];
    r := FlowReplacements(incoming, outgoing, replacements);
    forall f | f in replacements
      ensures Sum(incoming, PaidBy(f.source)) > 0 && Sum(outgoing, PaidTo(f.sink)) > 0
    {
      PaysSomething(replacements, f);
      assert Sum(replacements, PaidBy(f.source)) + Sum(inWork, PaidBy(f.source)) == Sum(incoming, PaidBy(f.source));
      assert Sum(replacements, PaidTo(f.sink)) + Sum(outWork, PaidTo(f.sink)) == Sum(outgoing, PaidTo(f.sink));
    }
  }

  /** What stays true while the solver runs: the work lists are positive with equal totals, every
      party pays and is paid in the replacements and the work lists together exactly what it paid
      and was paid originally, and each matching has cost no more entries than it removed. */
  ghost predicate Matching(inWork: seq<Flow>, outWork: seq<Flow>, replacements: seq<Flow>,
                           incoming: seq<Flow>, outgoing: seq<Flow>)
  {
    && Positive(inWork) && Positive(outWork) && Positive(replacements)
    && Total(inWork) == Total(outWork)
    && (forall p :: Sum(replacements, PaidBy(p)) + Sum(inWork, PaidBy(p)) == Sum(incoming, PaidBy(p)))
    && (forall p :: Sum(replacements, PaidTo(p)) + Sum(outWork, PaidTo(p)) == Sum(outgoing, PaidTo(p)))
    && |replacements| + |inWork| + |outWork| <= |incoming| + |outgoing|
    && (incoming != [] && inWork == [] ==> |replacements| + 1 <= |incoming| + |outgoing|)
    && (incoming == [] ==> inWork == [] && replacements == [])
  }

  /** One greedy matching keeps the solver's invariant and shortens the work lists. */
  lemma MatchingStep(in0: seq<Flow>, out0: seq<Flow>, repl0: seq<Flow>, inFlow: Flow, outFlow: Flow, v: int,
                     in1: seq<Flow>, out1: seq<Flow>, repl1: seq<Flow>, incoming: seq<Flow>, outgoing: seq<Flow>)
    requires Matching(in0, out0, repl0, incoming, outgoing)
    requires inFlow in in0 && outFlow in out0
    requires v == inFlow.value <= outFlow.value || v == outFlow.value <= inFlow.value
    requires repl1 == repl0 + [Flow(inFlow.source, outFlow.sink, v)]
    requires Reduces(in0, inFlow, v, in1) && Reduces(out0, outFlow, v, out1)
    ensures Matching(in1, out1, repl1, incoming, outgoing)
    ensures |in1| + |out1| < |in0| + |out0|
  {
    var step := Flow(inFlow.source, outFlow.sink, v);
    SumSnoc(repl0, step, ValueOf);
    forall p ensures Sum(repl1, PaidBy(p)) + Sum(in1, PaidBy(p)) == Sum(incoming, PaidBy(p)) {
      SumSnoc(repl0, step, PaidBy(p));
    }
    forall p ensures Sum(repl1, PaidTo(p)) + Sum(out1, PaidTo(p)) == Sum(outgoing, PaidTo(p)) {
      SumSnoc(repl0, step, PaidTo(p));
    }
    assert |in0| >= 1 && |out0| >= 1;
    if in1 == [] {
      TotalOfPositive(out1);
      assert |in0| == 1 && |out0| == 1;
    }
  }

  /** What one reduction of the work list `ws` does when flow `f` gives up the amount `v`: every
      sum drops by what a flow of value `v` weighs, the list stays positive, and it loses one entry
      exactly when nothing is left of `f`. */
  ghost predicate Reduces(ws: seq<Flow>, f: Flow, v: int, after: seq<Flow>) {
    && Positive(after)
    && Total(after) == Total(ws) - v
    && (forall p :: Sum(after, PaidBy(p)) == Sum(ws, PaidBy(p)) - Weigh(PaidBy(p), Flow(f.source, f.sink, v)))
    && (forall p :: Sum(after, PaidTo(p)) == Sum(ws, PaidTo(p)) - Weigh(PaidTo(p), Flow(f.source, f.sink, v)))
    && |after| == if f.value == v then |ws| - 1 else |ws|
  }

  /** Flow `f` leaves the work list and what `v` does not use of it comes back. */
  lemma ReduceStep(ws: seq<Flow>, f: Flow, v: int, after: seq<Flow>)
    requires f in ws && Positive(ws) && 0 < v <= f.value
    requires after == if f.value - v > 0 then RemoveFirst(ws, f) + [Flow(f.source, f.sink, f.value - v)] else RemoveFirst(ws, f)
    ensures Reduces(ws, f, v, after)
  {
    RemoveFirstSubset(ws, f);
    ReduceSum(ws, f, v, after, ValueOf);
    forall p ensures Sum(after, PaidBy(p)) == Sum(ws, PaidBy(p)) - Weigh(PaidBy(p), Flow(f.source, f.sink, v)) {
      ReduceSum(ws, f, v, after, PaidBy(p));
    }
    forall p ensures Sum(after, PaidTo(p)) == Sum(ws, PaidTo(p)) - Weigh(PaidTo(p), Flow(f.source, f.sink, v)) {
      ReduceSum(ws, f, v, after, PaidTo(p));
    }
    SumRemoveFirst(ws, f, ValueOf);
  }

  lemma ReduceSum(ws: seq<Flow>, f: Flow, v: int, after: seq<Flow>, w: Weight)
    requires f in ws && v <= f.value
    requires after == if f.value - v > 0 then RemoveFirst(ws, f) + [Flow(f.source, f.sink, f.value - v)] else RemoveFirst(ws, f)
    ensures Sum(after, w) == Sum(ws, w) - Weigh(w, Flow(f.source, f.sink, v))
  {
    SumRemoveFirst(ws, f, w);
    if f.value - v > 0 {
      LeftoverSum(RemoveFirst(ws, f), f, v, w);
    } else {
      assert f == Flow(f.source, f.sink, v);
    }
  }

  /** A flow of a positive list makes its payer pay, and its payee receive, something. */
  lemma {:induction false} PaysSomething(fs: seq<Flow>, f: Flow)
    requires Positive(fs) && f in fs
    ensures Sum(fs, PaidBy(f.source)) > 0 && Sum(fs, PaidTo(f.sink)) > 0
  {
    assert fs[0] in fs;
    assert forall g :: g in fs[1..] ==> g in fs;
    if fs[0] != f {
      PaysSomething(fs[1..], f);
    }
    NonNegative(fs[1..], PaidBy(f.source));
    NonNegative(fs[1..], PaidTo(f.sink));
  }

  lemma {:induction false} NonNegative(fs: seq<Flow>, w: Weight)
    requires Positive(fs) && !w.NetOf?
    ensures Sum(fs, w) >= 0
  {
    if fs != [] {
      assert fs[0] in fs;
      assert forall g :: g in fs[1..] ==> g in fs;
      NonNegative(fs[1..], w);
    }
  }
}
