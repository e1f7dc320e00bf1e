/** The outcomes of the engine's unit tests that do not depend on map order, derived from what
    `Net` promises: the settled flows keep every balance and bring in no new party. */
module Scenarios {
  import opened Flows
  import opened Cycles
  import opened Netting

  /** Settled flows in which nobody is owed anything are no flows at all: the payer of a flow
      would have to have a balance other than 0. */
  lemma SettledWithoutBalances(fs: seq<Flow>)
    requires Settled(fs) && forall p :: Balance(fs, p) == 0
    ensures fs == []
  {
    assert Payers(fs) == {};
    assert |fs| > 0 ==> fs[0].source in Payers(fs);
  }

  /** Flows that all run from `s` to `t` move their total from `s` to `t`. */
  lemma {:induction false} OneWayBalance(fs: seq<Flow>, s: Party, t: Party)
    requires s != t && forall f :: f in fs ==> f.source == s && f.sink == t
    ensures Balance(fs, s) == -Total(fs) && Balance(fs, t) == Total(fs)
  {
    if fs != [] {
      assert fs[0] in fs;
      assert forall g :: g in fs[1..] ==> g in fs;
      OneWayBalance(fs[1..], s, t);
    }
  }

  /** Flows that all run from `s` to `t` are the flows between them. */
  lemma {:induction false} AllBetween(fs: seq<Flow>, s: Party, t: Party)
    requires forall f :: f in fs ==> f.source == s && f.sink == t
    ensures Between(fs, s, t) == fs
  {
    if fs != [] {
      assert fs[0] in fs;
      assert forall g :: g in fs[1..] ==> g in fs;
      AllBetween(fs[1..], s, t);
    }
  }

  /** Settled positive flows between two parties only, where `s` owes `v`, are one flow of `v`
      from `s` to `t`. */
  lemma SettledPair(fs: seq<Flow>, s: Party, t: Party, v: int)
    requires s != t && v > 0 && Positive(fs) && Settled(fs)
    requires forall f :: f in fs ==> (f.source == s || f.source == t) && (f.sink == s || f.sink == t)
    requires Balance(fs, s) == -v
    ensures fs == [Flow(s, t, v)]
  {
    OneWayHasNoSelfLoops(fs);
    BetweenMembers(fs, s, t);
    BetweenMembers(fs, t, s);
    if exists g :: g in fs && g.source == t {
      var g :| g in fs && g.source == t;
      assert g in Between(fs, t, s);
      assert Between(fs, s, t) == [];
      OneWayBalance(fs, t, s);
      TotalOfPositive(fs);
      assert false;
    }
    assert forall f :: f in fs ==> f.source == s && f.sink == t;
    OneWayBalance(fs, s, t);
    AllBetween(fs, s, t);
    assert |fs| <= 1;
    assert fs != [];
    assert fs == [fs[0]];
    SumSingle(fs[0], ValueOf);
  }

  /** The balance of a list of two, three or four flows, flow by flow. */
  lemma BalanceOfTwo(f1: Flow, f2: Flow, p: Party)
    ensures Balance([f1, f2], p) == Weigh(NetOf(p), f1) + Weigh(NetOf(p), f2)
  {
    assert [f1, f2][1..] == [f2];
    SumSingle(f2, NetOf(p));
  }

  lemma BalanceOfThree(f1: Flow, f2: Flow, f3: Flow, p: Party)
    ensures Balance([f1, f2, f3], p) == Weigh(NetOf(p), f1) + Weigh(NetOf(p), f2) + Weigh(NetOf(p), f3)
  {
    assert [f1, f2, f3][1..] == [f2, f3];
    BalanceOfTwo(f2, f3, p);
  }

  lemma BalanceOfFour(f1: Flow, f2: Flow, f3: Flow, f4: Flow, p: Party)
    ensures Balance([f1, f2, f3, f4], p)
            == Weigh(NetOf(p), f1) + Weigh(NetOf(p), f2) + Weigh(NetOf(p), f3) + Weigh(NetOf(p), f4)
  {
    assert [f1, f2, f3, f4][1..] == [f2, f3, f4];
    BalanceOfThree(f2, f3, f4, p);
  }

  /** Three flows from a to b of 3, 2 and 1 net to one flow of 6 from a to b (NetterTest,
      `flowsAggregated`). */
  method FlowsAggregated() returns (r: Result<seq<Flow>>)
    ensures r == Ok([Flow(Party("a"), Party("b"), 6)])
  {
    var a, b := Party("a"), Party("b");
    var netter := new Netter();
    netter.Add(Flow(a, b, 3));
    netter.Add(Flow(a, b, 2));
    netter.Add(Flow(a, b, 1));
    ghost var before := netter.flowCollection.flows;
    assert before == [Flow(a, b, 3), Flow(a, b, 2), Flow(a, b, 1)];
    r := netter.Net();
    ghost var fs := netter.flowCollection.flows;
    BalanceOfThree(Flow(a, b, 3), Flow(a, b, 2), Flow(a, b, 1), a);
    SettledPair(fs, a, b, 6);
  }

  /** A flow of 17 from a to b against one of 12 back nets to one flow of 5 from a to b
      (NetterTest, `netBetweenPartiesNonZero`). */
  method NetBetweenPartiesNonZero() returns (r: Result<seq<Flow>>)
    ensures r == Ok([Flow(Party("a"), Party("b"), 5)])
  {
    var a, b := Party("a"), Party("b");
    var netter := new Netter();
    netter.Add(Flow(a, b, 17));
    netter.Add(Flow(b, a, 12));
    ghost var before := netter.flowCollection.flows;
    assert before == [Flow(a, b, 17), Flow(b, a, 12)];
    r := netter.Net();
    ghost var fs := netter.flowCollection.flows;
    BalanceOfTwo(Flow(a, b, 17), Flow(b, a, 12), a);
    SettledPair(fs, a, b, 5);
  }

  /** Flows of 17 one way and 15 and 2 the other cancel out (NetterTest, `netBetweenPartiesZero`). */
  method NetBetweenPartiesZero() returns (r: Result<seq<Flow>>)
    ensures r == Ok([])
  {
    var a, b := Party("a"), Party("b");
    var netter := new Netter();
    netter.Add(Flow(a, b, 17));
    netter.Add(Flow(b, a, 15));
    netter.Add(Flow(b, a, 2));
    ghost var before := netter.flowCollection.flows;
    assert before == [Flow(a, b, 17), Flow(b, a, 15), Flow(b, a, 2)];
    r := netter.Net();
    forall p ensures Balance(before, p) == 0 {
      BalanceOfThree(Flow(a, b, 17), Flow(b, a, 15), Flow(b, a, 2), p);
    }
    SettledWithoutBalances(netter.flowCollection.flows);
  }

  /** A cycle of four flows of 10 disappears (NetterTest, `circularDependency`). */
  method CircularDependency() returns (r: Result<seq<Flow>>)
    ensures r == Ok([])
  {
    var a, b, c, d := Party("a"), Party("b"), Party("c"), Party("d");
    var netter := new Netter();
    netter.Add(Flow(a, b, 10));
    netter.Add(Flow(b, c, 10));
    netter.Add(Flow(c, d, 10));
    netter.Add(Flow(d, a, 10));
    ghost var before := netter.flowCollection.flows;
    assert before == [Flow(a, b, 10), Flow(b, c, 10), Flow(c, d, 10), Flow(d, a, 10)];
    r := netter.Net();
    forall p ensures Balance(before, p) == 0 {
      BalanceOfFour(Flow(a, b, 10), Flow(b, c, 10), Flow(c, d, 10), Flow(d, a, 10), p);
    }
    SettledWithoutBalances(netter.flowCollection.flows);
  }
}
