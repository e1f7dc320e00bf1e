/** Circular flows: the paths the cycle search returns, the comparator that ranks cycles, and what
    removing the smallest value along a cycle leaves between each pair of parties. */
module Cycles {
  import opened Flows
  import opened FlowLists

  /** How many flows of `c` have value `v`. */
  function CountValue(c: seq<Flow>, v: int): (r: nat)
    ensures r <= |c|
  {
    if c == [] then 0 else (if c[0].value == v then 1 else 0) + CountValue(c[1..], v)
  }

  lemma {:induction false} CountPresent(c: seq<Flow>, v: int, i: int)
    requires 0 <= i < |c| && c[i].value == v
    ensures CountValue(c, v) >= 1
  {
    if i > 0 {
      CountPresent(c[1..], v, i - 1);
    }
  }

  /** The number of flows of `c` whose value is the smallest one; 0 for an empty cycle. */
  function MinCount(c: seq<Flow>): (r: nat)
    ensures r == 0 <==> c == []
    ensures r <= |c|
    ensures forall m :: IsMinimum(c, m) ==> r == CountValue(c, m)
  {
    match SmallestValue(c)
    case None => 0
    case Some(m) =>
      var i :| 0 <= i < |c| && c[i].value == m;
      CountPresent(c, m, i);
      CountValue(c, m)
  }

  /** Orders cycles so that the one with more flows at its smallest value comes first. */
  function Compare(o1: seq<Flow>, o2: seq<Flow>): (r: int)
    ensures -1 <= r <= 1
    ensures r <= 0 <==> MinCount(o2) <= MinCount(o1)
    ensures r == 0 <==> MinCount(o1) == MinCount(o2)
  {
    if MinCount(o1) > MinCount(o2) then -1
    else if MinCount(o1) < MinCount(o2) then 1
    else 0
  }

  /** Compare is a comparator: reversing the arguments reverses the answer, and "not after" is
      transitive, so sorting by it is well defined. */
  lemma CompareIsComparator(a: seq<Flow>, b: seq<Flow>, c: seq<Flow>)
    ensures Compare(a, b) == -Compare(b, a)
    ensures Compare(a, b) <= 0 && Compare(b, c) <= 0 ==> Compare(a, c) <= 0
    ensures Compare(a, b) == 0 ==> Compare(a, c) == Compare(b, c)
  {
  }

  /** The position of the cycle that a stable sort by Compare puts first: no cycle is ordered
      before it, and every cycle in front of it in the list is strictly after it. */
  function SelectCycle(cs: seq<seq<Flow>>): (k: nat)
    requires cs != []
    ensures k < |cs|
    ensures forall j :: 0 <= j < |cs| ==> Compare(cs[k], cs[j]) <= 0
    ensures forall j :: 0 <= j < k ==> Compare(cs[j], cs[k]) == 1
  {
    if |cs| == 1 then 0
    else
      var init := cs[..|cs| - 1];
      var k := SelectCycle(init);
      assert forall j :: 0 <= j < |init| ==> init[j] == cs[j];
      if MinCount(cs[|cs| - 1]) > MinCount(cs[k]) then |cs| - 1 else k
  }

  /** Each flow of `c` pays the party the next flow is paid by. */
  ghost predicate Linked(c: seq<Flow>) {
    forall i, j :: 0 <= i && j == i + 1 && j < |c| ==> c[i].sink == c[j].source
  }

  /** `c` is a path the search can return from `from` to `to` in `fs` when the parties of
      `visited` were already seen: its flows are linked, it reaches `to` only at its end, no
      party pays twice along it and none of its payers was seen, and each flow is the first of
      the flows between its two parties. */
  ghost predicate Path(fs: seq<Flow>, c: seq<Flow>, from: Party, to: Party, visited: seq<Party>) {
    && c != [] && c[0].source == from && c[|c| - 1].sink == to && Linked(c)
    && (forall i :: 0 <= i < |c| - 1 ==> c[i].sink != to)
    && (forall i, j :: 0 <= i < j < |c| ==> c[i].source != c[j].source)
    && (forall i :: 0 <= i < |c| ==> c[i].source !in visited)
    && (forall i :: 0 <= i < |c| ==> IsHead(fs, c[i]))
  }

  /** `e` is the first flow from its payer to its payee. */
  ghost predicate IsHead(fs: seq<Flow>, e: Flow) {
    Between(fs, e.source, e.sink) != [] && Between(fs, e.source, e.sink)[0] == e
  }

  /** A cycle: a path from a party back to itself. */
  ghost predicate IsCycle(fs: seq<Flow>, c: seq<Flow>) {
    c != [] && Path(fs, c, c[0].source, c[0].source, [])
  }

  /** The first flow from an unseen payer to `to` is a path on its own. */
  lemma PathSingle(fs: seq<Flow>, e: Flow, to: Party, visited: seq<Party>)
    requires IsHead(fs, e) && e.sink == to && e.source !in visited
    ensures Path(fs, [e], e.source, to, visited)
  {
  }

  /** A flow from `from` to a party other than `to`, followed by a path from that party found
      after `from` was seen, is a path from `from`. */
  lemma PathCons(fs: seq<Flow>, e: Flow, c: seq<Flow>, to: Party, visited: seq<Party>, seen: seq<Party>)
    requires Path(fs, c, e.sink, to, seen) && IsHead(fs, e)
    requires e.sink != to && e.source !in visited && e.source in seen
    requires forall p :: p in visited ==> p in seen
    ensures Path(fs, [e] + c, e.source, to, visited)
  {
    var d := [e] + c;
    assert forall i :: 1 <= i < |d| ==> d[i] == c[i - 1];
    forall i, j | 0 <= i < j < |d| ensures d[i].source != d[j].source {
      if i == 0 {
        assert c[j - 1].source !in seen;
      }
    }
  }

  /** The last flow of `c` from `s` to `t`; None when there is none. */
  function EdgeOf(c: seq<Flow>, s: Party, t: Party): (r: Option<Flow>)
    ensures r.Some? ==> r.value in c && r.value.source == s && r.value.sink == t
    ensures r.None? <==> forall i :: 0 <= i < |c| ==> c[i].source != s || c[i].sink != t
  {
    if c == [] then None
    else if c[|c| - 1].source == s && c[|c| - 1].sink == t then Some(c[|c| - 1])
    else
      var init := c[..|c| - 1];
      assert forall i :: 0 <= i < |init| ==> init[i] == c[i];
      EdgeOf(init, s, t)
  }

  /** The flows from `s` to `t` after `m` is taken off every flow of the cycle `c` in `fs`: a
      pair the cycle does not use keeps its flows, and a flow of the cycle keeps what is left of
      it, or goes when nothing is. */
  function Squeezed(fs: seq<Flow>, c: seq<Flow>, m: int, s: Party, t: Party): seq<Flow> {
    match EdgeOf(c, s, t)
    case None => Between(fs, s, t)
    case Some(e) => if e.value > m then [Flow(s, t, e.value - m)] else []
  }

  /** The parties that pay something in `fs`. */
  ghost function Payers(fs: seq<Flow>): set<Party> {
    set f | f in fs :: f.source
  }

  /** The payers not yet seen. */
  ghost function Unvisited(fs: seq<Flow>, visited: seq<Party>): set<Party> {
    Payers(fs) - set p | p in visited
  }

  /** Seeing one more payer leaves fewer payers unseen. */
  lemma FewerUnvisited(fs: seq<Flow>, visited: seq<Party>, seen: seq<Party>, x: Party)
    requires x in Payers(fs) && x !in visited && x in seen
    requires forall p :: p in visited ==> p in seen
    ensures |Unvisited(fs, seen)| < |Unvisited(fs, visited)|
  {
    var a, b := Unvisited(fs, seen), Unvisited(fs, visited);
    assert a <= b;
    assert x in b - a;
    assert b == a + (b - a);
  }

  /** Each pair carries at most one flow. */
  ghost predicate OnePerPair(fs: seq<Flow>) {
    forall x, y :: |Between(fs, x, y)| <= 1
  }

  /** `m` is the smallest value along `c`. */
  ghost predicate IsMinimum(c: seq<Flow>, m: int) {
    (forall i :: 0 <= i < |c| ==> m <= c[i].value) && (exists i :: 0 <= i < |c| && c[i].value == m)
  }

  /** How the net balance of `p` has moved once `m` is taken off the first `i` flows of the
      linked path `c`: its first payer pays `m` less and the payee of its `i`-th flow receives `m`
      less. */
  function Shift(c: seq<Flow>, i: nat, m: int, p: Party): int
    requires i <= |c|
  {
    if i == 0 then 0 else (if p == c[0].source then m else 0) - (if p == c[i - 1].sink then m else 0)
  }

  /** What is true of `fs` once `m` has been taken off the first `i` flows of the cycle `c` of
      `agg`: each pair holds what Squeezed gives for that prefix, every balance has moved by
      Shift, every flow whose value was `m` has gone, and the flows are positive and between
      parties of `agg`. */
  ghost predicate SqueezedUpTo(fs: seq<Flow>, agg: seq<Flow>, c: seq<Flow>, m: int, i: nat)
    requires i <= |c|
  {
    && (forall x, y :: Between(fs, x, y) == Squeezed(agg, c[..i], m, x, y))
    && (forall p :: Balance(fs, p) == Balance(agg, p) + Shift(c, i, m, p))
    && |fs| + CountValue(c[..i], m) == |agg|
    && Positive(fs) && PartiesWithin(fs, agg)
  }

  lemma {:induction false} CountSnoc(c: seq<Flow>, x: Flow, v: int)
    ensures CountValue(c + [x], v) == CountValue(c, v) + (if x.value == v then 1 else 0)
  {
    if c == [] {
      assert [x][1..] == [];
    } else {
      assert (c + [x])[1..] == c[1..] + [x];
      CountSnoc(c[1..], x, v);
    }
  }

  /** Nothing has been squeezed yet. */
  lemma SqueezeStart(agg: seq<Flow>, c: seq<Flow>, m: int)
    requires Positive(agg)
    ensures SqueezedUpTo(agg, agg, c, m, 0)
  {
    assert c[..0] == [];
    PartiesWithinItself(agg);
  }

  /** Taking `m` off the next flow of the cycle keeps SqueezedUpTo. */
  lemma SqueezeStep(agg: seq<Flow>, c: seq<Flow>, m: int, i: nat, cur: seq<Flow>, next: seq<Flow>)
    requires IsCycle(agg, c) && OnePerPair(agg) && IsMinimum(c, m) && i < |c|
    requires SqueezedUpTo(cur, agg, c, m, i)
    requires next == if c[i].value > m then RemoveFirst(cur, c[i]) + [Flow(c[i].source, c[i].sink, c[i].value - m)]
                     else RemoveFirst(cur, c[i])
    ensures SqueezedUpTo(next, agg, c, m, i + 1)
  {
    var e := c[i];
    SqueezeEdge(agg, c, m, i, cur);
    SqueezeBuckets(agg, c, m, i, cur, next);
    SqueezeBalance(agg, c, m, i, cur, next);
    SqueezeRest(agg, c, m, i, cur, next);
  }

  /** The flow being squeezed is the only one of its pair, still untouched. */
  lemma SqueezeEdge(agg: seq<Flow>, c: seq<Flow>, m: int, i: nat, cur: seq<Flow>)
    requires IsCycle(agg, c) && OnePerPair(agg) && i < |c|
    requires forall x, y :: Between(cur, x, y) == Squeezed(agg, c[..i], m, x, y)
    ensures Between(cur, c[i].source, c[i].sink) == [c[i]]
    ensures c[i] in cur && c[i] in agg
    ensures EdgeOf(c[..i + 1], c[i].source, c[i].sink) == Some(c[i])
    ensures forall x, y :: x != c[i].source || y != c[i].sink ==> EdgeOf(c[..i + 1], x, y) == EdgeOf(c[..i], x, y)
  {
    var e := c[i];
    EdgeOfPrefix(c, i);
    assert EdgeOf(c[..i], e.source, e.sink) == None by {
      forall k | 0 <= k < i ensures c[..i][k].source != e.source {
        assert c[..i][k] == c[k];
      }
    }
    assert Between(agg, e.source, e.sink) == [e] by {
      assert IsHead(agg, e);
      assert |Between(agg, e.source, e.sink)| <= 1;
    }
    assert Between(cur, e.source, e.sink) == [e];
    BetweenMembers(cur, e.source, e.sink);
    BetweenMembers(agg, e.source, e.sink);
    assert e in Between(cur, e.source, e.sink) && e in Between(agg, e.source, e.sink);
  }

  /** Adding flow `c[i]` to the prefix `c[..i]` makes it the edge of its pair and leaves every
      other pair's edge as it was. */
  lemma EdgeOfPrefix(c: seq<Flow>, i: nat)
    requires i < |c|
    ensures EdgeOf(c[..i + 1], c[i].source, c[i].sink) == Some(c[i])
    ensures forall x, y :: x != c[i].source || y != c[i].sink ==> EdgeOf(c[..i + 1], x, y) == EdgeOf(c[..i], x, y)
  {
    assert c[..i + 1][..i] == c[..i];
    assert c[..i + 1][i] == c[i];
  }

  lemma SqueezeBuckets(agg: seq<Flow>, c: seq<Flow>, m: int, i: nat, cur: seq<Flow>, next: seq<Flow>)
    requires i < |c|
    requires forall x, y :: Between(cur, x, y) == Squeezed(agg, c[..i], m, x, y)
    requires Between(cur, c[i].source, c[i].sink) == [c[i]]
    requires EdgeOf(c[..i + 1], c[i].source, c[i].sink) == Some(c[i])
    requires forall x, y :: x != c[i].source || y != c[i].sink ==> EdgeOf(c[..i + 1], x, y) == EdgeOf(c[..i], x, y)
    requires next == if c[i].value > m then RemoveFirst(cur, c[i]) + [Flow(c[i].source, c[i].sink, c[i].value - m)]
                     else RemoveFirst(cur, c[i])
    ensures forall x, y :: Between(next, x, y) == Squeezed(agg, c[..i + 1], m, x, y)
  {
    forall x, y ensures Between(next, x, y) == Squeezed(agg, c[..i + 1], m, x, y) {
      SqueezePair(agg, c[..i], c[..i + 1], c[i], m, cur, next, x, y);
    }
  }

  /** What one pair holds once flow `e`, the last flow of the cycle prefix `c1`, is squeezed
      after the prefix `c0` before it. */
  lemma SqueezePair(agg: seq<Flow>, c0: seq<Flow>, c1: seq<Flow>, e: Flow, m: int, cur: seq<Flow>, next: seq<Flow>,
                    x: Party, y: Party)
    requires Between(cur, x, y) == Squeezed(agg, c0, m, x, y)
    requires Between(cur, e.source, e.sink) == [e]
    requires EdgeOf(c1, e.source, e.sink) == Some(e)
    requires x != e.source || y != e.sink ==> EdgeOf(c1, x, y) == EdgeOf(c0, x, y)
    requires next == if e.value > m then RemoveFirst(cur, e) + [Flow(e.source, e.sink, e.value - m)]
                     else RemoveFirst(cur, e)
    ensures Between(next, x, y) == Squeezed(agg, c1, m, x, y)
  {
    if x == e.source && y == e.sink {
      SqueezeOwnPair(e, m, cur, next);
      SqueezedOfEdge(agg, c1, m, e);
    } else {
      SqueezeOtherPair(e, m, cur, next, x, y);
      SqueezedSameEdge(agg, c1, c0, m, x, y);
    }
  }

  /** The pair of an edge of the cycle keeps what is left of that edge. */
  lemma SqueezedOfEdge(fs: seq<Flow>, c: seq<Flow>, m: int, e: Flow)
    requires EdgeOf(c, e.source, e.sink) == Some(e)
    ensures Squeezed(fs, c, m, e.source, e.sink) == if e.value > m then [Flow(e.source, e.sink, e.value - m)] else []
  {
  }

  /** Two cycles with the same edge between `x` and `y` squeeze that pair alike. */
  lemma SqueezedSameEdge(fs: seq<Flow>, c1: seq<Flow>, c2: seq<Flow>, m: int, x: Party, y: Party)
    requires EdgeOf(c1, x, y) == EdgeOf(c2, x, y)
    ensures Squeezed(fs, c1, m, x, y) == Squeezed(fs, c2, m, x, y)
  {
  }

  /** The pair of the squeezed flow `e` keeps what is left of `e`. */
  lemma SqueezeOwnPair(e: Flow, m: int, cur: seq<Flow>, next: seq<Flow>)
    requires Between(cur, e.source, e.sink) == [e]
    requires next == if e.value > m then RemoveFirst(cur, e) + [Flow(e.source, e.sink, e.value - m)]
                     else RemoveFirst(cur, e)
    ensures Between(next, e.source, e.sink) == if e.value > m then [Flow(e.source, e.sink, e.value - m)] else []
  {
    var rest := RemoveFirst(cur, e);
    BetweenRemoveFirst(cur, e, e.source, e.sink);
    assert RemoveFirst([e], e) == [];
    assert Between(rest, e.source, e.sink) == [];
    if e.value > m {
      BetweenSnoc(rest, Flow(e.source, e.sink, e.value - m), e.source, e.sink);
    }
  }

  /** Every other pair keeps its flows. */
  lemma SqueezeOtherPair(e: Flow, m: int, cur: seq<Flow>, next: seq<Flow>, x: Party, y: Party)
    requires x != e.source || y != e.sink
    requires next == if e.value > m then RemoveFirst(cur, e) + [Flow(e.source, e.sink, e.value - m)]
                     else RemoveFirst(cur, e)
    ensures Between(next, x, y) == Between(cur, x, y)
  {
    var rest := RemoveFirst(cur, e);
    BetweenRemoveFirst(cur, e, x, y);
    if e.value > m {
      BetweenSnoc(rest, Flow(e.source, e.sink, e.value - m), x, y);
    }
  }

  lemma SqueezeBalance(agg: seq<Flow>, c: seq<Flow>, m: int, i: nat, cur: seq<Flow>, next: seq<Flow>)
    requires IsCycle(agg, c) && IsMinimum(c, m) && i < |c| && c[i] in cur
    requires forall p :: Balance(cur, p) == Balance(agg, p) + Shift(c, i, m, p)
    requires next == if c[i].value > m then RemoveFirst(cur, c[i]) + [Flow(c[i].source, c[i].sink, c[i].value - m)]
                     else RemoveFirst(cur, c[i])
    ensures forall p :: Balance(next, p) == Balance(agg, p) + Shift(c, i + 1, m, p)
  {
    var e := c[i];
    var rest := RemoveFirst(cur, e);
    forall p ensures Balance(next, p) == Balance(cur, p) - Weigh(NetOf(p), Flow(e.source, e.sink, m)) {
      SumRemoveFirst(cur, e, NetOf(p));
      if e.value > m {
        LeftoverSum(rest, e, m, NetOf(p));
      } else {
        assert e == Flow(e.source, e.sink, m);
      }
    }
    if i > 0 {
      assert c[i - 1].sink == c[i].source;
    }
  }

  lemma SqueezeRest(agg: seq<Flow>, c: seq<Flow>, m: int, i: nat, cur: seq<Flow>, next: seq<Flow>)
    requires IsMinimum(c, m) && i < |c| && c[i] in cur && c[i] in agg
    requires |cur| + CountValue(c[..i], m) == |agg| && Positive(cur) && PartiesWithin(cur, agg)
    requires next == if c[i].value > m then RemoveFirst(cur, c[i]) + [Flow(c[i].source, c[i].sink, c[i].value - m)]
                     else RemoveFirst(cur, c[i])
    ensures |next| + CountValue(c[..i + 1], m) == |agg| && Positive(next) && PartiesWithin(next, agg)
  {
    var e := c[i];
    assert c[..i + 1] == c[..i] + [e];
    CountSnoc(c[..i], e, m);
    RemoveFirstMultiset(cur, e);
    RemoveFirstSubset(cur, e);
    assert m <= e.value;
  }

  /** Squeezing the whole cycle keeps every balance: the first payer and the last payee of a
      cycle are the same party. */
  lemma SqueezeDone(fs: seq<Flow>, agg: seq<Flow>, c: seq<Flow>, m: int)
    requires IsCycle(agg, c) && IsMinimum(c, m)
    requires SqueezedUpTo(fs, agg, c, m, |c|)
    ensures forall x, y :: Between(fs, x, y) == Squeezed(agg, c, m, x, y)
    ensures Conserves(fs, agg)
    ensures |fs| == |agg| - MinCount(c) < |agg|
  {
    assert c[..|c|] == c;
    assert |fs| + CountValue(c, m) == |agg|;
    MinCountAt(c, m);
  }

  /** The flows of a cycle at its minimum `m` are the ones MinCount counts, and there is one. */
  lemma MinCountAt(c: seq<Flow>, m: int)
    requires IsMinimum(c, m)
    ensures MinCount(c) == CountValue(c, m) >= 1
  {
    var k :| 0 <= k < |c| && c[k].value == m;
    CountPresent(c, m, k);
  }

  /** Squeezing a cycle opens no pair that had no flows. */
  lemma SqueezedSupport(agg: seq<Flow>, c: seq<Flow>, m: int, x: Party, y: Party)
    requires IsCycle(agg, c)
    ensures Squeezed(agg, c, m, x, y) != [] ==> Between(agg, x, y) != []
  {
    var r := EdgeOf(c, x, y);
    if r.Some? {
      var k :| 0 <= k < |c| && c[k] == r.value;
      assert IsHead(agg, c[k]);
    }
  }
}
