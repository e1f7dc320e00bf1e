/** The netting engine: rounds of passes over a flow collection, each of which keeps every
    party's net balance and none of which adds a flow, until a round changes nothing. */
module Netting {
  import opened Flows
  import opened FlowLists
  import opened FlowCollections
  import opened Cycles
  import opened Replacements

  /** Why a netting could not be confirmed: a party's net balance was not kept, or the check ran
      past the end of the parties it was walking. */
  datatype NettingError = NettingException(party: Party, before: int, after: int) | NoSuchElement

  datatype Outcome = Pass | Fail(error: NettingError)

  datatype Result<T> = Ok(value: T) | Err(error: NettingError)

  /** A net balance of `nets`, with a party that is missing counted as 0. */
  function NetOf0(nets: map<Party, int>, p: Party): int {
    if p in nets then nets[p] else 0
  }

  /** Adds `v` to what `nets` holds for `p`, starting from `v` when `p` has nothing yet. */
  function Merge(nets: map<Party, int>, p: Party, v: int): (r: map<Party, int>)
    ensures r.Keys == nets.Keys + {p}
    ensures r[p] == NetOf0(nets, p) + v
    ensures forall q :: q in nets && q != p ==> r[q] == nets[q]
  {
    if p in nets then nets[p := nets[p] + v] else nets[p := v]
  }

  /** Compares two net-balance maps, a missing party counting as 0. Every party of `netBefore`
      is checked in turn and removed from both maps; a party left only in `netAfter` then makes
      the second walk call `next` on the exhausted walk over `netBefore`, which fails with
      NoSuchElement before the value is looked at. */
  method VerifyEquals(netBefore: map<Party, int>, netAfter: map<Party, int>) returns (o: Outcome)
    ensures o.Pass? <==> (forall p :: p in netBefore ==> netBefore[p] == NetOf0(netAfter, p))
                         && netAfter.Keys <= netBefore.Keys
    ensures o.Fail? && o.error.NettingException? ==>
              o.error.party in netBefore && o.error.before == netBefore[o.error.party]
              && o.error.after == NetOf0(netAfter, o.error.party) && o.error.before != o.error.after
    ensures o == Fail(NoSuchElement) ==> (forall p :: p in netBefore ==> netBefore[p] == NetOf0(netAfter, p))
                                         && !(netAfter.Keys <= netBefore.Keys)
  {
    var before := netBefore;
    var after := netAfter;
    while before != map[]
      invariant before.Keys <= netBefore.Keys
      invariant forall p :: p in before ==> before[p] == netBefore[p]
      invariant forall p :: p in netBefore && p !in before ==> netBefore[p] == NetOf0(netAfter, p)
      invariant forall p :: p in after <==> p in netAfter && (p !in netBefore || p in before)
      invariant forall p :: p in after ==> after[p] == netAfter[p]
      decreases |before|
    {
      var entity :| entity in before;
      var beforeValue := before[entity];
      var afterValue := if entity in after then after[entity] else 0;
      if afterValue != beforeValue {
        return Fail(NettingException(entity, beforeValue, afterValue));
      }
      before := before - {entity};
      after := after - {entity};
    }
    if after != map[] {
      return Fail(NoSuchElement);
    }
    return Pass;
  }

  /** The comparison as the documentation of `verifyEquals` describes it: two maps are equal
      when every party of either has the same balance in both, a missing party counting as 0.
      The second walk goes over the parties left in `netAfter` and rejects one whose balance is
      not 0. */
  method VerifyBalances(netBefore: map<Party, int>, netAfter: map<Party, int>) returns (o: Outcome)
    ensures o.Pass? <==> forall p :: p in netBefore.Keys + netAfter.Keys ==> NetOf0(netBefore, p) == NetOf0(netAfter, p)
    ensures o.Fail? ==> o.error.NettingException?
    ensures o.Fail? ==> o.error.party in netBefore.Keys + netAfter.Keys
                        && o.error.before == NetOf0(netBefore, o.error.party)
                        && o.error.after == NetOf0(netAfter, o.error.party) && o.error.before != o.error.after
  {
    var before := netBefore;
    var after := netAfter;
    while before != map[]
      invariant before.Keys <= netBefore.Keys
      invariant forall p :: p in before ==> before[p] == netBefore[p]
      invariant forall p :: p in netBefore && p !in before ==> netBefore[p] == NetOf0(netAfter, p)
      invariant forall p :: p in after <==> p in netAfter && (p !in netBefore || p in before)
      invariant forall p :: p in after ==> after[p] == netAfter[p]
      decreases |before|
    {
      var entity :| entity in before;
      var beforeValue := before[entity];
      var afterValue := if entity in after then after[entity] else 0;
      if afterValue != beforeValue {
        assert NetOf0(netBefore, entity) != NetOf0(netAfter, entity);
        return Fail(NettingException(entity, beforeValue, afterValue));
      }
      before := before - {entity};
      after := after - {entity};
    }
    while after != map[]
      invariant forall p :: p in netBefore ==> netBefore[p] == NetOf0(netAfter, p)
      invariant after.Keys <= netAfter.Keys && after.Keys !! netBefore.Keys
      invariant forall p :: p in after ==> after[p] == netAfter[p]
      invariant forall p :: p in netAfter && p !in netBefore && p !in after ==> netAfter[p] == 0
      decreases |after|
    {
      var entity :| entity in after;
      var afterValue := after[entity];
      if afterValue != 0 {
        assert NetOf0(netBefore, entity) != NetOf0(netAfter, entity);
        return Fail(NettingException(entity, 0, afterValue));
      }
      after := after - {entity};
    }
    return Pass;
  }

  /** A party that only `netAfter` knows, with balance 0: the comparison as written fails with
      NoSuchElement, although the maps are equal with a missing value counting as 0. */
  method ZeroNewcomer() returns (asWritten: Outcome, corrected: Outcome)
    ensures asWritten == Fail(NoSuchElement)
    ensures corrected == Pass
  {
    var netAfter := map[Party("a") := 0];
    assert Party("a") in netAfter.Keys;
    asWritten := VerifyEquals(map[], netAfter);
    corrected := VerifyBalances(map[], netAfter);
  }

  /** When `netAfter` brings no new party, the comparison as written and the corrected one reach
      the same outcome, which is the only case `Net` meets. */
  method VerifyAgrees(netBefore: map<Party, int>, netAfter: map<Party, int>) returns (asWritten: Outcome, corrected: Outcome)
    requires netAfter.Keys <= netBefore.Keys
    ensures asWritten.Pass? <==> corrected.Pass?
    ensures asWritten != Fail(NoSuchElement)
  {
    asWritten := VerifyEquals(netBefore, netAfter);
    corrected := VerifyBalances(netBefore, netAfter);
  }

  /** The single outcome `Net` returns: the flows when the check passed, its error otherwise. */
  function ToResult(o: Outcome, fs: seq<Flow>): Result<seq<Flow>> {
    match o
    case Pass => Ok(fs)
    case Fail(e) => Err(e)
  }

  /** The flows from `s` to `t` once several of them are combined into one flow of their total. */
  function Aggregated(b: seq<Flow>, s: Party, t: Party): seq<Flow> {
    if |b| <= 1 then b else [Flow(s, t, Total(b))]
  }

  /** A pass either changed nothing, flag included, or set the flag and removed flows. */
  ghost predicate Shrinks(before: seq<Flow>, changedBefore: bool, after: seq<Flow>, changedAfter: bool) {
    (after == before && changedAfter == changedBefore) || (changedAfter && |after| < |before|)
  }
  /** `fs` is reached from `start` by steps that keep every balance, bring in no new party and
      keep the flows positive, and that shorten the list whenever they report a change. */
  ghost predicate Reduced(start: seq<Flow>, changed0: bool, fs: seq<Flow>, changed: bool) {
    Positive(fs) && Conserves(fs, start) && PartiesWithin(fs, start) && Shrinks(start, changed0, fs, changed)
  }

  lemma ReducedStep(start: seq<Flow>, changed0: bool, cur: seq<Flow>, changed1: bool, fs: seq<Flow>, changed: bool)
    requires Reduced(start, changed0, cur, changed1)
    requires Positive(fs) && Conserves(fs, cur) && PartiesWithin(fs, cur) && Shrinks(cur, changed1, fs, changed)
    ensures Reduced(start, changed0, fs, changed)
  {
    PartiesWithinTransitive(fs, cur, start);
  }


  /** Replacing the flows from `s` to `t` by the single flow `g` changes that pair only. */
  lemma ReplacePair(fs: seq<Flow>, s: Party, t: Party, g: Flow, next: seq<Flow>)
    requires g.source == s && g.sink == t
    requires next == RemoveEach(fs, Between(fs, s, t)) + [g]
    ensures forall x, y :: Between(next, x, y) == if x == s && y == t then [g] else Between(fs, x, y)
    ensures forall p :: Balance(next, p) == Balance(fs, p) - Balance(Between(fs, s, t), p) + Weigh(NetOf(p), g)
    ensures |next| == |fs| - |Between(fs, s, t)| + 1
    ensures forall f :: f in next ==> f in fs || f == g
  {
    ReplacePairBuckets(fs, s, t, g, next);
    ReplacePairBalance(fs, s, t, g, next);
  }

  lemma ReplacePairBuckets(fs: seq<Flow>, s: Party, t: Party, g: Flow, next: seq<Flow>)
    requires g.source == s && g.sink == t
    requires next == RemoveEach(fs, Between(fs, s, t)) + [g]
    ensures forall x, y :: Between(next, x, y) == if x == s && y == t then [g] else Between(fs, x, y)
  {
    var rest := RemoveEach(fs, Between(fs, s, t));
    RemoveBucket(fs, s, t);
    forall x, y ensures Between(next, x, y) == if x == s && y == t then [g] else Between(fs, x, y) {
      BetweenSnoc(rest, g, x, y);
    }
  }

  lemma ReplacePairBalance(fs: seq<Flow>, s: Party, t: Party, g: Flow, next: seq<Flow>)
    requires next == RemoveEach(fs, Between(fs, s, t)) + [g]
    ensures forall p :: Balance(next, p) == Balance(fs, p) - Balance(Between(fs, s, t), p) + Weigh(NetOf(p), g)
    ensures |next| == |fs| - |Between(fs, s, t)| + 1
    ensures forall f :: f in next ==> f in fs || f == g
  {
    var rest := RemoveEach(fs, Between(fs, s, t));
    RemoveBucket(fs, s, t);
    forall p ensures Balance(next, p) == Balance(rest, p) + Weigh(NetOf(p), g) {
      SumSnoc(rest, g, NetOf(p));
    }
    RemoveEachSubset(fs, Between(fs, s, t));
  }

  /** Combining the flows from `s` to `t` keeps every balance and the parties, and shortens the list. */
  lemma AggregatePair(cur: seq<Flow>, start: seq<Flow>, s: Party, t: Party, next: seq<Flow>)
    requires Positive(cur) && Conserves(cur, start) && PartiesWithin(cur, start)
    requires |Between(cur, s, t)| > 1
    requires next == RemoveEach(cur, Between(cur, s, t)) + [Flow(s, t, Total(Between(cur, s, t)))]
    ensures Positive(next) && Conserves(next, start) && PartiesWithin(next, start)
    ensures |next| < |cur|
    ensures forall x, y :: Between(next, x, y) == if x == s && y == t then Aggregated(Between(cur, s, t), s, t) else Between(cur, x, y)
  {
    var b := Between(cur, s, t);
    var g := Flow(s, t, Total(b));
    ReplacePair(cur, s, t, g, next);
    BetweenMembers(cur, s, t);
    assert b[0] in b;
    assert forall f :: f in b ==> f in cur;
    TotalOfPositive(b);
    forall p ensures Balance(next, p) == Balance(start, p) {
      BucketBalance(b, s, t, p);
      SumSingle(g, NetOf(p));
    }
  }

  /** The flows from `s` to `t` once the flows between `s` and `t` are netted: when both
      directions carry flows, only the difference of their totals is left, in the direction of
      the larger one; otherwise the flows stay as they are. */
  function NetBucket(fs: seq<Flow>, s: Party, t: Party): seq<Flow> {
    var there, back := Between(fs, s, t), Between(fs, t, s);
    if there == [] || back == [] then there
    else if Total(there) > Total(back) then [Flow(s, t, Total(there) - Total(back))]
    else []
  }

  /** No two parties have flows in both directions, and no party pays itself. */
  ghost predicate OneWay(fs: seq<Flow>) {
    forall x, y :: Between(fs, x, y) == [] || Between(fs, y, x) == []
  }

  /** After netting, at most one direction between two parties carries flows. */
  lemma NetBucketOneWay(fs: seq<Flow>, x: Party, y: Party)
    ensures NetBucket(fs, x, y) == [] || NetBucket(fs, y, x) == []
  {
  }

  /** Netting a pair again, or netting it from the original flows, gives the same flows. */
  lemma NetBucketAgain(cur: seq<Flow>, start: seq<Flow>, x: Party, y: Party)
    requires (Between(cur, x, y) == NetBucket(start, x, y) && Between(cur, y, x) == NetBucket(start, y, x))
          || (Between(cur, x, y) == Between(start, x, y) && Between(cur, y, x) == Between(start, y, x))
    ensures NetBucket(cur, x, y) == NetBucket(start, x, y)
  {
    NetBucketOneWay(start, x, y);
  }

  lemma OneWayHasNoSelfLoops(fs: seq<Flow>)
    requires OneWay(fs)
    ensures NoSelfLoops(fs)
  {
    forall f | f in fs ensures f.source != f.sink {
      BetweenMembers(fs, f.source, f.sink);
      assert f in Between(fs, f.source, f.sink);
    }
  }

  /** Taking out the flows from `s` to `t` and then those from `t` to `s`, for two different
      parties, empties both directions and leaves every other pair as it was. */
  lemma RemoveBothBuckets(cur: seq<Flow>, s: Party, t: Party, mid: seq<Flow>)
    requires s != t
    requires mid == RemoveEach(RemoveEach(cur, Between(cur, s, t)), Between(cur, t, s))
    ensures forall x, y :: Between(mid, x, y) == if (x == s && y == t) || (x == t && y == s) then [] else Between(cur, x, y)
    ensures forall p :: Balance(mid, p) == Balance(cur, p) - Balance(Between(cur, s, t), p) - Balance(Between(cur, t, s), p)
    ensures |mid| == |cur| - |Between(cur, s, t)| - |Between(cur, t, s)|
    ensures forall f :: f in mid ==> f in cur
  {
    var mid1 := RemoveEach(cur, Between(cur, s, t));
    RemoveBucket(cur, s, t);
    assert Between(mid1, t, s) == Between(cur, t, s);
    RemoveBucket(mid1, t, s);
    RemoveEachSubset(cur, Between(cur, s, t));
    RemoveEachSubset(mid1, Between(cur, t, s));
  }

  /** Taking out the flows from `s` to itself twice takes them out once: the second removal finds
      none of them. */
  lemma RemoveSelfBucketTwice(cur: seq<Flow>, s: Party, mid: seq<Flow>)
    requires mid == RemoveEach(RemoveEach(cur, Between(cur, s, s)), Between(cur, s, s))
    ensures forall x, y :: Between(mid, x, y) == if x == s && y == s then [] else Between(cur, x, y)
    ensures forall p :: Balance(mid, p) == Balance(cur, p)
    ensures |mid| == |cur| - |Between(cur, s, s)|
    ensures forall f :: f in mid ==> f in cur
  {
    var b := Between(cur, s, s);
    var mid1 := RemoveEach(cur, b);
    RemoveBucket(cur, s, s);
    BetweenMembers(mid1, s, s);
    BetweenMembers(cur, s, s);
    RemoveEachAbsent(mid1, b);
    RemoveEachSubset(cur, b);
    forall p ensures Balance(b, p) == 0 {
      BucketBalance(b, s, s, p);
      SumSingle(Flow(s, s, Total(b)), NetOf(p));
    }
  }

  /** What the body of the netting loop leaves when `s` and `t` have flows both ways: both
      directions are removed and the difference, if any, is added in the direction of the larger
      total. */
  ghost function NettedPair(cur: seq<Flow>, s: Party, t: Party): seq<Flow> {
    var mid := RemoveEach(RemoveEach(cur, Between(cur, s, t)), Between(cur, t, s));
    var value, returnValue := Total(Between(cur, s, t)), Total(Between(cur, t, s));
    if value > returnValue then mid + [Flow(s, t, value - returnValue)]
    else if value < returnValue then mid + [Flow(t, s, returnValue - value)]
    else mid
  }

  lemma NettedPairOf(cur: seq<Flow>, s: Party, t: Party, a: seq<Flow>, b: seq<Flow>, mid: seq<Flow>, next: seq<Flow>)
    requires a == Between(cur, s, t) && b == Between(cur, t, s)
    requires mid == RemoveEach(RemoveEach(cur, a), b)
    requires next == if Total(a) > Total(b) then mid + [Flow(s, t, Total(a) - Total(b))]
                     else if Total(a) < Total(b) then mid + [Flow(t, s, Total(b) - Total(a))]
                     else mid
    ensures next == NettedPair(cur, s, t)
  {
  }

  /** Netting a pair with flows both ways nets exactly that pair, keeps every balance and the
      parties, stays positive and shortens the list. */
  lemma NetPairEffect(cur: seq<Flow>, s: Party, t: Party)
    requires Positive(cur) && Between(cur, s, t) != [] && Between(cur, t, s) != []
    ensures forall x, y :: Between(NettedPair(cur, s, t), x, y)
                        == if (x == s && y == t) || (x == t && y == s) then NetBucket(cur, x, y) else Between(cur, x, y)
    ensures Conserves(NettedPair(cur, s, t), cur) && PartiesWithin(NettedPair(cur, s, t), cur)
    ensures Positive(NettedPair(cur, s, t)) && |NettedPair(cur, s, t)| < |cur|
  {
    var a, b := Between(cur, s, t), Between(cur, t, s);
    BetweenMembers(cur, s, t);
    BetweenMembers(cur, t, s);
    assert a[0] in a && b[0] in b;
    if s == t {
      NetSelfPair(cur, s);
    } else {
      NetTwoPair(cur, s, t);
    }
  }

  lemma NetSelfPair(cur: seq<Flow>, s: Party)
    requires Positive(cur) && Between(cur, s, s) != []
    ensures forall x, y :: Between(NettedPair(cur, s, s), x, y)
                        == if x == s && y == s then NetBucket(cur, x, y) else Between(cur, x, y)
    ensures Conserves(NettedPair(cur, s, s), cur) && PartiesWithin(NettedPair(cur, s, s), cur)
    ensures Positive(NettedPair(cur, s, s)) && |NettedPair(cur, s, s)| < |cur|
  {
    var mid := RemoveEach(RemoveEach(cur, Between(cur, s, s)), Between(cur, s, s));
    assert NettedPair(cur, s, s) == mid;
    RemoveSelfBucketTwice(cur, s, mid);
  }

  lemma NetTwoPair(cur: seq<Flow>, s: Party, t: Party)
    requires s != t
    requires Positive(cur) && Between(cur, s, t) != [] && Between(cur, t, s) != []
    ensures forall x, y :: Between(NettedPair(cur, s, t), x, y)
                        == if (x == s && y == t) || (x == t && y == s) then NetBucket(cur, x, y) else Between(cur, x, y)
    ensures Conserves(NettedPair(cur, s, t), cur) && PartiesWithin(NettedPair(cur, s, t), cur)
    ensures Positive(NettedPair(cur, s, t)) && |NettedPair(cur, s, t)| < |cur|
  {
    var mid := RemoveEach(RemoveEach(cur, Between(cur, s, t)), Between(cur, t, s));
    RemoveBothBuckets(cur, s, t, mid);
    NetTwoPairBuckets(cur, s, t, mid);
    NetTwoPairBalance(cur, s, t, mid);
    NetTwoPairRest(cur, s, t, mid);
  }

  lemma NetTwoPairBuckets(cur: seq<Flow>, s: Party, t: Party, mid: seq<Flow>)
    requires s != t
    requires forall x, y :: Between(mid, x, y) == if (x == s && y == t) || (x == t && y == s) then [] else Between(cur, x, y)
    requires mid == RemoveEach(RemoveEach(cur, Between(cur, s, t)), Between(cur, t, s))
    requires Between(cur, s, t) != [] && Between(cur, t, s) != []
    ensures forall x, y :: Between(NettedPair(cur, s, t), x, y)
                        == if (x == s && y == t) || (x == t && y == s) then NetBucket(cur, x, y) else Between(cur, x, y)
  {
    var value, returnValue := Total(Between(cur, s, t)), Total(Between(cur, t, s));
    var there := if value > returnValue then [Flow(s, t, value - returnValue)] else [];
    var back := if value < returnValue then [Flow(t, s, returnValue - value)] else [];
    assert NetBucket(cur, s, t) == there;
    assert NetBucket(cur, t, s) == back;
    var next := NettedPair(cur, s, t);
    if value > returnValue {
      assert next == mid + [Flow(s, t, value - returnValue)];
      AddFlowToEmptyPair(cur, s, t, mid, Flow(s, t, value - returnValue), next, there, back);
    } else if value < returnValue {
      assert next == mid + [Flow(t, s, returnValue - value)];
      AddFlowToEmptyPair(cur, s, t, mid, Flow(t, s, returnValue - value), next, there, back);
    } else {
      assert next == mid;
    }
  }

  /** Adding one flow between `s` and `t` to a list where that pair is empty both ways. */
  lemma AddFlowToEmptyPair(cur: seq<Flow>, s: Party, t: Party, mid: seq<Flow>, g: Flow, next: seq<Flow>,
                           there: seq<Flow>, back: seq<Flow>)
    requires s != t
    requires forall x, y :: Between(mid, x, y) == if (x == s && y == t) || (x == t && y == s) then [] else Between(cur, x, y)
    requires next == mid + [g]
    requires (g.source == s && g.sink == t && there == [g] && back == [])
          || (g.source == t && g.sink == s && there == [] && back == [g])
    ensures forall x, y :: Between(next, x, y)
                        == if x == s && y == t then there else if x == t && y == s then back else Between(cur, x, y)
  {
    forall x, y ensures Between(next, x, y)
                     == if x == s && y == t then there else if x == t && y == s then back else Between(cur, x, y) {
      BetweenSnoc(mid, g, x, y);
    }
  }

  lemma NetTwoPairBalance(cur: seq<Flow>, s: Party, t: Party, mid: seq<Flow>)
    requires s != t
    requires mid == RemoveEach(RemoveEach(cur, Between(cur, s, t)), Between(cur, t, s))
    requires forall p :: Balance(mid, p) == Balance(cur, p) - Balance(Between(cur, s, t), p) - Balance(Between(cur, t, s), p)
    ensures Conserves(NettedPair(cur, s, t), cur)
  {
    var value, returnValue := Total(Between(cur, s, t)), Total(Between(cur, t, s));
    PairBalance(cur, s, t);
    var next := NettedPair(cur, s, t);
    if value > returnValue {
      assert next == mid + [Flow(s, t, value - returnValue)];
      AddedBalance(mid, Flow(s, t, value - returnValue), cur, next);
    } else if value < returnValue {
      assert next == mid + [Flow(t, s, returnValue - value)];
      AddedBalance(mid, Flow(t, s, returnValue - value), cur, next);
    } else {
      assert next == mid;
    }
  }

  /** The two directions between `s` and `t` move each balance as one flow of their difference,
      written either way round. */
  lemma PairBalance(cur: seq<Flow>, s: Party, t: Party)
    ensures forall p :: Balance(Between(cur, s, t), p) + Balance(Between(cur, t, s), p)
                     == Weigh(NetOf(p), Flow(s, t, Total(Between(cur, s, t)) - Total(Between(cur, t, s))))
    ensures forall p :: Balance(Between(cur, s, t), p) + Balance(Between(cur, t, s), p)
                     == Weigh(NetOf(p), Flow(t, s, Total(Between(cur, t, s)) - Total(Between(cur, s, t))))
  {
    var a, b := Between(cur, s, t), Between(cur, t, s);
    BetweenMembers(cur, s, t);
    BetweenMembers(cur, t, s);
    forall p ensures Balance(a, p) + Balance(b, p) == Weigh(NetOf(p), Flow(s, t, Total(a) - Total(b))) {
      BucketBalance(a, s, t, p);
      BucketBalance(b, t, s, p);
      SumSingle(Flow(s, t, Total(a)), NetOf(p));
      SumSingle(Flow(t, s, Total(b)), NetOf(p));
    }
  }

  lemma AddedBalance(mid: seq<Flow>, g: Flow, cur: seq<Flow>, next: seq<Flow>)
    requires next == mid + [g]
    requires forall p :: Balance(mid, p) == Balance(cur, p) - Weigh(NetOf(p), g)
    ensures Conserves(next, cur)
  {
    forall p ensures Balance(next, p) == Balance(cur, p) {
      SumSnoc(mid, g, NetOf(p));
    }
  }

  lemma NetTwoPairRest(cur: seq<Flow>, s: Party, t: Party, mid: seq<Flow>)
    requires s != t
    requires Positive(cur) && Between(cur, s, t) != [] && Between(cur, t, s) != []
    requires mid == RemoveEach(RemoveEach(cur, Between(cur, s, t)), Between(cur, t, s))
    requires |mid| == |cur| - |Between(cur, s, t)| - |Between(cur, t, s)|
    requires forall f :: f in mid ==> f in cur
    ensures PartiesWithin(NettedPair(cur, s, t), cur)
    ensures Positive(NettedPair(cur, s, t)) && |NettedPair(cur, s, t)| < |cur|
  {
    var a := Between(cur, s, t);
    BetweenMembers(cur, s, t);
    assert a[0] in a;
    assert IsParty(cur, s) && IsParty(cur, t);
    var value, returnValue := Total(a), Total(Between(cur, t, s));
    var next := NettedPair(cur, s, t);
    if value > returnValue {
      assert next == mid + [Flow(s, t, value - returnValue)];
      AddWithin(cur, mid, Flow(s, t, value - returnValue), next);
    } else if value < returnValue {
      assert next == mid + [Flow(t, s, returnValue - value)];
      AddWithin(cur, mid, Flow(t, s, returnValue - value), next);
    } else {
      assert next == mid;
    }
  }

  /** A positive flow between parties of `cur` added to a part of `cur`. */
  lemma AddWithin(cur: seq<Flow>, mid: seq<Flow>, g: Flow, next: seq<Flow>)
    requires Positive(cur) && (forall f :: f in mid ==> f in cur)
    requires g.value > 0 && IsParty(cur, g.source) && IsParty(cur, g.sink)
    requires next == mid + [g]
    ensures PartiesWithin(next, cur) && Positive(next) && |next| == |mid| + 1
  {
    forall f | f in next ensures f.value > 0 && IsParty(cur, f.source) && IsParty(cur, f.sink) {
      if f != g {
        assert f in mid;
        assert f in cur;
      }
    }
  }

  /** A party that pays nothing in `fs` has no flows to anyone there. */
  lemma {:induction false} NoPayments(fs: seq<Flow>, x: Party, y: Party)
    requires forall f :: f in fs ==> f.source != x
    ensures Between(fs, x, y) == []
  {
    if fs != [] {
      assert fs[0] in fs;
      assert forall f :: f in fs[1..] ==> f in fs;
      NoPayments(fs[1..], x, y);
    }
  }

  /** `r` can stand in for `party`: its incoming and outgoing flows are all the flows into and
      out of `party`, in some order, and its replacements are what the greedy solver promises for
      them. */
  ghost predicate Replaces(fs: seq<Flow>, party: Party, r: FlowReplacements) {
    && multiset(r.incoming) == multiset(Side(fs, SinkFirst, party))
    && multiset(r.outgoing) == multiset(Side(fs, SourceFirst, party))
    && Total(r.incoming) == Total(r.outgoing)
    && Positive(r.replacements)
    && (forall f :: f in r.replacements ==> Sum(r.incoming, PaidBy(f.source)) > 0 && Sum(r.outgoing, PaidTo(f.sink)) > 0)
    && (forall p :: Sum(r.replacements, PaidBy(p)) == Sum(r.incoming, PaidBy(p)))
    && (forall p :: Sum(r.replacements, PaidTo(p)) == Sum(r.outgoing, PaidTo(p)))
    && (r.incoming != [] ==> Savings(r) >= 1)
  }

  /** The flows once the flows into and out of a party are removed and the replacements added. */
  function Replaced(fs: seq<Flow>, r: FlowReplacements): seq<Flow> {
    RemoveEach(RemoveEach(fs, r.incoming), r.outgoing) + r.replacements
  }

  /** A list whose flows are those filed under `p` holds only such flows, and sums to what `p`
      receives or pays. */
  lemma SideCopy(fs: seq<Flow>, d: Direction, p: Party, side: seq<Flow>)
    requires multiset(side) == multiset(Side(fs, d, p))
    ensures forall f :: f in side ==> f in fs && Key(d, f) == p
    ensures Total(side) == if d == SinkFirst then Sum(fs, PaidTo(p)) else Sum(fs, PaidBy(p))
  {
    SideMembers(fs, d, p);
    forall f | f in side ensures f in fs && Key(d, f) == p {
      assert f in multiset(side);
      assert f in Side(fs, d, p);
    }
    SumPermutation(side, Side(fs, d, p), ValueOf);
    SideTotal(fs, p);
  }

  /** A party some flow of `fs` is paid by, or paid to, when its sum is not zero. */
  lemma {:induction false} PayerOf(fs: seq<Flow>, p: Party)
    ensures Sum(fs, PaidBy(p)) != 0 ==> exists f :: f in fs && f.source == p
    ensures Sum(fs, PaidTo(p)) != 0 ==> exists f :: f in fs && f.sink == p
  {
    if fs != [] {
      PayerOf(fs[1..], p);
      assert fs[0] in fs;
      assert forall f :: f in fs[1..] ==> f in fs;
    }
  }

  /** Replacing a balanced party with no self-loops keeps every balance. */
  lemma ReplacedConserves(fs: seq<Flow>, party: Party, r: FlowReplacements)
    requires NoSelfLoops(fs) && Replaces(fs, party, r)
    ensures Conserves(Replaced(fs, r), fs)
    ensures |Replaced(fs, r)| == |fs| - Savings(r)
  {
    var a, b := r.incoming, r.outgoing;
    SidesArePart(fs, party);
    var mid := RemoveEach(fs, a);
    RemoveEachMultiset(fs, a);
    assert multiset(b) <= multiset(mid);
    SideCopy(fs, SinkFirst, party, a);
    SideCopy(fs, SourceFirst, party, b);
    forall q ensures Balance(Replaced(fs, r), q) == Balance(fs, q) {
      ReplacedBalance(fs, party, r, q);
    }
    SumRemoveEach(fs, a, ValueOf);
    SumRemoveEach(mid, b, ValueOf);
  }

  /** One party's balance across the replacement: what the removed flows paid and received is
      exactly what the replacements pay and receive. */
  lemma ReplacedBalance(fs: seq<Flow>, party: Party, r: FlowReplacements, q: Party)
    requires Replaces(fs, party, r)
    requires multiset(r.incoming) <= multiset(fs)
    requires multiset(r.outgoing) <= multiset(RemoveEach(fs, r.incoming))
    requires forall f :: f in r.incoming ==> f.sink == party
    requires forall f :: f in r.outgoing ==> f.source == party
    ensures Balance(Replaced(fs, r), q) == Balance(fs, q)
  {
    var a, b := r.incoming, r.outgoing;
    var mid := RemoveEach(fs, a);
    SumRemoveEach(fs, a, NetOf(q));
    SumRemoveEach(mid, b, NetOf(q));
    SumAppend(RemoveEach(mid, b), r.replacements, NetOf(q));
    SumAddsUp(a, q);
    SumAddsUp(b, q);
    SumAddsUp(r.replacements, q);
    OneSink(a, party, q);
    OneSource(b, party, q);
  }

  /** After the replacement, a party with no self-loops has no flow left. */
  lemma ReplacedParty(fs: seq<Flow>, party: Party, r: FlowReplacements)
    requires NoSelfLoops(fs) && Replaces(fs, party, r)
    ensures !IsParty(Replaced(fs, r), party)
  {
    var a, b := r.incoming, r.outgoing;
    var mid := RemoveEach(fs, a);
    var rest := RemoveEach(mid, b);
    RemoveEachMultiset(fs, a);
    RemoveEachMultiset(mid, b);
    SideCopy(fs, SinkFirst, party, a);
    SideCopy(fs, SourceFirst, party, b);
    forall g | g in rest ensures g.source != party && g.sink != party {
      assert g in multiset(rest);
      if g.sink == party {
        SideKeepsCopies(fs, SinkFirst, party, g);
      } else if g.source == party {
        SideKeepsCopies(fs, SourceFirst, party, g);
      }
    }
    forall g | g in r.replacements ensures g.source != party && g.sink != party {
      PayerOf(a, g.source);
      PayerOf(b, g.sink);
      var h :| h in a && h.source == g.source;
      var k :| k in b && k.sink == g.sink;
      assert h in fs && k in fs;
    }
    forall g | g in Replaced(fs, r) ensures g.source != party && g.sink != party {
      assert g in rest || g in r.replacements;
    }
  }

  /** The replacement adds no party and no non-positive flow. */
  lemma ReplacedWithin(fs: seq<Flow>, party: Party, r: FlowReplacements)
    requires Positive(fs) && Replaces(fs, party, r)
    ensures PartiesWithin(Replaced(fs, r), fs) && Positive(Replaced(fs, r))
  {
    var a, b := r.incoming, r.outgoing;
    RemoveEachSubset(fs, a);
    RemoveEachSubset(RemoveEach(fs, a), b);
    SideCopy(fs, SinkFirst, party, a);
    SideCopy(fs, SourceFirst, party, b);
    PartiesWithinItself(fs);
    forall g | g in r.replacements ensures IsParty(fs, g.source) && IsParty(fs, g.sink) {
      PayerOf(a, g.source);
      PayerOf(b, g.sink);
      var h :| h in a && h.source == g.source;
      var k :| k in b && k.sink == g.sink;
    }
  }

  /** Adding the flows of one more partner to a gathered side. */
  lemma CollectStep(fs: seq<Flow>, d: Direction, party: Party, done: set<Party>, partner: Party,
                    side: seq<Flow>, bucket: seq<Flow>)
    requires multiset(side) == multiset(SideFrom(fs, d, party, done)) && partner !in done
    requires bucket == Bucket(fs, d, party, partner)
    ensures multiset(side + bucket) == multiset(SideFrom(fs, d, party, done + {partner}))
  {
    SideFromAdd(fs, d, party, done, partner);
  }

  /** A payer's replacement takes in at least one flow. */
  lemma PayerIsPaid(fs: seq<Flow>, party: Party, r: FlowReplacements)
    requires Positive(fs) && party in Payers(fs) && Replaces(fs, party, r)
    ensures r.incoming != []
  {
    var f :| f in fs && f.source == party;
    SideMembers(fs, SourceFirst, party);
    assert f in Side(fs, SourceFirst, party);
    assert f in multiset(r.outgoing);
    assert f in r.outgoing;
    SideCopy(fs, SourceFirst, party, r.outgoing);
    PaysSomething(r.outgoing, f);
    PayerOf(r.outgoing, party);
    OneSource(r.outgoing, party, party);
  }

  /** What a netting leaves: no pair has flows both ways, no pair has more than one flow, and no
      payer's incoming and outgoing totals are equal. */
  ghost predicate Settled(fs: seq<Flow>) {
    OneWay(fs) && OnePerPair(fs) && forall p :: p in Payers(fs) ==> Balance(fs, p) != 0
  }

  /** Flows only on pairs that already carried flows bring no self-loop. */
  lemma SupportKeepsNoSelfLoops(a: seq<Flow>, b: seq<Flow>)
    requires forall x, y :: Between(a, x, y) != [] ==> Between(b, x, y) != []
    requires NoSelfLoops(b)
    ensures NoSelfLoops(a)
  {
    forall f | f in a ensures f.source != f.sink {
      BetweenMembers(a, f.source, f.sink);
      assert f in Between(a, f.source, f.sink);
      BetweenMembers(b, f.source, f.sink);
      var g := Between(b, f.source, f.sink)[0];
      assert g in Between(b, f.source, f.sink);
    }
  }

  /** Net balances read back from two lists that keep every balance and whose parties are among
      the first list's pass the check. */
  lemma NetsAgree(before: seq<Flow>, after: seq<Flow>, netBefore: map<Party, int>, netAfter: map<Party, int>)
    requires forall p :: p in netBefore <==> IsParty(before, p)
    requires forall p :: p in netBefore ==> netBefore[p] == Balance(before, p)
    requires forall p :: p in netAfter <==> IsParty(after, p)
    requires forall p :: p in netAfter ==> netAfter[p] == Balance(after, p)
    requires Conserves(after, before) && PartiesWithin(after, before)
    ensures forall p :: p in netBefore ==> netBefore[p] == NetOf0(netAfter, p)
    ensures netAfter.Keys <= netBefore.Keys
  {
    forall p | p in netBefore ensures netBefore[p] == NetOf0(netAfter, p) {
      if p !in netAfter {
        BalanceOfStranger(after, p);
      }
    }
    forall p | p in netAfter ensures p in netBefore {
      var f :| f in after && (f.source == p || f.sink == p);
    }
  }

  /** The pairs of `source` with the parties of `done` hold their netted flows, every other
      pair its flows of `start`. */
  ghost predicate NettedWith(fs: seq<Flow>, start: seq<Flow>, source: Party, done: set<Party>) {
    forall x, y :: Between(fs, x, y)
                == if (x == source && y in done) || (y == source && x in done)
                   then NetBucket(start, x, y) else Between(start, x, y)
  }

  /** The pairs touching a party of `done` hold their netted flows, every other pair its flows
      of `start`. */
  ghost predicate NettedAmong(fs: seq<Flow>, start: seq<Flow>, done: set<Party>) {
    forall x, y :: Between(fs, x, y)
                == if x in done || y in done then NetBucket(start, x, y) else Between(start, x, y)
  }

  /** Netting `source` with `sink` extends the pairs already netted with `source` by one. */
  lemma NettedWithStep(fs: seq<Flow>, cur: seq<Flow>, start: seq<Flow>, source: Party, sink: Party, done: set<Party>)
    requires NettedWith(cur, start, source, done)
    requires forall x, y :: Between(fs, x, y)
                         == if (x == source && y == sink) || (x == sink && y == source)
                            then NetBucket(cur, x, y) else Between(cur, x, y)
    ensures NettedWith(fs, start, source, done + {sink})
  {
    forall x, y | (x == source && y == sink) || (x == sink && y == source)
      ensures NetBucket(cur, x, y) == NetBucket(start, x, y)
    {
      NetBucketAgain(cur, start, x, y);
    }
  }

  /** Once `source` is netted with every party it pays, all its pairs are netted: a pair it
      does not pay in keeps its flows, which is what netting it gives. */
  lemma NettedWithAll(fs: seq<Flow>, start: seq<Flow>, source: Party, done: set<Party>)
    requires NettedWith(fs, start, source, done)
    requires forall t :: Between(start, source, t) != [] ==> t in done
    ensures forall x, y :: Between(fs, x, y)
                        == if x == source || y == source then NetBucket(start, x, y) else Between(start, x, y)
  {
    forall x, y | x == source || y == source ensures Between(fs, x, y) == NetBucket(start, x, y) {
      if x == source && y !in done {
        assert Between(start, x, y) == [];
      } else if y == source && x !in done {
        assert Between(start, y, x) == [];
      }
    }
  }

  /** Netting all pairs of `source` extends the parties already netted by one. */
  lemma NettedAmongStep(fs: seq<Flow>, cur: seq<Flow>, start: seq<Flow>, source: Party, done: set<Party>)
    requires NettedAmong(cur, start, done)
    requires forall x, y :: Between(fs, x, y)
                         == if x == source || y == source then NetBucket(cur, x, y) else Between(cur, x, y)
    ensures NettedAmong(fs, start, done + {source})
  {
    forall x, y | x == source || y == source ensures NetBucket(cur, x, y) == NetBucket(start, x, y) {
      NetBucketAgain(cur, start, x, y);
    }
  }

  /** The offers made so far, one per balanced payer, and the best of them: the first offer
      with the largest savings. */
  ghost predicate Ranked(fs: seq<Flow>, balanced: seq<Party>, offers: seq<FlowReplacements>,
                         best: Option<FlowReplacements>, chosen: Option<Party>, pick: nat) {
    && |balanced| == |offers|
    && (forall k :: 0 <= k < |offers| ==> Replaces(fs, balanced[k], offers[k]) && offers[k].incoming != [])
    && (best.None? <==> balanced == [])
    && (chosen.None? <==> best.None?)
    && (best.Some? ==> pick < |offers| && best.value == offers[pick] && chosen == Some(balanced[pick]))
    && (best.Some? ==> forall k :: 0 <= k < |offers| ==> Savings(offers[k]) <= Savings(best.value))
    && (best.Some? ==> forall k :: 0 <= k < pick ==> Savings(offers[k]) < Savings(best.value))
  }

  /** A new offer replaces the best one only when it saves strictly more. */
  lemma RankedAdd(fs: seq<Flow>, balanced: seq<Party>, offers: seq<FlowReplacements>,
                  best: Option<FlowReplacements>, chosen: Option<Party>, pick: nat, party: Party, r: FlowReplacements)
    requires Ranked(fs, balanced, offers, best, chosen, pick)
    requires Replaces(fs, party, r) && r.incoming != []
    ensures var take := best.None? || Savings(best.value) < Savings(r);
            Ranked(fs, balanced + [party], offers + [r], if take then Some(r) else best,
                   if take then Some(party) else chosen, if take then |offers| else pick)
  {
    var take := best.None? || Savings(best.value) < Savings(r);
    var b1, o1 := balanced + [party], offers + [r];
    assert forall k :: 0 <= k < |offers| ==> o1[k] == offers[k] && b1[k] == balanced[k];
    assert o1[|offers|] == r && b1[|offers|] == party;
  }

  /** Merging one more flow into the balances of a list gives the balances of the longer list. */
  lemma NetsStep(fs: seq<Flow>, flow: Flow, before: map<Party, int>, after: map<Party, int>)
    requires forall p :: p in before <==> IsParty(fs, p)
    requires forall p :: p in before ==> before[p] == Balance(fs, p)
    requires after == Merge(Merge(before, flow.sink, flow.value), flow.source, -flow.value)
    ensures forall p :: p in after <==> IsParty(fs + [flow], p)
    ensures forall p :: p in after ==> after[p] == Balance(fs + [flow], p)
  {
    assert after.Keys == before.Keys + {flow.sink, flow.source};
    NetsStepKeys(fs, flow, before.Keys, after.Keys);
    forall p | p in after ensures after[p] == Balance(fs + [flow], p) {
      SumSnoc(fs, flow, NetOf(p));
      if !IsParty(fs, p) {
        BalanceOfStranger(fs, p);
      }
    }
  }

  lemma NetsStepKeys(fs: seq<Flow>, flow: Flow, before: set<Party>, after: set<Party>)
    requires forall p :: p in before <==> IsParty(fs, p)
    requires after == before + {flow.sink, flow.source}
    ensures forall p :: p in after <==> IsParty(fs + [flow], p)
  {
    var next := fs + [flow];
    assert flow in next;
    forall p ensures p in after <==> IsParty(next, p) {
      if IsParty(next, p) && p != flow.source && p != flow.sink {
        var g :| g in next && (g.source == p || g.sink == p);
        assert g in fs;
      }
      if p in before {
        var g :| g in fs && (g.source == p || g.sink == p);
        assert g in next;
      }
    }
  }

  /** The engine, over the flow collection it nets. */
  class Netter {
    const flowCollection: FlowCollection

    ghost predicate Valid()
      reads this, flowCollection
    {
      flowCollection.Valid()
    }

    constructor ()
      ensures Valid() && fresh(flowCollection)
      ensures flowCollection.flows == [] && !flowCollection.changed
    {
      flowCollection := new FlowCollection();
    }

    method Add(flow: Flow)
      requires Valid()
      modifies flowCollection
      ensures Valid()
      ensures flowCollection.flows == old(flowCollection.flows) + [flow] && flowCollection.changed
    {
      flowCollection.Add(flow);
    }

    /** The body of the aggregation loop for one payer and payee: when they have several flows,
        those are removed and one flow of their total is added. */
    method AggregateBucket(source: Party, sink: Party)
      requires Valid() && Positive(flowCollection.flows)
      modifies flowCollection
      ensures Valid() && Positive(flowCollection.flows)
      ensures forall s, t :: Between(flowCollection.flows, s, t)
                          == if s == source && t == sink
                             then Aggregated(Between(old(flowCollection.flows), s, t), s, t)
                             else Between(old(flowCollection.flows), s, t)
      ensures Conserves(flowCollection.flows, old(flowCollection.flows))
      ensures PartiesWithin(flowCollection.flows, old(flowCollection.flows))
      ensures Shrinks(old(flowCollection.flows), old(flowCollection.changed),
                      flowCollection.flows, flowCollection.changed)
      ensures |Between(old(flowCollection.flows), source, sink)| <= 1 ==>
                flowCollection.flows == old(flowCollection.flows) && flowCollection.changed == old(flowCollection.changed)
    {
      ghost var cur := flowCollection.flows;
      PartiesWithinItself(cur);
      var flows := flowCollection.GetFlows(source, sink);
      if |flows| <= 1 {
        return;
      }
      var aggregateFlow := Flow(source, sink, TotalValue(flows));
      flowCollection.RemoveAll(flows);
      flowCollection.Add(aggregateFlow);
      AggregatePair(cur, cur, source, sink, flowCollection.flows);
    }

    /** Combines the flows that share a payer and a payee into one flow of their total. */
    method AggregateSameSourceAndSink()
      requires Valid() && Positive(flowCollection.flows)
      modifies flowCollection
      ensures Valid() && Positive(flowCollection.flows)
      ensures forall s, t :: Between(flowCollection.flows, s, t)
                          == Aggregated(Between(old(flowCollection.flows), s, t), s, t)
      ensures Conserves(flowCollection.flows, old(flowCollection.flows))
      ensures PartiesWithin(flowCollection.flows, old(flowCollection.flows))
      ensures Shrinks(old(flowCollection.flows), old(flowCollection.changed),
                      flowCollection.flows, flowCollection.changed)
      ensures OnePerPair(old(flowCollection.flows)) ==>
                flowCollection.flows == old(flowCollection.flows) && flowCollection.changed == old(flowCollection.changed)
    {
      ghost var start, changed0 := flowCollection.flows, flowCollection.changed;
      PartiesWithinItself(start);
      var sources := flowCollection.GetSources();
      ghost var doneSources: set<Party> := {};
      for i := 0 to |sources|
        invariant Valid() && Positive(flowCollection.flows)
        invariant OnePerPair(start) ==> flowCollection.flows == start && flowCollection.changed == changed0
        invariant Conserves(flowCollection.flows, start) && PartiesWithin(flowCollection.flows, start)
        invariant Shrinks(start, changed0, flowCollection.flows, flowCollection.changed)
        invariant forall k :: 0 <= k < i ==> sources[k] in doneSources
        invariant forall k :: i <= k < |sources| ==> sources[k] !in doneSources
        invariant forall s, t :: Between(flowCollection.flows, s, t)
                              == if s in doneSources then Aggregated(Between(start, s, t), s, t) else Between(start, s, t)
      {
        var source := sources[i];
        ghost var cur := flowCollection.flows;
        AggregateFrom(source);
        PartiesWithinTransitive(flowCollection.flows, cur, start);
        doneSources := doneSources + {source};
      }
      forall s, t | Between(start, s, t) != [] ensures s in doneSources {
        var f := Between(start, s, t)[0];
        BetweenMembers(start, s, t);
        assert f in Between(start, s, t);
        assert s in sources;
      }
    }

    /** The inner loop of the aggregation: combines the flows `source` pays to each of its payees. */
    method AggregateFrom(source: Party)
      requires Valid() && Positive(flowCollection.flows)
      modifies flowCollection
      ensures Valid() && Positive(flowCollection.flows)
      ensures forall s, t :: Between(flowCollection.flows, s, t)
                          == if s == source then Aggregated(Between(old(flowCollection.flows), s, t), s, t)
                             else Between(old(flowCollection.flows), s, t)
      ensures Conserves(flowCollection.flows, old(flowCollection.flows))
      ensures PartiesWithin(flowCollection.flows, old(flowCollection.flows))
      ensures Shrinks(old(flowCollection.flows), old(flowCollection.changed),
                      flowCollection.flows, flowCollection.changed)
      ensures OnePerPair(old(flowCollection.flows)) ==>
                flowCollection.flows == old(flowCollection.flows) && flowCollection.changed == old(flowCollection.changed)
    {
      ghost var start, changed0 := flowCollection.flows, flowCollection.changed;
      PartiesWithinItself(start);
      var sinks := flowCollection.GetSinks(source);
      ghost var doneSinks: set<Party> := {};
      for j := 0 to |sinks|
        invariant Valid() && Positive(flowCollection.flows)
        invariant OnePerPair(start) ==> flowCollection.flows == start && flowCollection.changed == changed0
        invariant Conserves(flowCollection.flows, start) && PartiesWithin(flowCollection.flows, start)
        invariant Shrinks(start, changed0, flowCollection.flows, flowCollection.changed)
        invariant forall k :: 0 <= k < j ==> sinks[k] in doneSinks
        invariant forall k :: j <= k < |sinks| ==> sinks[k] !in doneSinks
        invariant forall s, t :: Between(flowCollection.flows, s, t)
                              == if s == source && t in doneSinks
                                 then Aggregated(Between(start, s, t), s, t) else Between(start, s, t)
      {
        var sink := sinks[j];
        ghost var cur := flowCollection.flows;
        AggregateBucket(source, sink);
        PartiesWithinTransitive(flowCollection.flows, cur, start);
        doneSinks := doneSinks + {sink};
      }
      forall t | Between(start, source, t) != [] ensures t in doneSinks {
        var f := Between(start, source, t)[0];
        BetweenMembers(start, source, t);
        assert f in Between(start, source, t);
        assert t in sinks;
      }
    }

    /** The body of the netting loop for one pair: when `source` and `sink` have flows both ways,
        all of them are removed and one flow of the difference, if any, is added in the
        direction of the larger total. */
    method NetPair(source: Party, sink: Party)
      requires Valid() && Positive(flowCollection.flows)
      modifies flowCollection
      ensures Valid() && Positive(flowCollection.flows)
      ensures forall x, y :: Between(flowCollection.flows, x, y)
                          == if (x == source && y == sink) || (x == sink && y == source)
                             then NetBucket(old(flowCollection.flows), x, y)
                             else Between(old(flowCollection.flows), x, y)
      ensures Conserves(flowCollection.flows, old(flowCollection.flows))
      ensures PartiesWithin(flowCollection.flows, old(flowCollection.flows))
      ensures Shrinks(old(flowCollection.flows), old(flowCollection.changed),
                      flowCollection.flows, flowCollection.changed)
    {
      ghost var cur := flowCollection.flows;
      PartiesWithinItself(cur);
      var flows := flowCollection.GetFlows(source, sink);
      var returnFlows := flowCollection.GetFlows(sink, source);
      if returnFlows == [] || flows == [] {
        return;
      }
      ReplaceBothWays(source, sink, flows, returnFlows);
      NetPairEffect(cur, source, sink);
    }

    /** The removals and the addition of the netting step, once both directions are known to
        carry flows. */
    method ReplaceBothWays(source: Party, sink: Party, flows: seq<Flow>, returnFlows: seq<Flow>)
      requires Valid()
      requires flows == Between(flowCollection.flows, source, sink) && flows != []
      requires returnFlows == Between(flowCollection.flows, sink, source) && returnFlows != []
      modifies flowCollection
      ensures Valid() && flowCollection.changed
      ensures flowCollection.flows == NettedPair(old(flowCollection.flows), source, sink)
    {
      ghost var cur := flowCollection.flows;
      var value := TotalValue(flows);
      var returnValue := TotalValue(returnFlows);
      flowCollection.RemoveAll(flows);
      flowCollection.RemoveAll(returnFlows);
      ghost var mid := flowCollection.flows;
      assert mid == RemoveEach(RemoveEach(cur, flows), returnFlows);
      if value > returnValue {
        flowCollection.Add(Flow(source, sink, value - returnValue));
        assert flowCollection.flows == mid + [Flow(source, sink, value - returnValue)];
      } else if value < returnValue {
        flowCollection.Add(Flow(sink, source, returnValue - value));
        assert flowCollection.flows == mid + [Flow(sink, source, returnValue - value)];
      }
      NettedPairOf(cur, source, sink, flows, returnFlows, mid, flowCollection.flows);
    }

    /** The inner loop of the netting: nets `source` with each of its payees. */
    method NetFrom(source: Party)
      requires Valid() && Positive(flowCollection.flows)
      modifies flowCollection
      ensures Valid() && Positive(flowCollection.flows)
      ensures forall x, y :: Between(flowCollection.flows, x, y)
                          == if x == source || y == source then NetBucket(old(flowCollection.flows), x, y)
                             else Between(old(flowCollection.flows), x, y)
      ensures Conserves(flowCollection.flows, old(flowCollection.flows))
      ensures PartiesWithin(flowCollection.flows, old(flowCollection.flows))
      ensures Shrinks(old(flowCollection.flows), old(flowCollection.changed),
                      flowCollection.flows, flowCollection.changed)
    {
      ghost var start, changed0 := flowCollection.flows, flowCollection.changed;
      PartiesWithinItself(start);
      var sinks := flowCollection.GetSinks(source);
      ghost var doneSinks: set<Party> := {};
      for j := 0 to |sinks|
        invariant Valid() && Reduced(start, changed0, flowCollection.flows, flowCollection.changed)
        invariant forall k :: 0 <= k < j ==> sinks[k] in doneSinks
        invariant forall k :: j <= k < |sinks| ==> sinks[k] !in doneSinks
        invariant NettedWith(flowCollection.flows, start, source, doneSinks)
      {
        NetWith(start, changed0, source, sinks[j], doneSinks);
        doneSinks := doneSinks + {sinks[j]};
      }
      forall t | Between(start, source, t) != [] ensures t in doneSinks {
        var f := Between(start, source, t)[0];
        BetweenMembers(start, source, t);
        assert f in Between(start, source, t);
        assert t in sinks;
      }
      NettedWithAll(flowCollection.flows, start, source, doneSinks);
    }

    /** One step of the inner loop: nets `source` with `sink`, starting from flows in which the
        pairs of `source` with the parties of `done` are already netted. */
    method NetWith(ghost start: seq<Flow>, ghost changed0: bool, source: Party, sink: Party, ghost done: set<Party>)
      requires Valid() && Reduced(start, changed0, flowCollection.flows, flowCollection.changed)
      requires NettedWith(flowCollection.flows, start, source, done)
      modifies flowCollection
      ensures Valid() && Reduced(start, changed0, flowCollection.flows, flowCollection.changed)
      ensures NettedWith(flowCollection.flows, start, source, done + {sink})
    {
      ghost var cur, changed1 := flowCollection.flows, flowCollection.changed;
      NetPair(source, sink);
      ReducedStep(start, changed0, cur, changed1, flowCollection.flows, flowCollection.changed);
      NettedWithStep(flowCollection.flows, cur, start, source, sink, done);
    }

    /** Nets every pair of parties: afterwards no two parties have flows both ways and no party
        pays itself, and each pair holds what netting its original flows gives. */
    method NetBetweenParties()
      requires Valid() && Positive(flowCollection.flows)
      modifies flowCollection
      ensures Valid() && Positive(flowCollection.flows)
      ensures forall x, y :: Between(flowCollection.flows, x, y) == NetBucket(old(flowCollection.flows), x, y)
      ensures OneWay(flowCollection.flows) && NoSelfLoops(flowCollection.flows)
      ensures Conserves(flowCollection.flows, old(flowCollection.flows))
      ensures PartiesWithin(flowCollection.flows, old(flowCollection.flows))
      ensures Shrinks(old(flowCollection.flows), old(flowCollection.changed),
                      flowCollection.flows, flowCollection.changed)
    {
      ghost var start, changed0 := flowCollection.flows, flowCollection.changed;
      PartiesWithinItself(start);
      var sources := flowCollection.GetSources();
      ghost var doneSources: set<Party> := {};
      for i := 0 to |sources|
        invariant Valid() && Reduced(start, changed0, flowCollection.flows, flowCollection.changed)
        invariant forall k :: 0 <= k < i ==> sources[k] in doneSources
        invariant forall k :: i <= k < |sources| ==> sources[k] !in doneSources
        invariant NettedAmong(flowCollection.flows, start, doneSources)
      {
        NetSource(start, changed0, sources[i], doneSources);
        doneSources := doneSources + {sources[i]};
      }
      forall x, y | x !in doneSources && y !in doneSources ensures Between(start, x, y) == NetBucket(start, x, y) {
        forall f | f in start ensures f.source != x && f.source != y {
          assert f.source in sources;
        }
        NoPayments(start, x, y);
        NoPayments(start, y, x);
      }
      forall x, y ensures Between(flowCollection.flows, x, y) == [] || Between(flowCollection.flows, y, x) == [] {
        NetBucketOneWay(start, x, y);
      }
      OneWayHasNoSelfLoops(flowCollection.flows);
    }

    /** One step of the outer loop: nets `source` with all its payees, starting from flows in
        which every pair touching a party of `done` is already netted. */
    method NetSource(ghost start: seq<Flow>, ghost changed0: bool, source: Party, ghost done: set<Party>)
      requires Valid() && Reduced(start, changed0, flowCollection.flows, flowCollection.changed)
      requires NettedAmong(flowCollection.flows, start, done)
      modifies flowCollection
      ensures Valid() && Reduced(start, changed0, flowCollection.flows, flowCollection.changed)
      ensures NettedAmong(flowCollection.flows, start, done + {source})
    {
      ghost var cur, changed1 := flowCollection.flows, flowCollection.changed;
      NetFrom(source);
      ReducedStep(start, changed0, cur, changed1, flowCollection.flows, flowCollection.changed);
      NettedAmongStep(flowCollection.flows, cur, start, source, done);
    }

    /** Searches depth first, from `source`, for paths that end with a flow into `toFind`, taking
        the first flow of each pair and never entering a payer twice: a payer already in
        `visited` yields nothing, and every payer entered is added to the returned visited list,
        which the search threads through its calls. */
    method GetCircularFlow(toFind: Party, source: Party, visited: seq<Party>)
      returns (cycles: seq<seq<Flow>>, visitedOut: seq<Party>)
      requires Valid()
      ensures forall p :: p in visited ==> p in visitedOut
      ensures source in visitedOut
      ensures source in visited ==> cycles == [] && visitedOut == visited
      ensures forall c :: c in cycles ==> Path(flowCollection.flows, c, source, toFind, visited)
      decreases |Unvisited(flowCollection.flows, visited)|
    {
      if source in visited {
        return [], visited;
      }
      ghost var fs := flowCollection.flows;
      visitedOut := visited + [source];
      cycles := [];
      var sinks := flowCollection.GetSinks(source);
      for j := 0 to |sinks|
        invariant forall p :: p in visited ==> p in visitedOut
        invariant source in visitedOut
        invariant forall c :: c in cycles ==> Path(fs, c, source, toFind, visited)
      {
        var sink := sinks[j];
        assert sink in sinks && fs == flowCollection.flows;
        BetweenMembers(fs, source, sink);
        ghost var g :| g in fs && g.source == source && g.sink == sink;
        assert g in Between(fs, source, sink);
        var sinkFlow := flowCollection.GetFlows(source, sink)[0];
        assert IsHead(fs, sinkFlow);
        if sink == toFind {
          PathSingle(fs, sinkFlow, toFind, visited);
          cycles := cycles + [[sinkFlow]];
        } else {
          ghost var seen := visitedOut;
          assert source in Payers(fs);
          FewerUnvisited(fs, visited, seen, source);
          var circularChildFlows;
          circularChildFlows, visitedOut := GetCircularFlow(toFind, sink, visitedOut);
          for k := 0 to |circularChildFlows|
            invariant forall c :: c in cycles ==> Path(fs, c, source, toFind, visited)
          {
            PathCons(fs, sinkFlow, circularChildFlows[k], toFind, visited, seen);
            cycles := cycles + [[sinkFlow] + circularChildFlows[k]];
          }
        }
      }
    }

    /** Takes the smallest value `m` of the cycle `c` off each of its flows, in order: the flow
        is removed and, when more than `m` was on it, a flow of the rest is added. */
    method SqueezeCycle(c: seq<Flow>, m: int)
      requires Valid() && Positive(flowCollection.flows) && OnePerPair(flowCollection.flows)
      requires IsCycle(flowCollection.flows, c) && IsMinimum(c, m)
      modifies flowCollection
      ensures Valid() && Positive(flowCollection.flows) && flowCollection.changed
      ensures forall x, y :: Between(flowCollection.flows, x, y) == Squeezed(old(flowCollection.flows), c, m, x, y)
      ensures Conserves(flowCollection.flows, old(flowCollection.flows))
      ensures PartiesWithin(flowCollection.flows, old(flowCollection.flows))
      ensures |flowCollection.flows| == |old(flowCollection.flows)| - MinCount(c) < |old(flowCollection.flows)|
    {
      ghost var agg := flowCollection.flows;
      SqueezeStart(agg, c, m);
      for i := 0 to |c|
        invariant Valid() && SqueezedUpTo(flowCollection.flows, agg, c, m, i)
        invariant i > 0 ==> flowCollection.changed
      {
        SqueezeFlow(agg, c, m, i);
      }
      SqueezeDone(flowCollection.flows, agg, c, m);
    }

    /** Takes `m` off the `i`-th flow of the cycle `c` of `agg`. */
    method SqueezeFlow(ghost agg: seq<Flow>, c: seq<Flow>, m: int, i: nat)
      requires Valid() && IsCycle(agg, c) && OnePerPair(agg) && IsMinimum(c, m) && i < |c|
      requires SqueezedUpTo(flowCollection.flows, agg, c, m, i)
      modifies flowCollection
      ensures Valid() && SqueezedUpTo(flowCollection.flows, agg, c, m, i + 1) && flowCollection.changed
    {
      var flow := c[i];
      ghost var cur := flowCollection.flows;
      flowCollection.Remove(flow);
      if flow.value > m {
        flowCollection.Add(Flow(flow.source, flow.sink, flow.value - m));
      }
      SqueezeStep(agg, c, m, i, cur, flowCollection.flows);
    }

    /** Every cycle the search finds from each payer back to itself, in the order of the payers. */
    method FindCycles() returns (circularFlows: seq<seq<Flow>>)
      requires Valid()
      ensures forall c :: c in circularFlows ==> IsCycle(flowCollection.flows, c)
    {
      circularFlows := [];
      var sources := flowCollection.GetSources();
      for i := 0 to |sources|
        invariant forall c :: c in circularFlows ==> IsCycle(flowCollection.flows, c)
      {
        var cycles, visited := GetCircularFlow(sources[i], sources[i], []);
        circularFlows := circularFlows + cycles;
      }
    }

    /** Combines the flows of each pair, then looks for cycles and, when there are some, takes the
        smallest value off each flow of the one that ranks first, the cycle with the most flows
        at its smallest value and, among those, the first found. Every balance is kept. */
    method RemoveCircularFlow() returns (ghost aggregated: seq<Flow>, ghost found: seq<seq<Flow>>)
      requires Valid() && Positive(flowCollection.flows)
      modifies flowCollection
      ensures Valid() && Positive(flowCollection.flows)
      ensures forall x, y :: Between(aggregated, x, y) == Aggregated(Between(old(flowCollection.flows), x, y), x, y)
      ensures forall c :: c in found ==> IsCycle(aggregated, c)
      ensures found == [] ==> flowCollection.flows == aggregated
      ensures found != [] ==>
                var c := found[SelectCycle(found)];
                SmallestValue(c).Some? &&
                forall x, y :: Between(flowCollection.flows, x, y) == Squeezed(aggregated, c, SmallestValue(c).value, x, y)
      ensures found != [] ==>
                var c := found[SelectCycle(found)];
                |flowCollection.flows| == |aggregated| - MinCount(c)
                && forall j :: 0 <= j < |found| ==> MinCount(found[j]) <= MinCount(c)
      ensures forall x, y :: Between(flowCollection.flows, x, y) != [] ==> Between(old(flowCollection.flows), x, y) != []
      ensures Conserves(flowCollection.flows, old(flowCollection.flows))
      ensures PartiesWithin(flowCollection.flows, old(flowCollection.flows))
      ensures Shrinks(old(flowCollection.flows), old(flowCollection.changed),
                      flowCollection.flows, flowCollection.changed)
    {
      ghost var start := flowCollection.flows;
      AggregateSameSourceAndSink();
      aggregated := flowCollection.flows;
      assert OnePerPair(aggregated);
      var circularFlows := FindCycles();
      found := circularFlows;
      if circularFlows == [] {
        return;
      }
      var circularFlow := circularFlows[SelectCycle(circularFlows)];
      assert circularFlow in circularFlows;
      var minValue := SmallestValue(circularFlow).value;
      SqueezeCycle(circularFlow, minValue);
      forall x, y ensures Between(flowCollection.flows, x, y) != [] ==> Between(start, x, y) != [] {
        SqueezedSupport(aggregated, circularFlow, minValue, x, y);
      }
      PartiesWithinTransitive(flowCollection.flows, aggregated, start);
    }

    /** The flows into `party`, gathered payer by payer. */
    method CollectIncoming(party: Party) returns (incoming: seq<Flow>)
      requires Valid()
      ensures multiset(incoming) == multiset(Side(flowCollection.flows, SinkFirst, party))
    {
      ghost var fs := flowCollection.flows;
      var partners := flowCollection.GetSourcesInto(party);
      ghost var done: set<Party> := {};
      incoming := [];
      SideFromNone(fs, SinkFirst, party);
      for j := 0 to |partners|
        invariant multiset(incoming) == multiset(SideFrom(fs, SinkFirst, party, done))
        invariant forall k :: 0 <= k < j ==> partners[k] in done
        invariant forall k :: j <= k < |partners| ==> partners[k] !in done
      {
        var partner := partners[j];
        var bucket := flowCollection.GetFlows(partner, party);
        CollectStep(fs, SinkFirst, party, done, partner, incoming, bucket);
        incoming := incoming + bucket;
        done := done + {partner};
      }
      forall f | f in fs && f.sink == party ensures f.source in done {
        assert f.source in partners;
      }
      SideFromAll(fs, SinkFirst, party, done);
    }

    /** The flows out of `party`, gathered payee by payee. */
    method CollectOutgoing(party: Party) returns (outgoing: seq<Flow>)
      requires Valid()
      ensures multiset(outgoing) == multiset(Side(flowCollection.flows, SourceFirst, party))
    {
      ghost var fs := flowCollection.flows;
      var partners := flowCollection.GetSinks(party);
      ghost var done: set<Party> := {};
      outgoing := [];
      SideFromNone(fs, SourceFirst, party);
      for j := 0 to |partners|
        invariant multiset(outgoing) == multiset(SideFrom(fs, SourceFirst, party, done))
        invariant forall k :: 0 <= k < j ==> partners[k] in done
        invariant forall k :: j <= k < |partners| ==> partners[k] !in done
      {
        var partner := partners[j];
        var bucket := flowCollection.GetFlows(party, partner);
        CollectStep(fs, SourceFirst, party, done, partner, outgoing, bucket);
        outgoing := outgoing + bucket;
        done := done + {partner};
      }
      forall f | f in fs && f.source == party ensures f.sink in done {
        assert f.sink in partners;
      }
      SideFromAll(fs, SourceFirst, party, done);
    }

    /** The replacement of `party` the greedy solver finds, or None when what `party` receives
        differs from what it pays. */
    method NetZeroCandidate(party: Party) returns (r: Option<FlowReplacements>)
      requires Valid() && Positive(flowCollection.flows)
      ensures r.None? <==> Balance(flowCollection.flows, party) != 0
      ensures r.Some? ==> Replaces(flowCollection.flows, party, r.value)
    {
      ghost var fs := flowCollection.flows;
      var incoming := CollectIncoming(party);
      var outgoing := CollectOutgoing(party);
      SideCopy(fs, SinkFirst, party, incoming);
      SideCopy(fs, SourceFirst, party, outgoing);
      SumAddsUp(fs, party);
      if TotalValue(incoming) != TotalValue(outgoing) {
        return None;
      }
      var replacements := GetReplacements(incoming, outgoing);
      r := Some(replacements);
    }

    /** Removes the flows into and out of the party `r` stands in for and adds its replacements. */
    method ApplyReplacement(ghost party: Party, r: FlowReplacements)
      requires Valid() && Positive(flowCollection.flows) && Replaces(flowCollection.flows, party, r)
      requires r.incoming != []
      modifies flowCollection
      ensures Valid() && Positive(flowCollection.flows) && flowCollection.changed
      ensures flowCollection.flows == Replaced(old(flowCollection.flows), r)
      ensures PartiesWithin(flowCollection.flows, old(flowCollection.flows))
    {
      ghost var fs := flowCollection.flows;
      flowCollection.RemoveAll(r.incoming);
      flowCollection.RemoveAll(r.outgoing);
      ghost var mid := flowCollection.flows;
      for k := 0 to |r.replacements|
        invariant Valid() && flowCollection.changed
        invariant flowCollection.flows == mid + r.replacements[..k]
      {
        flowCollection.Add(r.replacements[k]);
        assert r.replacements[..k + 1] == r.replacements[..k] + [r.replacements[k]];
      }
      assert r.replacements[..|r.replacements|] == r.replacements;
      ReplacedWithin(fs, party, r);
    }

    /** The loop of findNetZeroString over the payers: every payer whose incoming and outgoing
        totals are equal offers the replacement the greedy solver finds for it, and the offer
        with the largest savings is kept, the first one found among equals. `balanced` and
        `offers` list the candidates in the order they were looked at; `pick` is the one kept. */
    method ChooseNetZero() returns (best: Option<FlowReplacements>, ghost chosen: Option<Party>,
                                    ghost balanced: seq<Party>, ghost offers: seq<FlowReplacements>, ghost pick: nat)
      requires Valid() && Positive(flowCollection.flows)
      ensures |balanced| == |offers|
      ensures forall p :: p in balanced <==> p in Payers(flowCollection.flows) && Balance(flowCollection.flows, p) == 0
      ensures forall k :: 0 <= k < |offers| ==> Replaces(flowCollection.flows, balanced[k], offers[k]) && offers[k].incoming != []
      ensures best.None? <==> balanced == []
      ensures chosen.None? <==> best.None?
      ensures best.Some? ==> pick < |offers| && best.value == offers[pick] && chosen == Some(balanced[pick])
      ensures best.Some? ==> forall k :: 0 <= k < |offers| ==> Savings(offers[k]) <= Savings(best.value)
      ensures best.Some? ==> forall k :: 0 <= k < pick ==> Savings(offers[k]) < Savings(best.value)
      ensures best.None? <==> forall p :: p in Payers(flowCollection.flows) ==> Balance(flowCollection.flows, p) != 0
      ensures best.Some? ==> best.value.incoming != [] && Savings(best.value) >= 1
    {
      ghost var fs := flowCollection.flows;
      best := None;
      chosen := None;
      balanced, offers, pick := [], [], 0;
      var sources := flowCollection.GetSources();
      for i := 0 to |sources|
        invariant forall k :: 0 <= k < i ==> (sources[k] in balanced <==> Balance(fs, sources[k]) == 0)
        invariant forall p :: p in balanced ==> p in Payers(fs) && Balance(fs, p) == 0
        invariant forall k :: i <= k < |sources| ==> sources[k] !in balanced
        invariant Ranked(fs, balanced, offers, best, chosen, pick)
      {
        var party := sources[i];
        var replacements := NetZeroCandidate(party);
        if replacements.Some? {
          assert party in Payers(fs) by {
            assert party in sources;
            var f :| f in fs && f.source == party;
          }
          PayerIsPaid(fs, party, replacements.value);
          RankedAdd(fs, balanced, offers, best, chosen, pick, party, replacements.value);
          if best.None? || Savings(best.value) < Savings(replacements.value) {
            best := replacements;
            chosen := Some(party);
            pick := |offers|;
          }
          balanced, offers := balanced + [party], offers + [replacements.value];
        }
      }
      forall p | p in Payers(fs) && Balance(fs, p) == 0 ensures p in balanced {
        var f :| f in fs && f.source == p;
        assert p in sources;
      }
      if best.Some? {
        assert balanced[pick] in balanced;
      }
    }

    /** Replaces the balanced payer with the largest savings, which then drops out of the graph. */
    method FindNetZeroString() returns (ghost chosen: Option<Party>, ghost best: Option<FlowReplacements>,
                                        ghost balanced: seq<Party>, ghost offers: seq<FlowReplacements>, ghost pick: nat)
      requires Valid() && Positive(flowCollection.flows)
      modifies flowCollection
      ensures Valid() && Positive(flowCollection.flows)
      ensures PartiesWithin(flowCollection.flows, old(flowCollection.flows))
      ensures |balanced| == |offers|
      ensures forall p :: p in balanced <==> p in Payers(old(flowCollection.flows)) && Balance(old(flowCollection.flows), p) == 0
      ensures forall k :: 0 <= k < |offers| ==> Replaces(old(flowCollection.flows), balanced[k], offers[k]) && offers[k].incoming != []
      ensures chosen.None? <==> best.None?
      ensures chosen.None? ==> balanced == [] && flowCollection.flows == old(flowCollection.flows)
                               && flowCollection.changed == old(flowCollection.changed)
      ensures chosen.Some? ==> pick < |offers| && best.value == offers[pick] && chosen.value == balanced[pick]
                               && flowCollection.flows == Replaced(old(flowCollection.flows), best.value)
                               && flowCollection.changed
      ensures chosen.Some? ==> forall k :: 0 <= k < |offers| ==> Savings(offers[k]) <= Savings(best.value)
      ensures chosen.Some? ==> forall k :: 0 <= k < pick ==> Savings(offers[k]) < Savings(best.value)
      ensures NoSelfLoops(old(flowCollection.flows)) && chosen.Some? ==>
                !IsParty(flowCollection.flows, chosen.value)
                && Conserves(flowCollection.flows, old(flowCollection.flows))
                && |flowCollection.flows| == |old(flowCollection.flows)| - Savings(best.value)
    {
      ghost var start := flowCollection.flows;
      var bestReplacement;
      bestReplacement, chosen, balanced, offers, pick := ChooseNetZero();
      best := bestReplacement;
      if bestReplacement.None? {
        PartiesWithinItself(start);
        return;
      }
      assert balanced[pick] in balanced;
      ApplyReplacement(chosen.value, bestReplacement.value);
      if NoSelfLoops(start) {
        ReplacedConserves(start, chosen.value, bestReplacement.value);
        ReplacedParty(start, chosen.value, bestReplacement.value);
      }
    }

    /** One round of passes: netting between parties, removal of a circular flow, removal of a
        balanced party, aggregation. It reports whether anything changed; when something did the
        graph has fewer flows, and when nothing did the graph is settled. Every balance is kept. */
    method NetRound() returns (more: bool)
      requires Valid() && Positive(flowCollection.flows)
      modifies flowCollection
      ensures Valid() && Positive(flowCollection.flows)
      ensures Conserves(flowCollection.flows, old(flowCollection.flows))
      ensures PartiesWithin(flowCollection.flows, old(flowCollection.flows))
      ensures more == flowCollection.changed
      ensures more ==> |flowCollection.flows| < |old(flowCollection.flows)|
      ensures !more ==> flowCollection.flows == old(flowCollection.flows) && Settled(flowCollection.flows)
    {
      ghost var s0 := flowCollection.flows;
      flowCollection.SetChanged(false);
      NetBetweenParties();
      ghost var s1 := flowCollection.flows;
      ghost var aggregated, found := RemoveCircularFlow();
      ghost var s2 := flowCollection.flows;
      SupportKeepsNoSelfLoops(s2, s1);
      ghost var chosen, best, balanced, offers, pick := FindNetZeroString();
      ghost var s3 := flowCollection.flows;
      AggregateSameSourceAndSink();
      PartiesWithinTransitive(s2, s1, s0);
      PartiesWithinTransitive(s3, s2, s0);
      PartiesWithinTransitive(flowCollection.flows, s3, s0);
      more := flowCollection.changed;
      if !more {
        assert s3 == s0;
        assert forall x, y :: |Between(flowCollection.flows, x, y)| <= 1;
      }
    }

    /** Nets the flows: records every balance, combines the flows of each pair, runs rounds until
        one changes nothing and checks the balances again. The check always passes, so the
        settled flows are returned, with every balance as before and no new party. */
    method Net() returns (r: Result<seq<Flow>>)
      requires Valid() && Positive(flowCollection.flows)
      modifies flowCollection
      ensures Valid() && Positive(flowCollection.flows)
      ensures r == Ok(flowCollection.flows)
      ensures Conserves(flowCollection.flows, old(flowCollection.flows))
      ensures PartiesWithin(flowCollection.flows, old(flowCollection.flows))
      ensures Settled(flowCollection.flows)
    {
      ghost var start := flowCollection.flows;
      var netBefore := GetNets();
      AggregateSameSourceAndSink();
      var more := true;
      while more
        invariant Valid() && Positive(flowCollection.flows)
        invariant Conserves(flowCollection.flows, start) && PartiesWithin(flowCollection.flows, start)
        invariant !more ==> Settled(flowCollection.flows)
        decreases |flowCollection.flows| + (if more then 1 else 0)
      {
        ghost var cur := flowCollection.flows;
        more := NetRound();
        PartiesWithinTransitive(flowCollection.flows, cur, start);
      }
      var netAfter := GetNets();
      NetsAgree(start, flowCollection.flows, netBefore, netAfter);
      var outcome := VerifyEquals(netBefore, netAfter);
      r := ToResult(outcome, flowCollection.flows);
    }

    /** Every party's net balance: what it receives minus what it pays. */
    method GetNets() returns (nets: map<Party, int>)
      requires Valid()
      ensures forall p :: p in nets <==> IsParty(flowCollection.flows, p)
      ensures forall p :: p in nets ==> nets[p] == Balance(flowCollection.flows, p)
    {
      nets := map[];
      var fs := flowCollection.flows;
      for i := 0 to |fs|
        invariant forall p :: p in nets <==> IsParty(fs[..i], p)
        invariant forall p :: p in nets ==> nets[p] == Balance(fs[..i], p)
      {
        var flow := fs[i];
        ghost var before := nets;
        nets := Merge(nets, flow.sink, flow.value);
        nets := Merge(nets, flow.source, -flow.value);
        assert fs[..i + 1] == fs[..i] + [flow];
        NetsStep(fs[..i], flow, before, nets);
      }
      assert fs[..|fs|] == fs;
    }
  }
}
