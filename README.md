# FlowNetter in Dafny

FlowNetter reduces a set of payments ("flows") between parties to fewer payments. Each party
still receives, net of what it pays, exactly what it did before. The engine runs rounds of
four passes until a round changes nothing:

- it combines parallel flows between the same payer and payee;
- it nets the two directions between each pair of parties;
- it takes the smallest flow off one cycle of payments;
- it rewrites one balanced pass-through party's flows as direct flows from its payers to its
  payees.

A snapshot and a check bracket the rounds. The engine records every party's net balance
before the rounds, and compares it after them.

This project models:

- the flow store, `FlowCollection`: a list plus two nested indexes, by payer and by payee;
- the list queries the greedy matcher uses, `FlowList`;
- the engine itself, `Netter`.

It proves that the balance check at the end of `net` always passes. It also proves what each
pass does to the flows.

Files:

- `flows.dfy` (module `Flows`): parties, flows, sums and balances, pair buckets, removal of
  flows by value, and the lemmas about them.
- `flow_list.dfy` (module `FlowLists`): the `FlowList` queries.
- `flow_collection.dfy` (module `FlowCollections`): the class `FlowCollection`, whose methods
  keep the list and both indexes in step, over the predicate `Indexes`.
- `replacements.dfy` (module `Replacements`): `FlowReplacements`, `getSavings` and the greedy
  matcher `getReplacements`.
- `cycles.dfy` (module `Cycles`): the cycle comparator, paths and cycles, and the effect of
  squeezing a cycle.
- `netter.dfy` (module `Netting`): the balance check, the specification functions of each pass,
  and the class `Netter`.
- `scenarios.dfy` (module `Scenarios`): the unit tests whose outcome does not depend on map
  order, each run through `Net` and its result derived from `Net`'s contract.

A party is `datatype Party(id: string)`, compared structurally. `Netter.java` writes `String`
for the parties throughout, while `FlowCollection` and `Flow` use `Entity`.
The model reads every one of them as the same party type.

Flows are positive. Nothing in the source enforces this, but `getReplacements` depends on it.
The model therefore makes `Positive` a precondition of `Net` and proves that every pass keeps
it.

## Model

| member | source | states |
|---|---|---|
| FlowLists.SmallestValue | src/flownetter/FlowList.java:10-12 | empty exactly for the empty list; otherwise a value some element has that no element is below |
| FlowLists.GetFlow | src/flownetter/FlowList.java:14-17 | empty exactly when no element has the value; otherwise the first element with that value |
| FlowLists.GetSmallestFlow | src/flownetter/FlowList.java:19-31 | empty exactly when every element is below the bound; otherwise an element at or above the bound with no element between the bound and it, and the first element of its value |
| FlowLists.TotalValue | src/flownetter/FlowList.java:33-35 | 0 for the empty list, at least the length for a positive list |
| FlowCollections.IndexAddPreserves | src/flownetter/FlowCollection.java:79-99 | filing a flow under its two keys keeps the index exact for the list with the flow appended |
| FlowCollections.IndexRemovePreserves | src/flownetter/FlowCollection.java:101-127 | removing a flow from its bucket, dropping the bucket and the inner map once empty, keeps the index exact for the list without it, also when the flow is absent |
| FlowCollections.IndexUnique | src/flownetter/FlowCollection.java:12-15 | an exact index is determined by the list it indexes, so both maps hold exactly the list's flows, pair by pair |
| FlowCollections.IndexKeys | src/flownetter/FlowCollection.java:23-45 | a key of an exact index is a party with a matching flow, and such a party is a key |
| FlowCollections.KeyList | src/flownetter/FlowCollection.java:23-25 | a copy of the key set: no repeats, and exactly the map's keys |
| FlowCollections.FlowCollection.constructor | src/flownetter/FlowCollection.java:12-17 | an empty list and indexes, not changed |
| FlowCollections.FlowCollection.GetSources | src/flownetter/FlowCollection.java:23-25 | no repeats, and exactly the parties that pay some flow |
| FlowCollections.FlowCollection.GetSinks | src/flownetter/FlowCollection.java:27-35 | no repeats, and exactly the parties the given payer pays, empty for a party that pays nothing |
| FlowCollections.FlowCollection.GetSourcesInto | src/flownetter/FlowCollection.java:37-45 | no repeats, and exactly the parties that pay the given payee |
| FlowCollections.FlowCollection.GetFlows | src/flownetter/FlowCollection.java:47-58 | the flows of the list from that payer to that payee, in list order, empty for an unindexed pair |
| FlowCollections.FlowCollection.SetChanged | src/flownetter/FlowCollection.java:129-136 | sets the flag to the value given and leaves the list and indexes alone |
| FlowCollections.FlowCollection.Add | src/flownetter/FlowCollection.java:60-67 | the flow is appended, earlier flows stay in order, the indexes stay exact and the flag is set |
| FlowCollections.FlowCollection.Remove | src/flownetter/FlowCollection.java:70-77 | the first equal flow leaves the list, so an absent flow changes nothing; the indexes stay exact and the flag is set either way |
| FlowCollections.FlowCollection.RemoveAll | src/flownetter/FlowCollection.java:138-141 | each listed flow is removed in turn, a multiset difference; the flag is set exactly when something was listed or it was set already |
| Replacements.Savings | src/flownetter/Netter.java:246-248 | never more than the flows replaced, and at least 1 exactly when the replacement holds fewer flows than it replaces; `ReplacedConserves` shows the list shrinks by exactly this |
| Replacements.GetReplacements | src/flownetter/Netter.java:179-239 | every replacement is positive, from a party paying into the pass-through party to one it pays; each party pays and receives the same totals as before; at least one flow is saved whenever there is an incoming flow |
| Cycles.MinCount | src/flownetter/Netter.java:333-341 | the number of flows whose value is the chain's smallest; 0 exactly for the empty chain, never more than its length |
| Cycles.Compare | src/flownetter/Netter.java:318-331 | -1, 0 or 1; a cycle is not after another exactly when it has at least as many flows at its minimum, as many flows as squeezing it removes; equal counts compare as 0 |
| Cycles.CompareIsComparator | src/flownetter/Netter.java:318-331 | the comparison is antisymmetric and transitive, and equal elements compare alike, so sorting by it is well defined |
| Cycles.SelectCycle | src/flownetter/Netter.java:296-298 | the element a stable sort puts first: none compares below it, and every earlier element compares strictly above it |
| Cycles.PathSingle | src/flownetter/Netter.java:354-359 | a flow into the target from an unvisited payer is a path |
| Cycles.PathCons | src/flownetter/Netter.java:360-367 | a flow from an unvisited party followed by a path from its payee is a path |
| Cycles.EdgeOf | src/flownetter/Netter.java:302-311 | the flow of a cycle between two parties, present exactly when the cycle has a flow between them |
| Cycles.SqueezeDone | src/flownetter/Netter.java:302-311 | once every flow of the cycle is reduced, every pair holds its squeezed flows, every balance is kept and exactly as many flows are gone as the cycle has flows at its minimum, which is its sort key |
| Cycles.SqueezedSupport | src/flownetter/Netter.java:305-309 | squeezing a cycle adds no flow to a pair that had none |
| Netting.Merge | src/flownetter/Netter.java:43-44 | the party is added, its value grows by the amount from 0 when it is new, and no other party changes |
| Netting.VerifyEquals | src/flownetter/Netter.java:54-85 | the check as written: it passes exactly when every earlier balance is found again and no party is new; a NettingException names a party of the first map with both of its values and they differ; a party only in the second map makes it fail with NoSuchElement |
| Netting.VerifyBalances | src/flownetter/Netter.java:50-52 | it passes exactly when every party of either map has the same balance in both, a missing one counting as 0, and otherwise fails with the party and its two differing values |
| Netting.ZeroNewcomer | src/flownetter/Netter.java:74-84 | a new party with balance 0 makes the check as written fail with NoSuchElement, while the corrected one passes |
| Netting.VerifyAgrees | src/flownetter/Netter.java:74-84 | with no new party the two checks agree and the check as written never fails with NoSuchElement |
| Netting.NetsAgree | src/flownetter/Netter.java:24-34 | balances read from flows that keep every balance and add no party pass the check: every earlier value is found again and no party is new |
| Netting.AggregatePair | src/flownetter/Netter.java:419-432 | combining a pair's several flows into one of their total keeps every balance and the parties, shortens the list and affects only that pair |
| Netting.NetBucketOneWay | src/flownetter/Netter.java:378-409 | after netting, at most one direction between two parties carries flows |
| Netting.NetBucketAgain | src/flownetter/Netter.java:378-409 | netting an already netted pair changes nothing |
| Netting.NetPairEffect | src/flownetter/Netter.java:382-405 | netting a pair with flows both ways leaves one flow of the difference the way of the larger total, or none, touches no other pair, keeps every balance and shortens the list |
| Netting.ReplacedConserves | src/flownetter/Netter.java:140-144 | replacing a balanced party keeps every balance and shortens the list by the savings |
| Netting.ReplacedParty | src/flownetter/Netter.java:140-144 | after the replacement the party has no flow left |
| Netting.ReplacedWithin | src/flownetter/Netter.java:140-144 | the replacement adds no party and no flow that is not positive |
| Netting.PayerIsPaid | src/flownetter/Netter.java:127-131 | a balanced payer receives at least one flow, so its replacement saves at least one flow |
| Netting.RankedAdd | src/flownetter/Netter.java:133-137 | a new offer displaces the best one only when it saves strictly more, so the first of equal offers stays |
| Netting.Netter.constructor | src/flownetter/Netter.java:15-17 | an engine over an empty, unchanged collection |
| Netting.Netter.Add | src/flownetter/Netter.java:19-21 | the flow is appended to the collection |
| Netting.Netter.AggregateBucket | src/flownetter/Netter.java:419-432 | one pair with several flows ends with one flow of their total, others stay as they were; with at most one flow nothing changes |
| Netting.Netter.AggregateSameSourceAndSink | src/flownetter/Netter.java:414-435 | every pair holds its flows combined into one of their total, pairs with at most one flow keep theirs, balances and parties are kept, and a second run changes nothing |
| Netting.Netter.NetPair | src/flownetter/Netter.java:382-405 | the pair has flows one way at most, as `NetBucket` of the earlier flows, and nothing else changes |
| Netting.Netter.ReplaceBothWays | src/flownetter/Netter.java:390-404 | both directions of the pair are removed and, unless the totals are equal, one flow of the difference is added the way of the larger total: the flows `NettedPair` gives, whose effect `NetPairEffect` states |
| Netting.Netter.NetFrom | src/flownetter/Netter.java:380-405 | every pair touching the payer ends as `NetBucket` of the earlier flows, every other pair is unchanged, balances and parties are kept |
| Netting.Netter.NetBetweenParties | src/flownetter/Netter.java:378-409 | every pair is netted from the earlier flows, no pair has flows both ways, no party pays itself, balances and parties are kept |
| Netting.Netter.GetCircularFlow | src/flownetter/Netter.java:344-372 | every returned list is a chain of existing flows, each the first of its pair, from the start to its first flow into the target, along which no party pays twice and no payer was visited before the call; the visited list only grows, and an already visited start finds nothing |
| Netting.Netter.FindCycles | src/flownetter/Netter.java:284-288 | every list found is a cycle of existing flows |
| Netting.Netter.SqueezeCycle | src/flownetter/Netter.java:300-311 | each flow of the cycle loses the cycle's minimum and goes when that leaves nothing, flows off the cycle stay, balances and parties are kept, and the list loses exactly the cycle's flows at its minimum |
| Netting.Netter.RemoveCircularFlow | src/flownetter/Netter.java:279-313 | the flows are aggregated first; with no cycle nothing else changes; otherwise the cycle the comparator puts first is squeezed by its minimum, which removes as many flows as it has at its minimum, at least as many as squeezing any other cycle found would; balances and parties are kept |
| Netting.Netter.CollectIncoming | src/flownetter/Netter.java:116-120 | exactly the flows into the party |
| Netting.Netter.CollectOutgoing | src/flownetter/Netter.java:121-125 | exactly the flows out of the party |
| Netting.Netter.NetZeroCandidate | src/flownetter/Netter.java:116-131 | no candidate exactly when the party's balance is not zero; otherwise a replacement of all its flows |
| Netting.Netter.ApplyReplacement | src/flownetter/Netter.java:140-144 | the party's flows are removed and the replacements appended, and no party is new |
| Netting.Netter.ChooseNetZero | src/flownetter/Netter.java:114-138 | an offer for exactly the balanced payers; nothing chosen exactly when no payer is balanced; the chosen offer saves at least one flow, saves most of all, and saves more than every earlier offer |
| Netting.Netter.FindNetZeroString | src/flownetter/Netter.java:110-145 | an offer for exactly the balanced payers; with none nothing changes; otherwise the new flows are those the chosen offer produces, and that offer saves most, and more than every earlier offer; without self-loops balances are kept, the party is gone and the list shortens by exactly the savings |
| Netting.Netter.NetRound | src/flownetter/Netter.java:88-100 | the result is the flag; a round that reports a change shortens the list, one that does not changes nothing and leaves the flows settled; balances and parties are kept |
| Netting.Netter.Net | src/flownetter/Netter.java:24-34 | the check passes and the settled flows come back, with every balance and no new party |
| Netting.Netter.GetNets | src/flownetter/Netter.java:39-48 | exactly the parties of the flows, each with what it receives minus what it pays |
| Scenarios.FlowsAggregated | test/NetterTest.java:26-36 | three flows from a to b of 3, 2 and 1 net to the single flow of 6 from a to b |
| Scenarios.NetBetweenPartiesNonZero | test/NetterTest.java:38-49 | 17 from a to b against 12 back nets to the single flow of 5 from a to b |
| Scenarios.NetBetweenPartiesZero | test/NetterTest.java:52-61 | 17 one way against 15 and 2 the other nets to no flow |
| Scenarios.CircularDependency | test/NetterTest.java:63-73 | a cycle of four flows of 10 nets to no flow |
| Scenarios.SettledPair | src/flownetter/Netter.java:24-34 | settled positive flows between two parties where one owes the other `v` are one flow of `v` |
| Scenarios.SettledWithoutBalances | src/flownetter/Netter.java:24-34 | settled flows where every balance is 0 are no flows |

## Findings

| source | as written | input that shows it | evidently intended | confidence | as-written member | corrected member |
|---|---|---|---|---|---|---|
| src/flownetter/Netter.java:77 | the walk over the parties left in `netAfter` calls `next` on the exhausted walk over `netBefore` | `netBefore` empty, `netAfter` holding one party with balance 0: `NoSuchElementException` | take the next party of `netAfter` and reject it only when its balance is not 0, as the method's comment says | high; not executed | Netting.VerifyEquals, Netting.ZeroNewcomer | Netting.VerifyBalances |

`Net` keeps calling the comparison as written, as the source does. `NetsAgree` shows that no
party is new after netting. `VerifyAgrees` shows that the two comparisons then agree, so the
faulty walk is never reached from `net`.

## Left out

- `EntityFactory` and `Entity`: the interning cache has no effect once parties are compared
  structurally. A party is a value.
- `NettingException`'s message text: the error is a value carrying the party and both balances.
- `long` arithmetic: sums are unbounded integers. The source never checks for overflow at
  Netter.java:43-44, 391-394 and 428, and the model does not model wrap-around.
- `CircularComparator`'s `double` minimum (Netter.java:334-340) is modelled as an exact integer
  minimum.
- Removal by reference: `Flow` does not override `equals`, so the list and bucket removals remove
  the very object. The model removes the first flow equal by value. The two agree wherever the
  engine removes something: it removes the first equal flow of a bucket or list, or a whole
  bucket.
- `HashMap` iteration order: the key set is walked in an order chosen by `:|`. Results that
  depend on the order hold for every order.
- `Collections.sort` followed by `get(0)` (Netter.java:296-298) is modelled as `SelectCycle`. It
  picks the element a stable sort by `CircularComparator` would put first, without sorting.
- Several loop bodies are separate methods with the same effect, so that each proof stays small:
  `AggregateFrom`/`AggregateBucket`, `NetSource`/`NetFrom`/`NetWith`/`NetPair`/`ReplaceBothWays`,
  `SqueezeFlow`,
  `ChooseNetZero` and `CollectIncoming`/`CollectOutgoing`.
- Netting.Netter.Net: positive flow values are a precondition. Nothing in the source checks
  them, but the greedy matcher needs them.
- Netting.Netter.FindNetZeroString: the kept balances, the vanished party and the shorter list
  are stated for flows without self-loops. `NetRound` calls it after netting between parties,
  which removes every self-loop, and after the cycle pass, which adds no flow to a pair that had
  none (`SqueezedSupport`, `SupportKeepsNoSelfLoops`), so no self-loop is there when it runs. Its offers, like those of `ChooseNetZero`, are tied
  to the payers through `Replaces` only.
- Netting.Netter.GetCircularFlow: completeness of the search is not proved. The visited list is
  shared across branches, so some cycles are never reported. Only soundness is stated, that
  every list returned is a path.
- Netting.Netter.ChooseNetZero: its offers are related to the payers through `Replaces`, whatever
  their replacements are. That they are the exact output of `GetReplacements` is not restated.
- FlowLists.TotalValue: its contract gives only the empty case and the lower bound. The value
  itself is `Total`, the sum used throughout the model.
- The JUnit tests: the expected results that depend on the order of map keys or cycles, such as
  `a1→c1` against `a2→c1`, are not derived; four order-independent tests are, in `Scenarios`.
