/** Flows and the sums over them that every part of the netting engine uses. */
module Flows {

  /** A party is known by its identifier; two parties are the same when their identifiers are equal. */
  datatype Party = Party(id: string)

  /** `source` owes `sink` the amount `value`. */
  datatype Flow = Flow(source: Party, sink: Party, value: int)

  datatype Option<T> = None | Some(value: T)

  /** What a flow contributes to a sum: its value, its value when paid by or to one party, or
      its effect on one party's net balance. */
  datatype Weight = ValueOf | PaidBy(payer: Party) | PaidTo(payee: Party) | NetOf(party: Party)

  function Weigh(w: Weight, f: Flow): int {
    match w
    case ValueOf => f.value
    case PaidBy(p) => if f.source == p then f.value else 0
    case PaidTo(p) => if f.sink == p then f.value else 0
    case NetOf(p) => (if f.sink == p then f.value else 0) - (if f.source == p then f.value else 0)
  }

  /** Splitting a flow's value splits its weight. */
  lemma WeighSplit(w: Weight, s: Party, t: Party, a: int, b: int)
    ensures Weigh(w, Flow(s, t, a + b)) == Weigh(w, Flow(s, t, a)) + Weigh(w, Flow(s, t, b))
  {
  }

  function Sum(fs: seq<Flow>, w: Weight): int {
    if fs == [] then 0 else Weigh(w, fs[0]) + Sum(fs[1..], w)
  }

  /** Sum of the values of the flows. */
  function Total(fs: seq<Flow>): int {
    Sum(fs, ValueOf)
  }

  /** Net balance of `p`: what it receives minus what it pays. */
  function Balance(fs: seq<Flow>, p: Party): int {
    Sum(fs, NetOf(p))
  }

  ghost predicate Positive(fs: seq<Flow>) {
    forall f :: f in fs ==> f.value > 0
  }

  ghost predicate NoSelfLoops(fs: seq<Flow>) {
    forall f :: f in fs ==> f.source != f.sink
  }

  ghost predicate IsParty(fs: seq<Flow>, p: Party) {
    exists f :: f in fs && (f.source == p || f.sink == p)
  }

  /** Every endpoint of a flow in `fs` is already a party of `before`. */
  ghost predicate PartiesWithin(fs: seq<Flow>, before: seq<Flow>) {
    forall f :: f in fs ==> IsParty(before, f.source) && IsParty(before, f.sink)
  }

  /** Every party has the same net balance in `fs` as in `before`. */
  ghost predicate Conserves(fs: seq<Flow>, before: seq<Flow>) {
    forall p :: Balance(fs, p) == Balance(before, p)
  }

  /** The flows from `s` to `t`, in order. */
  function Between(fs: seq<Flow>, s: Party, t: Party): seq<Flow> {
    if fs == [] then []
    else (if fs[0].source == s && fs[0].sink == t then [fs[0]] else []) + Between(fs[1..], s, t)
  }

  /** Which endpoint a flow is filed under first. */
  datatype Direction = SourceFirst | SinkFirst

  function Key(d: Direction, f: Flow): Party {
    if d == SourceFirst then f.source else f.sink
  }

  function SubKey(d: Direction, f: Flow): Party {
    if d == SourceFirst then f.sink else f.source
  }

  /** The flows of `fs` filed under first key `a` and second key `b`. */
  function Bucket(fs: seq<Flow>, d: Direction, a: Party, b: Party): seq<Flow> {
    if d == SourceFirst then Between(fs, a, b) else Between(fs, b, a)
  }

  /** The flows filed under first key `p`: for SinkFirst the flows into `p`, for SourceFirst the
      flows out of `p`. */
  function Side(fs: seq<Flow>, d: Direction, p: Party): seq<Flow> {
    if fs == [] then []
    else (if Key(d, fs[0]) == p then [fs[0]] else []) + Side(fs[1..], d, p)
  }

  /** The flows filed under first key `p` whose second key is in `others`. */
  function SideFrom(fs: seq<Flow>, d: Direction, p: Party, others: set<Party>): seq<Flow> {
    if fs == [] then []
    else (if Key(d, fs[0]) == p && SubKey(d, fs[0]) in others then [fs[0]] else [])
         + SideFrom(fs[1..], d, p, others)
  }

  /** Removal of the first flow equal to `f`, as a list's remove(Object) does; nothing if absent. */
  function RemoveFirst(fs: seq<Flow>, f: Flow): seq<Flow> {
    if fs == [] then []
    else if fs[0] == f then fs[1..]
    else [fs[0]] + RemoveFirst(fs[1..], f)
  }

  /** Removal of the flows of `ws` one after another. */
  function RemoveEach(fs: seq<Flow>, ws: seq<Flow>): seq<Flow> {
    if ws == [] then fs
    else RemoveFirst(RemoveEach(fs, ws[..|ws| - 1]), ws[|ws| - 1])
  }

  lemma {:induction false} RemoveFirstMultiset(fs: seq<Flow>, f: Flow)
    ensures multiset(RemoveFirst(fs, f)) == multiset(fs) - multiset{f}
    ensures |RemoveFirst(fs, f)| == if f in fs then |fs| - 1 else |fs|
  {
    if fs != [] {
      assert fs == [fs[0]] + fs[1..];
      RemoveFirstMultiset(fs[1..], f);
    }
  }

  lemma {:induction false} RemoveEachMultiset(fs: seq<Flow>, ws: seq<Flow>)
    ensures multiset(RemoveEach(fs, ws)) == multiset(fs) - multiset(ws)
  {
    if ws != [] {
      var init, z := ws[..|ws| - 1], ws[|ws| - 1];
      assert ws == init + [z];
      RemoveEachMultiset(fs, init);
      RemoveFirstMultiset(RemoveEach(fs, init), z);
    }
  }

  lemma {:induction false} SumAppend(a: seq<Flow>, b: seq<Flow>, w: Weight)
    ensures Sum(a + b, w) == Sum(a, w) + Sum(b, w)
  {
    if a == [] {
      assert a + b == b;
    } else {
      assert (a + b)[0] == a[0] && (a + b)[1..] == a[1..] + b;
      SumAppend(a[1..], b, w);
    }
  }

  /** Taking out the flow at position `i` takes out its weight. */
  lemma SumWithout(b: seq<Flow>, i: nat, w: Weight)
    requires i < |b|
    ensures Sum(b, w) == Sum(b[..i] + b[i + 1..], w) + Weigh(w, b[i])
  {
    assert b == b[..i] + ([b[i]] + b[i + 1..]);
    SumAppend(b[..i], [b[i]] + b[i + 1..], w);
    SumAppend(b[..i], b[i + 1..], w);
    assert ([b[i]] + b[i + 1..])[1..] == b[i + 1..];
  }

  lemma MultisetWithout(b: seq<Flow>, i: nat)
    requires i < |b|
    ensures multiset(b[..i] + b[i + 1..]) == multiset(b) - multiset{b[i]}
  {
    assert b == b[..i] + [b[i]] + b[i + 1..];
  }

  lemma PermutationTail(a: seq<Flow>, b: seq<Flow>, i: nat)
    requires multiset(a) == multiset(b) && a != [] && i < |b| && b[i] == a[0]
    ensures multiset(a[1..]) == multiset(b[..i] + b[i + 1..])
  {
    MultisetWithout(b, i);
    MultisetWithout(a, 0);
    assert a[..0] + a[1..] == a[1..];
  }

  /** Sums do not depend on the order of the flows. */
  lemma {:induction false} SumPermutation(a: seq<Flow>, b: seq<Flow>, w: Weight)
    requires multiset(a) == multiset(b)
    ensures Sum(a, w) == Sum(b, w)
    decreases |a|
  {
    if a == [] {
      assert |b| == |multiset(b)| == 0;
    } else {
      var x := a[0];
      assert x in b by {
        assert x in multiset(a);
      }
      var i :| 0 <= i < |b| && b[i] == x;
      var rest := b[..i] + b[i + 1..];
      PermutationTail(a, b, i);
      SumPermutation(a[1..], rest, w);
      SumWithout(b, i, w);
    }
  }

  /** Removing present flows takes their sum away. */
  lemma SumRemoveEach(fs: seq<Flow>, ws: seq<Flow>, w: Weight)
    requires multiset(ws) <= multiset(fs)
    ensures Sum(RemoveEach(fs, ws), w) == Sum(fs, w) - Sum(ws, w)
    ensures |RemoveEach(fs, ws)| == |fs| - |ws|
  {
    var r := RemoveEach(fs, ws);
    RemoveEachMultiset(fs, ws);
    assert multiset(r + ws) == multiset(fs);
    SumPermutation(r + ws, fs, w);
    SumAppend(r, ws, w);
    assert |r + ws| == |multiset(r + ws)| == |multiset(fs)| == |fs|;
  }

  lemma {:induction false} SumAddsUp(fs: seq<Flow>, p: Party)
    ensures Balance(fs, p) == Sum(fs, PaidTo(p)) - Sum(fs, PaidBy(p))
  {
    if fs != [] {
      SumAddsUp(fs[1..], p);
    }
  }

  /** A sum of positive values is at least the number of terms. */
  lemma {:induction false} TotalOfPositive(fs: seq<Flow>)
    ensures Positive(fs) ==> Total(fs) >= |fs|
  {
    if fs != [] && Positive(fs) {
      assert fs[0] in fs;
      assert forall f :: f in fs[1..] ==> f in fs;
      TotalOfPositive(fs[1..]);
    }
  }

  /** The flows of one pair, all sharing one source and one sink, move each party's balance as a
      single flow of their total would. */
  lemma {:induction false} BucketBalance(fs: seq<Flow>, s: Party, t: Party, p: Party)
    requires forall f :: f in fs ==> f.source == s && f.sink == t
    ensures Balance(fs, p) == Balance([Flow(s, t, Total(fs))], p)
  {
    if fs == [] {
      var g := Flow(s, t, 0);
      assert [g][1..] == [];
      assert Balance([g], p) == Weigh(NetOf(p), g) + Sum([], NetOf(p));
    } else {
      assert fs[0] in fs;
      assert forall f :: f in fs[1..] ==> f in fs;
      BucketBalance(fs[1..], s, t, p);
      var g, h := Flow(s, t, Total(fs)), Flow(s, t, Total(fs[1..]));
      assert Total(fs) == fs[0].value + Total(fs[1..]);
      assert [g][1..] == [] && [h][1..] == [];
      assert Balance([g], p) == Weigh(NetOf(p), g) + Sum([], NetOf(p));
      assert Balance([h], p) == Weigh(NetOf(p), h) + Sum([], NetOf(p));
      assert Balance(fs, p) == Weigh(NetOf(p), fs[0]) + Balance(fs[1..], p);
    }
  }

  lemma {:induction false} BetweenAppend(a: seq<Flow>, b: seq<Flow>, s: Party, t: Party)
    ensures Between(a + b, s, t) == Between(a, s, t) + Between(b, s, t)
  {
    if a == [] {
      assert a + b == b;
    } else {
      assert (a + b)[0] == a[0] && (a + b)[1..] == a[1..] + b;
      BetweenAppend(a[1..], b, s, t);
    }
  }

  lemma {:induction false} BetweenRemoveFirst(fs: seq<Flow>, f: Flow, s: Party, t: Party)
    ensures Between(RemoveFirst(fs, f), s, t)
         == if f.source == s && f.sink == t then RemoveFirst(Between(fs, s, t), f) else Between(fs, s, t)
  {
    if fs != [] {
      var x, tail := fs[0], fs[1..];
      var hit := f.source == s && f.sink == t;
      var bx := if x.source == s && x.sink == t then [x] else [];
      assert Between(fs, s, t) == bx + Between(tail, s, t);
      if x == f {
        assert RemoveFirst(fs, f) == tail;
        if hit {
          assert Between(fs, s, t) == [f] + Between(tail, s, t);
          assert Between(fs, s, t)[0] == f && Between(fs, s, t)[1..] == Between(tail, s, t);
        }
      } else {
        assert RemoveFirst(fs, f) == [x] + RemoveFirst(tail, f);
        BetweenRemoveFirst(tail, f, s, t);
        BetweenAppend([x], RemoveFirst(tail, f), s, t);
        assert Between([x], s, t) == bx + Between([], s, t);
        if hit && bx != [] {
          var b := Between(fs, s, t);
          assert b[0] == x && b[0] != f && b[1..] == Between(tail, s, t);
          assert RemoveFirst(b, f) == [x] + RemoveFirst(Between(tail, s, t), f);
        } else if bx == [] {
          assert Between(fs, s, t) == Between(tail, s, t);
          assert Between([x], s, t) == [];
        }
      }
    }
  }

  /** Removing flows commutes with picking out one pair. */
  lemma {:induction false} BetweenRemoveEach(fs: seq<Flow>, ws: seq<Flow>, s: Party, t: Party)
    ensures Between(RemoveEach(fs, ws), s, t) == RemoveEach(Between(fs, s, t), Between(ws, s, t))
  {
    if ws != [] {
      var init, z := ws[..|ws| - 1], ws[|ws| - 1];
      assert ws == init + [z];
      BetweenRemoveEach(fs, init, s, t);
      BetweenRemoveFirst(RemoveEach(fs, init), z, s, t);
      BetweenAppend(init, [z], s, t);
      var bw := Between(ws, s, t);
      if z.source == s && z.sink == t {
        assert bw == Between(init, s, t) + [z];
        assert bw[..|bw| - 1] == Between(init, s, t);
      } else {
        assert bw == Between(init, s, t);
      }
    }
  }

  lemma {:induction false} BetweenMembers(fs: seq<Flow>, s: Party, t: Party)
    ensures forall f :: f in Between(fs, s, t) <==> f in fs && f.source == s && f.sink == t
    ensures |Between(fs, s, t)| <= |fs|
  {
    if fs != [] {
      BetweenMembers(fs[1..], s, t);
      assert fs == [fs[0]] + fs[1..];
    }
  }

  lemma {:induction false} SideMembers(fs: seq<Flow>, d: Direction, p: Party)
    ensures forall f :: f in Side(fs, d, p) <==> f in fs && Key(d, f) == p
  {
    if fs != [] {
      SideMembers(fs[1..], d, p);
      assert fs == [fs[0]] + fs[1..];
    }
  }

  lemma BetweenIsPart(fs: seq<Flow>, s: Party, t: Party)
    ensures multiset(Between(fs, s, t)) <= multiset(fs)
  {
    if fs != [] {
      assert fs == [fs[0]] + fs[1..];
      BetweenIsPart(fs[1..], s, t);
    }
  }

  /** Removing a whole bucket empties it. */
  lemma RemoveAllOfItself(b: seq<Flow>, ws: seq<Flow>)
    requires multiset(b) <= multiset(ws)
    ensures RemoveEach(b, ws) == []
  {
    var r := RemoveEach(b, ws);
    RemoveEachMultiset(b, ws);
    assert |r| == |multiset(r)| == 0;
  }

  /** With no flow from a party to itself, the flows into and out of a party are disjoint parts of
      the whole. */
  lemma {:induction false} SidesArePart(fs: seq<Flow>, p: Party)
    requires NoSelfLoops(fs)
    ensures multiset(Side(fs, SinkFirst, p)) + multiset(Side(fs, SourceFirst, p)) <= multiset(fs)
  {
    if fs != [] {
      assert fs == [fs[0]] + fs[1..];
      assert fs[0] in fs;
      assert forall f :: f in fs[1..] ==> f in fs;
      SidesArePart(fs[1..], p);
    }
  }

  /** Every copy of a flow filed under `p` is on that side of `p`. */
  lemma {:induction false} SideKeepsCopies(fs: seq<Flow>, d: Direction, p: Party, f: Flow)
    requires Key(d, f) == p
    ensures multiset(Side(fs, d, p))[f] == multiset(fs)[f]
  {
    if fs != [] {
      assert fs == [fs[0]] + fs[1..];
      SideKeepsCopies(fs[1..], d, p, f);
    }
  }

  lemma {:induction false} SideFromNone(fs: seq<Flow>, d: Direction, p: Party)
    ensures SideFrom(fs, d, p, {}) == []
  {
    if fs != [] {
      SideFromNone(fs[1..], d, p);
    }
  }

  /** Taking in one more partner adds that partner's bucket. */
  lemma {:induction false} SideFromAdd(fs: seq<Flow>, d: Direction, p: Party, others: set<Party>, x: Party)
    requires x !in others
    ensures multiset(SideFrom(fs, d, p, others + {x}))
         == multiset(SideFrom(fs, d, p, others)) + multiset(Bucket(fs, d, p, x))
  {
    if fs != [] {
      var g, rest := fs[0], fs[1..];
      SideFromAdd(rest, d, p, others, x);
      var inBucket := Key(d, g) == p && SubKey(d, g) == x;
      assert Bucket(fs, d, p, x) == (if inBucket then [g] else []) + Bucket(rest, d, p, x);
      assert SideFrom(fs, d, p, others + {x})
          == (if Key(d, g) == p && SubKey(d, g) in others + {x} then [g] else [])
             + SideFrom(rest, d, p, others + {x});
      assert SideFrom(fs, d, p, others)
          == (if Key(d, g) == p && SubKey(d, g) in others then [g] else []) + SideFrom(rest, d, p, others);
    }
  }

  /** Once every partner is taken in, the flows are the whole side. */
  lemma {:induction false} SideFromAll(fs: seq<Flow>, d: Direction, p: Party, others: set<Party>)
    requires forall f :: f in fs && Key(d, f) == p ==> SubKey(d, f) in others
    ensures SideFrom(fs, d, p, others) == Side(fs, d, p)
  {
    if fs != [] {
      assert fs[0] in fs;
      assert forall f :: f in fs[1..] ==> f in fs;
      SideFromAll(fs[1..], d, p, others);
    }
  }

  /** The flows into `p` sum to what `p` receives, the flows out of `p` to what `p` pays. */
  lemma {:induction false} SideTotal(fs: seq<Flow>, p: Party)
    ensures Total(Side(fs, SinkFirst, p)) == Sum(fs, PaidTo(p))
    ensures Total(Side(fs, SourceFirst, p)) == Sum(fs, PaidBy(p))
  {
    if fs != [] {
      SideTotal(fs[1..], p);
      var x := fs[0];
      SumAppend(if x.sink == p then [x] else [], Side(fs[1..], SinkFirst, p), ValueOf);
      SumAppend(if x.source == p then [x] else [], Side(fs[1..], SourceFirst, p), ValueOf);
      assert [x][1..] == [];
    }
  }

  /** Flows that all go into `p` pay only `p`. */
  lemma {:induction false} OneSink(fs: seq<Flow>, p: Party, q: Party)
    requires forall f :: f in fs ==> f.sink == p
    ensures Sum(fs, PaidTo(q)) == if q == p then Total(fs) else 0
  {
    if fs != [] {
      assert fs[0] in fs;
      assert forall f :: f in fs[1..] ==> f in fs;
      OneSink(fs[1..], p, q);
    }
  }

  /** Flows that all come out of `p` are paid only by `p`. */
  lemma {:induction false} OneSource(fs: seq<Flow>, p: Party, q: Party)
    requires forall f :: f in fs ==> f.source == p
    ensures Sum(fs, PaidBy(q)) == if q == p then Total(fs) else 0
  {
    if fs != [] {
      assert fs[0] in fs;
      assert forall f :: f in fs[1..] ==> f in fs;
      OneSource(fs[1..], p, q);
    }
  }

  lemma SumSingle(g: Flow, w: Weight)
    ensures Sum([g], w) == Weigh(w, g)
  {
    assert [g][1..] == [];
  }

  lemma SumSnoc(fs: seq<Flow>, g: Flow, w: Weight)
    ensures Sum(fs + [g], w) == Sum(fs, w) + Weigh(w, g)
  {
    SumAppend(fs, [g], w);
    SumSingle(g, w);
  }

  lemma SumRemoveFirst(fs: seq<Flow>, f: Flow, w: Weight)
    requires f in fs
    ensures Sum(RemoveFirst(fs, f), w) == Sum(fs, w) - Weigh(w, f)
    ensures |RemoveFirst(fs, f)| == |fs| - 1
  {
    assert [f][..0] == [];
    assert RemoveEach(fs, [f]) == RemoveFirst(fs, f);
    SumRemoveEach(fs, [f], w);
    SumSingle(f, w);
  }

  lemma RemoveFirstSubset(fs: seq<Flow>, f: Flow)
    ensures forall g :: g in RemoveFirst(fs, f) ==> g in fs
  {
    RemoveFirstMultiset(fs, f);
    forall g | g in RemoveFirst(fs, f) ensures g in fs {
      assert g in multiset(RemoveFirst(fs, f));
    }
  }

  lemma RemoveEachSubset(fs: seq<Flow>, ws: seq<Flow>)
    ensures forall g :: g in RemoveEach(fs, ws) ==> g in fs
  {
    RemoveEachMultiset(fs, ws);
    forall g | g in RemoveEach(fs, ws) ensures g in fs {
      assert g in multiset(RemoveEach(fs, ws));
    }
  }

  lemma {:induction false} RemoveFirstAbsent(fs: seq<Flow>, f: Flow)
    requires f !in fs
    ensures RemoveFirst(fs, f) == fs
  {
    if fs != [] {
      assert fs[0] in fs;
      assert forall g :: g in fs[1..] ==> g in fs;
      RemoveFirstAbsent(fs[1..], f);
      assert fs == [fs[0]] + fs[1..];
    }
  }

  /** Removing flows none of which is present changes nothing. */
  lemma {:induction false} RemoveEachAbsent(fs: seq<Flow>, ws: seq<Flow>)
    requires forall g :: g in ws ==> g !in fs
    ensures RemoveEach(fs, ws) == fs
  {
    if ws != [] {
      var n := |ws| - 1;
      assert forall g :: g in ws[..n] ==> g in ws;
      RemoveEachAbsent(fs, ws[..n]);
      assert ws[n] in ws;
      RemoveFirstAbsent(fs, ws[n]);
    }
  }

  /** A party with no flow neither pays nor receives. */
  lemma {:induction false} BalanceOfStranger(fs: seq<Flow>, p: Party)
    requires !IsParty(fs, p)
    ensures Balance(fs, p) == 0
  {
    if fs != [] {
      assert fs[0] in fs;
      assert forall g :: g in fs[1..] ==> g in fs;
      BalanceOfStranger(fs[1..], p);
    }
  }

  lemma BetweenSnoc(fs: seq<Flow>, g: Flow, x: Party, y: Party)
    ensures Between(fs + [g], x, y) == Between(fs, x, y) + (if g.source == x && g.sink == y then [g] else [])
  {
    BetweenAppend(fs, [g], x, y);
    assert [g][1..] == [];
  }

  lemma {:induction false} BetweenOfBetween(fs: seq<Flow>, s: Party, t: Party, x: Party, y: Party)
    ensures Between(Between(fs, s, t), x, y) == if x == s && y == t then Between(fs, s, t) else []
  {
    if fs != [] {
      var g := fs[0];
      var head := if g.source == s && g.sink == t then [g] else [];
      BetweenOfBetween(fs[1..], s, t, x, y);
      BetweenAppend(head, Between(fs[1..], s, t), x, y);
      assert head != [] ==> head[1..] == [];
    }
  }

  /** Taking out a whole bucket empties that pair and leaves every other pair as it was. */
  lemma RemoveBucket(fs: seq<Flow>, s: Party, t: Party)
    ensures forall x, y :: Between(RemoveEach(fs, Between(fs, s, t)), x, y)
                        == if x == s && y == t then [] else Between(fs, x, y)
    ensures forall p :: Balance(RemoveEach(fs, Between(fs, s, t)), p)
                     == Balance(fs, p) - Balance(Between(fs, s, t), p)
    ensures |RemoveEach(fs, Between(fs, s, t))| == |fs| - |Between(fs, s, t)|
  {
    var b := Between(fs, s, t);
    forall x, y ensures Between(RemoveEach(fs, b), x, y) == if x == s && y == t then [] else Between(fs, x, y) {
      BetweenRemoveEach(fs, b, x, y);
      BetweenOfBetween(fs, s, t, x, y);
      if x == s && y == t {
        RemoveAllOfItself(b, b);
      }
    }
    BetweenIsPart(fs, s, t);
    forall p ensures Balance(RemoveEach(fs, b), p) == Balance(fs, p) - Balance(b, p) {
      SumRemoveEach(fs, b, NetOf(p));
    }
    SumRemoveEach(fs, b, ValueOf);
  }

  lemma PartiesWithinItself(fs: seq<Flow>)
    ensures PartiesWithin(fs, fs)
  {
    forall f | f in fs ensures IsParty(fs, f.source) && IsParty(fs, f.sink) {
    }
  }

  lemma PartiesWithinTransitive(a: seq<Flow>, b: seq<Flow>, c: seq<Flow>)
    requires PartiesWithin(a, b) && PartiesWithin(b, c)
    ensures PartiesWithin(a, c)
  {
    forall f | f in a ensures IsParty(c, f.source) && IsParty(c, f.sink) {
      var g :| g in b && (g.source == f.source || g.sink == f.source);
      var h :| h in b && (h.source == f.sink || h.sink == f.sink);
    }
  }

  /** Taking `v` off a flow at the end of a list takes its weight off the sum. */
  lemma LeftoverSum(rest: seq<Flow>, f: Flow, v: int, w: Weight)
    ensures Sum(rest + [Flow(f.source, f.sink, f.value - v)], w) == Sum(rest, w) + Weigh(w, f) - Weigh(w, Flow(f.source, f.sink, v))
  {
    SumSnoc(rest, Flow(f.source, f.sink, f.value - v), w);
    WeighSplit(w, f.source, f.sink, v, f.value - v);
    assert f == Flow(f.source, f.sink, v + (f.value - v));
  }
}
