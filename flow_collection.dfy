/** The flow store: the current flows in order, indexed both ways by their endpoints. */
module FlowCollections {
  import opened Flows

  /** A two-level index: first key, second key, then the flows with those endpoints in order. */
  type Index = map<Party, map<Party, seq<Flow>>>

  /** `m` indexes exactly the flows of `fs`: every non-empty bucket is filed, with its flows in
      order, and no empty bucket and no empty inner map is kept. */
  ghost predicate Indexes(m: Index, fs: seq<Flow>, d: Direction) {
    NoEmptyInner(m) && Filed(m, fs, d) && Complete(m, fs, d)
  }

  ghost predicate NoEmptyInner(m: Index) {
    forall a :: a in m ==> m[a] != map[]
  }

  /** Every bucket `m` keeps is non-empty and holds exactly the flows of `fs` with its keys. */
  ghost predicate Filed(m: Index, fs: seq<Flow>, d: Direction) {
    forall a, b :: a in m && b in m[a] ==> m[a][b] == Bucket(fs, d, a, b) && m[a][b] != []
  }

  /** Every non-empty bucket of `fs` is kept in `m`. */
  ghost predicate Complete(m: Index, fs: seq<Flow>, d: Direction) {
    forall a, b :: Bucket(fs, d, a, b) != [] ==> a in m && b in m[a]
  }

  /** Adding a flow to the bucket of its two keys, creating the inner map and the bucket when
      they are missing. */
  function IndexAdd(m: Index, k1: Party, k2: Party, f: Flow): Index {
    var inner := if k1 in m then m[k1] else map[];
    var bucket := if k2 in inner then inner[k2] else [];
    m[k1 := inner[k2 := bucket + [f]]]
  }

  /** Removing a flow from the bucket of its two keys, dropping the bucket and then the inner map
      once they are empty; nothing happens when there is no such bucket. */
  function IndexRemove(m: Index, k1: Party, k2: Party, f: Flow): Index {
    if k1 !in m || k2 !in m[k1] then m
    else
      var bucket := RemoveFirst(m[k1][k2], f);
      if bucket != [] then m[k1 := m[k1][k2 := bucket]]
      else
        var inner := m[k1] - {k2};
        if inner == map[] then m - {k1} else m[k1 := inner]
  }

  lemma BucketAppend(fs: seq<Flow>, f: Flow, d: Direction, a: Party, b: Party)
    ensures Bucket(fs + [f], d, a, b)
         == Bucket(fs, d, a, b) + (if Key(d, f) == a && SubKey(d, f) == b then [f] else [])
  {
    if d == SourceFirst {
      BetweenAppend(fs, [f], a, b);
    } else {
      BetweenAppend(fs, [f], b, a);
    }
    assert [f][1..] == [];
  }

  lemma BucketRemoveFirst(fs: seq<Flow>, f: Flow, d: Direction, a: Party, b: Party)
    ensures Bucket(RemoveFirst(fs, f), d, a, b)
         == if Key(d, f) == a && SubKey(d, f) == b then RemoveFirst(Bucket(fs, d, a, b), f)
            else Bucket(fs, d, a, b)
  {
    if d == SourceFirst {
      BetweenRemoveFirst(fs, f, a, b);
    } else {
      BetweenRemoveFirst(fs, f, b, a);
    }
  }

  lemma BucketMembers(fs: seq<Flow>, d: Direction, a: Party, b: Party)
    ensures forall f :: f in Bucket(fs, d, a, b) <==> f in fs && Key(d, f) == a && SubKey(d, f) == b
  {
    BetweenMembers(fs, a, b);
    BetweenMembers(fs, b, a);
  }

  lemma IndexAddPreserves(m: Index, fs: seq<Flow>, f: Flow, d: Direction)
    requires Indexes(m, fs, d)
    ensures Indexes(IndexAdd(m, Key(d, f), SubKey(d, f), f), fs + [f], d)
  {
    var k1, k2 := Key(d, f), SubKey(d, f);
    var r := IndexAdd(m, k1, k2, f);
    forall a | a in r ensures r[a] != map[] {
      if a == k1 {
        assert k2 in r[a];
      }
    }
    forall a, b | a in r && b in r[a] ensures r[a][b] == Bucket(fs + [f], d, a, b) && r[a][b] != [] {
      BucketAppend(fs, f, d, a, b);
    }
    forall a, b | Bucket(fs + [f], d, a, b) != [] ensures a in r && b in r[a] {
      BucketAppend(fs, f, d, a, b);
    }
  }

  lemma IndexRemovePreserves(m: Index, fs: seq<Flow>, f: Flow, d: Direction)
    requires Indexes(m, fs, d)
    ensures Indexes(IndexRemove(m, Key(d, f), SubKey(d, f), f), RemoveFirst(fs, f), d)
  {
    var k1, k2 := Key(d, f), SubKey(d, f);
    var r := IndexRemove(m, k1, k2, f);
    var rest := RemoveFirst(fs, f);
    if k1 in m && k2 in m[k1] {
      IndexRemoveFiled(m, fs, f, d);
    } else {
      assert Bucket(fs, d, k1, k2) == [];
      forall a, b ensures Bucket(rest, d, a, b) == Bucket(fs, d, a, b) {
        BucketRemoveFirst(fs, f, d, a, b);
      }
    }
  }

  lemma IndexRemoveFiled(m: Index, fs: seq<Flow>, f: Flow, d: Direction)
    requires Indexes(m, fs, d)
    requires Key(d, f) in m && SubKey(d, f) in m[Key(d, f)]
    ensures Indexes(IndexRemove(m, Key(d, f), SubKey(d, f), f), RemoveFirst(fs, f), d)
  {
    var k1, k2 := Key(d, f), SubKey(d, f);
    var bucket := RemoveFirst(m[k1][k2], f);
    assert Bucket(RemoveFirst(fs, f), d, k1, k2) == bucket by {
      BucketRemoveFirst(fs, f, d, k1, k2);
    }
    if bucket != [] {
      IndexKeepBucket(m, fs, f, d, bucket);
    } else {
      IndexDropBucket(m, fs, f, d);
    }
  }

  /** The bucket of `f` still holds flows once `f` is gone: only that bucket changes. */
  lemma IndexKeepBucket(m: Index, fs: seq<Flow>, f: Flow, d: Direction, bucket: seq<Flow>)
    requires Indexes(m, fs, d)
    requires Key(d, f) in m && SubKey(d, f) in m[Key(d, f)]
    requires bucket == RemoveFirst(m[Key(d, f)][SubKey(d, f)], f) && bucket != []
    requires Bucket(RemoveFirst(fs, f), d, Key(d, f), SubKey(d, f)) == bucket
    ensures Indexes(m[Key(d, f) := m[Key(d, f)][SubKey(d, f) := bucket]], RemoveFirst(fs, f), d)
  {
    var k1, k2 := Key(d, f), SubKey(d, f);
    var r := m[k1 := m[k1][k2 := bucket]];
    assert NoEmptyInner(r) by {
      assert k2 in r[k1];
    }
    KeepBucketFiled(m, fs, f, d, bucket);
    KeepBucketComplete(m, fs, f, d, bucket);
  }

  lemma KeepBucketFiled(m: Index, fs: seq<Flow>, f: Flow, d: Direction, bucket: seq<Flow>)
    requires Filed(m, fs, d)
    requires Key(d, f) in m && SubKey(d, f) in m[Key(d, f)]
    requires bucket != [] && Bucket(RemoveFirst(fs, f), d, Key(d, f), SubKey(d, f)) == bucket
    ensures Filed(m[Key(d, f) := m[Key(d, f)][SubKey(d, f) := bucket]], RemoveFirst(fs, f), d)
  {
    var k1, k2 := Key(d, f), SubKey(d, f);
    var r := m[k1 := m[k1][k2 := bucket]];
    forall a, b | a in r && b in r[a] ensures r[a][b] == Bucket(RemoveFirst(fs, f), d, a, b) && r[a][b] != [] {
      if a != k1 || b != k2 {
        BucketRemoveFirst(fs, f, d, a, b);
        assert r[a][b] == m[a][b];
      }
    }
  }

  lemma KeepBucketComplete(m: Index, fs: seq<Flow>, f: Flow, d: Direction, bucket: seq<Flow>)
    requires Complete(m, fs, d)
    requires Key(d, f) in m && SubKey(d, f) in m[Key(d, f)]
    ensures Complete(m[Key(d, f) := m[Key(d, f)][SubKey(d, f) := bucket]], RemoveFirst(fs, f), d)
  {
    forall a, b | Bucket(RemoveFirst(fs, f), d, a, b) != [] ensures a in m && b in m[a] {
      BucketRemoveFirst(fs, f, d, a, b);
    }
  }

  /** `f` was the last flow of its bucket: the bucket goes, and its inner map with it when that
      was its only bucket. */
  lemma IndexDropBucket(m: Index, fs: seq<Flow>, f: Flow, d: Direction)
    requires Indexes(m, fs, d)
    requires Key(d, f) in m && SubKey(d, f) in m[Key(d, f)]
    requires RemoveFirst(m[Key(d, f)][SubKey(d, f)], f) == []
    ensures Indexes(IndexRemove(m, Key(d, f), SubKey(d, f), f), RemoveFirst(fs, f), d)
  {
    var k1, k2 := Key(d, f), SubKey(d, f);
    var r := IndexRemove(m, k1, k2, f);
    var inner := m[k1] - {k2};
    assert r == if inner == map[] then m - {k1} else m[k1 := inner];
    var rest := RemoveFirst(fs, f);
    forall a | a in r ensures r[a] != map[] {
      if a == k1 {
        var b2 :| b2 in inner;
        assert b2 in r[a];
      }
    }
    forall a, b | a in r && b in r[a] ensures r[a][b] == Bucket(rest, d, a, b) && r[a][b] != [] {
      BucketRemoveFirst(fs, f, d, a, b);
    }
    forall a, b | Bucket(rest, d, a, b) != [] ensures a in r && b in r[a] {
      BucketRemoveFirst(fs, f, d, a, b);
      assert a in m && b in m[a];
      if a == k1 {
        assert b in inner;
      }
    }
  }

  /** Only one index files a given list of flows, so the index is determined by the flows. */
  lemma IndexUnique(m1: Index, m2: Index, fs: seq<Flow>, d: Direction)
    requires Indexes(m1, fs, d) && Indexes(m2, fs, d)
    ensures m1 == m2
  {
    forall a | a in m1 ensures a in m2 && m1[a] == m2[a] {
      IndexInnerUnique(m1, m2, fs, d, a);
    }
    forall a | a in m2 ensures a in m1 {
      var b :| b in m2[a];
      assert Bucket(fs, d, a, b) != [];
    }
    assert m1.Keys == m2.Keys;
  }

  lemma IndexInnerUnique(m1: Index, m2: Index, fs: seq<Flow>, d: Direction, a: Party)
    requires Indexes(m1, fs, d) && Indexes(m2, fs, d) && a in m1
    ensures a in m2 && m1[a] == m2[a]
  {
    var b :| b in m1[a];
    assert Bucket(fs, d, a, b) != [];
    forall c | c in m1[a] ensures c in m2[a] && m1[a][c] == m2[a][c] {
      assert Bucket(fs, d, a, c) != [];
    }
    forall c | c in m2[a] ensures c in m1[a] {
      assert Bucket(fs, d, a, c) != [];
    }
    assert m1[a].Keys == m2[a].Keys;
  }

  /** First keys of the index are the parties that have a filed flow, second keys are their
      partners. */
  lemma IndexKeys(m: Index, fs: seq<Flow>, d: Direction)
    requires Indexes(m, fs, d)
    ensures forall a :: a in m <==> exists f :: f in fs && Key(d, f) == a
    ensures forall a, b :: a in m && b in m[a] <==> exists f :: f in fs && Key(d, f) == a && SubKey(d, f) == b
  {
    IndexFirstKeys(m, fs, d);
    IndexSecondKeys(m, fs, d);
  }

  lemma IndexFirstKeys(m: Index, fs: seq<Flow>, d: Direction)
    requires Indexes(m, fs, d)
    ensures forall a :: a in m <==> exists f :: f in fs && Key(d, f) == a
  {
    forall a | a in m ensures exists f :: f in fs && Key(d, f) == a {
      var b :| b in m[a];
      var f := m[a][b][0];
      BucketMembers(fs, d, a, b);
      assert f in Bucket(fs, d, a, b);
    }
    forall f | f in fs ensures Key(d, f) in m {
      BucketMembers(fs, d, Key(d, f), SubKey(d, f));
      assert f in Bucket(fs, d, Key(d, f), SubKey(d, f));
    }
  }

  lemma IndexSecondKeys(m: Index, fs: seq<Flow>, d: Direction)
    requires Indexes(m, fs, d)
    ensures forall a, b :: a in m && b in m[a] <==> exists f :: f in fs && Key(d, f) == a && SubKey(d, f) == b
  {
    forall f | f in fs ensures Key(d, f) in m && SubKey(d, f) in m[Key(d, f)] {
      BucketMembers(fs, d, Key(d, f), SubKey(d, f));
      assert f in Bucket(fs, d, Key(d, f), SubKey(d, f));
    }
    forall a, b | a in m && b in m[a] ensures exists f :: f in fs && Key(d, f) == a && SubKey(d, f) == b {
      var f := m[a][b][0];
      BucketMembers(fs, d, a, b);
      assert f in Bucket(fs, d, a, b);
    }
  }

  ghost predicate Distinct(ps: seq<Party>) {
    forall i, j :: 0 <= i < j < |ps| ==> ps[i] != ps[j]
  }

  /** The keys of a map, in some order, each once, as a copy of a key set is. */
  method KeyList<V>(m: map<Party, V>) returns (r: seq<Party>)
    ensures Distinct(r)
    ensures forall p :: p in r <==> p in m
  {
    r := [];
    var rest := m.Keys;
    while rest != {}
      invariant Distinct(r)
      invariant forall p :: p in r <==> p in m && p !in rest
      invariant rest <= m.Keys
      decreases |rest|
    {
      var p :| p in rest;
      r := r + [p];
      rest := rest - {p};
    }
  }

  class FlowCollection {
    var flows: seq<Flow>
    var bySink: Index
    var bySource: Index
    var changed: bool

    /** Both indexes file exactly the flows of `flows`. */
    ghost predicate Valid()
      reads this
    {
      Indexes(bySource, flows, SourceFirst) && Indexes(bySink, flows, SinkFirst)
    }

    constructor ()
      ensures Valid() && flows == [] && !changed
    {
      flows, bySink, bySource, changed := [], map[], map[], false;
    }

    /** The parties that pay in at least one flow. */
    method GetSources() returns (r: seq<Party>)
      requires Valid()
      ensures Distinct(r)
      ensures forall p :: p in r <==> exists f :: f in flows && f.source == p
    {
      IndexKeys(bySource, flows, SourceFirst);
      r := KeyList(bySource);
    }

    /** The parties `source` pays in at least one flow. */
    method GetSinks(source: Party) returns (r: seq<Party>)
      requires Valid()
      ensures Distinct(r)
      ensures forall p :: p in r <==> exists f :: f in flows && f.source == source && f.sink == p
    {
      IndexKeys(bySource, flows, SourceFirst);
      if source !in bySource {
        return [];
      }
      r := KeyList(bySource[source]);
    }

    /** The parties that pay `sink` in at least one flow. */
    method GetSourcesInto(sink: Party) returns (r: seq<Party>)
      requires Valid()
      ensures Distinct(r)
      ensures forall p :: p in r <==> exists f :: f in flows && f.sink == sink && f.source == p
    {
      IndexKeys(bySink, flows, SinkFirst);
      if sink !in bySink {
        return [];
      }
      r := KeyList(bySink[sink]);
    }

    /** A copy of the bucket of one pair: the flows from `source` to `sink`, or none. */
    function GetFlows(source: Party, sink: Party): (r: seq<Flow>)
      reads this
      requires Valid()
      ensures r == Between(flows, source, sink)
    {
      assert Bucket(flows, SourceFirst, source, sink) == Between(flows, source, sink);
      if source in bySource && sink in bySource[source] then bySource[source][sink] else []
    }

    method SetChanged(value: bool)
      modifies this
      ensures changed == value
      ensures flows == old(flows) && bySource == old(bySource) && bySink == old(bySink)
    {
      changed := value;
    }

    /** Appends `f` and files it in both indexes. */
    method Add(f: Flow)
      requires Valid()
      modifies this
      ensures Valid()
      ensures flows == old(flows) + [f] && changed
    {
      changed := true;
      IndexAddPreserves(bySink, flows, f, SinkFirst);
      IndexAddPreserves(bySource, flows, f, SourceFirst);
      bySink := IndexAdd(bySink, f.sink, f.source, f);
      bySource := IndexAdd(bySource, f.source, f.sink, f);
      flows := flows + [f];
    }

    /** Removes the first flow equal to `f` from the list and from both indexes; a flow that is
        not there leaves both unchanged. */
    method Remove(f: Flow)
      requires Valid()
      modifies this
      ensures Valid()
      ensures flows == RemoveFirst(old(flows), f) && changed
    {
      changed := true;
      IndexRemovePreserves(bySink, flows, f, SinkFirst);
      IndexRemovePreserves(bySource, flows, f, SourceFirst);
      bySink := IndexRemove(bySink, f.sink, f.source, f);
      bySource := IndexRemove(bySource, f.source, f.sink, f);
      flows := RemoveFirst(flows, f);
    }

    /** Removes the flows of `ws` one after the other. */
    method RemoveAll(ws: seq<Flow>)
      requires Valid()
      modifies this
      ensures Valid()
      ensures flows == RemoveEach(old(flows), ws)
      ensures changed == (old(changed) || ws != [])
    {
      for i := 0 to |ws|
        invariant Valid()
        invariant flows == RemoveEach(old(flows), ws[..i])
        invariant changed == (old(changed) || i > 0)
      {
        assert ws[..i + 1][..i] == ws[..i];
        Remove(ws[i]);
      }
      assert ws[..|ws|] == ws;
    }
  }
}
