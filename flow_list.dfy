/** The read-only queries of a flow list that the replacement solver picks its flows with. */
module FlowLists {
  import opened Flows

  /** The smallest value in the list; None when the list is empty. */
  function SmallestValue(s: seq<Flow>): (r: Option<int>)
    ensures r.None? <==> s == []
    ensures r.Some? ==> exists i :: 0 <= i < |s| && s[i].value == r.value
    ensures r.Some? ==> forall i :: 0 <= i < |s| ==> r.value <= s[i].value
  {
    if s == [] then None
    else
      var rest := SmallestValue(s[1..]);
      assert forall i :: 1 <= i < |s| ==> s[i] == s[1..][i - 1];
      if rest.None? || s[0].value <= rest.value then Some(s[0].value) else rest
  }

  /** The first flow whose value is `v`; None when there is none. */
  function GetFlow(s: seq<Flow>, v: int): (r: Option<Flow>)
    ensures r.None? <==> forall i :: 0 <= i < |s| ==> s[i].value != v
    ensures r.Some? ==> exists i :: 0 <= i < |s| && s[i] == r.value && IsFirstWithValue(s, i, v)
  {
    if s == [] then None
    else if s[0].value == v then Some(s[0])
    else
      var rest := GetFlow(s[1..], v);
      assert forall i :: 1 <= i < |s| ==> s[i] == s[1..][i - 1];
      assert rest.Some? ==> exists i :: 1 <= i < |s| && s[i] == rest.value && IsFirstWithValue(s, i, v);
      rest
  }

  /** Position `i` holds the first flow of `s` whose value is `v`. */
  ghost predicate IsFirstWithValue(s: seq<Flow>, i: int, v: int) {
    0 <= i < |s| && s[i].value == v && forall j :: 0 <= j < i ==> s[j].value != v
  }

  /** The flows whose value reaches `bound`, in order. */
  function AtLeast(s: seq<Flow>, bound: int): (r: seq<Flow>)
    ensures forall f :: f in r <==> f in s && f.value >= bound
  {
    if s == [] then []
    else (if s[0].value >= bound then [s[0]] else []) + AtLeast(s[1..], bound)
  }

  /** The first flow whose value is the least value that reaches `bound`; None when no flow
      reaches it. */
  function GetSmallestFlow(s: seq<Flow>, bound: int): (r: Option<Flow>)
    ensures r.None? <==> forall i :: 0 <= i < |s| ==> s[i].value < bound
    ensures r.Some? ==> r.value in s && r.value.value >= bound
    ensures r.Some? ==> forall i :: 0 <= i < |s| && s[i].value >= bound ==> r.value.value <= s[i].value
    ensures r.Some? ==> exists i :: 0 <= i < |s| && s[i] == r.value && IsFirstWithValue(s, i, r.value.value)
  {
    var candidates := AtLeast(s, bound);
    match SmallestValue(candidates)
    case None =>
      assert forall i :: 0 <= i < |s| ==> s[i] in s;
      None
    case Some(m) =>
      assert forall i :: 0 <= i < |s| && s[i].value >= bound ==> s[i] in candidates;
      var k :| 0 <= k < |candidates| && candidates[k].value == m;
      assert candidates[k] in s;
      GetFlow(s, m)
  }

  /** Sum of the values. */
  function TotalValue(s: seq<Flow>): (r: int)
    ensures s == [] ==> r == 0
    ensures Positive(s) ==> r >= |s|
  {
    TotalOfPositive(s);
    Total(s)
  }
}
