/** `Queue.getNextRequest`: filter the pending list by an eligibility predicate, then take the
    first eligible request, or scan the eligible ones left to right keeping the best priority. */
module Selection {
  import opened Wrappers
  import opened Lifecycle
  import opened Records

  /** The queue's `priority` setting: absent, 'asc', 'desc', or any other value. */
  datatype PriorityOrder = NoPriority | Ascending | Descending | UnknownPriority

  /** A pending request as the queue sees it: its id, its `settings.priority`, its flags, and the
      outcomes its response-mode hooks have recorded. Selection looks at priority and flags only. */
  datatype View = View(id: nat, priority: Option<int>, flags: Flags, execute: Slots<bool>)

  /** The ids of a list of requests, in order. */
  function Ids(vs: seq<View>): (ids: seq<nat>)
    ensures |ids| == |vs| && forall i :: 0 <= i < |vs| ==> ids[i] == vs[i].id
  {
    seq(|vs|, i requires 0 <= i < |vs| => vs[i].id)
  }

  /** The three filter callbacks the queue passes to `getNextRequest`. */
  datatype Eligibility =
    | Unsent        // `!sent && !canceled`, used when sending
    | Awaiting      // `sent && !aborted && !processed`, used when processing responses
    | Unprocessed   // `!processed`, used to decide on the `allProcessed` event

  predicate Eligible(e: Eligibility, fl: Flags)
  {
    match e
    case Unsent => !fl.sent && !fl.canceled
    case Awaiting => fl.sent && !fl.aborted && !fl.processed
    case Unprocessed => !fl.processed
  }

  /** The `sortCallback(requestPriority, topPriority)` of the scan. JavaScript's `<` and `>` are
      false when either side is undefined. */
  predicate Better(p: PriorityOrder, a: Option<int>, b: Option<int>)
  {
    match p
    case Ascending => a.Some? && b.Some? && a.value < b.value
    case Descending => a.Some? && b.Some? && a.value > b.value
    case _ => false
  }

  /** The left-to-right scan over the priorities of the eligible requests: the pair
      (`topIndex`, `topPriority`) after all elements. An element replaces the current top when
      the top priority is undefined or the element is strictly better. */
  function Scan(p: PriorityOrder, ps: seq<Option<int>>): (r: (Option<nat>, Option<int>))
    ensures r.0.Some? <==> |ps| > 0
    ensures r.0.Some? ==> r.0.value < |ps| && r.1 == ps[r.0.value]
    decreases |ps|
  {
    if ps == [] then (None, None)
    else
      var prev := Scan(p, ps[..|ps| - 1]);
      var last := ps[|ps| - 1];
      if prev.1.None? || Better(p, last, prev.1) then (Some(|ps| - 1), last) else prev
  }

  /** Index into the filtered list that `getNextRequest` returns. For an unrecognised
      `priority` setting the function falls off its end and returns undefined. */
  function Pick(p: PriorityOrder, ps: seq<Option<int>>): (r: Option<nat>)
    ensures r.Some? ==> r.value < |ps|
  {
    if |ps| == 0 then None
    else match p
      case NoPriority => Some(0)
      case Ascending => Scan(p, ps).0
      case Descending => Scan(p, ps).0
      case UnknownPriority => None
  }

  /** Positions, in list order, of the requests that pass the filter (`requests.filter(cb)`). */
  function EligibleIndices(e: Eligibility, vs: seq<View>): (idx: seq<nat>)
    ensures forall j :: 0 <= j < |idx| ==> idx[j] < |vs| && Eligible(e, vs[idx[j]].flags)
    ensures forall j, k :: 0 <= j < k < |idx| ==> idx[j] < idx[k]
    decreases |vs|
  {
    if vs == [] then []
    else
      var n := |vs| - 1;
      EligibleIndices(e, vs[..n]) + (if Eligible(e, vs[n].flags) then [n] else [])
  }

  /** The filter keeps every eligible position. */
  lemma {:induction false} FilterComplete(e: Eligibility, vs: seq<View>)
    ensures forall i :: 0 <= i < |vs| && Eligible(e, vs[i].flags) ==> i in EligibleIndices(e, vs)
    decreases |vs|
  {
    if vs != [] {
      var n := |vs| - 1;
      FilterComplete(e, vs[..n]);
      assert forall i :: 0 <= i < n ==> vs[..n][i] == vs[i];
    }
  }

  function PrioritiesAt(vs: seq<View>, idx: seq<nat>): (ps: seq<Option<int>>)
    requires forall j :: 0 <= j < |idx| ==> idx[j] < |vs|
    ensures |ps| == |idx| && forall j :: 0 <= j < |idx| ==> ps[j] == vs[idx[j]].priority
  {
    seq(|idx|, j requires 0 <= j < |idx| => vs[idx[j]].priority)
  }

  /** `getNextRequest(filter)`, as a position in the pending list. It returns an eligible request;
      unless the priority setting is unrecognised, it returns one exactly when one is eligible. */
  function Next(p: PriorityOrder, e: Eligibility, vs: seq<View>): (r: Option<nat>)
    ensures r.Some? ==> r.value < |vs| && Eligible(e, vs[r.value].flags)
    ensures p != UnknownPriority ==> (r.None? <==> forall i :: 0 <= i < |vs| ==> !Eligible(e, vs[i].flags))
    ensures p == UnknownPriority ==> r.None?
  {
    var idx := EligibleIndices(e, vs);
    FilterComplete(e, vs);
    assert p != UnknownPriority && |idx| == 0 ==> forall i :: 0 <= i < |vs| ==> !Eligible(e, vs[i].flags);
    match Pick(p, PrioritiesAt(vs, idx))
    case None => None
    case Some(j) => Some(idx[j])
  }

  /** The filtered positions, read as a list, are strictly increasing, so a filtered index and
      the list position it denotes are ordered alike. */
  lemma FilterOrder(e: Eligibility, vs: seq<View>, m: nat, t: nat)
    requires m < |EligibleIndices(e, vs)| && t < |EligibleIndices(e, vs)|
    ensures EligibleIndices(e, vs)[m] < EligibleIndices(e, vs)[t] <==> m < t
  {
  }

  /** The filtered index of an eligible position. */
  lemma PositionInFilter(e: Eligibility, vs: seq<View>, i: nat) returns (m: nat)
    requires i < |vs| && Eligible(e, vs[i].flags)
    ensures m < |EligibleIndices(e, vs)| && EligibleIndices(e, vs)[m] == i
  {
    var idx := EligibleIndices(e, vs);
    FilterComplete(e, vs);
    assert i in idx;
    m :| 0 <= m < |idx| && idx[m] == i;
  }

  /** Without a priority setting the result is the first eligible request in list order. */
  lemma NextIsFirstEligible(e: Eligibility, vs: seq<View>)
    ensures match Next(NoPriority, e, vs)
      case None => forall i :: 0 <= i < |vs| ==> !Eligible(e, vs[i].flags)
      case Some(k) => Eligible(e, vs[k].flags) && forall i :: 0 <= i < k ==> !Eligible(e, vs[i].flags)
  {
    var idx := EligibleIndices(e, vs);
    FilterComplete(e, vs);
    if |idx| > 0 {
      forall i | 0 <= i < idx[0] ensures !Eligible(e, vs[i].flags) {
        assert forall m :: 0 <= m < |idx| ==> idx[0] <= idx[m];
      }
    }
  }

  /** The scan, completely: when some element has a priority, the result is the earliest element
      with the best priority among those that have one; when none has, it is the last element. */
  lemma {:induction false} ScanFindsEarliestBest(p: PriorityOrder, ps: seq<Option<int>>)
    requires p == Ascending || p == Descending
    requires |ps| > 0
    ensures var t := Scan(p, ps).0.value;
      ((exists j :: 0 <= j < |ps| && ps[j].Some?) ==>
         ps[t].Some? &&
         (forall j :: 0 <= j < |ps| && ps[j].Some? ==> !Better(p, ps[j], ps[t])) &&
         (forall j :: 0 <= j < t && ps[j].Some? ==> Better(p, ps[t], ps[j]))) &&
      ((forall j :: 0 <= j < |ps| ==> ps[j].None?) ==> t == |ps| - 1)
    decreases |ps|
  {
    var n := |ps| - 1;
    var pre := ps[..n];
    var x := ps[n];
    assert forall j :: 0 <= j < n ==> pre[j] == ps[j];
    if n > 0 {
      ScanFindsEarliestBest(p, pre);
    }
    var prev := Scan(p, pre);
    if exists j :: 0 <= j < n && pre[j].Some? {
      var t' := prev.0.value;
      assert prev.1 == ps[t'] && ps[t'].Some?;
      if x.Some? && Better(p, x, prev.1) {
        assert Scan(p, ps).0.value == n;
        forall j | 0 <= j < n && ps[j].Some? ensures !Better(p, ps[j], x) && Better(p, x, ps[j]) {
          assert !Better(p, pre[j], ps[t']);
        }
      } else {
        assert Scan(p, ps) == prev;
        assert !Better(p, x, ps[t']);
      }
    } else {
      assert prev.1.None? by {
        if n > 0 { assert prev.1 == pre[prev.0.value]; }
      }
      assert Scan(p, ps).0.value == n;
    }
  }

  /** With 'asc' or 'desc', when some eligible request has a priority, `getNextRequest` returns
      one whose priority is minimal (resp. maximal) among the eligible requests that have one. */
  lemma NextIsBest(p: PriorityOrder, e: Eligibility, vs: seq<View>, k: nat)
    requires p == Ascending || p == Descending
    requires Next(p, e, vs) == Some(k)
    requires exists i :: 0 <= i < |vs| && Eligible(e, vs[i].flags) && vs[i].priority.Some?
    ensures vs[k].priority.Some?
    ensures forall i :: 0 <= i < |vs| && Eligible(e, vs[i].flags) && vs[i].priority.Some? ==>
              !Better(p, vs[i].priority, vs[k].priority)
  {
    var idx := EligibleIndices(e, vs);
    var ps := PrioritiesAt(vs, idx);
    ScanFindsEarliestBest(p, ps);
    var i0 :| 0 <= i0 < |vs| && Eligible(e, vs[i0].flags) && vs[i0].priority.Some?;
    var m0 := PositionInFilter(e, vs, i0);
    assert ps[m0].Some?;
    forall i | 0 <= i < |vs| && Eligible(e, vs[i].flags) && vs[i].priority.Some?
      ensures !Better(p, vs[i].priority, vs[k].priority)
    {
      var m := PositionInFilter(e, vs, i);
      assert ps[m] == vs[i].priority;
    }
  }

  /** Because the top is replaced only on a strict improvement, the result is strictly better than
      every earlier eligible request that has a priority: ties go to the earliest in list order. */
  lemma NextIsEarliest(p: PriorityOrder, e: Eligibility, vs: seq<View>, k: nat)
    requires p == Ascending || p == Descending
    requires Next(p, e, vs) == Some(k)
    requires exists i :: 0 <= i < |vs| && Eligible(e, vs[i].flags) && vs[i].priority.Some?
    ensures forall i :: 0 <= i < k && Eligible(e, vs[i].flags) && vs[i].priority.Some? ==>
              Better(p, vs[k].priority, vs[i].priority)
  {
    var idx := EligibleIndices(e, vs);
    var ps := PrioritiesAt(vs, idx);
    ScanFindsEarliestBest(p, ps);
    var t := Scan(p, ps).0.value;
    assert k == idx[t] && ps[t] == vs[k].priority;
    var i0 :| 0 <= i0 < |vs| && Eligible(e, vs[i0].flags) && vs[i0].priority.Some?;
    var m0 := PositionInFilter(e, vs, i0);
    assert ps[m0].Some?;
    assert forall j :: 0 <= j < t && ps[j].Some? ==> Better(p, ps[t], ps[j]);
    forall i | 0 <= i < k && Eligible(e, vs[i].flags) && vs[i].priority.Some?
      ensures Better(p, vs[k].priority, vs[i].priority)
    {
      var m := PositionInFilter(e, vs, i);
      FilterOrder(e, vs, m, t);
      assert m < t && ps[m] == vs[i].priority;
      assert Better(p, ps[t], ps[m]);
    }
  }

  /** With 'asc' or 'desc' and no eligible request carrying a priority, every element replaces the
      undefined top, so the result is the last eligible request. */
  lemma NextWithoutPriorities(p: PriorityOrder, e: Eligibility, vs: seq<View>, k: nat)
    requires p == Ascending || p == Descending
    requires Next(p, e, vs) == Some(k)
    requires forall i :: 0 <= i < |vs| && Eligible(e, vs[i].flags) ==> vs[i].priority.None?
    ensures forall i :: k < i < |vs| ==> !Eligible(e, vs[i].flags)
  {
    var idx := EligibleIndices(e, vs);
    var ps := PrioritiesAt(vs, idx);
    ScanFindsEarliestBest(p, ps);
    var t := Scan(p, ps).0.value;
    assert t == |idx| - 1;
    FilterComplete(e, vs);
    forall i | k < i < |vs| ensures !Eligible(e, vs[i].flags) {
      assert forall m :: 0 <= m < |idx| ==> idx[m] <= idx[t];
    }
  }

  /** Two pending lists that agree, position by position, on eligibility and priority lead to the
      same filtered positions. */
  lemma {:induction false} IndicesAgree(e: Eligibility, vs: seq<View>, ws: seq<View>)
    requires |vs| == |ws|
    requires forall i :: 0 <= i < |vs| ==> Eligible(e, vs[i].flags) == Eligible(e, ws[i].flags)
    ensures EligibleIndices(e, vs) == EligibleIndices(e, ws)
    decreases |vs|
  {
    if vs != [] {
      var n := |vs| - 1;
      IndicesAgree(e, vs[..n], ws[..n]);
    }
  }

  /** Selection depends on nothing but eligibility and priority: in particular not on the
      `received` flag when selecting among awaiting requests. */
  lemma NextAgrees(p: PriorityOrder, e: Eligibility, vs: seq<View>, ws: seq<View>)
    requires |vs| == |ws|
    requires forall i :: 0 <= i < |vs| ==> Eligible(e, vs[i].flags) == Eligible(e, ws[i].flags)
    requires forall i :: 0 <= i < |vs| ==> vs[i].priority == ws[i].priority
    ensures Next(p, e, vs) == Next(p, e, ws)
  {
    IndicesAgree(e, vs, ws);
    var idx := EligibleIndices(e, vs);
    assert PrioritiesAt(vs, idx) == PrioritiesAt(ws, idx);
  }
}
