/** The two drain loops of a queue, as functions of a snapshot of its pending list: the order in
    which `sendRequest` dispatches in 'response' mode (it re-invokes itself until nothing is left
    to send), and the order in which `processRequest` runs callbacks (it re-invokes itself while
    the selected request already has its response). */
module Dispatch {
  import opened Wrappers
  import opened Lifecycle
  import opened Selection
  import opened Seqs
  import opened Records

  // ---------------------------------------------------------------- sending

  /** The snapshot after `send` sets the `sent` flag of the request at `k`. */
  function MarkSent(vs: seq<View>, k: nat): (ws: seq<View>)
    requires k < |vs|
    ensures |ws| == |vs| && Ids(ws) == Ids(vs)
  {
    vs[k := vs[k].(flags := vs[k].flags.Set(Sent))]
  }

  function CountUnsent(vs: seq<View>): nat
  {
    |EligibleIndices(Unsent, vs)|
  }

  /** Making one eligible request ineligible, and changing nothing else, drops exactly that
      position from the filtered positions; `m` is where it stood among them. */
  lemma {:induction false} IndicesWithout(e: Eligibility, vs: seq<View>, ws: seq<View>, k: nat) returns (m: nat)
    requires |vs| == |ws| && k < |vs|
    requires Eligible(e, vs[k].flags) && !Eligible(e, ws[k].flags)
    requires forall i :: 0 <= i < |vs| && i != k ==> Eligible(e, vs[i].flags) == Eligible(e, ws[i].flags)
    ensures m < |EligibleIndices(e, vs)| && EligibleIndices(e, vs)[m] == k
    ensures EligibleIndices(e, ws) == RemoveAt(EligibleIndices(e, vs), m)
    decreases |vs|
  {
    var n := |vs| - 1;
    var pre := EligibleIndices(e, vs[..n]);
    var wpre := EligibleIndices(e, ws[..n]);
    if k == n {
      IndicesAgree(e, vs[..n], ws[..n]);
      assert EligibleIndices(e, vs) == pre + [n];
      assert EligibleIndices(e, ws) == wpre;
      m := |pre|;
      assert RemoveAt(pre + [n], m) == pre;
    } else {
      m := IndicesWithout(e, vs[..n], ws[..n], k);
      var tail := if Eligible(e, vs[n].flags) then [n] else [];
      assert Eligible(e, ws[n].flags) == Eligible(e, vs[n].flags);
      assert EligibleIndices(e, vs) == pre + tail;
      assert EligibleIndices(e, ws) == wpre + tail;
      RemoveAtAppend(pre, m, tail);
    }
  }

  lemma MarkSentShrinks(vs: seq<View>, k: nat)
    requires k < |vs| && Eligible(Unsent, vs[k].flags)
    ensures CountUnsent(MarkSent(vs, k)) == CountUnsent(vs) - 1
  {
    var m := IndicesWithout(Unsent, vs, MarkSent(vs, k), k);
  }

  /** Positions of the pending list in the order 'response' mode dispatches them: select the
      next unsent request, send it, repeat. */
  function SendOrder(p: PriorityOrder, vs: seq<View>): (order: seq<nat>)
    ensures forall j :: 0 <= j < |order| ==> order[j] < |vs|
    decreases CountUnsent(vs)
  {
    match Next(p, Unsent, vs)
    case None => []
    case Some(k) =>
      MarkSentShrinks(vs, k);
      [k] + SendOrder(p, MarkSent(vs, k))
  }

  /** The snapshot once every request that was neither sent nor canceled has been sent. */
  function SentAll(vs: seq<View>): (ws: seq<View>)
    ensures |ws| == |vs| && Ids(ws) == Ids(vs)
  {
    seq(|vs|, i requires 0 <= i < |vs| =>
      if Eligible(Unsent, vs[i].flags) then vs[i].(flags := vs[i].flags.Set(Sent)) else vs[i])
  }

  lemma SentAllAfterMark(vs: seq<View>, k: nat)
    requires k < |vs| && Eligible(Unsent, vs[k].flags)
    ensures SentAll(MarkSent(vs, k)) == SentAll(vs)
  {
  }

  lemma SentAllIdle(vs: seq<View>)
    requires forall i :: 0 <= i < |vs| ==> !Eligible(Unsent, vs[i].flags)
    ensures SentAll(vs) == vs
  {
  }

  lemma {:induction false} SendOrderMembers(p: PriorityOrder, vs: seq<View>)
    requires p != UnknownPriority
    ensures forall i :: i in SendOrder(p, vs) <==> 0 <= i < |vs| && Eligible(Unsent, vs[i].flags)
    decreases CountUnsent(vs)
  {
    match Next(p, Unsent, vs)
    case None =>
    case Some(k) =>
      var ws := MarkSent(vs, k);
      MarkSentShrinks(vs, k);
      SendOrderMembers(p, ws);
      assert SendOrder(p, vs) == [k] + SendOrder(p, ws);
      assert forall i :: 0 <= i < |vs| && i != k ==> ws[i] == vs[i];
  }

  lemma {:induction false} SendOrderDistinct(p: PriorityOrder, vs: seq<View>)
    ensures forall a, b :: 0 <= a < b < |SendOrder(p, vs)| ==> SendOrder(p, vs)[a] != SendOrder(p, vs)[b]
    decreases CountUnsent(vs)
  {
    match Next(p, Unsent, vs)
    case None =>
    case Some(k) =>
      var ws := MarkSent(vs, k);
      MarkSentShrinks(vs, k);
      SendOrderDistinct(p, ws);
      if p != UnknownPriority { SendOrderMembers(p, ws); }
      var rest := SendOrder(p, ws);
      assert SendOrder(p, vs) == [k] + rest;
      assert k !in rest;
      forall a, b | 0 <= a < b < |[k] + rest| ensures ([k] + rest)[a] != ([k] + rest)[b] {
        if a > 0 { assert ([k] + rest)[a] == rest[a - 1]; }
        assert ([k] + rest)[b] == rest[b - 1];
      }
  }

  /** 'response' mode sends every request that is neither sent nor canceled, each exactly once
      (unless the priority setting is unrecognised, in which case it sends nothing). */
  lemma SendOrderSendsEach(p: PriorityOrder, vs: seq<View>)
    ensures p == UnknownPriority ==> SendOrder(p, vs) == []
    ensures p != UnknownPriority ==>
      (forall i :: i in SendOrder(p, vs) <==> 0 <= i < |vs| && Eligible(Unsent, vs[i].flags))
    ensures forall a, b :: 0 <= a < b < |SendOrder(p, vs)| ==> SendOrder(p, vs)[a] != SendOrder(p, vs)[b]
  {
    if p != UnknownPriority { SendOrderMembers(p, vs); }
    SendOrderDistinct(p, vs);
  }

  /** Without a priority setting 'response' mode dispatches in list order. */
  lemma {:induction false} SendOrderWithoutPriority(vs: seq<View>)
    ensures SendOrder(NoPriority, vs) == EligibleIndices(Unsent, vs)
    decreases CountUnsent(vs)
  {
    NextIsFirstEligible(Unsent, vs);
    var idx := EligibleIndices(Unsent, vs);
    match Next(NoPriority, Unsent, vs)
    case None =>
    case Some(k) =>
      var ws := MarkSent(vs, k);
      MarkSentShrinks(vs, k);
      var m := IndicesWithout(Unsent, vs, ws, k);
      assert idx[0] >= k;
      assert m == 0;
      SendOrderWithoutPriority(ws);
      assert idx == [k] + idx[1..];
  }

  // ---------------------------------------------------------------- processing

  /** `processRequest` run to its end on a snapshot: the requests whose recorded outcomes are
      executed, in order and as they were before, and the pending list left behind. A received
      request is selected among the sent, not aborted, not processed ones, executed and removed;
      the loop stops at the first selection that has no response yet. */
  function ProcessRun(p: PriorityOrder, vs: seq<View>): (r: (seq<View>, seq<View>))
    decreases |vs|
  {
    match Next(p, Awaiting, vs)
    case None => ([], vs)
    case Some(k) =>
      if vs[k].flags.received then
        var rest := ProcessRun(p, RemoveAt(vs, k));
        ([vs[k]] + rest.0, rest.1)
      else ([], vs)
  }

  /** After the run the gate is closed: the next request to process, if any, has no response yet. */
  lemma {:induction false} ProcessRunStopsAtGate(p: PriorityOrder, vs: seq<View>)
    ensures var rest := ProcessRun(p, vs).1;
      match Next(p, Awaiting, rest) case None => true case Some(k) => !rest[k].flags.received
    decreases |vs|
  {
    match Next(p, Awaiting, vs)
    case None =>
    case Some(k) =>
      if vs[k].flags.received {
        ProcessRunStopsAtGate(p, RemoveAt(vs, k));
      }
  }

  /** The run splits the snapshot: every executed request was received and awaiting processing,
      and each one leaves the pending list. */
  lemma {:induction false} ProcessRunSplits(p: PriorityOrder, vs: seq<View>)
    ensures |ProcessRun(p, vs).1| + |ProcessRun(p, vs).0| == |vs|
    ensures forall v :: v in ProcessRun(p, vs).0 ==> v in vs && v.flags.received && Eligible(Awaiting, v.flags)
    decreases |vs|
  {
    match Next(p, Awaiting, vs)
    case None =>
    case Some(k) =>
      if vs[k].flags.received {
        var ws := RemoveAt(vs, k);
        ProcessRunSplits(p, ws);
        forall v | v in ws ensures v in vs {
          var i :| 0 <= i < |ws| && ws[i] == v;
          assert v == vs[if i < k then i else i + 1];
        }
      }
  }

  /** Requests the run does not execute keep their relative order: what is left is a subsequence
      of the snapshot, and a request that is not received and awaiting is always left. */
  lemma {:induction false} ProcessRunKeeps(p: PriorityOrder, vs: seq<View>, v: View)
    requires v in vs && !(v.flags.received && Eligible(Awaiting, v.flags))
    ensures v in ProcessRun(p, vs).1
    decreases |vs|
  {
    match Next(p, Awaiting, vs)
    case None =>
    case Some(k) =>
      if vs[k].flags.received {
        var ws := RemoveAt(vs, k);
        assert v != vs[k];
        var i :| 0 <= i < |vs| && vs[i] == v;
        assert v == ws[if i < k then i else i - 1];
        ProcessRunKeeps(p, ws, v);
      }
  }

  /** `ws` is `vs` after further responses arrived: the same requests in the same order, some of
      which now have `received` set (and outcomes recorded). */
  ghost predicate MoreReceived(vs: seq<View>, ws: seq<View>)
  {
    |vs| == |ws| &&
    forall i :: 0 <= i < |vs| ==>
      ws[i].id == vs[i].id && ws[i].priority == vs[i].priority &&
      ws[i].flags == vs[i].flags.(received := ws[i].flags.received) &&
      (vs[i].flags.received ==> ws[i].flags.received)
  }

  lemma MoreReceivedRemove(vs: seq<View>, ws: seq<View>, k: nat)
    requires MoreReceived(vs, ws) && k < |vs|
    ensures MoreReceived(RemoveAt(vs, k), RemoveAt(ws, k))
  {
    var vs', ws' := RemoveAt(vs, k), RemoveAt(ws, k);
    forall i | 0 <= i < |vs'| ensures ws'[i].id == vs'[i].id && ws'[i].priority == vs'[i].priority &&
      ws'[i].flags == vs'[i].flags.(received := ws'[i].flags.received) &&
      (vs'[i].flags.received ==> ws'[i].flags.received)
    {
      var j := if i < k then i else i + 1;
      assert vs'[i] == vs[j] && ws'[i] == ws[j];
    }
  }

  /** Responses arriving in any order never reorder callbacks: whatever has been run before more
      responses arrive is a prefix of what is run after. The order is fixed by the queue. */
  lemma {:induction false} ArrivalOnlyExtends(p: PriorityOrder, vs: seq<View>, ws: seq<View>)
    requires MoreReceived(vs, ws)
    ensures Ids(ProcessRun(p, vs).0) <= Ids(ProcessRun(p, ws).0)
    decreases |vs|
  {
    assert forall i :: 0 <= i < |vs| ==> Eligible(Awaiting, vs[i].flags) == Eligible(Awaiting, ws[i].flags);
    NextAgrees(p, Awaiting, vs, ws);
    match Next(p, Awaiting, vs)
    case None =>
    case Some(k) =>
      if vs[k].flags.received {
        assert ws[k].flags.received;
        MoreReceivedRemove(vs, ws, k);
        ArrivalOnlyExtends(p, RemoveAt(vs, k), RemoveAt(ws, k));
        IdsCons(vs[k], ProcessRun(p, RemoveAt(vs, k)).0);
        IdsCons(ws[k], ProcessRun(p, RemoveAt(ws, k)).0);
      }
  }

  lemma IdsCons(v: View, vs: seq<View>)
    ensures Ids([v] + vs) == [v.id] + Ids(vs)
  {
  }

  /** Ids, in list order, of the requests that pass a filter. */
  function EligibleIds(e: Eligibility, vs: seq<View>): seq<nat>
    decreases |vs|
  {
    if vs == [] then []
    else
      var n := |vs| - 1;
      EligibleIds(e, vs[..n]) + (if Eligible(e, vs[n].flags) then [vs[n].id] else [])
  }

  lemma {:induction false} EligibleIdsEmpty(e: Eligibility, vs: seq<View>)
    requires forall i :: 0 <= i < |vs| ==> !Eligible(e, vs[i].flags)
    ensures EligibleIds(e, vs) == []
    decreases |vs|
  {
    if vs != [] { EligibleIdsEmpty(e, vs[..|vs| - 1]); }
  }

  /** Removing the first eligible request drops the first eligible id, and it was that request's. */
  lemma {:induction false} EligibleIdsDropFirst(e: Eligibility, vs: seq<View>, k: nat)
    requires k < |vs| && Eligible(e, vs[k].flags)
    requires forall i :: 0 <= i < k ==> !Eligible(e, vs[i].flags)
    ensures |EligibleIds(e, vs)| > 0 && EligibleIds(e, vs)[0] == vs[k].id
    ensures EligibleIds(e, RemoveAt(vs, k)) == EligibleIds(e, vs)[1..]
    decreases |vs|
  {
    var n := |vs| - 1;
    if k == n {
      EligibleIdsEmpty(e, vs[..n]);
      assert RemoveAt(vs, k) == vs[..n];
    } else {
      EligibleIdsDropFirst(e, vs[..n], k);
      var tail := if Eligible(e, vs[n].flags) then [vs[n].id] else [];
      var ws := RemoveAt(vs, k);
      assert ws[..|ws| - 1] == RemoveAt(vs[..n], k);
      assert ws[|ws| - 1] == vs[n];
      assert EligibleIds(e, ws) == EligibleIds(e, RemoveAt(vs[..n], k)) + tail;
      assert EligibleIds(e, vs) == EligibleIds(e, vs[..n]) + tail;
    }
  }

  /** Without a priority setting callbacks run in list order: the ids run are a prefix of the
      awaiting requests' ids in list order, so a request never runs before one ahead of it. */
  lemma {:induction false} ProcessRunWithoutPriority(vs: seq<View>)
    ensures Ids(ProcessRun(NoPriority, vs).0) <= EligibleIds(Awaiting, vs)
    decreases |vs|
  {
    NextIsFirstEligible(Awaiting, vs);
    match Next(NoPriority, Awaiting, vs)
    case None =>
    case Some(k) =>
      if vs[k].flags.received {
        EligibleIdsDropFirst(Awaiting, vs, k);
        ProcessRunWithoutPriority(RemoveAt(vs, k));
        var ids := EligibleIds(Awaiting, vs);
        assert ids == [ids[0]] + ids[1..];
        IdsCons(vs[k], ProcessRun(NoPriority, RemoveAt(vs, k)).0);
      }
  }
}
