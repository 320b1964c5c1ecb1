/** A queue as a value: its fixed settings, the state its methods change (with the pending list
    seen as request snapshots), and every `Queue` method as a function of that state. The
    `Queue` class of the engine is proved to perform exactly these functions; the properties of
    the queue are proved here. */
module QueueSpec {
  import opened Wrappers
  import opened Lifecycle
  import opened Records
  import opened Selection
  import opened Dispatch
  import opened Seqs

  /** The `order` setting: where `addRequest` inserts. Any other value inserts nowhere. */
  datatype Order = Fifo | Lifo | UnknownOrder

  /** The `mode` setting; any other value makes `sendRequest` send nothing. */
  datatype Mode = RequestMode | ResponseMode | UnknownMode

  /** The settings of a queue, read but never changed by its methods. */
  datatype Config = Config(order: Order, mode: Mode, priority: PriorityOrder)

  /** What the queue's methods change: `enabled`, `locked`, `requests` (as snapshots),
      `counters`, and the events dispatched to its listeners. */
  datatype QState = QState(enabled: bool, locked: bool, views: seq<View>, counters: Counters,
                           log: seq<QueueEvent>)

  /** A fresh queue: enabled, unlocked, empty, all counters zero. */
  const Fresh := QState(true, false, [], ZeroCounters, [])

  function Note(name: QueueEventName, v: View): QueueEvent
  {
    QueueEvent(name, Some(v.id))
  }

  function Notes(name: QueueEventName, ids: seq<nat>): (es: seq<QueueEvent>)
    ensures |es| == |ids| && forall i :: 0 <= i < |ids| ==> es[i] == QueueEvent(name, Some(ids[i]))
  {
    seq(|ids|, i requires 0 <= i < |ids| => QueueEvent(name, Some(ids[i])))
  }

  /** Position of the request with the given id (the queue finds requests by identity, and ids
      are unique). */
  function Locate(vs: seq<View>, id: nat): (r: Option<nat>)
    ensures r.Some? ==> r.value < |vs| && vs[r.value].id == id
    ensures r.None? <==> forall i :: 0 <= i < |vs| ==> vs[i].id != id
  {
    var r := IndexOf(Ids(vs), id);
    assert r.None? ==> forall i :: 0 <= i < |vs| ==> Ids(vs)[i] != id;
    r
  }

  // ---------------------------------------------------------------- invariants

  /** Sent and not aborted: a request the transport is working on or has answered. */
  predicate InFlight(fl: Flags)
  {
    fl.sent && !fl.aborted
  }

  /** A request that is canceled, aborted or processed has left the pending list for good. */
  predicate Ended(fl: Flags)
  {
    fl.canceled || fl.aborted || fl.processed
  }

  /** In 'request' mode at most one pending request is in flight, and none while unlocked;
      the other modes never lock. */
  predicate LockInv(c: Config, q: QState)
  {
    if c.mode == RequestMode then
      (forall i, j :: 0 <= i < j < |q.views| ==> !(InFlight(q.views[i].flags) && InFlight(q.views[j].flags))) &&
      (!q.locked ==> forall i :: 0 <= i < |q.views| ==> !InFlight(q.views[i].flags))
    else !q.locked
  }

  /** Pending requests have coherent flags and distinct ids. */
  predicate Sane(vs: seq<View>)
  {
    (forall i :: 0 <= i < |vs| ==> Coherent(vs[i].flags)) &&
    (forall i, j :: 0 <= i < j < |vs| ==> vs[i].id != vs[j].id)
  }

  predicate AllPending(vs: seq<View>)
  {
    forall i :: 0 <= i < |vs| ==> !Ended(vs[i].flags)
  }

  /** The invariant a queue keeps between calls of its methods. */
  predicate Inv(c: Config, q: QState)
  {
    LockInv(c, q) && Sane(q.views) && AllPending(q.views)
  }

  lemma RemoveAtKeeps(c: Config, q: QState, k: nat)
    requires k < |q.views| && LockInv(c, q) && Sane(q.views)
    ensures LockInv(c, q.(views := RemoveAt(q.views, k))) && Sane(RemoveAt(q.views, k))
    ensures AllPending(q.views) ==> AllPending(RemoveAt(q.views, k))
  {
    var ws := RemoveAt(q.views, k);
    forall i, j | 0 <= i < j < |ws|
      ensures ws[i].id != ws[j].id && (c.mode == RequestMode ==> !(InFlight(ws[i].flags) && InFlight(ws[j].flags)))
    {
      var i', j' := if i < k then i else i + 1, if j < k then j else j + 1;
      assert ws[i] == q.views[i'] && ws[j] == q.views[j'];
    }
  }

  /** Removing one listed request keeps the others coherent and uniquely identified. */
  lemma SaneRemoveAt(vs: seq<View>, k: nat)
    requires k < |vs| && Sane(vs)
    ensures Sane(RemoveAt(vs, k))
  {
    var ws := RemoveAt(vs, k);
    forall i, j | 0 <= i < j < |ws| ensures ws[i].id != ws[j].id {
      assert ws[i] == vs[if i < k then i else i + 1] && ws[j] == vs[if j < k then j else j + 1];
    }
  }

  /** With unique ids, a listed request is found at its own position. */
  lemma LocateAt(vs: seq<View>, k: nat)
    requires k < |vs| && Sane(vs)
    ensures Locate(vs, vs[k].id) == Some(k)
  {
    var r := Locate(vs, vs[k].id);
    assert r.Some? && vs[r.value].id == vs[k].id;
  }

  /** With unique ids, refreshing a listed request replaces it in place. */
  lemma RefreshAt(vs: seq<View>, k: nat, w: View)
    requires k < |vs| && Sane(vs) && vs[k].id == w.id
    ensures Refresh(vs, w) == vs[k := w]
  {
    assert forall i :: 0 <= i < |vs| && i != k ==> vs[i].id != w.id;
  }

  // ---------------------------------------------------------------- sendRequest

  /** `sendRequest`. When enabled and unlocked it selects the next request neither sent nor
      canceled. 'request' mode sends it and locks, and reports 'allSent' if nothing else is left
      to send; 'response' mode keeps sending until nothing is left and then reports 'allSent'. */
  function Send(c: Config, q: QState): (r: QState)
    ensures |r.views| == |q.views| && Ids(r.views) == Ids(q.views)
    ensures r.enabled == q.enabled
  {
    if !q.enabled || q.locked then q
    else match Next(c.priority, Unsent, q.views)
      case None => q
      case Some(k) =>
        match c.mode
        case RequestMode => SendOne(c, q, k)
        case ResponseMode => SendEach(c, q)
        case UnknownMode => q
  }

  /** 'request' mode: send the selected request and lock; report 'allSent' if nothing is left. */
  function SendOne(c: Config, q: QState, k: nat): (r: QState)
    requires k < |q.views|
    ensures |r.views| == |q.views| && Ids(r.views) == Ids(q.views) && r.enabled == q.enabled
  {
    var vs := MarkSent(q.views, k);
    q.(locked := true, views := vs, counters := q.counters.(sent := q.counters.sent + 1),
       log := q.log + [Note(SentEvent, q.views[k])] +
              (if Next(c.priority, Unsent, vs).None? then [QueueEvent(AllSentEvent, None)] else []))
  }

  /** The ids of the requests at the given positions. */
  function SentIds(vs: seq<View>, order: seq<nat>): (ids: seq<nat>)
    requires forall j :: 0 <= j < |order| ==> order[j] < |vs|
    ensures |ids| == |order| && forall j :: 0 <= j < |order| ==> ids[j] == vs[order[j]].id
  {
    seq(|order|, j requires 0 <= j < |order| => vs[order[j]].id)
  }

  lemma SentIdsSnoc(vs: seq<View>, order: seq<nat>, k: nat)
    requires forall j :: 0 <= j < |order| ==> order[j] < |vs|
    requires k < |vs|
    ensures Notes(SentEvent, SentIds(vs, order + [k])) == Notes(SentEvent, SentIds(vs, order)) + [Note(SentEvent, vs[k])]
  {
  }

  /** 'response' mode: send in selection order until nothing is left, then report 'allSent'. */
  function SendEach(c: Config, q: QState): (r: QState)
    ensures |r.views| == |q.views| && Ids(r.views) == Ids(q.views) && r.enabled == q.enabled
  {
    var order := SendOrder(c.priority, q.views);
    q.(views := SentAll(q.views), counters := q.counters.(sent := q.counters.sent + |order|),
       log := q.log + Notes(SentEvent, SentIds(q.views, order)) +
              [QueueEvent(AllSentEvent, None)])
  }

  /** Nothing is sent while the queue is disabled or locked. */
  lemma SendGuarded(c: Config, q: QState)
    requires !q.enabled || q.locked
    ensures Send(c, q) == q
  {
  }

  /** In 'request' mode one call sends exactly the selected request, locks the queue and counts
      one send; nothing else changes in the pending list. */
  lemma SendOneInRequestMode(c: Config, q: QState, k: nat)
    requires c.mode == RequestMode && q.enabled && !q.locked
    requires Next(c.priority, Unsent, q.views) == Some(k)
    ensures var r := Send(c, q);
      r.locked && r.counters == q.counters.(sent := q.counters.sent + 1) && |r.views| == |q.views| &&
      r.views[k].flags == q.views[k].flags.Set(Sent) && !q.views[k].flags.sent &&
      (forall i :: 0 <= i < |q.views| && i != k ==> r.views[i] == q.views[i])
  {
  }

  /** In 'response' mode, unless the priority setting is unrecognised, one call sends every request
      that is neither sent nor canceled, each once, and leaves the others alone. */
  lemma SendAllInResponseMode(c: Config, q: QState)
    requires c.mode == ResponseMode && q.enabled && !q.locked && c.priority != UnknownPriority
    ensures var r := Send(c, q);
      |r.views| == |q.views| && !r.locked &&
      forall i :: 0 <= i < |q.views| ==>
        r.views[i] == if Eligible(Unsent, q.views[i].flags) then q.views[i].(flags := q.views[i].flags.Set(Sent))
                      else q.views[i]
  {
    if Next(c.priority, Unsent, q.views).None? {
      SentAllIdle(q.views);
    }
  }

  /** Sending keeps the queue's invariant: coherent flags (a request is only sent when neither
      sent nor canceled), unique ids, and at most one in-flight request in 'request' mode. */
  lemma SendKeeps(c: Config, q: QState)
    requires LockInv(c, q) && Sane(q.views)
    ensures var r := Send(c, q);
      LockInv(c, r) && Sane(r.views) && (AllPending(q.views) ==> AllPending(r.views)) &&
      Ids(r.views) == Ids(q.views) && r.enabled == q.enabled &&
      r.counters == q.counters.(sent := r.counters.sent) && r.counters.sent >= q.counters.sent
  {
    var r := Send(c, q);
    if q.enabled && !q.locked && Next(c.priority, Unsent, q.views).Some? {
      var k := Next(c.priority, Unsent, q.views).value;
      match c.mode
      case RequestMode =>
        StepKeepsCoherent(q.views[k].flags, Dispatch);
        assert forall i :: 0 <= i < |q.views| && i != k ==> r.views[i] == q.views[i];
      case ResponseMode =>
        forall i | 0 <= i < |q.views| ensures Coherent(r.views[i].flags) {
          if Eligible(Unsent, q.views[i].flags) { StepKeepsCoherent(q.views[i].flags, Dispatch); }
        }
      case UnknownMode =>
    }
  }

  /** One round of the 'response' mode drain: the selected request is sent and reported. */
  function SendRound(q: QState, k: nat): (r: QState)
    requires k < |q.views|
    ensures r.enabled == q.enabled && r.locked == q.locked && Ids(r.views) == Ids(q.views)
    ensures r.counters.sent == q.counters.sent + 1 && r.views[k].flags.sent
  {
    q.(views := MarkSent(q.views, k), counters := q.counters.(sent := q.counters.sent + 1),
       log := q.log + [Note(SentEvent, q.views[k])])
  }

  lemma NotesAppend(name: QueueEventName, a: seq<nat>, b: seq<nat>)
    ensures Notes(name, a + b) == Notes(name, a) + Notes(name, b)
  {
    assert forall i :: 0 <= i < |a + b| ==> Notes(name, a + b)[i] == (Notes(name, a) + Notes(name, b))[i];
  }

  /** Sending one request keeps the pending list coherent and leaves one request fewer to send. */
  lemma MarkSentKeeps(vs: seq<View>, k: nat)
    requires Sane(vs) && k < |vs| && Eligible(Unsent, vs[k].flags)
    ensures Sane(MarkSent(vs, k)) && CountUnsent(MarkSent(vs, k)) < CountUnsent(vs)
  {
    var ws := MarkSent(vs, k);
    MarkSentShrinks(vs, k);
    StepKeepsCoherent(vs[k].flags, Dispatch);
    assert forall i :: 0 <= i < |vs| && i != k ==> ws[i] == vs[i];
  }

  lemma SentIdsCons(vs: seq<View>, ws: seq<View>, k: nat, rest: seq<nat>)
    requires Ids(vs) == Ids(ws) && k < |vs|
    requires forall j :: 0 <= j < |rest| ==> rest[j] < |ws|
    ensures Notes(SentEvent, SentIds(vs, [k] + rest)) == [Note(SentEvent, vs[k])] + Notes(SentEvent, SentIds(ws, rest))
  {
    assert forall j :: 0 <= j < |rest| ==> vs[rest[j]].id == ws[rest[j]].id;
    assert SentIds(vs, [k] + rest) == [vs[k].id] + SentIds(ws, rest);
    NotesAppend(SentEvent, [vs[k].id], SentIds(ws, rest));
  }

  /** A round leaves the rest of the drain unchanged. */
  lemma SendRoundRest(c: Config, q: QState, k: nat)
    requires Next(c.priority, Unsent, q.views) == Some(k)
    ensures SendEach(c, SendRound(q, k)) == SendEach(c, q)
  {
    var vs := q.views;
    var ws := MarkSent(vs, k);
    var rest := SendOrder(c.priority, ws);
    assert SendOrder(c.priority, vs) == [k] + rest;
    SentAllAfterMark(vs, k);
    SentLogCons(q.log, vs, ws, k, rest);
  }

  /** Reporting the round's request and then the rest of the drain is reporting the whole drain. */
  lemma SentLogCons(log: seq<QueueEvent>, vs: seq<View>, ws: seq<View>, k: nat, rest: seq<nat>)
    requires Ids(vs) == Ids(ws) && k < |vs|
    requires forall j :: 0 <= j < |rest| ==> rest[j] < |ws|
    ensures (log + [Note(SentEvent, vs[k])]) + Notes(SentEvent, SentIds(ws, rest)) ==
            log + Notes(SentEvent, SentIds(vs, [k] + rest))
  {
    SentIdsCons(vs, ws, k, rest);
  }

  /** The drain ends, once nothing is left to send, by reporting 'allSent'. */
  lemma SendEachIdle(c: Config, q: QState)
    requires c.priority != UnknownPriority && Next(c.priority, Unsent, q.views).None?
    ensures SendEach(c, q) == q.(log := q.log + [QueueEvent(AllSentEvent, None)])
  {
    SentAllIdle(q.views);
  }

  /** `sendRequest` is idempotent: calling it again right away sends nothing more. */
  lemma SendIdempotent(c: Config, q: QState)
    ensures Send(c, Send(c, q)) == Send(c, q)
  {
    var r := Send(c, q);
    if q.enabled && !q.locked && c.mode == ResponseMode && Next(c.priority, Unsent, q.views).Some? {
      assert forall i :: 0 <= i < |r.views| ==> !Eligible(Unsent, r.views[i].flags);
    }
  }

  // ---------------------------------------------------------------- processRequest

  /** What one run of `processRequest` adds to the counters: one `processed` per executed request,
      and one execution count per outcome whose callback it runs. */
  function Tally(cs: Counters, done: seq<View>): (r: Counters)
    ensures r == cs.(processed := r.processed, callbacks := r.callbacks)
    ensures r.processed == cs.processed + |done|
    ensures r.callbacks.success >= cs.callbacks.success && r.callbacks.error >= cs.callbacks.error &&
            r.callbacks.complete >= cs.callbacks.complete
    decreases |done|
  {
    if done == [] then cs else Tally(TallyOne(cs, done[0]), done[1..])
  }

  /** What executing one received request adds: one `processed`, and one execution per outcome
      its hook recorded. */
  function TallyOne(cs: Counters, v: View): (r: Counters)
    ensures r == cs.(processed := cs.processed + 1, callbacks := r.callbacks)
    ensures forall o :: r.callbacks.Get(o) == cs.callbacks.Get(o) + if v.execute.Get(o) then 1 else 0
  {
    var ex := v.execute;
    var cb := cs.callbacks;
    cs.(processed := cs.processed + 1,
        callbacks := Slots(cb.success + (if ex.success then 1 else 0),
                           cb.error + (if ex.error then 1 else 0),
                           cb.complete + (if ex.complete then 1 else 0)))
  }

  /** One round of `processRequest` on the received request at `k`: it is executed, counted,
      reported and removed. */
  function ProcessRound(q: QState, k: nat): (r: QState)
    requires k < |q.views|
    ensures r.views == RemoveAt(q.views, k) && r.log == q.log + [Note(ProcessedEvent, q.views[k])]
    ensures r.counters == TallyOne(q.counters, q.views[k])
    ensures r.enabled == q.enabled && r.locked == q.locked
  {
    q.(views := RemoveAt(q.views, k), counters := TallyOne(q.counters, q.views[k]),
       log := q.log + [Note(ProcessedEvent, q.views[k])])
  }

  /** The rounds of `processRequest`, one after another, while the selected request is received. */
  function ProcessEach(p: PriorityOrder, q: QState): QState
    decreases |q.views|
  {
    match Next(p, Awaiting, q.views)
    case None => q
    case Some(k) => if q.views[k].flags.received then ProcessEach(p, ProcessRound(q, k)) else q
  }

  /** The state `ProcessEach` should reach from `q`: the run removed, tallied and reported. */
  ghost predicate RanThrough(p: PriorityOrder, q: QState, r: QState)
  {
    var run := ProcessRun(p, q.views);
    r == q.(views := run.1, counters := Tally(q.counters, run.0), log := q.log + Notes(ProcessedEvent, Ids(run.0)))
  }

  /** The rounds execute exactly the run `ProcessRun` selects and leave its rest behind. */
  lemma {:induction false} ProcessEachRun(p: PriorityOrder, q: QState)
    ensures RanThrough(p, q, ProcessEach(p, q))
    decreases |q.views|
  {
    var next := Next(p, Awaiting, q.views);
    if next.Some? && q.views[next.value].flags.received {
      ProcessEachRun(p, ProcessRound(q, next.value));
      ProcessRoundRun(p, q, next.value);
    } else {
      ProcessStopRun(p, q);
    }
  }

  /** A round followed by the rest of the run is the whole run. */
  lemma ProcessRoundRun(p: PriorityOrder, q: QState, k: nat)
    requires Next(p, Awaiting, q.views) == Some(k) && q.views[k].flags.received
    requires RanThrough(p, ProcessRound(q, k), ProcessEach(p, ProcessRound(q, k)))
    ensures RanThrough(p, q, ProcessEach(p, q))
  {
    var q1 := ProcessRound(q, k);
    var v := q.views[k];
    var rest := ProcessRun(p, q1.views);
    var e := ProcessEach(p, q1);
    assert ProcessRun(p, q.views) == ([v] + rest.0, rest.1);
    assert ProcessEach(p, q) == e;
    TallyCons(q.counters, v, rest.0);
    LogThenRest(q.log, v, rest.0);
  }

  /** Reporting one request and then the rest is reporting all of them. */
  lemma LogThenRest(log: seq<QueueEvent>, v: View, rest: seq<View>)
    ensures (log + [Note(ProcessedEvent, v)]) + Notes(ProcessedEvent, Ids(rest)) ==
            log + Notes(ProcessedEvent, Ids([v] + rest))
  {
    NotesCons(ProcessedEvent, v, rest);
  }

  /** When the selected request has no response, nothing runs. */
  lemma ProcessStopRun(p: PriorityOrder, q: QState)
    requires match Next(p, Awaiting, q.views) case None => true case Some(k) => !q.views[k].flags.received
    ensures RanThrough(p, q, ProcessEach(p, q))
  {
    var run := ProcessRun(p, q.views);
    assert run == ([], q.views);
    assert Notes(ProcessedEvent, Ids(run.0)) == [];
    assert q.log + [] == q.log;
    assert ProcessEach(p, q) == q;
  }

  lemma TallyCons(cs: Counters, v: View, done: seq<View>)
    ensures Tally(cs, [v] + done) == Tally(TallyOne(cs, v), done)
  {
    assert ([v] + done)[1..] == done;
  }

  lemma NotesCons(name: QueueEventName, v: View, done: seq<View>)
    ensures Notes(name, Ids([v] + done)) == [Note(name, v)] + Notes(name, Ids(done))
  {
    assert Ids([v] + done) == [v.id] + Ids(done);
    NotesAppend(name, [v.id], Ids(done));
  }

  /** `processRequest`. When enabled it executes, in selection order, every awaiting request whose
      response has arrived, up to the first selected one that has none; each leaves the list. When
      nothing is left to select it reports 'allProcessed' once nothing unprocessed remains. */
  function Process(c: Config, q: QState): (r: QState)
    ensures |r.views| <= |q.views| && r.enabled == q.enabled && r.locked == q.locked
  {
    if !q.enabled then q
    else
      var run := ProcessRun(c.priority, q.views);
      ProcessRunSplits(c.priority, q.views);
      q.(views := run.1, counters := Tally(q.counters, run.0),
         log := q.log + Notes(ProcessedEvent, Ids(run.0)) +
                (if Next(c.priority, Unprocessed, run.1).None? then [QueueEvent(AllProcessedEvent, None)] else []))
  }

  /** What processing leaves listed: the rest of the run, when the queue is enabled. */
  lemma ProcessViews(c: Config, q: QState)
    ensures Process(c, q).views == if q.enabled then ProcessRun(c.priority, q.views).1 else q.views
  {
  }

  lemma {:induction false} ProcessRunKeepsInv(c: Config, q: QState)
    requires LockInv(c, q) && Sane(q.views)
    ensures var rest := ProcessRun(c.priority, q.views).1;
      LockInv(c, q.(views := rest)) && Sane(rest) && (AllPending(q.views) ==> AllPending(rest))
    decreases |q.views|
  {
    match Next(c.priority, Awaiting, q.views)
    case None =>
    case Some(k) =>
      if q.views[k].flags.received {
        RemoveAtKeeps(c, q, k);
        ProcessRunKeepsInv(c, q.(views := RemoveAt(q.views, k)));
      }
  }

  /** Processing keeps the queue's invariant and never sends, locks or unlocks. */
  lemma ProcessKeeps(c: Config, q: QState)
    requires Inv(c, q)
    ensures Inv(c, Process(c, q))
    ensures Process(c, q).counters == q.counters.(processed := Process(c, q).counters.processed,
                                                  callbacks := Process(c, q).counters.callbacks)
  {
    if q.enabled {
      ProcessRunKeepsInv(c, q);
    }
  }

  /** Processing settles: right after a run, another run executes nothing and counts nothing. */
  lemma ProcessSettles(c: Config, q: QState)
    ensures Process(c, Process(c, q)).views == Process(c, q).views
    ensures Process(c, Process(c, q)).counters == Process(c, q).counters
  {
    if q.enabled {
      ProcessRunStopsAtGate(c.priority, q.views);
    }
  }

  // ---------------------------------------------------------------- addRequest, enable, disable

  /** Where `addRequest` puts a new request: at the end for 'fifo', at the front for 'lifo', and
      nowhere for any other `order` value (the request is counted but never queued). */
  function Insert(o: Order, vs: seq<View>, v: View): seq<View>
  {
    match o
    case Fifo => vs + [v]
    case Lifo => [v] + vs
    case UnknownOrder => vs
  }

  /** `addRequest`, after the request is constructed: insert, count, report 'added', send. */
  function Add(c: Config, q: QState, v: View): QState
  {
    Send(c, q.(views := Insert(c.order, q.views, v), counters := q.counters.(added := q.counters.added + 1),
               log := q.log + [Note(AddedEvent, v)]))
  }

  lemma AppendKeeps(c: Config, q: QState, v: View)
    requires Inv(c, q) && v.flags == Initial && v.id !in Ids(q.views)
    ensures Inv(c, q.(views := q.views + [v])) && Ids(q.views + [v]) == Ids(q.views) + [v.id]
  {
    var ws := q.views + [v];
    assert forall i :: 0 <= i < |q.views| ==> ws[i] == q.views[i] && q.views[i].id != v.id;
  }

  lemma PrependKeeps(c: Config, q: QState, v: View)
    requires Inv(c, q) && v.flags == Initial && v.id !in Ids(q.views)
    ensures Inv(c, q.(views := [v] + q.views)) && Ids([v] + q.views) == [v.id] + Ids(q.views)
  {
    var ws := [v] + q.views;
    assert forall i :: 0 < i < |ws| ==> ws[i] == q.views[i - 1] && q.views[i - 1].id != v.id;
  }

  lemma InsertKeeps(c: Config, q: QState, v: View)
    requires Inv(c, q) && v.flags == Initial && v.id !in Ids(q.views)
    ensures Inv(c, q.(views := Insert(c.order, q.views, v)))
    ensures Ids(Insert(c.order, q.views, v)) ==
      match c.order case Fifo => Ids(q.views) + [v.id] case Lifo => [v.id] + Ids(q.views) case UnknownOrder => Ids(q.views)
  {
    match c.order
    case Fifo => AppendKeeps(c, q, v);
    case Lifo => PrependKeeps(c, q, v);
    case UnknownOrder =>
  }

  /** A new request joins the list at the end ('fifo') or the front ('lifo'), is counted once, and
      the invariant is kept, whether or not the request is sent right away. */
  lemma AddKeeps(c: Config, q: QState, v: View)
    requires Inv(c, q) && v.flags == Initial && v.id !in Ids(q.views)
    ensures var r := Add(c, q, v);
      Inv(c, r) && r.counters.added == q.counters.added + 1 &&
      Ids(r.views) == match c.order case Fifo => Ids(q.views) + [v.id] case Lifo => [v.id] + Ids(q.views)
                                    case UnknownOrder => Ids(q.views)
  {
    var q1 := q.(views := Insert(c.order, q.views, v), counters := q.counters.(added := q.counters.added + 1),
                 log := q.log + [Note(AddedEvent, v)]);
    InsertKeeps(c, q, v);
    assert Inv(c, q1);
    SendKeeps(c, q1);
  }

  /** `enable`: set `enabled`, report 'enabled', try to send. */
  function Enable(c: Config, q: QState): QState
  {
    Send(c, q.(enabled := true, log := q.log + [QueueEvent(EnabledEvent, None)]))
  }

  /** `disable`: clear `enabled` and report 'disabled'; nothing is sent or processed. */
  function Disable(q: QState): QState
  {
    q.(enabled := false, log := q.log + [QueueEvent(DisabledEvent, None)])
  }

  function Toggle(c: Config, q: QState): QState
  {
    if q.enabled then Disable(q) else Enable(c, q)
  }

  /** `toggle` flips `enabled`, keeps the invariant, and a disabled queue neither sends nor
      processes. */
  lemma ToggleFlips(c: Config, q: QState)
    requires Inv(c, q)
    ensures Toggle(c, q).enabled == !q.enabled && Inv(c, Toggle(c, q))
    ensures !Toggle(c, q).enabled ==> Send(c, Toggle(c, q)) == Toggle(c, q) && Process(c, Toggle(c, q)) == Toggle(c, q)
    ensures Toggle(c, q).views == if q.enabled then q.views else Enable(c, q).views
  {
    if !q.enabled {
      SendKeeps(c, q.(enabled := true, log := q.log + [QueueEvent(EnabledEvent, None)]));
    }
  }

  /** Enabling an enabled queue changes nothing but the event log, when it is already as sent as
      it can be. */
  lemma EnableAfterSend(c: Config, q: QState)
    requires q.enabled
    ensures var r := Send(c, q); Enable(c, r) == r.(log := r.log + [QueueEvent(EnabledEvent, None)])
  {
    SendIdempotent(c, q);
    var r := Send(c, q);
    assert Send(c, r.(log := r.log + [QueueEvent(EnabledEvent, None)])).views == Send(c, r).views;
  }

  // ---------------------------------------------------------------- responses

  /** The snapshot of a request after the transport calls the wrapper the queue installed for the
      outcome `o`. In 'request' mode the wrapper ignores an aborted request; otherwise it sets
      `received` and executes the callback, which sets the outcome flag and, for 'complete',
      `processed`. In 'response' mode it only records that the outcome is to be executed, and
      'complete' sets `received`. */
  function Answered(c: Config, v: View, o: Outcome): (w: View)
    ensures w.id == v.id && w.priority == v.priority
  {
    match c.mode
    case RequestMode =>
      if v.flags.aborted then v
      else
        var fl := v.flags.Set(Received);
        v.(flags := if o == Complete then fl.Set(Done(o)).Set(Processed) else fl.Set(Done(o)))
    case ResponseMode =>
      v.(execute := v.execute.Put(o, true), flags := if o == Complete then v.flags.Set(Received) else v.flags)
    case UnknownMode => v
  }

  /** Replace the listed snapshot of a request, if it is listed. */
  function Refresh(vs: seq<View>, w: View): (ws: seq<View>)
    ensures |ws| == |vs| && Ids(ws) == Ids(vs)
    ensures forall i :: 0 <= i < |vs| ==> ws[i] == if vs[i].id == w.id then w else vs[i]
    ensures Locate(vs, w.id).None? ==> ws == vs
  {
    var ws := seq(|vs|, i requires 0 <= i < |vs| => if vs[i].id == w.id then w else vs[i]);
    assert Locate(vs, w.id).None? ==> ws == vs;
    ws
  }

  /** The queue's part of the wrapper, given the responding request's snapshot `v` before the call.
      The flag is false when 'request' mode finishes a request that is no longer in the list, where
      `deleteRequest` throws after the outcome was already executed and counted. */
  function Deliver(c: Config, q: QState, v: View, o: Outcome): (r: (QState, bool))
  {
    match c.mode
    case RequestMode => if v.flags.aborted then (q, true) else DeliverToRequest(c, q, v, o)
    case ResponseMode => (DeliverToResponse(c, q, v, o), true)
    case UnknownMode => (q, true)
  }

  /** 'request' mode: report 'received' on the first outcome, then the outcome, count it; on
      'complete', finish the request. */
  function DeliverToRequest(c: Config, q: QState, v: View, o: Outcome): (r: (QState, bool))
  {
    var q1 := q.(views := Refresh(q.views, Answered(c, v, o)), counters := q.counters.Bump(o),
                 log := q.log + (if v.flags.received then [] else [Note(ReceivedEvent, v)]) +
                        [Note(OutcomeEvent(o), v)]);
    if o != Complete then (q1, true)
    else match Locate(q1.views, v.id)
      case None => (q1, false)
      case Some(k) => (Finish(c, q1, k), true)
  }

  /** Remove the finished request at `k`, count it as received and processed, release the lock,
      and either report 'allProcessed' (nothing left to send) or send the next request. */
  function Finish(c: Config, q: QState, k: nat): QState
    requires k < |q.views|
  {
    Release(c, q.(views := RemoveAt(q.views, k)), q.views[k])
  }

  /** What follows the removal of the finished request `v`. */
  function Release(c: Config, q: QState, v: View): QState
  {
    var q2 := q.(locked := false,
                 counters := q.counters.(received := q.counters.received + 1,
                                         processed := q.counters.processed + 1),
                 log := q.log + [Note(ProcessedEvent, v)]);
    if Next(c.priority, Unsent, q2.views).None? then q2.(log := q2.log + [QueueEvent(AllProcessedEvent, None)])
    else Send(c, q2)
  }

  /** 'response' mode: record the outcome; 'complete' counts and reports the response, then
      processes. */
  function DeliverToResponse(c: Config, q: QState, v: View, o: Outcome): QState
  {
    var q1 := q.(views := Refresh(q.views, Answered(c, v, o)));
    if o != Complete then q1
    else Process(c, q1.(counters := q.counters.(received := q.counters.received + 1),
                        log := q.log + [Note(ReceivedEvent, v)]))
  }

  /** The transport answers only requests it was given; the snapshot is the listed one, if listed. */
  predicate Answerable(q: QState, v: View)
  {
    v.flags.sent && Coherent(v.flags) &&
    match Locate(q.views, v.id) case Some(k) => q.views[k] == v case None => true
  }

  /** In 'request' mode a response to an aborted request is ignored entirely. */
  lemma DeliverIgnoresAborted(c: Config, q: QState, v: View, o: Outcome)
    requires c.mode == RequestMode && v.flags.aborted
    ensures Deliver(c, q, v, o) == (q, true)
  {
  }

  lemma AnsweredCoherent(c: Config, v: View, o: Outcome)
    requires v.flags.sent && Coherent(v.flags)
    ensures Coherent(Answered(c, v, o).flags) && InFlight(Answered(c, v, o).flags) == InFlight(v.flags)
    ensures !Ended(v.flags) && (o != Complete || c.mode != RequestMode) ==> !Ended(Answered(c, v, o).flags)
  {
  }

  lemma RefreshKeeps(c: Config, q: QState, v: View, o: Outcome)
    requires Inv(c, q) && Answerable(q, v) && (c.mode == RequestMode ==> !v.flags.aborted)
    ensures var ws := Refresh(q.views, Answered(c, v, o));
      Sane(ws) && LockInv(c, q.(views := ws)) &&
      forall i :: 0 <= i < |ws| ==> !Ended(ws[i].flags) || (ws[i].id == v.id && o == Complete && c.mode == RequestMode)
  {
    AnsweredCoherent(c, v, o);
    var w := Answered(c, v, o);
    assert forall i :: 0 <= i < |q.views| && q.views[i].id == v.id ==> q.views[i] == v;
  }

  /** Dropping the only request in flight leaves a queue that may be unlocked. */
  lemma DropInFlight(c: Config, vs: seq<View>, k: nat)
    requires c.mode == RequestMode && k < |vs| && Sane(vs)
    requires forall i :: 0 <= i < |vs| ==> !Ended(vs[i].flags) || i == k
    requires forall i :: 0 <= i < |vs| && i != k ==> !InFlight(vs[i].flags)
    ensures var ws := RemoveAt(vs, k);
      Sane(ws) && AllPending(ws) && forall i :: 0 <= i < |ws| ==> !InFlight(ws[i].flags)
  {
    var ws := RemoveAt(vs, k);
    assert forall i :: 0 <= i < |ws| ==> ws[i] == vs[if i < k then i else i + 1];
  }

  lemma FinishKeeps(c: Config, q: QState, k: nat)
    requires c.mode == RequestMode && k < |q.views| && Sane(q.views)
    requires forall i :: 0 <= i < |q.views| ==> !Ended(q.views[i].flags) || i == k
    requires forall i :: 0 <= i < |q.views| && i != k ==> !InFlight(q.views[i].flags)
    ensures Inv(c, Finish(c, q, k))
  {
    DropInFlight(c, q.views, k);
    var q2 := q.(views := RemoveAt(q.views, k), locked := false,
                 counters := q.counters.(received := q.counters.received + 1,
                                         processed := q.counters.processed + 1),
                 log := q.log + [Note(ProcessedEvent, q.views[k])]);
    assert Inv(c, q2);
    SendKeeps(c, q2);
  }

  lemma DeliverRequestKeeps(c: Config, q: QState, v: View, o: Outcome)
    requires c.mode == RequestMode && Inv(c, q) && Answerable(q, v) && !v.flags.aborted
    ensures Inv(c, DeliverToRequest(c, q, v, o).0)
  {
    RefreshKeeps(c, q, v, o);
    var ws := Refresh(q.views, Answered(c, v, o));
    if o == Complete && Locate(ws, v.id).Some? {
      var k := Locate(ws, v.id).value;
      assert q.views[k] == v && InFlight(v.flags);
      assert forall i :: 0 <= i < |q.views| && i != k ==> !InFlight(q.views[i].flags) && ws[i] == q.views[i];
      FinishKeeps(c, q.(views := ws, counters := q.counters.Bump(o),
                        log := q.log + (if v.flags.received then [] else [Note(ReceivedEvent, v)]) +
                               [Note(OutcomeEvent(o), v)]), k);
    }
  }

  lemma DeliverResponseKeeps(c: Config, q: QState, v: View, o: Outcome)
    requires c.mode == ResponseMode && Inv(c, q) && Answerable(q, v)
    ensures Inv(c, DeliverToResponse(c, q, v, o))
  {
    RefreshKeeps(c, q, v, o);
    var q1 := q.(views := Refresh(q.views, Answered(c, v, o)));
    assert Inv(c, q1);
    if o == Complete {
      ProcessKeeps(c, q1.(counters := q.counters.(received := q.counters.received + 1),
                          log := q.log + [Note(ReceivedEvent, v)]));
    }
  }

  /** Every response keeps the queue's invariant: in 'request' mode at most one request is ever in
      flight, and the listed requests stay coherent, pending and uniquely identified. */
  lemma DeliverKeeps(c: Config, q: QState, v: View, o: Outcome)
    requires Inv(c, q) && Answerable(q, v)
    ensures Inv(c, Deliver(c, q, v, o).0)
  {
    match c.mode
    case RequestMode => if !v.flags.aborted { DeliverRequestKeeps(c, q, v, o); }
    case ResponseMode => DeliverResponseKeeps(c, q, v, o);
    case UnknownMode =>
  }

  /** In 'request' mode 'complete' finishes the request in flight: it leaves the list, is counted
      as received and processed, and the lock is released, unless the next request is sent at once. */
  lemma CompleteReleasesLock(c: Config, q: QState, k: nat)
    requires c.mode == RequestMode && Inv(c, q) && k < |q.views| && InFlight(q.views[k].flags)
    ensures var r := Deliver(c, q, q.views[k], Complete);
      r.1 && Ids(r.0.views) == Ids(RemoveAt(q.views, k)) &&
      r.0.counters.received == q.counters.received + 1 && r.0.counters.processed == q.counters.processed + 1 &&
      (r.0.locked <==> q.enabled && Next(c.priority, Unsent, RemoveAt(q.views, k)).Some?)
  {
    var v := q.views[k];
    var ws := Refresh(q.views, Answered(c, v, Complete));
    assert Locate(ws, v.id) == Some(k);
    var rs := RemoveAt(ws, k);
    assert forall i :: 0 <= i < |q.views| && i != k ==> ws[i] == q.views[i];
    assert forall i :: 0 <= i < |rs| ==> rs[i] == RemoveAt(q.views, k)[i];
    assert rs == RemoveAt(q.views, k);
  }

  /** In 'request' mode the other outcomes neither finish the request nor release the lock. */
  lemma OtherOutcomesKeepLock(c: Config, q: QState, v: View, o: Outcome)
    requires c.mode == RequestMode && o != Complete
    ensures var r := Deliver(c, q, v, o).0;
      r.locked == q.locked && Ids(r.views) == Ids(q.views) && r.counters.processed == q.counters.processed
  {
  }

  // ---------------------------------------------------------------- cancelRequest and cancel

  /** `cancelRequest(request, abort)`, given the request's snapshot `w` with its new flag already
      set. An unsent request is deleted and counted as canceled. An aborted request that was sent
      and not processed is counted, then 'request' mode releases the lock and sends the next one
      while 'response' mode processes what the abort unblocked, and finally the request is
      deleted. The flag is false when the request is not in the list, where `deleteRequest`
      throws. */
  function CancelInQueue(c: Config, q: QState, w: View, abort: bool): (r: (QState, bool))
    ensures |r.0.views| <= |q.views|
    ensures r.1 && (!w.flags.sent || (abort && !w.flags.processed)) ==> |r.0.views| < |q.views|
  {
    if !w.flags.sent then CancelUnsent(q, w)
    else if abort && !w.flags.processed then AbortSent(c, q, w)
    else (q, true)
  }

  function CancelUnsent(q: QState, w: View): (r: (QState, bool))
    ensures r.1 ==> |r.0.views| < |q.views|
    ensures !r.1 ==> r.0 == q
  {
    match Locate(q.views, w.id)
    case None => (q, false)
    case Some(k) =>
      (q.(views := RemoveAt(q.views, k), counters := q.counters.(canceled := q.counters.canceled + 1),
          log := q.log + [Note(CanceledEvent, w)]), true)
  }

  /** Count and report the abort, let the mode react to it, then delete the request. */
  function AbortSent(c: Config, q: QState, w: View): (r: (QState, bool))
    ensures |r.0.views| <= |q.views| && (r.1 ==> |r.0.views| < |q.views|)
  {
    var q1 := AfterAbort(c, q, w);
    match Locate(q1.views, w.id)
    case None => (q1, false)
    case Some(k) => (q1.(views := RemoveAt(q1.views, k)), true)
  }

  function AfterAbort(c: Config, q: QState, w: View): (r: QState)
    ensures |r.views| <= |q.views|
  {
    var q0 := CountAbort(q.(views := Refresh(q.views, w)), w);
    match c.mode
    case RequestMode => Send(c, q0.(locked := false))
    case ResponseMode => Process(c, q0)
    case UnknownMode => q.(views := Refresh(q.views, w))
  }

  /** The abort of `w` counted and reported. */
  function CountAbort(q: QState, w: View): (r: QState)
    ensures r.views == q.views && r.locked == q.locked && r.enabled == q.enabled
    ensures r.counters == q.counters.(aborted := q.counters.aborted + 1) && r.log == q.log + [Note(AbortedEvent, w)]
  {
    q.(counters := q.counters.(aborted := q.counters.aborted + 1), log := q.log + [Note(AbortedEvent, w)])
  }

  /** `Request.cancel(abort)` on a queued request with snapshot `v`: the value it returns, or the
      throw of `deleteRequest`. It decides by the request's flags alone; only a cancellation or an
      abort reaches the queue. */
  function RequestCancel(c: Config, q: QState, v: View, abort: bool): (r: (QState, Result<bool>))
    ensures |r.0.views| <= |q.views|
    ensures r.1 == Ok(true) && !Ended(v.flags) && Coherent(v.flags) ==> |r.0.views| < |q.views|
    ensures r.1 == Ok(false) ==> r.0 == q
    ensures r.1.Ok? ==> (r.1.value <==> CancelResult(v.flags, abort).0)
    ensures r.1.Err? ==> r.1.fault == RequestNotInQueue
  {
    match DecideCancel(v.flags, abort)
    case AlreadyEnded => (q, Ok(true))
    case Refused => (q, Ok(false))
    case _ =>
      var r := CancelInQueue(c, q, v.(flags := CancelResult(v.flags, abort).1), abort);
      (r.0, if r.1 then Ok(true) else Err(RequestNotInQueue))
  }

  /** Canceling an unsent listed request removes exactly it, counts it and reports 'canceled'. */
  lemma CancelUnsentRemovesIt(c: Config, q: QState, k: nat, abort: bool)
    requires Inv(c, q) && k < |q.views| && !q.views[k].flags.sent
    ensures var r := RequestCancel(c, q, q.views[k], abort);
      r.1 == Ok(true) && r.0.views == RemoveAt(q.views, k) && r.0.locked == q.locked &&
      r.0.counters == q.counters.(canceled := q.counters.canceled + 1)
  {
    var v := q.views[k];
    assert Locate(q.views, v.id) == Some(k);
  }

  /** In 'request' mode aborting the request in flight counts it, deletes it and releases the lock,
      unless the next request is sent at once. */
  lemma AbortReleasesLock(c: Config, q: QState, k: nat)
    requires c.mode == RequestMode && Inv(c, q) && k < |q.views| && InFlight(q.views[k].flags)
    requires !q.views[k].flags.received
    ensures var r := RequestCancel(c, q, q.views[k], true);
      r.1 == Ok(true) && Ids(r.0.views) == Ids(RemoveAt(q.views, k)) &&
      r.0.counters.aborted == q.counters.aborted + 1 &&
      (r.0.locked <==> q.enabled && Next(c.priority, Unsent, q.views).Some?)
  {
    var v := q.views[k];
    var w := v.(flags := v.flags.Set(Aborted));
    assert DecideCancel(v.flags, true) == AbortInFlight && CancelResult(v.flags, true).1 == w.flags;
    var ws := Refresh(q.views, w);
    assert ws == q.views[k := w] by { RefreshAt(q.views, k, w); }
    var q0 := CountAbort(q.(views := ws), w).(locked := false);
    var q1 := Send(c, q0);
    assert AfterAbort(c, q, w) == q1;
    assert Ids(q1.views) == Ids(q.views) by {
      SendTouchesOnlyUnsent(c, q0);
      assert Ids(ws) == Ids(q.views);
    }
    assert Locate(q1.views, w.id) == Some(k) by { LocateAt(q.views, k); }
    assert RequestCancel(c, q, v, true).0 == q1.(views := RemoveAt(q1.views, k));
    NextAgrees(c.priority, Unsent, q.views, ws);
    IdsRemoveAt(q1.views, k);
    IdsRemoveAt(q.views, k);
  }

  lemma IdsRemoveAt(vs: seq<View>, k: nat)
    requires k < |vs|
    ensures Ids(RemoveAt(vs, k)) == RemoveAt(Ids(vs), k)
  {
    assert forall i :: 0 <= i < |vs| - 1 ==> Ids(RemoveAt(vs, k))[i] == RemoveAt(Ids(vs), k)[i];
  }

  /** Every listed request other than the one with id `id` is pending. */
  predicate PendingBut(vs: seq<View>, id: nat)
  {
    forall i :: 0 <= i < |vs| ==> !Ended(vs[i].flags) || vs[i].id == id
  }

  lemma DropLocated(vs: seq<View>, id: nat, k: nat)
    requires Sane(vs) && PendingBut(vs, id) && k < |vs| && vs[k].id == id
    ensures AllPending(RemoveAt(vs, k))
  {
    var ws := RemoveAt(vs, k);
    forall i | 0 <= i < |ws| ensures !Ended(ws[i].flags) {
      var j := if i < k then i else i + 1;
      assert ws[i] == vs[j] && j != k;
    }
  }

  /** `sendRequest` changes only requests neither sent nor canceled, and only their `sent` flag. */
  lemma SendTouchesOnlyUnsent(c: Config, q: QState)
    ensures forall i :: 0 <= i < |q.views| ==>
      Send(c, q).views[i].id == q.views[i].id &&
      Ended(Send(c, q).views[i].flags) == Ended(q.views[i].flags) &&
      (!Eligible(Unsent, q.views[i].flags) ==> Send(c, q).views[i] == q.views[i])
  {
  }

  lemma {:induction false} ProcessRunFromList(p: PriorityOrder, vs: seq<View>)
    ensures forall x :: x in ProcessRun(p, vs).1 ==> x in vs
    decreases |vs|
  {
    match Next(p, Awaiting, vs)
    case None =>
    case Some(k) =>
      if vs[k].flags.received {
        var ws := RemoveAt(vs, k);
        ProcessRunFromList(p, ws);
        forall x | x in ws ensures x in vs {
          var i :| 0 <= i < |ws| && ws[i] == x;
          assert x == vs[if i < k then i else i + 1];
        }
      }
  }

  /** The transport-independent facts a cancellation relies on: the request's flags are coherent,
      its listed snapshot is the one given, and it is listed unless unsent or ended. */
  predicate Tracked(q: QState, v: View)
  {
    Coherent(v.flags) &&
    match Locate(q.views, v.id)
    case Some(k) => q.views[k] == v
    case None => !v.flags.sent || Ended(v.flags)
  }

  /** Marking a listed request canceled or aborted keeps the list coherent. */
  lemma CancelMarkSane(q: QState, v: View, abort: bool)
    requires Sane(q.views) && Tracked(q, v) && Locate(q.views, v.id).Some?
    requires DecideCancel(v.flags, abort) == CancelPending || DecideCancel(v.flags, abort) == AbortInFlight
    ensures Sane(Refresh(q.views, v.(flags := CancelResult(v.flags, abort).1)))
  {
    StepKeepsCoherent(v.flags, Cancel(abort));
  }

  /** The state `AfterAbort` hands to `Send` in 'request' mode. */
  function Unlocked(q: QState, w: View): (r: QState)
    ensures r.views == Refresh(q.views, w) && !r.locked
  {
    CountAbort(q.(views := Refresh(q.views, w)), w).(locked := false)
  }

  /** In 'request' mode the aborted request was the only one in flight, so the released queue
      keeps the lock invariant. */
  lemma UnlockedKeeps(c: Config, q: QState, v: View, k: nat)
    requires c.mode == RequestMode && Inv(c, q) && k < |q.views| && q.views[k] == v
    requires InFlight(v.flags) && !v.flags.received
    ensures var q0 := Unlocked(q, v.(flags := v.flags.Set(Aborted)));
      LockInv(c, q0) && Sane(q0.views) && PendingBut(q0.views, v.id) && q0.views[k].id == v.id
  {
    var w := v.(flags := v.flags.Set(Aborted));
    StepKeepsCoherent(v.flags, Cancel(true));
    RefreshAt(q.views, k, w);
    var ws := q.views[k := w];
    assert forall i :: 0 <= i < |q.views| && i != k ==> !InFlight(q.views[i].flags) && ws[i] == q.views[i];
  }

  /** In 'request' mode, once the abort is counted and the lock released, sending keeps the
      list coherent, leaves the aborted request where it was, and every other request pending. */
  lemma AbortRequestAfter(c: Config, q: QState, v: View, k: nat)
    requires c.mode == RequestMode && Inv(c, q) && k < |q.views| && q.views[k] == v
    requires InFlight(v.flags) && !v.flags.received
    ensures var q1 := AfterAbort(c, q, v.(flags := v.flags.Set(Aborted)));
      LockInv(c, q1) && Sane(q1.views) && PendingBut(q1.views, v.id) && Locate(q1.views, v.id) == Some(k)
  {
    var q0 := Unlocked(q, v.(flags := v.flags.Set(Aborted)));
    UnlockedKeeps(c, q, v, k);
    SendKeeps(c, q0);
    SentStaysPending(c, q0, v.id, k);
  }

  /** Sending changes no request's id or whether it has ended. */
  lemma SentStaysPending(c: Config, q: QState, id: nat, k: nat)
    requires Sane(Send(c, q).views) && PendingBut(q.views, id) && k < |q.views| && q.views[k].id == id
    ensures PendingBut(Send(c, q).views, id) && Locate(Send(c, q).views, id) == Some(k)
  {
    SendTouchesOnlyUnsent(c, q);
    LocateAt(Send(c, q).views, k);
  }

  lemma AbortRequestKeeps(c: Config, q: QState, v: View, k: nat)
    requires c.mode == RequestMode && Inv(c, q) && k < |q.views| && q.views[k] == v
    requires InFlight(v.flags) && !v.flags.received
    ensures var w := v.(flags := v.flags.Set(Aborted));
      Inv(c, CancelInQueue(c, q, w, true).0)
  {
    var w := v.(flags := v.flags.Set(Aborted));
    AbortRequestAfter(c, q, v, k);
    var q1 := AfterAbort(c, q, w);
    RemoveAtKeeps(c, q1, k);
    DropLocated(q1.views, v.id, k);
  }

  /** In 'response' mode, once the abort is counted, processing keeps the list coherent and every
      request other than the aborted one pending. */
  lemma AbortResponseAfter(c: Config, q: QState, v: View, k: nat)
    requires c.mode == ResponseMode && Inv(c, q) && k < |q.views| && q.views[k] == v
    requires InFlight(v.flags) && !v.flags.received
    ensures var q1 := AfterAbort(c, q, v.(flags := v.flags.Set(Aborted)));
      LockInv(c, q1) && Sane(q1.views) && PendingBut(q1.views, v.id)
  {
    var w := v.(flags := v.flags.Set(Aborted));
    StepKeepsCoherent(v.flags, Cancel(true));
    var ws := Refresh(q.views, w);
    assert ws == q.views[k := w];
    var q0 := q.(views := ws, counters := q.counters.(aborted := q.counters.aborted + 1),
                 log := q.log + [Note(AbortedEvent, w)]);
    assert LockInv(c, q0) && Sane(ws) && PendingBut(ws, v.id);
    var q1 := Process(c, q0);
    if q0.enabled {
      ProcessRunKeepsInv(c, q0);
      ProcessRunFromList(c.priority, ws);
      forall i | 0 <= i < |q1.views| ensures !Ended(q1.views[i].flags) || q1.views[i].id == v.id {
        assert q1.views[i] in ws;
      }
    }
  }

  lemma AbortResponseKeeps(c: Config, q: QState, v: View, k: nat)
    requires c.mode == ResponseMode && Inv(c, q) && k < |q.views| && q.views[k] == v
    requires InFlight(v.flags) && !v.flags.received
    ensures var w := v.(flags := v.flags.Set(Aborted));
      Inv(c, CancelInQueue(c, q, w, true).0)
  {
    var w := v.(flags := v.flags.Set(Aborted));
    AbortResponseAfter(c, q, v, k);
    var q1 := AfterAbort(c, q, w);
    match Locate(q1.views, w.id)
    case None =>
    case Some(j) =>
      RemoveAtKeeps(c, q1, j);
      DropLocated(q1.views, v.id, j);
  }

  /** A cancellation or abort keeps the queue's invariant, whatever it returns. */
  lemma RequestCancelKeeps(c: Config, q: QState, v: View, abort: bool)
    requires Inv(c, q) && Tracked(q, v)
    ensures Inv(c, RequestCancel(c, q, v, abort).0)
  {
    match DecideCancel(v.flags, abort)
    case AlreadyEnded =>
    case Refused =>
    case CancelPending =>
      var w := v.(flags := v.flags.Set(Canceled));
      if Locate(q.views, w.id).Some? { RemoveAtKeeps(c, q, Locate(q.views, w.id).value); }
    case AbortInFlight =>
      var k := Locate(q.views, v.id).value;
      match c.mode
      case RequestMode => AbortRequestKeeps(c, q, v, k);
      case ResponseMode => AbortResponseKeeps(c, q, v, k);
      case UnknownMode =>
        var w := v.(flags := v.flags.Set(Aborted));
        assert Locate(Refresh(q.views, w), w.id) == Some(k);
        RemoveAtKeeps(c, q.(views := Refresh(q.views, w)), k);
        assert Refresh(q.views, w) == q.views[k := w];
        DropLocated(Refresh(q.views, w), v.id, k);
  }

  /** `Queue.cancel(abort)` from position `i` on, as written: cancel the request at `i`; move on
      only when it refuses, since a successful cancellation deletes it; stop at the end of the
      list or at a throw. The flag is false on a throw. */
  function CancelFrom(c: Config, q: QState, abort: bool, i: nat): (r: (QState, bool))
    requires Inv(c, q) && i < |q.views|
    decreases |q.views|, |q.views| - i
  {
    var v := q.views[i];
    var step := RequestCancel(c, q, v, abort);
    match step.1
    case Err(_) => (step.0, false)
    case Ok(done) =>
      if !done then
        if i + 1 < |q.views| then CancelFrom(c, q, abort, i + 1) else (q, true)
      else
        assert Locate(q.views, v.id) == Some(i);
        RequestCancelKeeps(c, q, v, abort);
        if i < |step.0.views| then CancelFrom(c, step.0, abort, i) else (step.0, true)
  }

  /** `Queue.cancel(abort)`. The do-while reads the first request before checking the length, so
      an empty queue throws. */
  function CancelAll(c: Config, q: QState, abort: bool): (r: (QState, Option<Fault>))
    requires Inv(c, q)
  {
    if |q.views| == 0 then (q, Some(EmptyQueueCanceled))
    else
      var r := CancelFrom(c, q, abort, 0);
      (r.0, if r.1 then None else Some(RequestNotInQueue))
  }

  /** The branch `Request.cancel` would take is a refusal: sent, and answered or not aborting. */
  predicate Refuses(fl: Flags, abort: bool)
  {
    DecideCancel(fl, abort) == Refused
  }

  /** Cancelling a listed request of a queue in its invariant never throws. */
  lemma RequestCancelSucceeds(c: Config, q: QState, k: nat, abort: bool)
    requires Inv(c, q) && k < |q.views|
    ensures RequestCancel(c, q, q.views[k], abort).1.Ok?
  {
    var v := q.views[k];
    assert Locate(q.views, v.id) == Some(k);
    if DecideCancel(v.flags, abort) == AbortInFlight {
      var w := v.(flags := v.flags.Set(Aborted));
      var ws := Refresh(q.views, w);
      assert ws == q.views[k := w];
      var q0 := q.(views := ws, counters := q.counters.(aborted := q.counters.aborted + 1),
                   log := q.log + [Note(AbortedEvent, w)]);
      match c.mode
      case RequestMode =>
        SendTouchesOnlyUnsent(c, q0.(locked := false));
        assert Locate(Send(c, q0.(locked := false)).views, w.id) == Some(k);
      case ResponseMode =>
        if q0.enabled {
          ProcessRunKeeps(c.priority, ws, w);
          var rest := Process(c, q0).views;
          assert w in rest;
          var j :| 0 <= j < |rest| && rest[j] == w;
          assert Locate(rest, w.id).Some?;
        } else {
          assert Locate(ws, w.id) == Some(k);
        }
      case UnknownMode =>
        assert Locate(ws, w.id) == Some(k);
    }
  }

  lemma {:induction false} CancelFromKeeps(c: Config, q: QState, abort: bool, i: nat)
    requires Inv(c, q) && i < |q.views|
    ensures CancelFrom(c, q, abort, i).1 && Inv(c, CancelFrom(c, q, abort, i).0)
    decreases |q.views|, |q.views| - i
  {
    var v := q.views[i];
    assert Locate(q.views, v.id) == Some(i);
    RequestCancelKeeps(c, q, v, abort);
    RequestCancelSucceeds(c, q, i, abort);
    var step := RequestCancel(c, q, v, abort);
    if step.1 == Ok(false) {
      if i + 1 < |q.views| { CancelFromKeeps(c, q, abort, i + 1); }
    } else {
      if i < |step.0.views| { CancelFromKeeps(c, step.0, abort, i); }
    }
  }

  lemma PendingStepKeepsPrefix(c: Config, q: QState, abort: bool, i: nat)
    requires Inv(c, q) && i < |q.views| && DecideCancel(q.views[i].flags, abort) == CancelPending
    ensures RequestCancel(c, q, q.views[i], abort).0.views == RemoveAt(q.views, i)
  {
    assert Locate(q.views, q.views[i].id) == Some(i);
  }

  lemma AbortStepKeepsPrefix(c: Config, q: QState, abort: bool, i: nat)
    requires Inv(c, q) && i < |q.views| && DecideCancel(q.views[i].flags, abort) == AbortInFlight
    requires c.mode != ResponseMode && AllRefuse(q.views[..i], abort)
    ensures var r := RequestCancel(c, q, q.views[i], abort).0;
      |r.views| >= i && r.views[..i] == q.views[..i]
  {
    var v := q.views[i];
    var w := v.(flags := v.flags.Set(Aborted));
    var ws := Refresh(q.views, w);
    assert ws == q.views[i := w];
    var q1 := AfterAbort(c, q, w);
    if c.mode == RequestMode {
      AbortSendKeepsPrefix(c, q, w, i, abort);
    } else {
      assert q1.views == ws;
    }
    assert Locate(q1.views, w.id) == Some(i);
    assert RemoveAt(q1.views, i)[..i] == q.views[..i];
  }

  lemma AbortSendKeepsPrefix(c: Config, q: QState, w: View, i: nat, abort: bool)
    requires c.mode == RequestMode && Sane(q.views) && i < |q.views| && q.views[i].id == w.id && w.flags.sent
    requires AllRefuse(q.views[..i], abort)
    ensures var r := AfterAbort(c, q, w).views;
      |r| == |q.views| && r[i].id == w.id && forall j :: 0 <= j < i ==> r[j] == q.views[j]
  {
    var ws := Refresh(q.views, w);
    var q0 := q.(views := ws, counters := q.counters.(aborted := q.counters.aborted + 1),
                 log := q.log + [Note(AbortedEvent, w)], locked := false);
    assert forall j :: 0 <= j < i ==> Refuses(q.views[..i][j].flags, abort) && ws[j] == q.views[j];
    SendTouchesOnlyUnsent(c, q0);
  }

  /** Cancelling one request never disturbs the listed requests before it, unless 'response'
      mode processes after an abort. */
  lemma CancelStepKeepsPrefix(c: Config, q: QState, abort: bool, i: nat)
    requires Inv(c, q) && i < |q.views| && (c.mode != ResponseMode || !abort)
    requires AllRefuse(q.views[..i], abort)
    ensures var r := RequestCancel(c, q, q.views[i], abort).0;
      |r.views| >= i && r.views[..i] == q.views[..i]
  {
    match DecideCancel(q.views[i].flags, abort)
    case AlreadyEnded =>
    case Refused =>
    case CancelPending =>
      PendingStepKeepsPrefix(c, q, abort, i);
      assert RemoveAt(q.views, i)[..i] == q.views[..i];
    case AbortInFlight => AbortStepKeepsPrefix(c, q, abort, i);
  }

  predicate AllRefuse(vs: seq<View>, abort: bool)
  {
    forall j :: 0 <= j < |vs| ==> Refuses(vs[j].flags, abort)
  }

  lemma {:induction false} CancelFromRefusesRest(c: Config, q: QState, abort: bool, i: nat)
    requires Inv(c, q) && i < |q.views| && (c.mode != ResponseMode || !abort)
    requires AllRefuse(q.views[..i], abort)
    ensures AllRefuse(CancelFrom(c, q, abort, i).0.views, abort)
    decreases |q.views|, |q.views| - i
  {
    var v := q.views[i];
    RequestCancelSucceeds(c, q, i, abort);
    var step := RequestCancel(c, q, v, abort);
    if step.1 == Ok(false) {
      assert Refuses(v.flags, abort);
      assert q.views[..i + 1] == q.views[..i] + [v];
      if i + 1 < |q.views| {
        CancelFromRefusesRest(c, q, abort, i + 1);
      } else {
        assert q.views[..i + 1] == q.views;
      }
    } else {
      assert step.1 == Ok(true);
      assert Inv(c, step.0) by {
        assert Locate(q.views, v.id) == Some(i);
        RequestCancelKeeps(c, q, v, abort);
      }
      assert |step.0.views| >= i && step.0.views[..i] == q.views[..i] by {
        CancelStepKeepsPrefix(c, q, abort, i);
      }
      if i < |step.0.views| {
        CancelFromRefusesRest(c, step.0, abort, i);
      } else {
        assert step.0.views == q.views[..i][..|step.0.views|];
      }
    }
  }

  lemma CancelAllRefusesRest(c: Config, q: QState, abort: bool)
    requires Inv(c, q) && |q.views| > 0 && (c.mode != ResponseMode || !abort)
    ensures CancelAll(c, q, abort).1.None? && Inv(c, CancelAll(c, q, abort).0)
    ensures AllRefuse(CancelAll(c, q, abort).0.views, abort)
  {
    CancelFromKeeps(c, q, abort, 0);
    CancelFromRefusesRest(c, q, abort, 0);
  }

  /** `Queue.cancel(abort)` as intended: after each successful cancellation the scan starts over
      from the front, so a list shortened by the processing an abort triggers cannot make it step
      over a request. */
  function CancelRestart(c: Config, q: QState, abort: bool, i: nat): (r: (QState, bool))
    requires Inv(c, q) && i < |q.views|
    decreases |q.views|, |q.views| - i
  {
    var v := q.views[i];
    var step := RequestCancel(c, q, v, abort);
    match step.1
    case Err(_) => (step.0, false)
    case Ok(done) =>
      if !done then
        if i + 1 < |q.views| then CancelRestart(c, q, abort, i + 1) else (q, true)
      else
        assert Locate(q.views, v.id) == Some(i);
        RequestCancelKeeps(c, q, v, abort);
        if 0 < |step.0.views| then CancelRestart(c, step.0, abort, 0) else (step.0, true)
  }

  /** The corrected scan from position `i`, where `i` may be the end of the list. */
  function CancelScan(c: Config, q: QState, abort: bool, i: nat): (r: (QState, bool))
    requires Inv(c, q) && i <= |q.views|
  {
    if i < |q.views| then CancelRestart(c, q, abort, i) else (q, true)
  }

  /** One step of the corrected scan: a throw ends it, a refusal moves on, a success starts over
      on a shorter list that keeps the invariant. */
  lemma CancelScanStep(c: Config, q: QState, abort: bool, i: nat)
    requires Inv(c, q) && i < |q.views|
    ensures var step := RequestCancel(c, q, q.views[i], abort);
      match step.1
      case Err(_) => CancelScan(c, q, abort, i) == (step.0, false)
      case Ok(done) =>
        if done then Inv(c, step.0) && |step.0.views| < |q.views| &&
                     CancelScan(c, q, abort, i) == CancelScan(c, step.0, abort, 0)
        else CancelScan(c, q, abort, i) == CancelScan(c, q, abort, i + 1)
  {
    var v := q.views[i];
    assert Locate(q.views, v.id) == Some(i);
    RequestCancelKeeps(c, q, v, abort);
  }

  /** In every mode the corrected scan leaves only requests that refuse, and never throws. */
  lemma {:induction false} CancelRestartRefusesRest(c: Config, q: QState, abort: bool, i: nat)
    requires Inv(c, q) && i < |q.views| && AllRefuse(q.views[..i], abort)
    ensures CancelRestart(c, q, abort, i).1
    ensures AllRefuse(CancelRestart(c, q, abort, i).0.views, abort)
    decreases |q.views|, |q.views| - i
  {
    var v := q.views[i];
    RequestCancelSucceeds(c, q, i, abort);
    var step := RequestCancel(c, q, v, abort);
    if step.1 == Ok(false) {
      assert q.views[..i + 1] == q.views[..i] + [v];
      if i + 1 < |q.views| {
        CancelRestartRefusesRest(c, q, abort, i + 1);
      } else {
        assert q.views[..i + 1] == q.views;
      }
    } else {
      assert Locate(q.views, v.id) == Some(i);
      RequestCancelKeeps(c, q, v, abort);
      if 0 < |step.0.views| {
        CancelRestartRefusesRest(c, step.0, abort, 0);
      }
    }
  }

  /** `Queue.cancel(abort)` with the corrected scan; an empty queue still throws. */
  function CancelQueue(c: Config, q: QState, abort: bool): (r: (QState, Option<Fault>))
    requires Inv(c, q)
  {
    if |q.views| == 0 then (q, Some(EmptyQueueCanceled))
    else
      var r := CancelRestart(c, q, abort, 0);
      (r.0, if r.1 then None else Some(RequestNotInQueue))
  }

  /** With the corrected scan, `cancel(abort)` on a non-empty queue never throws, keeps the
      invariant, and leaves exactly requests that refuse: nothing unsent, and when aborting
      nothing sent and unanswered. An empty queue is the only error. */
  lemma CancelQueueRefusesRest(c: Config, q: QState, abort: bool)
    requires Inv(c, q)
    ensures CancelQueue(c, q, abort).1.None? <==> |q.views| > 0
    ensures Inv(c, CancelQueue(c, q, abort).0)
    ensures AllRefuse(CancelQueue(c, q, abort).0.views, abort)
  {
    if |q.views| > 0 {
      CancelRestartRefusesRest(c, q, abort, 0);
      CancelRestartKeeps(c, q, abort, 0);
    }
  }

  lemma {:induction false} CancelRestartKeeps(c: Config, q: QState, abort: bool, i: nat)
    requires Inv(c, q) && i < |q.views|
    ensures Inv(c, CancelRestart(c, q, abort, i).0)
    decreases |q.views|, |q.views| - i
  {
    var v := q.views[i];
    assert Locate(q.views, v.id) == Some(i);
    RequestCancelKeeps(c, q, v, abort);
    RequestCancelSucceeds(c, q, i, abort);
    var step := RequestCancel(c, q, v, abort);
    if step.1 == Ok(false) {
      if i + 1 < |q.views| { CancelRestartKeeps(c, q, abort, i + 1); }
    } else {
      if 0 < |step.0.views| { CancelRestartKeeps(c, step.0, abort, 0); }
    }
  }

  // A 'response' queue with 'desc' priority holding three sent requests: `Early` (priority 1)
  // already has its response but waits behind `Blocking` (priority 5), which has none, and
  // `Late` (priority 0) has none either.
  const SentOnly := Initial.(sent := true)
  const Early := View(1, Some(1), SentOnly.(received := true), Slots(false, false, true))
  const Blocking := View(2, Some(5), SentOnly, Slots(false, false, false))
  const Late := View(3, Some(0), SentOnly, Slots(false, false, false))
  const SkipConfig := Config(Fifo, ResponseMode, Descending)
  const SkipQueue := QState(true, false, [Early, Blocking, Late], ZeroCounters, [])

  const Aborting := Blocking.(flags := SentOnly.(aborted := true))

  lemma SkipSelectsEarly()
    ensures Next(Descending, Awaiting, [Early, Aborting, Late]) == Some(0)
  {
    var vs := [Early, Aborting, Late];
    assert [Early][..0] == [];
    assert EligibleIndices(Awaiting, [Early]) == [0];
    assert vs[..2][..1] == [Early];
    assert EligibleIndices(Awaiting, vs[..2]) == [0];
    assert EligibleIndices(Awaiting, vs) == [0, 2];
    assert PrioritiesAt(vs, [0, 2]) == [Some(1), Some(0)];
    assert [Some(1), Some(0)][..1] == [Some(1)] && [Some(1)][..0] == [];
    assert Scan(Descending, [Some(1)]) == (Some(0), Some(1));
    assert Scan(Descending, [Some(1), Some(0)]) == (Some(0), Some(1));
  }

  lemma SkipSelectsLate()
    ensures Next(Descending, Awaiting, [Aborting, Late]) == Some(1)
  {
    var ws := [Aborting, Late];
    assert ws[..1] == [Aborting] && [Aborting][..0] == [];
    assert EligibleIndices(Awaiting, ws[..1]) == [];
    assert EligibleIndices(Awaiting, ws) == [1];
    assert PrioritiesAt(ws, [1]) == [Some(0)];
    assert [Some(0)][..0] == [];
  }

  lemma SkipProcessRun()
    ensures ProcessRun(Descending, [Early, Aborting, Late]) == ([Early], [Aborting, Late])
  {
    SkipSelectsEarly();
    SkipSelectsLate();
    assert RemoveAt([Early, Aborting, Late], 0) == [Aborting, Late];
    assert ProcessRun(Descending, [Aborting, Late]) == ([], [Aborting, Late]);
    assert [Early] + [] == [Early];
  }

  lemma SkipAfterAbort()
    ensures AfterAbort(SkipConfig, SkipQueue, Aborting).views == [Aborting, Late]
  {
    var q := SkipQueue;
    var vs := Refresh(q.views, Aborting);
    assert vs == [Early, Aborting, Late];
    var q0 := CountAbort(q.(views := vs), Aborting);
    assert AfterAbort(SkipConfig, q, Aborting) == Process(SkipConfig, q0);
    ProcessViews(SkipConfig, q0);
    SkipProcessRun();
  }

  lemma SkipAbort()
    ensures RequestCancel(SkipConfig, SkipQueue, Blocking, true).1 == Ok(true)
    ensures RequestCancel(SkipConfig, SkipQueue, Blocking, true).0.views == [Late]
  {
    var c, q := SkipConfig, SkipQueue;
    assert Blocking.(flags := Blocking.flags.Set(Aborted)) == Aborting;
    SkipAfterAbort();
    assert Locate([Aborting, Late], Aborting.id) == Some(0);
    assert AbortSent(c, q, Aborting).0.views == [Late];
  }

  /** As written, `cancel(true)` on that queue leaves `Late` unaborted although it would not
      refuse: `Early` refuses, aborting `Blocking` lets processing run and delete `Early`, and the
      unchanged index then points past `Late`. */
  lemma CancelSkipsExample()
    ensures Inv(SkipConfig, SkipQueue)
    ensures CancelAll(SkipConfig, SkipQueue, true).1.None?
    ensures CancelAll(SkipConfig, SkipQueue, true).0.views == [Late] && !Refuses(Late.flags, true)
  {
    var c, q := SkipConfig, SkipQueue;
    assert Inv(c, q);
    assert Refuses(Early.flags, true);
    assert CancelFrom(c, q, true, 0) == CancelFrom(c, q, true, 1);
    SkipAbort();
  }
}
