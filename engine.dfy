/** The engine's objects: a `Request` whose methods set its flags, replace its callbacks and
    record its outcomes, and a `Queue` whose methods insert, send, process and cancel its pending
    requests. Each queue method is proved to change the queue exactly as the function of the same
    name in `QueueSpec` says, and to keep the queue's invariant. The transport is the caller of
    `Queue.Deliver`, which plays the part of the hooks a queue installs on a request it sends. */
module Engine {
  import opened Wrappers
  import opened Lifecycle
  import opened Records
  import opened Selection
  import opened Dispatch
  import opened Seqs
  import opened QueueSpec

  class Request {
    /** Process-unique, taken from the registry's request counter. */
    const id: nat
    /** `settings.priority`. */
    const priority: Option<int>
    /** The queue the request was added to; membership never changes. */
    const queue: Queue
    var flags: Flags
    var callbacks: Slots<Option<nat>>
    /** Which outcomes a 'response' mode hook has recorded for later execution. */
    var execute: Slots<bool>
    var contexts: Slots<Option<nat>>
    var args: Slots<Option<nat>>
    var listeners: seq<nat>
    /** Every event dispatched to the request's listeners, in order. */
    ghost var events: seq<RequestEvent>
    /** Every invocation of one of the request's callbacks, in order. */
    ghost var calls: seq<Call>

    /** What the queue's selection looks at. */
    function Snapshot(): View
      reads this
    {
      View(id, priority, flags, execute)
    }

    ghost function State(): RequestState
      reads this
    {
      RequestState(flags, callbacks, execute, contexts, args, listeners, events, calls)
    }

    /** The constructor, once `listeners` has been checked to hold only functions. The callbacks
        are taken out of the settings (`initializeQueued`). */
    constructor (queue: Queue, id: nat, priority: Option<int>, callbacks: Slots<Option<nat>>, listeners: seq<nat>)
      ensures this.queue == queue && this.id == id && this.priority == priority
      ensures State() == Created(callbacks, listeners)
    {
      this.queue := queue;
      this.id := id;
      this.priority := priority;
      flags := Initial;
      this.callbacks := callbacks;
      execute := Slots(false, false, false);
      contexts := NoValues;
      args := NoValues;
      this.listeners := listeners;
      events := [];
      calls := [];
    }

    /** `setFlag(f)`: the flag becomes true and its event goes to the listeners. */
    method SetFlag(f: Flag)
      modifies this
      ensures State() == SetFlagStep(old(State()), f)
    {
      flags := flags.Set(f);
      events := events + [FlagEvent(f)];
    }

    /** `setFlag(name)` with its name check: an unknown name throws and changes nothing. */
    method SetNamedFlag(name: string) returns (r: Result<Flag>)
      modifies this
      ensures r.Err? <==> ParseFlag(name).None?
      ensures r.Err? ==> r.fault == IncorrectFlagName && State() == old(State())
      ensures r.Ok? ==> FlagName(r.value) == name && State() == SetFlagStep(old(State()), r.value)
    {
      match ParseFlag(name)
      case None => r := Err(IncorrectFlagName);
      case Some(f) =>
        SetFlag(f);
        r := Ok(f);
    }

    /** `send`: the transport call itself is the environment's; the request is marked sent. */
    method Send()
      modifies this
      ensures State() == SetFlagStep(old(State()), Sent)
    {
      SetFlag(Sent);
    }

    /** `getCallback(name)`. */
    method GetCallback(name: string) returns (r: Result<Option<nat>>)
      ensures r.Err? <==> ParseOutcome(name).None?
      ensures r.Err? ==> r.fault == IncorrectCallbackName
      ensures r.Ok? ==> r.value == callbacks.Get(ParseOutcome(name).value)
    {
      match ParseOutcome(name)
      case None => r := Err(IncorrectCallbackName);
      case Some(o) => r := Ok(callbacks.Get(o));
    }

    /** `setCallback(name, callback)`: the name is checked first, then the callback. */
    method SetCallback(name: string, h: Handler) returns (r: Result<bool>)
      modifies this
      ensures ParseOutcome(name).None? ==> r == Err(IncorrectCallbackName) && State() == old(State())
      ensures ParseOutcome(name).Some? ==>
        var step := SetCallbackStep(old(State()), ParseOutcome(name).value, h);
        match step
        case Err(e) => r == Err(e) && State() == old(State())
        case Ok(res) => r == Ok(res.0) && State() == res.1
    {
      match ParseOutcome(name)
      case None => r := Err(IncorrectCallbackName);
      case Some(o) =>
        match h
        case NotAFunction => r := Err(FunctionExpected);
        case Function(cb) =>
          if !flags.processed {
            callbacks := callbacks.Put(o, Some(cb));
            r := Ok(true);
          } else {
            r := Ok(false);
          }
    }

    /** `executeCallback(o, context, args)`. */
    method ExecuteCallback(o: Outcome, ctx: Option<nat>, a: Option<nat>)
      modifies this
      ensures State() == ExecuteStep(old(State()), o, ctx, a)
    {
      if contexts.Get(o).None? || args.Get(o).None? {
        contexts := contexts.Put(o, ctx);
        args := args.Put(o, a);
      }
      if callbacks.Get(o).Some? {
        calls := calls + [Call(callbacks.Get(o).value, ctx, a)];
      }
      SetFlag(Done(o));
      if o == Complete {
        SetFlag(Processed);
      }
    }

    /** What `processRequest` does to the received request it selected: each recorded outcome
        is executed with its recorded context and arguments, in the order success, error,
        complete, and the request is marked processed. */
    method RunRecordedOutcomes()
      modifies this
      ensures State() == RunRecorded(old(State()))
    {
      for i := 0 to 3
        invariant State() == RunFirst(old(State()), Outcomes[..i])
      {
        var o := Outcomes[i];
        if execute.Get(o) {
          ExecuteCallback(o, contexts.Get(o), args.Get(o));
        }
        assert Outcomes[..i + 1] == Outcomes[..i] + [o];
      }
      assert Outcomes[..3] == [Success, Error, Complete];
      SetFlag(Processed);
    }

    /** `cancel(abort)` on a queued request: `true` when it was already canceled or aborted, or is
        now; `false` when it was sent and cannot be aborted (not asked to, or already answered).
        Canceling an unsent request or aborting one in flight hands it to the queue, whose
        `deleteRequest` throws when it is not listed. */
    method Cancel(abort: bool) returns (res: Result<bool>)
      requires queue.Valid() && queue.Owns(this) && Tracked(queue.QS(), Snapshot())
      modifies this, queue`locked, queue`requests, queue`views, queue`counters, queue`log, queue.requests
      ensures queue.Valid() && forall x :: x in queue.requests ==> x in old(queue.requests)
      ensures (queue.QS(), res) == RequestCancel(queue.config, old(queue.QS()), old(Snapshot()), abort)
      ensures State() == Records.CancelStep(old(State()), abort).1
      ensures queue.config.mode == RequestMode ==> SendsOnly(old(queue.requests), {this})
      ensures queue.config.mode != RequestMode ==> ProcessesOnly(old(queue.requests), queue.requests, {this})
    {
      if !flags.canceled && !flags.aborted {
        if !flags.sent || (abort && !flags.received) {
          res := Withdraw(abort);
        } else {
          res := Ok(false);
        }
      } else {
        res := Ok(true);
      }
    }

    /** The branches of `cancel(abort)` that hand the request to the queue: `canceled` is set on
        an unsent request, `aborted` on one in flight, then the queue's `cancelRequest` runs. */
    method Withdraw(abort: bool) returns (res: Result<bool>)
      requires queue.Valid() && queue.Owns(this) && Tracked(queue.QS(), Snapshot())
      requires DecideCancel(flags, abort) == CancelPending || DecideCancel(flags, abort) == AbortInFlight
      modifies this, queue`locked, queue`requests, queue`views, queue`counters, queue`log, queue.requests
      ensures queue.Valid() && forall x :: x in queue.requests ==> x in old(queue.requests)
      ensures (queue.QS(), res) == RequestCancel(queue.config, old(queue.QS()), old(Snapshot()), abort)
      ensures State() == Records.CancelStep(old(State()), abort).1
      ensures queue.config.mode == RequestMode ==> SendsOnly(old(queue.requests), {this})
      ensures queue.config.mode != RequestMode ==> ProcessesOnly(old(queue.requests), queue.requests, {this})
    {
      if queue.config.mode == RequestMode {
        res := WithdrawSent(abort);
      } else {
        res := WithdrawProcessed(abort);
      }
    }

    /** `Withdraw` on a 'request' mode queue, whose follow-up sends. */
    method WithdrawSent(abort: bool) returns (res: Result<bool>)
      requires queue.Valid() && queue.Owns(this) && Tracked(queue.QS(), Snapshot())
      requires DecideCancel(flags, abort) == CancelPending || DecideCancel(flags, abort) == AbortInFlight
      requires queue.config.mode == RequestMode
      modifies this, queue`locked, queue`requests, queue`views, queue`counters, queue`log, queue.requests
      ensures queue.Valid() && forall x :: x in queue.requests ==> x in old(queue.requests)
      ensures (queue.QS(), res) == RequestCancel(queue.config, old(queue.QS()), old(Snapshot()), abort)
      ensures State() == Records.CancelStep(old(State()), abort).1
      ensures SendsOnly(old(queue.requests), {this})
    {
      ghost var v := Snapshot();
      SetFlag(if !flags.sent then Canceled else Aborted);
      label Flagged:
      var ok := queue.CancelRequest(this, abort, v);
      res := if ok then Ok(true) else Err(RequestNotInQueue);
      assert forall x :: x in old(queue.requests) && x != this ==> old@Flagged(x.State()) == old(x.State());
    }

    /** `Withdraw` on a 'response' or unknown mode queue, whose follow-up processes. */
    method WithdrawProcessed(abort: bool) returns (res: Result<bool>)
      requires queue.Valid() && queue.Owns(this) && Tracked(queue.QS(), Snapshot())
      requires DecideCancel(flags, abort) == CancelPending || DecideCancel(flags, abort) == AbortInFlight
      requires queue.config.mode != RequestMode
      modifies this, queue`locked, queue`requests, queue`views, queue`counters, queue`log, queue.requests
      ensures queue.Valid() && forall x :: x in queue.requests ==> x in old(queue.requests)
      ensures (queue.QS(), res) == RequestCancel(queue.config, old(queue.QS()), old(Snapshot()), abort)
      ensures State() == Records.CancelStep(old(State()), abort).1
      ensures ProcessesOnly(old(queue.requests), queue.requests, {this})
    {
      ghost var v := Snapshot();
      SetFlag(if !flags.sent then Canceled else Aborted);
      label Flagged:
      var ok := queue.CancelRequest(this, abort, v);
      res := if ok then Ok(true) else Err(RequestNotInQueue);
      assert forall x :: x in old(queue.requests) && x != this ==> old@Flagged(x.State()) == old(x.State());
    }

    /** The part of a 'request' mode hook that touches the request, when it is not aborted: the
        first outcome sets `received`, and the callback is executed. */
    method Answer(o: Outcome, ctx: Option<nat>, a: Option<nat>)
      requires !flags.aborted
      modifies this
      ensures State() == AnswerStep(old(State()), o, ctx, a)
    {
      if !flags.received {
        SetFlag(Received);
      }
      ExecuteCallback(o, ctx, a);
    }

    /** The part of a 'response' mode hook that touches the request: the outcome is recorded
        for later execution, with its context and arguments, and 'complete' marks the request
        received. */
    method Record(o: Outcome, ctx: Option<nat>, a: Option<nat>)
      modifies this
      ensures State() == RecordStep(old(State()), o, ctx, a)
    {
      execute := execute.Put(o, true);
      contexts := contexts.Put(o, ctx);
      args := args.Put(o, a);
      if o == Complete {
        SetFlag(Received);
      }
    }

    /** `dispatchEvent('added')` on a request just put in its queue. */
    method Added()
      modifies this
      ensures State() == old(State()).(events := old(events) + [AddedToQueue])
    {
      events := events + [AddedToQueue];
    }

    /** `addListener(listener)`. */
    method AddListener(h: Handler) returns (r: Result<()>)
      modifies this
      ensures r.Err? <==> h.NotAFunction?
      ensures r.Err? ==> r.fault == FunctionExpected && State() == old(State())
      ensures r.Ok? ==> State() == old(State()).(listeners := old(listeners) + [h.id])
    {
      match h
      case NotAFunction => r := Err(FunctionExpected);
      case Function(id) =>
        listeners := listeners + [id];
        r := Ok(());
    }

    /** `removeListener(listener)`: the first registration of it is removed. */
    method RemoveListener(listener: nat) returns (found: bool)
      modifies this
      ensures found <==> listener in old(listeners)
      ensures State() == old(State()).(listeners := RemoveFirst(old(listeners), listener))
    {
      var at := Find(listeners, listener);
      found := at.Some?;
      if found {
        listeners := RemoveAt(listeners, at.value);
      }
    }
  }

  /** The `$.each` over a `listeners` setting in the request and queue constructors: the
      functions are pushed in order until the first value that is not one, which throws. */
  method AcceptListeners(hs: seq<Handler>) returns (ids: seq<nat>, ok: bool)
    ensures (ids, ok) == AcceptHandlers(hs)
  {
    ids := [];
    var i := 0;
    while i < |hs|
      invariant i <= |hs| && |ids| == i
      invariant forall j :: 0 <= j < i ==> hs[j] == Function(ids[j])
    {
      match hs[i]
      case NotAFunction =>
        ok := false;
        AcceptHandlersUnique(hs, ids, ok);
        return;
      case Function(id) =>
        ids := ids + [id];
        i := i + 1;
    }
    ok := true;
    AcceptHandlersUnique(hs, ids, ok);
  }

  /** The snapshots of a list of requests. */
  function ViewsOf(rs: seq<Request>): (vs: seq<View>)
    reads rs
    ensures |vs| == |rs| && forall i :: 0 <= i < |rs| ==> vs[i] == rs[i].Snapshot()
  {
    seq(|rs|, i requires 0 <= i < |rs| reads rs => rs[i].Snapshot())
  }

  /** What a queue operation that sends does to a request it had listed: when the request was
      not sent before and is now, `setFlag('sent')` is all that happened to it; otherwise it is
      untouched. */
  ghost predicate SendEffect(s0: RequestState, s1: RequestState)
  {
    s1 == if !s0.flags.sent && s1.flags.sent then SetFlagStep(s0, Sent) else s0
  }

  /** What a queue operation that processes does to a request it had listed: one still listed is
      untouched; one that left the list had received its response, was not aborted, and had its
      recorded outcomes run as `processRequest` runs them. */
  ghost predicate ProcessEffect(s0: RequestState, s1: RequestState, listed: bool)
  {
    if listed then s1 == s0 else s1 == RunRecorded(s0) && s0.flags.received && !s0.flags.aborted
  }

  /** The states of the requests `rs`, position by position. */
  ghost function StatesOf(rs: seq<Request>): (ss: seq<RequestState>)
    reads rs
    ensures |ss| == |rs| && forall i :: 0 <= i < |rs| ==> ss[i] == rs[i].State()
  {
    seq(|rs|, i requires 0 <= i < |rs| reads rs => rs[i].State())
  }

  /** Every request of `rs` outside `skip` underwent at most a send. */
  twostate predicate SendsOnly(rs: seq<Request>, new skip: set<Request>)
    reads rs
  {
    forall x :: x in rs && x !in skip ==> SendEffect(old(x.State()), x.State())
  }

  /** Every request of `rs` outside `skip` was processed if it is not in `now`, and is untouched
      if it is. */
  twostate predicate ProcessesOnly(rs: seq<Request>, new now: seq<Request>, new skip: set<Request>)
    reads rs
  {
    forall x :: x in rs && x !in skip ==> ProcessEffect(old(x.State()), x.State(), x in now)
  }

  /** Every request of `rs` but `r` underwent at most a send since its state was the one in
      `ss`. */
  ghost predicate SentBut(rs: seq<Request>, ss: seq<RequestState>, r: Request)
    reads rs
  {
    |ss| == |rs| && forall i {:trigger ss[i]} :: 0 <= i < |rs| && rs[i] != r ==> SendEffect(ss[i], rs[i].State())
  }

  /** `SentSince` the entry states of a list that has not changed is `SendsOnly`. */
  twostate lemma SentSinceEntry(q: Queue, new ss: seq<RequestState>)
    requires q.requests == old(q.requests) && ss == old(StatesOf(q.requests)) && q.SentSince(ss)
    ensures SendsOnly(old(q.requests), {})
  {
    forall x | x in old(q.requests) && x !in {} ensures SendEffect(old(x.State()), x.State()) {
      var i :| 0 <= i < |q.requests| && q.requests[i] == x;
    }
  }

  /** Back from the states `ss` read in the earlier state to `SendsOnly`, for every request of
      `rs` but `r`. */
  twostate lemma SendsOnlyFromStates(rs: seq<Request>, new ss: seq<RequestState>, new r: Request)
    requires |ss| == |rs| && forall i :: 0 <= i < |rs| ==> ss[i] == old(rs[i].State())
    requires SentBut(rs, ss, r)
    ensures SendsOnly(rs, {r})
  {
    forall x | x in rs && x !in {r} ensures SendEffect(old(x.State()), x.State()) {
      var i :| 0 <= i < |rs| && rs[i] == x;
      assert ss[i] == old(x.State());
    }
  }

  /** Back from the states `ss` read in the earlier state to `ProcessesOnly`. */
  twostate lemma ProcessesOnlyFromStates(rs: seq<Request>, new now: seq<Request>, new ss: seq<RequestState>, new skip: set<Request>)
    requires |ss| == |rs| && forall i :: 0 <= i < |rs| ==> ss[i] == old(rs[i].State())
    requires forall i :: 0 <= i < |rs| && rs[i] !in skip ==> ProcessEffect(ss[i], rs[i].State(), rs[i] in now)
    ensures ProcessesOnly(rs, now, skip)
  {
    forall x | x in rs && x !in skip ensures ProcessEffect(old(x.State()), x.State(), x in now) {
      var i :| 0 <= i < |rs| && rs[i] == x;
    }
  }

  /** A list whose request at `k`, unsent before, was sent and whose other requests did not
      change underwent only sends. */
  twostate lemma SentAtFrame(rs: seq<Request>, new k: nat)
    requires k < |rs| && !old(rs[k].flags.sent)
    requires rs[k].State() == SetFlagStep(old(rs[k].State()), Sent)
    requires forall i :: 0 <= i < |rs| && i != k ==> rs[i].State() == old(rs[i].State())
    ensures SendsOnly(rs, {})
  {
    forall x | x in rs && x !in {} ensures SendEffect(old(x.State()), x.State()) {
      var i :| 0 <= i < |rs| && rs[i] == x;
    }
  }

  /** Requests an operation did not touch and did not unlist, apart from `skip`, meet both
      frames. */
  twostate lemma UntouchedFrames(rs: seq<Request>, new now: seq<Request>, new skip: set<Request>)
    requires forall x :: x in rs ==> unchanged(x)
    requires forall x :: x in rs && x !in skip ==> x in now
    ensures SendsOnly(rs, skip) && ProcessesOnly(rs, now, skip)
  {
  }

  /** A request sent after the operations that left it at `s0` untouched or sent. */
  lemma SendEffectThenSend(s0: RequestState, s1: RequestState, s2: RequestState)
    requires SendEffect(s0, s1) && !s1.flags.sent && s2 == SetFlagStep(s1, Sent)
    ensures SendEffect(s0, s2)
  {
  }

  class Queue {
    const config: Config
    var enabled: bool
    var locked: bool
    var requests: seq<Request>
    var counters: Counters
    var listeners: seq<nat>
    /** The snapshots of `requests`, kept up to date by every method. */
    ghost var views: seq<View>
    /** Every event dispatched to the queue's listeners, in order. */
    ghost var log: seq<QueueEvent>

    ghost function QS(): QState
      reads this
    {
      QState(enabled, locked, views, counters, log)
    }

    /** `views` holds the snapshots of the listed requests, which all belong to this queue. */
    ghost predicate Tied()
      reads this`views, this`requests, requests
    {
      |views| == |requests| &&
      forall i :: 0 <= i < |requests| ==> requests[i].Snapshot() == views[i] && requests[i].queue == this
    }

    /** The listed requests and the queue's invariant. */
    ghost predicate Valid()
      reads this, requests
    {
      Tied() && Inv(config, QS())
    }

    /** No listed request other than `r` carries `r`'s id (ids are process-unique). */
    ghost predicate Owns(r: Request)
      reads this
    {
      r.queue == this && forall i :: 0 <= i < |requests| && requests[i].id == r.id ==> requests[i] == r
    }

    /** As `Tied`, except that `r` has changed and its listed snapshot is not yet refreshed. */
    ghost predicate TiedExcept(r: Request)
      reads this`views, this`requests, requests
    {
      |views| == |requests| &&
      forall i :: 0 <= i < |requests| ==>
        requests[i].queue == this && views[i].id == requests[i].id &&
        (requests[i] != r ==> requests[i].Snapshot() == views[i])
    }

    /** Every listed request underwent at most a send since its state was the one in `ss`. */
    ghost predicate SentSince(ss: seq<RequestState>)
      reads this, requests
    {
      |ss| == |requests| && forall i :: 0 <= i < |requests| ==> SendEffect(ss[i], requests[i].State())
    }

    /** Every request of `rs0` was processed since its state was the one in `ss` if it is no
        longer listed, and is untouched if it still is. */
    ghost predicate ProcessedSince(rs0: seq<Request>, ss: seq<RequestState>)
      reads this, rs0
    {
      |ss| == |rs0| && forall i :: 0 <= i < |rs0| ==> ProcessEffect(ss[i], rs0[i].State(), rs0[i] in requests)
    }

    /** `ProcessedSince` for every request of `rs0` but `r`. */
    ghost predicate ProcessedBut(rs0: seq<Request>, ss: seq<RequestState>, r: Request)
      reads this, rs0
    {
      |ss| == |rs0| && forall i :: 0 <= i < |rs0| && rs0[i] != r ==> ProcessEffect(ss[i], rs0[i].State(), rs0[i] in requests)
    }

    /** Searching the list for `r` by identity finds it where its id is listed. */
    lemma ListedAt(r: Request)
      requires TiedExcept(r) && Owns(r)
      ensures IndexOf(requests, r) == Locate(views, r.id)
    {
      match IndexOf(requests, r)
      case None =>
        assert forall i :: 0 <= i < |views| ==> views[i].id != r.id;
      case Some(j) =>
        forall i | 0 <= i < j ensures Ids(views)[i] != r.id {
          assert requests[..j][i] == requests[i];
        }
        assert r.id !in Ids(views)[..j];
        IndexOfUnique(Ids(views), r.id, j);
    }

    constructor (config: Config, listeners: seq<nat>)
      ensures this.config == config && this.listeners == listeners
      ensures QS() == Fresh && Valid() && requests == []
    {
      this.config := config;
      enabled := true;
      locked := false;
      requests := [];
      counters := ZeroCounters;
      this.listeners := listeners;
      views := [];
      log := [];
    }

    /** `getNextRequest(filter)`: the position of the selected request. */
    method NextRequest(e: Eligibility) returns (r: Option<nat>)
      requires Tied()
      ensures r == Next(config.priority, e, views)
    {
      var vs := ViewsOf(requests);
      assert vs == views;
      r := Next(config.priority, e, vs);
    }

    /** `deleteRequest(request)`: remove the first listed occurrence; `false` is the throw
        "Request not in queue!". */
    method DeleteRequest(r: Request) returns (found: bool)
      modifies this`requests
      ensures found <==> r in old(requests)
      ensures requests == RemoveFirst(old(requests), r)
    {
      var at := Find(requests, r);
      found := at.Some?;
      if found {
        requests := RemoveAt(requests, at.value);
      }
    }

    /** `deleteRequest(r)`, keeping `views` in step; `false` is the throw. */
    method Unlist(r: Request) returns (found: bool)
      requires TiedExcept(r) && Owns(r) && Sane(views)
      modifies this`requests, this`views
      ensures Tied() && Sane(views) && forall x :: x in requests ==> x in old(requests)
      ensures found == Locate(old(views), r.id).Some?
      ensures views == if found then RemoveAt(old(views), Locate(old(views), r.id).value) else old(views)
      ensures found ==> r !in requests
      ensures forall x :: x in old(requests) && x != r ==> x in requests
    {
      ListedAt(r);
      ghost var at := Locate(views, r.id);
      found := DeleteRequest(r);
      forall x | x in old(requests) && x != r ensures x in requests {
        RemoveFirstMembers(old(requests), r, x);
      }
      if found {
        var k := at.value;
        assert forall i :: 0 <= i < |old(views)| && i != k ==> old(views)[i].id != r.id;
        views := RemoveAt(views, k);
        SaneRemoveAt(old(views), k);
      }
    }

    /** Bring the listed snapshot of the changed request `r` up to date. */
    method RefreshListed(r: Request)
      requires TiedExcept(r) && Owns(r)
      modifies this`views
      ensures Tied() && views == Refresh(old(views), r.Snapshot())
    {
      views := Refresh(views, r.Snapshot());
    }

    /** `sendRequest`. */
    method SendRequest()
      requires Tied() && Sane(views)
      modifies this`locked, this`views, this`counters, this`log, requests
      ensures Tied() && QS() == Send(config, old(QS())) && requests == old(requests)
      ensures SendsOnly(old(requests), {})
    {
      if !enabled || locked {
        return;
      }
      var next := NextRequest(Unsent);
      if next.None? {
        return;
      }
      match config.mode
      case RequestMode => SendSelected(next.value);
      case ResponseMode => SendPipelined();
      case UnknownMode =>
    }

    /** Send the listed request at `k` and report it: one round of either mode. */
    method SendAt(k: nat)
      requires Tied() && Sane(views) && k < |requests|
      modifies this`views, this`counters, this`log, requests[k]
      ensures Tied() && requests == old(requests) && views == MarkSent(old(views), k)
      ensures QS() == SendRound(old(QS()), k)
      ensures requests[k].State() == SetFlagStep(old(requests[k].State()), Sent)
      ensures forall i :: 0 <= i < |requests| && i != k ==> requests[i].State() == old(requests[i].State())
    {
      var r := requests[k];
      assert forall i :: 0 <= i < |requests| && i != k ==> requests[i] != r by {
        assert forall i :: 0 <= i < |requests| && i != k ==> views[i].id != views[k].id;
      }
      r.Send();
      views := MarkSent(views, k);
      counters := counters.(sent := counters.sent + 1);
      log := log + [Note(SentEvent, r.Snapshot())];
    }

    /** 'request' mode: send the selected request and lock the queue. */
    method SendSelected(k: nat)
      requires Tied() && Sane(views) && enabled && !locked && config.mode == RequestMode
      requires Next(config.priority, Unsent, views) == Some(k)
      modifies this`locked, this`views, this`counters, this`log, requests
      ensures Tied() && QS() == Send(config, old(QS())) && requests == old(requests)
      ensures SendsOnly(old(requests), {})
    {
      ghost var q0 := QS();
      assert Send(config, q0) == SendOne(config, q0, k);
      SendAt(k);
      var next := NextRequest(Unsent);
      LockAfterSend(next.None?);
      SentAtFrame(requests, k);
    }

    /** The end of a 'request' mode send: lock, and report 'allSent' when nothing is left. */
    method LockAfterSend(allSent: bool)
      modifies this`locked, this`log
      ensures QS() == old(QS()).(locked := true, log := old(log) + if allSent then [QueueEvent(AllSentEvent, None)] else [])
    {
      locked := true;
      if allSent {
        log := log + [QueueEvent(AllSentEvent, None)];
      }
    }

    /** 'response' mode: send, in selection order, every request neither sent nor canceled. */
    method SendPipelined()
      requires Tied() && Sane(views) && enabled && !locked && config.mode == ResponseMode
      requires Next(config.priority, Unsent, views).Some?
      modifies this`locked, this`views, this`counters, this`log, requests
      ensures Tied() && QS() == Send(config, old(QS())) && requests == old(requests)
      ensures SendsOnly(old(requests), {})
    {
      Drain();
    }

    /** The listed requests are tied to their snapshots, which are coherent with unique ids. */
    ghost predicate Sendable()
      reads this`views, this`requests, requests
    {
      Tied() && Sane(views)
    }

    /** The drain loop of 'response' mode: 'allSent' is reported once nothing is left. */
    method Drain()
      requires Tied() && Sane(views) && config.priority != UnknownPriority
      modifies this`views, this`counters, this`log, requests
      ensures Tied() && requests == old(requests) && QS() == SendEach(config, old(QS()))
      ensures SendsOnly(old(requests), {})
    {
      ghost var ss := StatesOf(requests);
      var next := NextRequest(Unsent);
      while next.Some?
        invariant requests == old(requests) && Sendable() && SentSince(ss)
        invariant next == Next(config.priority, Unsent, views)
        invariant SendEach(config, old(QS())) == SendEach(config, QS())
        decreases CountUnsent(views)
      {
        next := DrainStep(next.value, ss);
      }
      DrainEnd();
      SentSinceEntry(this, ss);
    }

    /** Once nothing is left to send, the drain reports 'allSent'. */
    method DrainEnd()
      requires Tied() && config.priority != UnknownPriority && Next(config.priority, Unsent, views).None?
      modifies this`log
      ensures Tied() && QS() == SendEach(config, old(QS()))
    {
      SendEachIdle(config, QS());
      Report(QueueEvent(AllSentEvent, None));
    }

    /** One round of the drain: the selected request is sent, and what is left to drain is the
        same. */
    method DrainStep(k: nat, ghost ss: seq<RequestState>) returns (next: Option<nat>)
      requires Sendable() && Next(config.priority, Unsent, views) == Some(k) && SentSince(ss)
      modifies this`views, this`counters, this`log, requests[k]
      ensures requests == old(requests) && Sendable() && next == Next(config.priority, Unsent, views)
      ensures SentSince(ss)
      ensures SendEach(config, QS()) == SendEach(config, old(QS()))
      ensures CountUnsent(views) < old(CountUnsent(views))
    {
      ghost var q0 := QS();
      ghost var s := requests[k].State();
      SendAt(k);
      SendEffectThenSend(ss[k], s, requests[k].State());
      MarkSentKeeps(q0.views, k);
      SendRoundRest(config, q0, k);
      next := NextRequest(Unsent);
    }

    /** Set the counters and the lock, and emit the events `es` to the listeners. */
    method Book(cs: Counters, lock: bool, ghost es: seq<QueueEvent>)
      modifies this`counters, this`locked, this`log
      ensures counters == cs && locked == lock && log == old(log) + es
    {
      counters, locked := cs, lock;
      log := log + es;
    }

    /** Emit one queue event to the listeners. */
    method Report(e: QueueEvent)
      modifies this`log
      ensures log == old(log) + [e]
    {
      log := log + [e];
    }

    /** `processRequest`. */
    method ProcessRequest()
      requires Tied() && Sane(views)
      modifies this`locked, this`requests, this`views, this`counters, this`log, requests
      ensures Tied() && QS() == Process(config, old(QS()))
      ensures forall x :: x in requests ==> x in old(requests)
      ensures ProcessesOnly(old(requests), requests, {})
    {
      if !enabled {
        return;
      }
      ghost var q0 := QS();
      RunReceived();
      ProcessEachRun(config.priority, q0);
      var next := NextRequest(Unprocessed);
      if next.None? {
        Report(QueueEvent(AllProcessedEvent, None));
      }
    }

    /** The re-invocations of `processRequest` while the selected request has its response. */
    method RunReceived()
      requires Tied() && Sane(views)
      modifies this`requests, this`views, this`counters, this`log, requests
      ensures Tied() && Sane(views) && forall x :: x in requests ==> x in old(requests)
      ensures QS() == ProcessEach(config.priority, old(QS()))
      ensures ProcessesOnly(old(requests), requests, {})
    {
      ghost var rs0, ss := requests, StatesOf(requests);
      var next := NextRequest(Awaiting);
      while next.Some? && requests[next.value].flags.received
        invariant Tied() && Sane(views) && forall x :: x in requests ==> x in rs0
        invariant ProcessedSince(rs0, ss)
        invariant next == Next(config.priority, Awaiting, views)
        invariant ProcessEach(config.priority, old(QS())) == ProcessEach(config.priority, QS())
        decreases |views|
      {
        assert requests[next.value] in old(requests);
        next := ProcessStep(next.value, rs0, ss, old(QS()));
      }
      ProcessesOnlyFromStates(rs0, requests, ss, {});
    }

    /** One round of `RunReceived`: the received request at `k`, the one selected, is processed
        and the next one is selected. */
    method ProcessStep(k: nat, ghost rs0: seq<Request>, ghost ss: seq<RequestState>, ghost q0: QState) returns (next: Option<nat>)
      requires Tied() && Sane(views) && k < |requests| && requests[k].flags.received
      requires Next(config.priority, Awaiting, views) == Some(k)
      requires ProcessEach(config.priority, q0) == ProcessEach(config.priority, QS())
      requires ProcessedSince(rs0, ss) && forall x :: x in requests ==> x in rs0
      modifies this`requests, this`views, this`counters, this`log, requests[k]
      ensures Tied() && Sane(views) && forall x :: x in requests ==> x in rs0
      ensures ProcessedSince(rs0, ss)
      ensures next == Next(config.priority, Awaiting, views)
      ensures ProcessEach(config.priority, q0) == ProcessEach(config.priority, QS())
      ensures |views| < old(|views|)
    {
      ProcessAt(k);
      next := NextRequest(Awaiting);
    }

    /** The counters `processRequest` bumps for a request whose hooks recorded `ex`: one per
        executed outcome, and `processed`. */
    method CountRun(ex: Slots<bool>, ghost v: View)
      requires v.execute == ex
      modifies this`counters
      ensures counters == TallyOne(old(counters), v)
    {
      for i := 0 to 3
        invariant forall j :: 0 <= j < i ==> counters.callbacks.Get(Outcomes[j]) == old(counters).callbacks.Get(Outcomes[j]) + if ex.Get(Outcomes[j]) then 1 else 0
        invariant forall j :: i <= j < 3 ==> counters.callbacks.Get(Outcomes[j]) == old(counters).callbacks.Get(Outcomes[j])
        invariant counters == old(counters).(callbacks := counters.callbacks)
      {
        if ex.Get(Outcomes[i]) {
          counters := counters.Bump(Outcomes[i]);
        }
      }
      var t := TallyOne(old(counters), v);
      assert counters.callbacks == t.callbacks by {
        assert t.callbacks.Get(Outcomes[0]) == counters.callbacks.Get(Outcomes[0]);
        assert t.callbacks.Get(Outcomes[1]) == counters.callbacks.Get(Outcomes[1]);
        assert t.callbacks.Get(Outcomes[2]) == counters.callbacks.Get(Outcomes[2]);
      }
      counters := counters.(processed := counters.processed + 1);
    }

    /** One run of `processRequest` on the received request at `k`: execute its recorded
        outcomes, count it, delete it, mark it processed and report it. */
    method ProcessAt(k: nat)
      requires Tied() && Sane(views) && k < |requests|
      requires requests[k].flags.received && !requests[k].flags.aborted
      modifies this`requests, this`views, this`counters, this`log, requests[k]
      ensures Tied() && Sane(views) && forall x :: x in requests ==> x in old(requests)
      ensures QS() == ProcessRound(old(QS()), k)
      ensures old(requests[k]) !in requests && forall x :: x in old(requests) && x != old(requests[k]) ==> x in requests
      ensures old(requests[k]).State() == RunRecorded(old(requests[k].State()))
      ensures ProcessesOnly(old(requests), requests, {})
    {
      var r := requests[k];
      ghost var v := views[k];
      var ex := r.execute;
      LocateAt(views, k);
      var found := Unlist(r);
      // The source runs the callbacks before deleting the request; they change the request alone
      // and deletion does not touch it, so deleting first ends in the same state.
      r.RunRecordedOutcomes();
      CountRun(ex, v);
      log := log + [Note(ProcessedEvent, v)];
    }

    /** The hook `sendRequest` installs on the request it sends, for the outcome `o`, called by
        the transport with context `ctx` and arguments `a`. `false` is the throw of
        `deleteRequest` when a 'request' mode request completes after it left the list. */
    method Deliver(r: Request, o: Outcome, ctx: Option<nat>, a: Option<nat>) returns (ok: bool)
      requires Valid() && Owns(r) && Answerable(QS(), r.Snapshot())
      modifies this`locked, this`requests, this`views, this`counters, this`log, requests, r
      ensures Valid() && (QS(), ok) == QueueSpec.Deliver(config, old(QS()), old(r.Snapshot()), o)
      ensures config.mode == RequestMode ==> r.State() == AnswerStep(old(r.State()), o, ctx, a) && SendsOnly(old(requests), {r})
      ensures config.mode == ResponseMode ==> ProcessesOnly(old(requests), requests, {r})
      ensures config.mode == ResponseMode ==>
        r.State() == if r in old(requests) && r !in requests
          then RunRecorded(RecordStep(old(r.State()), o, ctx, a)) else RecordStep(old(r.State()), o, ctx, a)
      ensures config.mode == ResponseMode && (o != Complete || old(r.flags.aborted)) ==>
        r.State() == RecordStep(old(r.State()), o, ctx, a)
      ensures config.mode == UnknownMode ==> r.State() == old(r.State()) && SendsOnly(old(requests), {})
    {
      ghost var q0 := QS();
      ghost var v := r.Snapshot();
      DeliverKeeps(config, q0, v, o);
      ok := true;
      if config.mode == RequestMode && !r.flags.aborted {
        ok := DeliverToRequest(r, o, ctx, a);
      } else if config.mode == ResponseMode {
        DeliverToResponse(r, o, ctx, a);
      }
    }

    /** The 'request' mode hook on a request that is not aborted. */
    method DeliverToRequest(r: Request, o: Outcome, ctx: Option<nat>, a: Option<nat>) returns (ok: bool)
      requires config.mode == RequestMode && Valid() && Owns(r) && Answerable(QS(), r.Snapshot())
      requires !r.flags.aborted
      modifies this`locked, this`requests, this`views, this`counters, this`log, requests, r
      ensures Tied() && (QS(), ok) == QueueSpec.DeliverToRequest(config, old(QS()), old(r.Snapshot()), o)
      ensures r.State() == AnswerStep(old(r.State()), o, ctx, a) && SendsOnly(old(requests), {r})
    {
      if o == Complete {
        ok := AnswerComplete(r, ctx, a);
      } else {
        AnswerPartial(r, o, ctx, a);
        ok := true;
      }
    }

    /** The 'request' mode hook on 'success' or 'error' for a request that is not aborted. */
    method AnswerPartial(r: Request, o: Outcome, ctx: Option<nat>, a: Option<nat>)
      requires config.mode == RequestMode && Tied() && Owns(r) && !r.flags.aborted && o != Complete
      modifies this`views, this`counters, this`log, r
      ensures Tied() && (QS(), true) == QueueSpec.DeliverToRequest(config, old(QS()), old(r.Snapshot()), o)
      ensures r.State() == AnswerStep(old(r.State()), o, ctx, a)
    {
      ghost var q0 := QS();
      ghost var v := r.Snapshot();
      Receive(r, o, ctx, a);
      assert QS() == q0.(views := Refresh(q0.views, Answered(config, v, o)), counters := q0.counters.Bump(o),
                         log := q0.log + (if v.flags.received then [] else [Note(ReceivedEvent, v)]) +
                                [Note(OutcomeEvent(o), v)]);
    }

    /** The 'request' mode hook on 'complete' for a request that is not aborted. */
    method AnswerComplete(r: Request, ctx: Option<nat>, a: Option<nat>) returns (ok: bool)
      requires config.mode == RequestMode && Valid() && Owns(r) && Answerable(QS(), r.Snapshot())
      requires !r.flags.aborted
      modifies this`locked, this`requests, this`views, this`counters, this`log, requests, r
      ensures Tied() && (QS(), ok) == QueueSpec.DeliverToRequest(config, old(QS()), old(r.Snapshot()), Complete)
      ensures r.State() == AnswerStep(old(r.State()), Complete, ctx, a) && SendsOnly(old(requests), {r})
    {
      ghost var q0 := QS();
      ghost var v := r.Snapshot();
      Receive(r, Complete, ctx, a);
      assert QS() == q0.(views := Refresh(q0.views, Answered(config, v, Complete)), counters := q0.counters.Bump(Complete),
                         log := q0.log + (if v.flags.received then [] else [Note(ReceivedEvent, v)]) +
                                [Note(OutcomeEvent(Complete), v)]);
      RefreshKeeps(config, q0, v, Complete);
      ok := FinishRequest(r);
    }

    /** The 'request' mode hook on 'complete', once the outcome has been executed: the request
        leaves the list (`false` when it is not there, where `deleteRequest` throws), then the
        queue is released. The request itself is not touched. */
    method FinishRequest(r: Request) returns (found: bool)
      requires Tied() && Owns(r) && Sane(views)
      modifies this`locked, this`requests, this`views, this`counters, this`log, requests
      ensures Tied()
      ensures (QS(), found) == match Locate(old(views), r.id)
                               case None => (old(QS()), false)
                               case Some(k) => (QueueSpec.Finish(config, old(QS()), k), true)
      ensures r.State() == old(r.State()) && SendsOnly(old(requests), {r})
    {
      ghost var q1 := QS();
      ghost var at := Locate(views, r.id);
      found := Unlist(r);
      assert forall x :: x in old(requests) ==> old(x.State()) == x.State();
      if !found {
        return;
      }
      assert QS() == q1.(views := RemoveAt(q1.views, at.value));
      assert forall i :: 0 <= i < |requests| ==> requests[i] in old(requests);
      ghost var s1 := r.State();
      ghost var rs := requests;
      assert r !in rs;
      label Mid:
      ReleaseFinished(q1.views[at.value]);
      assert r.State() == s1;
      forall x | x in old(requests) && x !in {r} ensures SendEffect(old(x.State()), x.State()) {
        assert x in rs && old(x.State()) == old@Mid(x.State());
      }
    }

    /** The end of the 'request' mode hook on 'complete', once the request `v` left the list. */
    method ReleaseFinished(ghost v: View)
      requires Tied() && Sane(views)
      modifies this`locked, this`views, this`counters, this`log, requests
      ensures Tied() && QS() == Release(config, old(QS()), v)
      ensures SendsOnly(old(requests), {})
    {
      ghost var q0 := QS();
      Book(counters.(received := counters.received + 1, processed := counters.processed + 1), false,
           [Note(ProcessedEvent, v)]);
      ghost var q2 := QS();
      assert Release(config, q0, v) == if Next(config.priority, Unsent, q2.views).None?
        then q2.(log := q2.log + [QueueEvent(AllProcessedEvent, None)]) else Send(config, q2);
      var next := NextRequest(Unsent);
      if next.None? {
        Report(QueueEvent(AllProcessedEvent, None));
      } else {
        SendRequest();
      }
    }

    /** The first part of the 'request' mode hook: 'received' on the first outcome, the callback,
        the outcome's event and its counter. */
    method Receive(r: Request, o: Outcome, ctx: Option<nat>, a: Option<nat>)
      requires config.mode == RequestMode && Tied() && Owns(r) && !r.flags.aborted
      modifies r, this`views, this`counters, this`log
      ensures Tied()
      ensures views == Refresh(old(views), Answered(config, old(r.Snapshot()), o))
      ensures counters == old(counters).Bump(o)
      ensures log == old(log) + (if old(r.flags.received) then [] else [Note(ReceivedEvent, old(r.Snapshot()))]) +
                     [Note(OutcomeEvent(o), old(r.Snapshot()))]
      ensures r.State() == AnswerStep(old(r.State()), o, ctx, a)
    {
      ghost var v := r.Snapshot();
      if !r.flags.received {
        log := log + [Note(ReceivedEvent, v)];
      }
      AnswerListed(r, o, ctx, a);
      log := log + [Note(OutcomeEvent(o), v)];
      counters := counters.Bump(o);
    }

    /** The listed request `r` answers the outcome `o`, and its snapshot is brought up to date. */
    method AnswerListed(r: Request, o: Outcome, ctx: Option<nat>, a: Option<nat>)
      requires config.mode == RequestMode && Tied() && Owns(r) && !r.flags.aborted
      modifies r, this`views
      ensures Tied() && views == Refresh(old(views), Answered(config, old(r.Snapshot()), o))
      ensures r.State() == AnswerStep(old(r.State()), o, ctx, a)
    {
      ghost var v := r.Snapshot();
      r.Answer(o, ctx, a);
      assert r.Snapshot() == Answered(config, v, o);
      RefreshListed(r);
    }

    /** The 'response' mode hook: the outcome is recorded on the request; 'complete' counts and
        reports the response, then processes. */
    method DeliverToResponse(r: Request, o: Outcome, ctx: Option<nat>, a: Option<nat>)
      requires config.mode == ResponseMode && Valid() && Owns(r) && Answerable(QS(), r.Snapshot())
      modifies this`locked, this`requests, this`views, this`counters, this`log, requests, r
      ensures Tied() && QS() == QueueSpec.DeliverToResponse(config, old(QS()), old(r.Snapshot()), o)
      ensures ProcessesOnly(old(requests), requests, {r})
      ensures r.State() == if r in old(requests) && r !in requests
        then RunRecorded(RecordStep(old(r.State()), o, ctx, a)) else RecordStep(old(r.State()), o, ctx, a)
      ensures o != Complete || old(r.flags.aborted) ==> r.State() == RecordStep(old(r.State()), o, ctx, a)
    {
      if o == Complete {
        RespondComplete(r, ctx, a);
      } else {
        RecordAnswer(r, o, ctx, a);
      }
    }

    /** The 'response' mode hook on 'complete'. */
    method RespondComplete(r: Request, ctx: Option<nat>, a: Option<nat>)
      requires config.mode == ResponseMode && Valid() && Owns(r) && Answerable(QS(), r.Snapshot())
      modifies this`locked, this`requests, this`views, this`counters, this`log, requests, r
      ensures Tied() && QS() == QueueSpec.DeliverToResponse(config, old(QS()), old(r.Snapshot()), Complete)
      ensures ProcessesOnly(old(requests), requests, {r})
      ensures r in old(requests) && r !in requests ==>
        !old(r.flags.aborted) && r.State() == RunRecorded(RecordStep(old(r.State()), Complete, ctx, a))
      ensures r !in old(requests) || r in requests ==> r.State() == RecordStep(old(r.State()), Complete, ctx, a)
    {
      ghost var q0 := QS();
      ghost var v := r.Snapshot();
      RecordAnswer(r, Complete, ctx, a);
      assert Sane(views) by { RefreshKeeps(config, q0, v, Complete); }
      ghost var q1 := QS().(counters := counters.(received := counters.received + 1), log := log + [Note(ReceivedEvent, v)]);
      assert QueueSpec.DeliverToResponse(config, q0, v, Complete) == Process(config, q1);
      label Recorded:
      ProcessResponse(v);
      forall x | x in old(requests) && x !in {r} ensures ProcessEffect(old(x.State()), x.State(), x in requests) {
        assert old(x.State()) == old@Recorded(x.State());
      }
      if r in old(requests) {
        assert ProcessEffect(old@Recorded(r.State()), r.State(), r in requests);
      }
    }

    /** The end of the 'response' mode hook on 'complete': the response `v` is counted and
        reported, then `processRequest` runs. */
    method ProcessResponse(ghost v: View)
      requires Tied() && Sane(views)
      modifies this`locked, this`requests, this`views, this`counters, this`log, requests
      ensures Tied() && forall x :: x in requests ==> x in old(requests)
      ensures QS() == Process(config, old(QS()).(counters := old(counters).(received := old(counters).received + 1),
                                                 log := old(log) + [Note(ReceivedEvent, v)]))
      ensures ProcessesOnly(old(requests), requests, {})
    {
      ghost var q1 := QS().(counters := counters.(received := counters.received + 1), log := log + [Note(ReceivedEvent, v)]);
      Book(counters.(received := counters.received + 1), locked, [Note(ReceivedEvent, v)]);
      assert QS() == q1;
      ProcessRequest();
    }

    /** The first part of the 'response' mode hook: the outcome is recorded on the request. */
    method RecordAnswer(r: Request, o: Outcome, ctx: Option<nat>, a: Option<nat>)
      requires config.mode == ResponseMode && Tied() && Owns(r)
      modifies r, this`views
      ensures Tied() && views == Refresh(old(views), Answered(config, old(r.Snapshot()), o))
      ensures r.State() == RecordStep(old(r.State()), o, ctx, a)
    {
      r.Record(o, ctx, a);
      views := Refresh(views, r.Snapshot());
    }

    /** `cancelRequest(r, abort)`, called by `Request.cancel` once it has set `canceled` or
        `aborted` on `r`; `v` is the snapshot listed before that. `false` is the throw of
        `deleteRequest` when `r` is not in the list. */
    method CancelRequest(r: Request, abort: bool, ghost v: View) returns (ok: bool)
      requires TiedExcept(r) && Owns(r) && Inv(config, QS()) && Tracked(QS(), v) && v.id == r.id
      requires DecideCancel(v.flags, abort) == CancelPending || DecideCancel(v.flags, abort) == AbortInFlight
      requires r.Snapshot() == v.(flags := CancelResult(v.flags, abort).1)
      modifies this`locked, this`requests, this`views, this`counters, this`log, requests
      ensures Valid() && (QS(), ok) == CancelInQueue(config, old(QS()), old(r.Snapshot()), abort)
      ensures forall x :: x in requests ==> x in old(requests)
      ensures r.State() == old(r.State())
      ensures config.mode == RequestMode ==> SendsOnly(old(requests), {r})
      ensures config.mode != RequestMode ==> ProcessesOnly(old(requests), requests, {r})
    {
      RequestCancelKeeps(config, QS(), v, abort);
      if !r.flags.sent {
        ok := UnlistCanceled(r);
      } else if abort && !r.flags.processed {
        ok := UnlistAborted(r, v);
      } else {
        assert false;
      }
    }

    /** `cancelRequest` on an unsent request: delete, count and report it. */
    method UnlistCanceled(r: Request) returns (ok: bool)
      requires TiedExcept(r) && Owns(r) && Sane(views)
      modifies this`requests, this`views, this`counters, this`locked, this`log
      ensures Tied() && forall x :: x in requests ==> x in old(requests)
      ensures forall x :: x in old(requests) && x != r ==> x in requests
      ensures (QS(), ok) == CancelUnsent(old(QS()), old(r.Snapshot()))
      ensures config.mode == RequestMode ==> SendsOnly(old(requests), {r})
      ensures config.mode != RequestMode ==> ProcessesOnly(old(requests), requests, {r})
    {
      ok := DeleteCanceled(r);
      UntouchedFrames(old(requests), requests, {r});
    }

    /** The queue's side of `UnlistCanceled`. */
    method DeleteCanceled(r: Request) returns (ok: bool)
      requires TiedExcept(r) && Owns(r) && Sane(views)
      modifies this`requests, this`views, this`counters, this`locked, this`log
      ensures Tied() && forall x :: x in requests ==> x in old(requests)
      ensures forall x :: x in old(requests) && x != r ==> x in requests
      ensures (QS(), ok) == CancelUnsent(old(QS()), old(r.Snapshot()))
    {
      ghost var q0 := QS();
      ghost var w := r.Snapshot();
      ghost var at := Locate(q0.views, w.id);
      ok := Unlist(r);
      if ok {
        ghost var q1 := q0.(views := RemoveAt(q0.views, at.value));
        assert QS() == q1;
        Book(counters.(canceled := counters.canceled + 1), locked, [Note(CanceledEvent, w)]);
        assert QS() == q1.(counters := q0.counters.(canceled := q0.counters.canceled + 1),
                           log := q0.log + [Note(CanceledEvent, w)]);
      }
    }

    /** `cancelRequest(r, true)` on a request in flight, whose snapshot was `v` before it was
        marked aborted: react to the abort, then delete it. */
    method UnlistAborted(r: Request, ghost v: View) returns (ok: bool)
      requires TiedExcept(r) && Owns(r) && Inv(config, QS()) && Tracked(QS(), v) && v.id == r.id
      requires DecideCancel(v.flags, true) == AbortInFlight
      requires r.Snapshot() == v.(flags := v.flags.Set(Aborted))
      modifies this`locked, this`requests, this`views, this`counters, this`log, requests
      ensures Tied() && forall x :: x in requests ==> x in old(requests)
      ensures (QS(), ok) == AbortSent(config, old(QS()), old(r.Snapshot()))
      ensures r.State() == old(r.State())
      ensures config.mode == RequestMode ==> SendsOnly(old(requests), {r})
      ensures config.mode != RequestMode ==> ProcessesOnly(old(requests), requests, {r})
    {
      if config.mode == RequestMode {
        ok := UnlistAbortedSent(r, v);
      } else {
        ok := UnlistAbortedProcessed(r, v);
      }
    }

    /** `UnlistAborted` in 'request' mode: count, report, unlock and send, then delete. */
    method UnlistAbortedSent(r: Request, ghost v: View) returns (ok: bool)
      requires TiedExcept(r) && Owns(r) && Inv(config, QS()) && Tracked(QS(), v) && v.id == r.id
      requires DecideCancel(v.flags, true) == AbortInFlight && config.mode == RequestMode
      requires r.Snapshot() == v.(flags := v.flags.Set(Aborted))
      modifies this`locked, this`requests, this`views, this`counters, this`log, requests
      ensures Tied() && forall x :: x in requests ==> x in old(requests)
      ensures (QS(), ok) == AbortSent(config, old(QS()), old(r.Snapshot()))
      ensures r.State() == old(r.State())
      ensures SendsOnly(old(requests), {r})
    {
      ghost var rs, ss := requests, StatesOf(requests);
      ReactInRequest(r, v, rs, ss);
      ok := DeleteAborted(r, old(QS()), old(r.Snapshot()));
      SendsOnlyFromStates(rs, ss, r);
    }

    /** The deletion that ends `cancelRequest` on an aborted request, once the queue has reacted
        to the abort of `w` in the state `q0`. */
    method DeleteAborted(r: Request, ghost q0: QState, ghost w: View) returns (ok: bool)
      requires TiedExcept(r) && Owns(r) && Sane(views) && w.id == r.id
      requires QS() == AfterAbort(config, q0, w)
      modifies this`requests, this`views
      ensures Tied() && forall x :: x in requests ==> x in old(requests)
      ensures (QS(), ok) == AbortSent(config, q0, w)
    {
      ok := Unlist(r);
    }

    /** The reaction of a 'request' mode queue to the abort of `r`, whose snapshot was `v`:
        count, report, unlock and send. */
    method ReactInRequest(r: Request, ghost v: View, ghost rs: seq<Request>, ghost ss: seq<RequestState>)
      requires TiedExcept(r) && Owns(r) && Inv(config, QS()) && Tracked(QS(), v) && v.id == r.id
      requires DecideCancel(v.flags, true) == AbortInFlight && config.mode == RequestMode
      requires r.Snapshot() == v.(flags := v.flags.Set(Aborted))
      requires rs == requests && ss == StatesOf(requests)
      modifies this`locked, this`requests, this`views, this`counters, this`log, requests
      ensures Tied() && Owns(r) && Sane(views) && requests == old(requests)
      ensures QS() == AfterAbort(config, old(QS()), old(r.Snapshot()))
      ensures r.State() == old(r.State())
      ensures SentBut(rs, ss, r)
    {
      ghost var q0 := QS();
      ghost var w := r.Snapshot();
      CancelMarkSane(q0, v, true);
      var k := Locate(q0.views, v.id).value;
      AbortRequestAfter(config, q0, v, k);
      RefreshListed(r);
      AbortAndSend(r, w);
      forall i | 0 <= i < |rs| && rs[i] != r ensures SendEffect(ss[i], rs[i].State()) {
        assert rs[i] in rs;
      }
    }

    /** `UnlistAborted` in 'response' mode (count, report and process, then delete) and in an
        unknown mode (only delete). */
    method UnlistAbortedProcessed(r: Request, ghost v: View) returns (ok: bool)
      requires TiedExcept(r) && Owns(r) && Inv(config, QS()) && Tracked(QS(), v) && v.id == r.id
      requires DecideCancel(v.flags, true) == AbortInFlight && config.mode != RequestMode
      requires r.Snapshot() == v.(flags := v.flags.Set(Aborted))
      modifies this`locked, this`requests, this`views, this`counters, this`log, requests
      ensures Tied() && forall x :: x in requests ==> x in old(requests)
      ensures (QS(), ok) == AbortSent(config, old(QS()), old(r.Snapshot()))
      ensures r.State() == old(r.State())
      ensures ProcessesOnly(old(requests), requests, {r})
    {
      if config.mode == ResponseMode {
        ghost var rs, ss := requests, StatesOf(requests);
        ok := UnlistAbortedResponse(r, v, rs, ss);
        ProcessesOnlyFromStates(rs, requests, ss, {r});
      } else {
        ok := UnlistAbortedUnknown(r, v);
      }
    }

    /** `UnlistAborted` in an unknown mode: the abort is neither counted nor followed up, and
        the request is deleted. */
    method UnlistAbortedUnknown(r: Request, ghost v: View) returns (ok: bool)
      requires TiedExcept(r) && Owns(r) && Inv(config, QS()) && Tracked(QS(), v) && v.id == r.id
      requires DecideCancel(v.flags, true) == AbortInFlight && config.mode == UnknownMode
      requires r.Snapshot() == v.(flags := v.flags.Set(Aborted))
      modifies this`requests, this`views
      ensures Tied() && forall x :: x in requests ==> x in old(requests)
      ensures (QS(), ok) == AbortSent(config, old(QS()), old(r.Snapshot()))
      ensures ProcessesOnly(old(requests), requests, {r})
    {
      CancelMarkSane(QS(), v, true);
      RefreshListed(r);
      ok := Unlist(r);
      UntouchedFrames(old(requests), requests, {r});
    }

    /** `UnlistAborted` in 'response' mode: count, report and process, then delete. */
    method UnlistAbortedResponse(r: Request, ghost v: View, ghost rs: seq<Request>, ghost ss: seq<RequestState>) returns (ok: bool)
      requires TiedExcept(r) && Owns(r) && Inv(config, QS()) && Tracked(QS(), v) && v.id == r.id
      requires DecideCancel(v.flags, true) == AbortInFlight && config.mode == ResponseMode
      requires r.Snapshot() == v.(flags := v.flags.Set(Aborted))
      requires rs == requests && ss == StatesOf(requests)
      modifies this`locked, this`requests, this`views, this`counters, this`log, requests
      ensures Tied() && forall x :: x in requests ==> x in old(requests)
      ensures (QS(), ok) == AbortSent(config, old(QS()), old(r.Snapshot()))
      ensures r.State() == old(r.State())
      ensures ProcessedBut(rs, ss, r)
    {
      ReactInResponse(r, v, rs, ss);
      ok := DeleteAbortedKeeping(r, old(QS()), old(r.Snapshot()), rs, ss);
    }

    /** `DeleteAborted`, which keeps what `ProcessedBut` says about the requests other than
        `r`. */
    method DeleteAbortedKeeping(r: Request, ghost q0: QState, ghost w: View, ghost rs: seq<Request>, ghost ss: seq<RequestState>) returns (ok: bool)
      requires TiedExcept(r) && Owns(r) && Sane(views) && w.id == r.id
      requires QS() == AfterAbort(config, q0, w) && ProcessedBut(rs, ss, r)
      modifies this`requests, this`views
      ensures Tied() && forall x :: x in requests ==> x in old(requests)
      ensures (QS(), ok) == AbortSent(config, q0, w)
      ensures ProcessedBut(rs, ss, r)
    {
      ok := Unlist(r);
    }

    /** The reaction of a 'response' mode queue to the abort of `r`, whose snapshot was `v`:
        count, report and process. */
    method ReactInResponse(r: Request, ghost v: View, ghost rs: seq<Request>, ghost ss: seq<RequestState>)
      requires TiedExcept(r) && Owns(r) && Inv(config, QS()) && Tracked(QS(), v) && v.id == r.id
      requires DecideCancel(v.flags, true) == AbortInFlight && config.mode == ResponseMode
      requires r.Snapshot() == v.(flags := v.flags.Set(Aborted))
      requires rs == requests && ss == StatesOf(requests)
      modifies this`locked, this`requests, this`views, this`counters, this`log, requests
      ensures Tied() && Owns(r) && Sane(views) && forall x :: x in requests ==> x in old(requests)
      ensures QS() == AfterAbort(config, old(QS()), old(r.Snapshot()))
      ensures r.State() == old(r.State())
      ensures ProcessedBut(rs, ss, r)
    {
      ghost var q0 := QS();
      ghost var w := r.Snapshot();
      CancelMarkSane(q0, v, true);
      var k := Locate(q0.views, v.id).value;
      RefreshListed(r);
      AbortResponseAfter(config, q0, v, k);
      AbortAndProcess(r, w);
    }

    /** 'request' mode: the aborted request was the one in flight. */
    method AbortAndSend(r: Request, ghost w: View)
      requires Tied() && Sane(views) && r.flags.sent
      modifies this`locked, this`requests, this`views, this`counters, this`log, requests
      ensures Tied() && requests == old(requests) && r.State() == old(r.State())
      ensures QS() == Send(config, CountAbort(old(QS()), w).(locked := false))
      ensures SendsOnly(old(requests), {})
    {
      NoteAbort(w, true);
      SendRequest();
    }

    /** Count and report the abort of `w`, releasing the lock when `unlock` is set. */
    method NoteAbort(ghost w: View, unlock: bool)
      modifies this`locked, this`counters, this`log
      ensures QS() == CountAbort(old(QS()), w).(locked := if unlock then false else old(locked))
    {
      counters := counters.(aborted := counters.aborted + 1);
      if unlock {
        locked := false;
      }
      log := log + [Note(AbortedEvent, w)];
    }

    /** 'response' mode: the abort may have unblocked processing. */
    method AbortAndProcess(r: Request, ghost w: View)
      requires Tied() && Sane(views) && Owns(r) && r.flags.aborted
      modifies this`locked, this`requests, this`views, this`counters, this`log, requests
      ensures Tied() && Owns(r) && forall x :: x in requests ==> x in old(requests)
      ensures r.State() == old(r.State())
      ensures QS() == Process(config, CountAbort(old(QS()), w))
      ensures ProcessesOnly(old(requests), requests, {})
      ensures ProcessedSince(old(requests), old(StatesOf(requests)))
    {
      ghost var ss := StatesOf(requests);
      NoteAbort(w, false);
      ghost var rs := requests;
      assert forall i :: 0 <= i < |rs| && rs[i].id == r.id ==> rs[i] == r;
      ProcessRequest();
      forall i | 0 <= i < |requests| && requests[i].id == r.id ensures requests[i] == r {
        assert requests[i] in rs;
      }
      forall i | 0 <= i < |rs| ensures ProcessEffect(ss[i], rs[i].State(), rs[i] in requests) {
        assert rs[i] in rs;
      }
    }

    /** One step of `cancel(abort)`: `cancel` on the request at `i`. */
    method CancelAt(i: nat, abort: bool) returns (res: Result<bool>)
      requires Valid() && i < |requests|
      modifies this`locked, this`requests, this`views, this`counters, this`log, requests
      ensures Valid() && forall x :: x in requests ==> x in old(requests)
      ensures (QS(), res) == RequestCancel(config, old(QS()), old(views)[i], abort)
      ensures old(requests[i]).State() == Records.CancelStep(old(requests[i].State()), abort).1
      ensures config.mode == RequestMode ==> SendsOnly(old(requests), {old(requests[i])})
      ensures config.mode != RequestMode ==> ProcessesOnly(old(requests), requests, {old(requests[i])})
    {
      var r := requests[i];
      LocateAt(views, i);
      assert r.queue == this;
      res := r.Cancel(abort);
    }

    /** A step of the corrected scan, at position `i` of the list. */
    method CancelScanAt(i: nat, abort: bool) returns (res: Result<bool>)
      requires Valid() && i < |requests|
      modifies this`locked, this`requests, this`views, this`counters, this`log, requests
      ensures Valid() && forall x :: x in requests ==> x in old(requests)
      ensures res.Err? ==> res.fault == RequestNotInQueue && CancelScan(config, old(QS()), abort, i) == (QS(), false)
      ensures res == Ok(true) ==>
        |requests| < old(|requests|) && CancelScan(config, old(QS()), abort, i) == CancelScan(config, QS(), abort, 0)
      ensures res == Ok(false) ==>
        QS() == old(QS()) && |requests| == old(|requests|) && CancelScan(config, old(QS()), abort, i) == CancelScan(config, QS(), abort, i + 1)
    {
      CancelScanStep(config, QS(), abort, i);
      assert forall j :: 0 <= j < |requests| ==> requests[j] in old(requests);
      res := CancelAt(i, abort);
    }

    /** `cancel(abort)`, with the scan restarting from the front after each successful
        cancellation; an empty queue throws, as the source's do-while reads the first request
        before checking the length. */
    method Cancel(abort: bool) returns (err: Option<Fault>)
      requires Valid()
      modifies this`locked, this`requests, this`views, this`counters, this`log, requests
      ensures Valid() && (QS(), err) == CancelQueue(config, old(QS()), abort)
    {
      if |requests| == 0 {
        return Some(EmptyQueueCanceled);
      }
      var i := 0;
      while i < |requests|
        invariant Valid() && i <= |requests|
        invariant forall x :: x in requests ==> x in old(requests)
        invariant CancelScan(config, QS(), abort, i) == CancelScan(config, old(QS()), abort, 0)
        decreases |requests|, |requests| - i
      {
        assert forall j :: 0 <= j < |requests| ==> requests[j] in old(requests);
        var res := CancelScanAt(i, abort);
        match res
        case Err(e) =>
          return Some(e);
        case Ok(done) =>
          if done {
            i := 0;
          } else {
            i := i + 1;
          }
      }
      err := None;
    }

    /** `addRequest(settings)`: the request is built (a listener that is not a function throws
        and nothing is added), inserted at the end ('fifo') or the front ('lifo'), counted,
        reported to its own and the queue's listeners, and the queue tries to send. `id` is the
        value of the process-wide request counter, so no listed request carries it. */
    method AddRequest(id: nat, priority: Option<int>, callbacks: Slots<Option<nat>>, hs: seq<Handler>)
      returns (res: Result<Request>)
      requires Valid() && id !in Ids(views)
      modifies this`locked, this`requests, this`views, this`counters, this`log, requests
      ensures Valid()
      ensures res.Err? <==> !AcceptHandlers(hs).1
      ensures res.Err? ==> res.fault == FunctionExpected && QS() == old(QS()) && requests == old(requests)
      ensures res.Ok? ==>
        fresh(res.value) && res.value.id == id && res.value.queue == this &&
        QS() == Add(config, old(QS()), View(id, priority, Initial, Slots(false, false, false)))
      ensures res.Ok? && config.order != UnknownOrder ==> res.value in requests
      ensures res.Ok? ==> res.value.callbacks == callbacks && res.value.listeners == AcceptHandlers(hs).0
      ensures res.Ok? ==> SendEffect(Created(callbacks, AcceptHandlers(hs).0).(events := [AddedToQueue]), res.value.State())
      ensures SendsOnly(old(requests), {})
    {
      var ids, ok := AcceptListeners(hs);
      if !ok {
        return Err(FunctionExpected);
      }
      var r := new Request(this, id, priority, callbacks, ids);
      Admit(r);
      res := Ok(r);
    }

    /** `addRequest` once the request `r` is built: enqueue it, then `sendRequest`. */
    method Admit(r: Request)
      requires Valid() && r.queue == this && r !in requests
      requires r.flags == Initial && r.execute == Slots(false, false, false) && r.id !in Ids(views)
      modifies this`locked, this`requests, this`views, this`counters, this`log, requests, r
      ensures Valid() && QS() == Add(config, old(QS()), old(r.Snapshot()))
      ensures config.order != UnknownOrder ==> r in requests
      ensures SendEffect(old(r.State()).(events := old(r.events) + [AddedToQueue]), r.State())
      ensures SendsOnly(old(requests), {})
    {
      ghost var q0 := QS();
      ghost var v := r.Snapshot();
      assert Inv(config, Add(config, q0, v)) by { AddKeeps(config, q0, v); }
      Enqueue(r);
      ghost var q1 := QS();
      assert Send(config, q1) == Add(config, q0, v);
      assert forall j :: 0 <= j < |requests| ==> requests[j] in old(requests) || requests[j] == r;
      SendRequest();
    }

    /** `addRequest` up to its `sendRequest`: insert, count and report the new request `r`. */
    method Enqueue(r: Request)
      requires Valid() && r.queue == this && r !in requests
      requires r.flags == Initial && r.id !in Ids(views)
      modifies this`requests, this`views, this`counters, this`log, r
      ensures Tied() && Sane(views) && r.Snapshot() == old(r.Snapshot())
      ensures r.State() == old(r.State()).(events := old(r.events) + [AddedToQueue])
      ensures QS() == old(QS().(views := QueueSpec.Insert(config.order, views, r.Snapshot()),
                                counters := counters.(added := counters.added + 1),
                                log := log + [Note(AddedEvent, r.Snapshot())]))
      ensures config.order != UnknownOrder ==> r in requests
      ensures forall x :: x in requests ==> x in old(requests) || x == r
    {
      InsertKeeps(config, QS(), r.Snapshot());
      Place(r);
      counters := counters.(added := counters.added + 1);
      r.Added();
      log := log + [Note(AddedEvent, r.Snapshot())];
    }

    /** The `switch` on `order` in `addRequest`: `push` for 'fifo', `unshift` for 'lifo'. */
    method Place(r: Request)
      requires Tied() && r.queue == this && r !in requests
      modifies this`requests, this`views
      ensures Tied() && views == QueueSpec.Insert(config.order, old(views), r.Snapshot())
      ensures requests == match config.order
        case Fifo => old(requests) + [r] case Lifo => [r] + old(requests) case UnknownOrder => old(requests)
    {
      match config.order
      case Fifo =>
        requests := requests + [r];
        views := views + [r.Snapshot()];
      case Lifo =>
        requests := [r] + requests;
        views := [r.Snapshot()] + views;
      case UnknownOrder =>
    }

    /** `enable`: the queue is enabled, reports it, and tries to send. */
    method Enable()
      requires Valid()
      modifies this`enabled, this`locked, this`requests, this`views, this`counters, this`log, requests
      ensures Valid() && QS() == QueueSpec.Enable(config, old(QS())) && requests == old(requests)
      ensures SendsOnly(old(requests), {})
    {
      enabled := true;
      log := log + [QueueEvent(EnabledEvent, None)];
      SendKeeps(config, QS());
      SendRequest();
    }

    /** `disable`: the queue is disabled and reports it. */
    method Disable()
      requires Valid()
      modifies this`enabled, this`log
      ensures Valid() && QS() == QueueSpec.Disable(old(QS()))
    {
      enabled := false;
      log := log + [QueueEvent(DisabledEvent, None)];
    }

    /** `toggle`. */
    method Toggle()
      requires Valid()
      modifies this`enabled, this`locked, this`requests, this`views, this`counters, this`log, requests
      ensures Valid() && QS() == QueueSpec.Toggle(config, old(QS())) && requests == old(requests)
      ensures SendsOnly(old(requests), {})
    {
      if enabled {
        Disable();
      } else {
        Enable();
      }
    }

    /** `addListener(listener)`: "Function expected!" for anything else. */
    method AddListener(h: Handler) returns (r: Result<()>)
      modifies this`listeners
      ensures r.Err? <==> h.NotAFunction?
      ensures listeners == if r.Err? then old(listeners) else old(listeners) + [h.id]
    {
      match h
      case NotAFunction => r := Err(FunctionExpected);
      case Function(id) =>
        listeners := listeners + [id];
        r := Ok(());
    }

    /** `removeListener(listener)`: the first registration of it is removed. */
    method RemoveListener(listener: nat) returns (found: bool)
      modifies this`listeners
      ensures found <==> listener in old(listeners)
      ensures listeners == RemoveFirst(old(listeners), listener)
    {
      var at := Find(listeners, listener);
      found := at.Some?;
      if found {
        listeners := RemoveAt(listeners, at.value);
      }
    }
  }
}
