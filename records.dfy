/** The records a request and a queue keep: the three outcome slots, the counters, the events
    dispatched to listeners, the callback invocations, and the transitions of a request's state
    as pure functions. The `Request` class of the engine performs exactly these transitions. */
module Records {
  import opened Wrappers
  import opened Lifecycle

  /** One value per outcome name: `callbacks`, `execute`, `contexts`, `args`, `counters.callbacks`. */
  datatype Slots<T> = Slots(success: T, error: T, complete: T)
  {
    function Get(o: Outcome): T
    {
      match o
      case Success => success
      case Error => error
      case Complete => complete
    }

    function Put(o: Outcome, v: T): (r: Slots<T>)
      ensures r.Get(o) == v
      ensures forall q :: q != o ==> r.Get(q) == Get(q)
    {
      match o
      case Success => this.(success := v)
      case Error => this.(error := v)
      case Complete => this.(complete := v)
    }
  }

  /** One invocation of a user callback: which function, with which `this` and which arguments. */
  datatype Call = Call(callback: nat, context: Option<nat>, args: Option<nat>)

  /** An event a request dispatches to its listeners: every `setFlag`, and 'added'. */
  datatype RequestEvent = FlagEvent(flag: Flag) | AddedToQueue

  /** Everything a request holds that the engine changes. */
  datatype RequestState = RequestState(
    flags: Flags,
    callbacks: Slots<Option<nat>>,
    execute: Slots<bool>,
    contexts: Slots<Option<nat>>,
    args: Slots<Option<nat>>,
    listeners: seq<nat>,
    events: seq<RequestEvent>,
    calls: seq<Call>)

  const NoValues: Slots<Option<nat>> := Slots(None, None, None)

  /** A request as its constructor leaves it. */
  function Created(callbacks: Slots<Option<nat>>, listeners: seq<nat>): RequestState
  {
    RequestState(Initial, callbacks, Slots(false, false, false), NoValues, NoValues, listeners, [], [])
  }

  /** `setFlag(f)`: the flag is set and the event is dispatched to the request's listeners. */
  function SetFlagStep(s: RequestState, f: Flag): RequestState
  {
    s.(flags := s.flags.Set(f), events := s.events + [FlagEvent(f)])
  }

  /** `executeCallback(o, context, args)`. */
  function ExecuteStep(s: RequestState, o: Outcome, ctx: Option<nat>, a: Option<nat>): (t: RequestState)
    ensures s.contexts.Get(o).None? || s.args.Get(o).None? ==> t.contexts.Get(o) == ctx && t.args.Get(o) == a
    ensures s.contexts.Get(o).Some? && s.args.Get(o).Some? ==> t.contexts == s.contexts && t.args == s.args
    ensures forall q :: q != o ==> t.contexts.Get(q) == s.contexts.Get(q) && t.args.Get(q) == s.args.Get(q)
    ensures t.calls == s.calls + (match s.callbacks.Get(o) case None => [] case Some(cb) => [Call(cb, ctx, a)])
    ensures t.flags == if o == Complete then s.flags.Set(Done(o)).Set(Processed) else s.flags.Set(Done(o))
    ensures t.callbacks == s.callbacks && t.execute == s.execute && t.listeners == s.listeners
  {
    var captured :=
      if s.contexts.Get(o).None? || s.args.Get(o).None? then
        s.(contexts := s.contexts.Put(o, ctx), args := s.args.Put(o, a))
      else s;
    var invoked :=
      match s.callbacks.Get(o)
      case None => captured
      case Some(cb) => captured.(calls := captured.calls + [Call(cb, ctx, a)]);
    var flagged := SetFlagStep(invoked, Done(o));
    if o == Complete then SetFlagStep(flagged, Processed) else flagged
  }

  /** The hook a 'request' mode queue installs, for outcome `o`: an aborted request is left alone;
      otherwise the first outcome to arrive sets `received`, and the callback is executed. */
  function AnswerStep(s: RequestState, o: Outcome, ctx: Option<nat>, a: Option<nat>): (t: RequestState)
    ensures s.flags.aborted ==> t == s
    ensures !s.flags.aborted ==>
      t.flags == (if o == Complete then s.flags.Set(Received).Set(Done(o)).Set(Processed)
                  else s.flags.Set(Received).Set(Done(o)))
    ensures !s.flags.aborted ==> t.calls == s.calls + (match s.callbacks.Get(o) case None => [] case Some(cb) => [Call(cb, ctx, a)])
    ensures t.callbacks == s.callbacks && t.execute == s.execute && t.listeners == s.listeners
  {
    if s.flags.aborted then s
    else ExecuteStep(if s.flags.received then s else SetFlagStep(s, Received), o, ctx, a)
  }

  /** The hook a 'response' mode queue installs, for outcome `o`: the outcome is recorded for
      later execution with its context and arguments, and 'complete' sets `received`. Nothing is
      executed. */
  function RecordStep(s: RequestState, o: Outcome, ctx: Option<nat>, a: Option<nat>): (t: RequestState)
    ensures t.execute == s.execute.Put(o, true)
    ensures t.contexts == s.contexts.Put(o, ctx) && t.args == s.args.Put(o, a)
    ensures t.flags == if o == Complete then s.flags.Set(Received) else s.flags
    ensures t.callbacks == s.callbacks && t.calls == s.calls && t.listeners == s.listeners
  {
    var t := s.(execute := s.execute.Put(o, true), contexts := s.contexts.Put(o, ctx), args := s.args.Put(o, a));
    if o == Complete then SetFlagStep(t, Received) else t
  }

  /** Context and arguments are captured by the first execution that supplies both; later
      executions of the same outcome run the callback with their own values but record nothing. */
  lemma CaptureOnce(s: RequestState, o: Outcome, c1: Option<nat>, a1: Option<nat>, c2: Option<nat>, a2: Option<nat>)
    requires c1.Some? && a1.Some?
    ensures var t1 := ExecuteStep(s, o, c1, a1);
      var t2 := ExecuteStep(t1, o, c2, a2);
      (s.contexts.Get(o).None? ==> t2.contexts.Get(o) == c1 && t2.args.Get(o) == a1) &&
      t2.contexts == t1.contexts && t2.args == t1.args &&
      t2.calls == t1.calls + (match s.callbacks.Get(o) case None => [] case Some(cb) => [Call(cb, c2, a2)])
  {
  }

  /** `setCallback(o, callback)`: a non-function is an error; otherwise the slot is replaced and
      the call returns true exactly when the request is not processed yet. */
  function SetCallbackStep(s: RequestState, o: Outcome, h: Handler): (r: Result<(bool, RequestState)>)
    ensures h.NotAFunction? <==> r.Err?
    ensures r.Err? ==> r.fault == FunctionExpected
    ensures r.Ok? ==> (r.value.0 <==> !s.flags.processed)
    ensures r.Ok? && r.value.0 ==> r.value.1 == s.(callbacks := s.callbacks.Put(o, Some(h.id)))
    ensures r.Ok? && !r.value.0 ==> r.value.1 == s
  {
    match h
    case NotAFunction => Err(FunctionExpected)
    case Function(id) =>
      if !s.flags.processed then Ok((true, s.(callbacks := s.callbacks.Put(o, Some(id))))) else Ok((false, s))
  }

  /** The flag part of `Request.cancel`, with the event its `setFlag` dispatches. */
  function CancelStep(s: RequestState, abort: bool): (r: (bool, RequestState))
    ensures r.0 == CancelResult(s.flags, abort).0 && r.1.flags == CancelResult(s.flags, abort).1
    ensures r.1.flags == s.flags ==> r.1 == s
  {
    match DecideCancel(s.flags, abort)
    case CancelPending => (true, SetFlagStep(s, Canceled))
    case AbortInFlight => (true, SetFlagStep(s, Aborted))
    case AlreadyEnded => (true, s)
    case Refused => (false, s)
  }

  /** One outcome of `processRequest`'s loop over the slots: executed with its recorded context
      and arguments when the transport hook recorded it, skipped otherwise. */
  function RecordedStep(s: RequestState, o: Outcome): RequestState
  {
    if s.execute.Get(o) then ExecuteStep(s, o, s.contexts.Get(o), s.args.Get(o)) else s
  }

  /** What `processRequest` does to a received request: every recorded outcome is executed, in the
      order success, error, complete, and then `processed` is set. */
  function RunRecorded(s: RequestState): RequestState
  {
    SetFlagStep(RecordedStep(RecordedStep(RecordedStep(s, Success), Error), Complete), Processed)
  }

  /** The order in which `processRequest` walks the outcomes. */
  const Outcomes: seq<Outcome> := [Success, Error, Complete]

  /** The recorded outcomes in `os` executed one after another. */
  function RunFirst(s: RequestState, os: seq<Outcome>): RequestState
    decreases |os|
  {
    if os == [] then s else RecordedStep(RunFirst(s, os[..|os| - 1]), os[|os| - 1])
  }

  /** The calls one recorded outcome contributes. */
  function RecordedCall(s: RequestState, o: Outcome): seq<Call>
  {
    if s.execute.Get(o) then
      match s.callbacks.Get(o)
      case None => []
      case Some(cb) => [Call(cb, s.contexts.Get(o), s.args.Get(o))]
    else []
  }

  /** A recorded step re-records nothing, invokes the recorded callback, and sets the outcome's
      flag (and `processed` for complete) exactly when the outcome was recorded. */
  lemma RecordedStepSpec(s: RequestState, o: Outcome)
    ensures var t := RecordedStep(s, o);
      t.contexts == s.contexts && t.args == s.args && t.callbacks == s.callbacks &&
      t.execute == s.execute && t.listeners == s.listeners &&
      t.calls == s.calls + RecordedCall(s, o) &&
      (t.flags.Get(Done(o)) <==> s.flags.Get(Done(o)) || s.execute.Get(o)) &&
      (forall q :: q != o ==> t.flags.Get(Done(q)) == s.flags.Get(Done(q))) &&
      t.flags.sent == s.flags.sent && t.flags.received == s.flags.received &&
      t.flags.canceled == s.flags.canceled && t.flags.aborted == s.flags.aborted &&
      (t.flags.processed <==> s.flags.processed || (o == Complete && s.execute.Get(o)))
  {
    if s.execute.Get(o) {
      var t := ExecuteStep(s, o, s.contexts.Get(o), s.args.Get(o));
      assert t.contexts.Get(o) == s.contexts.Get(o) && t.args.Get(o) == s.args.Get(o);
      assert t.contexts == s.contexts by {
        assert t.contexts.success == s.contexts.success by { assert t.contexts.Get(Success) == s.contexts.Get(Success); }
        assert t.contexts.error == s.contexts.error by { assert t.contexts.Get(Error) == s.contexts.Get(Error); }
        assert t.contexts.complete == s.contexts.complete by { assert t.contexts.Get(Complete) == s.contexts.Get(Complete); }
      }
      assert t.args == s.args by {
        assert t.args.success == s.args.success by { assert t.args.Get(Success) == s.args.Get(Success); }
        assert t.args.error == s.args.error by { assert t.args.Get(Error) == s.args.Get(Error); }
        assert t.args.complete == s.args.complete by { assert t.args.Get(Complete) == s.args.Get(Complete); }
      }
    }
  }

  /** Running the recorded outcomes invokes the callbacks of exactly the recorded outcomes, in slot
      order with the recorded values, and leaves the recorded values and the handlers as they were. */
  lemma RunRecordedCalls(s: RequestState)
    ensures var t := RunRecorded(s);
      t.calls == s.calls + RecordedCall(s, Success) + RecordedCall(s, Error) + RecordedCall(s, Complete) &&
      t.contexts == s.contexts && t.args == s.args &&
      t.callbacks == s.callbacks && t.execute == s.execute && t.listeners == s.listeners
  {
    var s1 := RecordedStep(s, Success);
    var s2 := RecordedStep(s1, Error);
    RecordedStepSpec(s, Success);
    RecordedStepSpec(s1, Error);
    RecordedStepSpec(s2, Complete);
    assert RecordedCall(s1, Error) == RecordedCall(s, Error);
    assert RecordedCall(s2, Complete) == RecordedCall(s, Complete);
  }

  lemma RecordedSuccessFlags(s: RequestState)
    ensures RecordedStep(s, Success).flags == s.flags.(success := s.flags.success || s.execute.success)
    ensures RecordedStep(s, Success).execute == s.execute
  {
  }

  lemma RecordedErrorFlags(s: RequestState)
    ensures RecordedStep(s, Error).flags == s.flags.(error := s.flags.error || s.execute.error)
    ensures RecordedStep(s, Error).execute == s.execute
  {
  }

  lemma RecordedCompleteFlags(s: RequestState)
    ensures RecordedStep(s, Complete).flags ==
      s.flags.(complete := s.flags.complete || s.execute.complete,
               processed := s.flags.processed || s.execute.complete)
    ensures RecordedStep(s, Complete).execute == s.execute
  {
  }

  /** Running the recorded outcomes sets `processed` and exactly the flags of the recorded
      outcomes; every other flag stays as it was. */
  lemma RunRecordedFlags(s: RequestState)
    ensures RunRecorded(s).flags == s.flags.(success := s.flags.success || s.execute.success,
                                             error := s.flags.error || s.execute.error,
                                             complete := s.flags.complete || s.execute.complete,
                                             processed := true)
  {
    var s1 := RecordedStep(s, Success);
    var s2 := RecordedStep(s1, Error);
    RecordedSuccessFlags(s);
    RecordedErrorFlags(s1);
    RecordedCompleteFlags(s2);
  }

  lemma RecordedEventsGrow(s: RequestState, o: Outcome)
    ensures |RecordedStep(s, o).events| >= |s.events| && RecordedStep(s, o).events[..|s.events|] == s.events
  {
  }

  /** Running the recorded outcomes of a received, not aborted request keeps its flags coherent
      and turns no flag off. */
  lemma RunRecordedCoherent(s: RequestState)
    requires Coherent(s.flags) && s.flags.received && !s.flags.aborted
    ensures Coherent(RunRecorded(s).flags) && s.flags.Le(RunRecorded(s).flags)
  {
    RunRecordedFlags(s);
    var t := RunRecorded(s);
    forall g | s.flags.Get(g) ensures t.flags.Get(g) {
      match g
      case Done(o) =>
      case _ =>
    }
  }

  /** Per-outcome number of executions `processRequest` adds to `counters.callbacks`. */
  function RecordedCounts(s: RequestState): Slots<nat>
  {
    Slots(if s.execute.success then 1 else 0, if s.execute.error then 1 else 0,
          if s.execute.complete then 1 else 0)
  }

  /** The queue's `counters`. */
  datatype Counters = Counters(added: nat, sent: nat, received: nat, processed: nat, canceled: nat,
                               aborted: nat, callbacks: Slots<nat>)
  {
    function Bump(o: Outcome): (c: Counters)
      ensures c.callbacks.Get(o) == callbacks.Get(o) + 1
      ensures forall q :: q != o ==> c.callbacks.Get(q) == callbacks.Get(q)
      ensures c.(callbacks := callbacks) == this
    {
      this.(callbacks := callbacks.Put(o, callbacks.Get(o) + 1))
    }
  }

  const ZeroCounters := Counters(0, 0, 0, 0, 0, 0, Slots(0, 0, 0))

  /** The events a queue dispatches to its listeners. */
  datatype QueueEventName =
    | AddedEvent | EnabledEvent | DisabledEvent | SentEvent | AllSentEvent | ReceivedEvent
    | OutcomeEvent(o: Outcome) | ProcessedEvent | AllProcessedEvent | CanceledEvent | AbortedEvent

  /** A dispatched queue event and the id of the request it is about, when it carries one. */
  datatype QueueEvent = QueueEvent(name: QueueEventName, request: Option<nat>)
}
