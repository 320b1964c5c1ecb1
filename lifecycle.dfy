/** The request lifecycle: outcome and flag names, the eight monotone flags, the cancel/abort
    decision, and the transitions the engine performs on a request's flags. */
module Lifecycle {
  import opened Wrappers

  /** The three outcome slots of a request, as the transport signals them. */
  datatype Outcome = Success | Error | Complete

  function OutcomeName(o: Outcome): string
  {
    match o
    case Success => "success"
    case Error => "error"
    case Complete => "complete"
  }

  /** The name check that `getCallback`, `setCallback` and `executeCallback` perform before
      anything else; `None` is the "Incorrect callback name!" error. */
  function ParseOutcome(s: string): (r: Option<Outcome>)
    ensures r.Some? ==> OutcomeName(r.value) == s
    ensures r.None? <==> forall o :: OutcomeName(o) != s
  {
    if s == "success" then Some(Success)
    else if s == "error" then Some(Error)
    else if s == "complete" then Some(Complete)
    else None
  }

  /** The eight flag names `setFlag` accepts. */
  datatype Flag = Sent | Received | Processed | Canceled | Aborted | Done(outcome: Outcome)

  function FlagName(f: Flag): string
  {
    match f
    case Sent => "sent"
    case Received => "received"
    case Processed => "processed"
    case Canceled => "canceled"
    case Aborted => "aborted"
    case Done(o) => OutcomeName(o)
  }

  /** The name check of `setFlag`; `None` is the "Incorrect flag name!" error. */
  function ParseFlag(s: string): (r: Option<Flag>)
    ensures r.Some? ==> FlagName(r.value) == s
    ensures r.None? <==> forall f :: FlagName(f) != s
  {
    if s == "sent" then Some(Sent)
    else if s == "received" then Some(Received)
    else if s == "processed" then Some(Processed)
    else if s == "canceled" then Some(Canceled)
    else if s == "aborted" then Some(Aborted)
    else match ParseOutcome(s)
      case Some(o) => Some(Done(o))
      case None => None
  }

  /** The `flags` record of a request. */
  datatype Flags = Flags(sent: bool, received: bool, processed: bool, canceled: bool, aborted: bool,
                         success: bool, error: bool, complete: bool)
  {
    function Get(f: Flag): bool
    {
      match f
      case Sent => sent
      case Received => received
      case Processed => processed
      case Canceled => canceled
      case Aborted => aborted
      case Done(Success) => success
      case Done(Error) => error
      case Done(Complete) => complete
    }

    /** `setFlag(name)`: the named flag becomes true and no other flag changes. */
    function Set(f: Flag): (r: Flags)
      ensures r.Get(f)
      ensures forall g :: g != f ==> r.Get(g) == Get(g)
    {
      match f
      case Sent => this.(sent := true)
      case Received => this.(received := true)
      case Processed => this.(processed := true)
      case Canceled => this.(canceled := true)
      case Aborted => this.(aborted := true)
      case Done(Success) => this.(success := true)
      case Done(Error) => this.(error := true)
      case Done(Complete) => this.(complete := true)
    }

    /** Every flag that is true here is also true in `later`. */
    ghost predicate Le(later: Flags)
    {
      forall g :: Get(g) ==> later.Get(g)
    }
  }

  /** All flags false, as the request constructor sets them. */
  const Initial := Flags(false, false, false, false, false, false, false, false)

  /** The combinations of flags the lifecycle can reach: nothing is received before it is sent,
      a canceled request was never sent, an aborted one was, canceled and aborted exclude each
      other, and an outcome or `processed` only follows a response on a request that was neither
      canceled nor aborted. */
  predicate Coherent(fl: Flags)
  {
    (fl.received ==> fl.sent) &&
    (fl.canceled ==> !fl.sent) &&
    (fl.aborted ==> fl.sent) &&
    !(fl.canceled && fl.aborted) &&
    ((fl.success || fl.error || fl.complete || fl.processed) ==> fl.received && !fl.aborted)
  }

  /** The branch `Request.cancel` takes. */
  datatype CancelStep = AlreadyEnded | CancelPending | AbortInFlight | Refused

  function DecideCancel(fl: Flags, abort: bool): CancelStep
  {
    if fl.canceled || fl.aborted then AlreadyEnded
    else if !fl.sent then CancelPending
    else if abort && !fl.received then AbortInFlight
    else Refused
  }

  /** What `Request.cancel(abort)` returns and the flags it leaves. It succeeds exactly when the
      request was already ended, not yet sent, or sent, unanswered and aborted; a refusal and the
      idempotent case change nothing; otherwise exactly `canceled` or exactly `aborted` is set. */
  function CancelResult(fl: Flags, abort: bool): (r: (bool, Flags))
    ensures r.0 <==> fl.canceled || fl.aborted || !fl.sent || (abort && !fl.received)
    ensures !r.0 || fl.canceled || fl.aborted ==> r.1 == fl
    ensures r.0 && !fl.canceled && !fl.aborted && !fl.sent ==> r.1 == fl.Set(Canceled)
    ensures r.0 && !fl.canceled && !fl.aborted && fl.sent ==> r.1 == fl.Set(Aborted) && abort && !fl.received
  {
    match DecideCancel(fl, abort)
    case AlreadyEnded => (true, fl)
    case CancelPending => (true, fl.Set(Canceled))
    case AbortInFlight => (true, fl.Set(Aborted))
    case Refused => (false, fl)
  }

  /** One flag transition the engine performs, with the guard under which it performs it. */
  datatype Step =
    | Dispatch          // `send`: only for a request neither sent nor canceled
    | Receive           // the transport answered a sent request
    | Run(o: Outcome)   // `executeCallback(o)`: only after a response, never after an abort
    | Finish            // the extra `setFlag('processed')` of `processRequest`
    | Cancel(abort: bool)

  predicate Allowed(fl: Flags, s: Step)
  {
    match s
    case Dispatch => !fl.sent && !fl.canceled
    case Receive => fl.sent
    case Run(_) => fl.received && !fl.aborted
    case Finish => fl.received && !fl.aborted
    case Cancel(_) => true
  }

  function Apply(fl: Flags, s: Step): Flags
  {
    match s
    case Dispatch => fl.Set(Sent)
    case Receive => fl.Set(Received)
    case Run(o) => if o == Complete then fl.Set(Done(o)).Set(Processed) else fl.Set(Done(o))
    case Finish => fl.Set(Processed)
    case Cancel(abort) => CancelResult(fl, abort).1
  }

  lemma LeTransitive(a: Flags, b: Flags, c: Flags)
    requires a.Le(b) && b.Le(c)
    ensures a.Le(c)
  {
  }

  /** A single allowed step keeps the flags coherent and never turns a flag off. */
  lemma StepKeepsCoherent(fl: Flags, s: Step)
    requires Coherent(fl) && Allowed(fl, s)
    ensures Coherent(Apply(fl, s)) && fl.Le(Apply(fl, s))
  {
  }

  function ApplyAll(fl: Flags, steps: seq<Step>): Flags
    decreases |steps|
  {
    if steps == [] then fl else ApplyAll(Apply(fl, steps[0]), steps[1..])
  }

  predicate AllAllowed(fl: Flags, steps: seq<Step>)
    decreases |steps|
  {
    steps == [] || (Allowed(fl, steps[0]) && AllAllowed(Apply(fl, steps[0]), steps[1..]))
  }

  /** Any run of allowed steps from coherent flags ends coherent with every earlier flag still
      set: flags are monotone, and canceled and aborted never both become true. */
  lemma {:induction false} RunKeepsCoherent(fl: Flags, steps: seq<Step>)
    requires Coherent(fl) && AllAllowed(fl, steps)
    ensures Coherent(ApplyAll(fl, steps)) && fl.Le(ApplyAll(fl, steps))
    ensures !(ApplyAll(fl, steps).canceled && ApplyAll(fl, steps).aborted)
    decreases |steps|
  {
    if steps != [] {
      var next := Apply(fl, steps[0]);
      StepKeepsCoherent(fl, steps[0]);
      RunKeepsCoherent(next, steps[1..]);
      LeTransitive(fl, next, ApplyAll(next, steps[1..]));
    }
  }

  /** Once a coherent request is canceled or aborted it can be neither dispatched nor have an
      outcome callback run. */
  lemma {:induction false} EndedRequestRunsNothing(fl: Flags, steps: seq<Step>)
    requires Coherent(fl) && (fl.canceled || fl.aborted) && AllAllowed(fl, steps)
    ensures forall i :: 0 <= i < |steps| ==> !steps[i].Run? && !steps[i].Dispatch?
    decreases |steps|
  {
    if steps != [] {
      StepKeepsCoherent(fl, steps[0]);
      var next := Apply(fl, steps[0]);
      assert next.canceled || next.aborted;
      EndedRequestRunsNothing(next, steps[1..]);
      forall i | 0 <= i < |steps| ensures !steps[i].Run? && !steps[i].Dispatch? {
        if i > 0 { assert steps[i] == steps[1..][i - 1]; }
      }
    }
  }

  /** A value passed where the engine expects a function: a callback or a listener. */
  datatype Handler = Function(id: nat) | NotAFunction

  /** The `$.each` over a listeners argument that pushes each function and throws at the first
      value that is not one: the ids pushed before the throw, and whether no throw happened. */
  function AcceptHandlers(hs: seq<Handler>): (r: (seq<nat>, bool))
    ensures r.1 <==> forall i :: 0 <= i < |hs| ==> hs[i].Function?
    ensures |r.0| <= |hs| && forall i :: 0 <= i < |r.0| ==> hs[i] == Function(r.0[i])
    ensures r.1 ==> |r.0| == |hs|
    ensures !r.1 ==> hs[|r.0|] == NotAFunction
  {
    if hs == [] then ([], true)
    else match hs[0]
      case NotAFunction => ([], false)
      case Function(id) =>
        var rest := AcceptHandlers(hs[1..]);
        assert forall i :: 1 <= i < |hs| ==> hs[i] == hs[1..][i - 1];
        ([id] + rest.0, rest.1)
  }

  /** The ids pushed before the first value that is not a function are all `AcceptHandlers`
      can return: a loop that stops there agrees with it. */
  lemma AcceptHandlersUnique(hs: seq<Handler>, ids: seq<nat>, ok: bool)
    requires |ids| <= |hs| && forall j :: 0 <= j < |ids| ==> hs[j] == Function(ids[j])
    requires if ok then |ids| == |hs| else |ids| < |hs| && hs[|ids|] == NotAFunction
    ensures AcceptHandlers(hs) == (ids, ok)
  {
    var r := AcceptHandlers(hs);
    if ok {
      assert |r.0| == |ids|;
    } else {
      assert !hs[|ids|].Function?;
      assert hs[|r.0|] == NotAFunction;
      assert |r.0| == |ids|;
    }
    assert r.0 == ids;
  }
}
