/** The process-wide state of the library: the queues by id, the filters in registration order
    and the request counter, with `newQueue`, `getQueue`, `newQueuedRequest`, `newFilter` and the
    admission flow of `ajax`. */
module Registry {
  import opened Wrappers
  import opened Lifecycle
  import opened Records
  import opened Selection
  import opened QueueSpec
  import opened Engine
  import opened Filters

  /** The settings `newQueue` reads: `id`, `order`, `mode`, `priority` and `listeners`; an absent
      `order` or `mode` takes its default. */
  datatype QueueSettings = QueueSettings(id: Option<string>, order: Option<Order>, mode: Option<Mode>,
                                         priority: PriorityOrder, listeners: seq<Handler>)

  /** `$.extend({}, {order: 'fifo', mode: 'request'}, settings)`. */
  function ConfigOf(qs: QueueSettings): (c: Config)
    ensures qs.order.None? ==> c.order == Fifo
    ensures qs.mode.None? ==> c.mode == RequestMode
    ensures qs.order.Some? ==> c.order == qs.order.value
    ensures qs.mode.Some? ==> c.mode == qs.mode.value
    ensures c.priority == qs.priority
  {
    Config(match qs.order case None => Fifo case Some(o) => o,
           match qs.mode case None => RequestMode case Some(m) => m,
           qs.priority)
  }

  /** The queue key `ajax` hands to `newQueuedRequest`: the id, or the id a handle reports. */
  function KeyOf(t: Target): (k: Option<string>)
    ensures k.Some? <==> t.QueueId? || t.QueueHandle?
  {
    match t
    case QueueId(key) => Some(key)
    case QueueHandle(key) => Some(key)
    case _ => None
  }

  /** Every listed request of `q` has an id below `n`. */
  ghost predicate Below(q: Queue, n: nat)
    reads q
  {
    forall i :: 0 <= i < |q.views| ==> q.views[i].id < n
  }

  /** Adding a request whose id is below `n` to a queue whose ids are below `n` keeps them so. */
  lemma AddBelow(c: Config, q: QState, v: View, n: nat)
    requires Inv(c, q) && v.flags == Initial && v.id !in Ids(q.views) && v.id < n
    requires forall i :: 0 <= i < |q.views| ==> q.views[i].id < n
    ensures forall i :: 0 <= i < |Add(c, q, v).views| ==> Add(c, q, v).views[i].id < n
  {
    AddKeeps(c, q, v);
    var ws := Add(c, q, v).views;
    forall i | 0 <= i < |ws| ensures ws[i].id < n {
      assert Ids(ws)[i] == ws[i].id;
    }
  }

  class Registry {
    var queues: map<string, Queue>
    var filters: seq<Filter>
    /** `requestsCount`: the id the next request takes. */
    var requestsCount: nat

    /** The counter is above the id of every request listed in a registered queue. */
    ghost predicate Valid()
      reads this, queues.Values
    {
      forall q :: q in queues.Values ==> Below(q, requestsCount)
    }

    constructor ()
      ensures Valid() && queues == map[] && filters == [] && requestsCount == 0
    {
      queues := map[];
      filters := [];
      requestsCount := 0;
    }

    /** `getQueue(id)`. */
    function GetQueue(id: Option<string>): (r: Result<Queue>)
      reads this
      ensures id.None? ==> r == Err(NoQueueId)
      ensures id.Some? ==> (r.Ok? <==> id.value in queues)
      ensures r.Ok? ==> r.value == queues[id.value]
      ensures r.Err? && id.Some? ==> r.fault == QueueDoesNotExist
    {
      match id
      case None => Err(NoQueueId)
      case Some(k) => if k in queues then Ok(queues[k]) else Err(QueueDoesNotExist)
    }

    /** `newQueue(settings)`. A new queue is registered before its listeners are checked, so one
        that is not a function throws but leaves the queue registered, with the listeners that
        came before it. */
    method NewQueue(qs: QueueSettings) returns (res: Result<Queue>)
      requires Valid()
      modifies this`queues
      ensures Valid()
      ensures qs.id.None? ==> res == Err(NoQueueId) && queues == old(queues)
      ensures qs.id.Some? && qs.id.value in old(queues) ==> res == Err(QueueAlreadyExists) && queues == old(queues)
      ensures qs.id.Some? && qs.id.value !in old(queues) ==>
        qs.id.value in queues &&
        var q := queues[qs.id.value];
        queues == old(queues)[qs.id.value := q] && fresh(q) && GetQueue(qs.id) == Ok(q) &&
        q.config == ConfigOf(qs) && q.QS() == Fresh && q.Valid() && q.requests == [] && q.listeners == AcceptHandlers(qs.listeners).0 &&
        (res.Ok? <==> AcceptHandlers(qs.listeners).1) && (res.Ok? ==> res.value == q) &&
        (res.Err? ==> res.fault == FunctionExpected)
    {
      if qs.id.None? {
        return Err(NoQueueId);
      }
      var key := qs.id.value;
      if key in queues {
        return Err(QueueAlreadyExists);
      }
      var ids, ok := AcceptListeners(qs.listeners);
      var q := new Queue(ConfigOf(qs), ids);
      queues := queues[key := q];
      res := if ok then Ok(q) else Err(FunctionExpected);
    }

    /** `newQueuedRequest` for the queue registered under `key`: the request takes the next id
        (the counter moves even when the constructor then throws) and is added to the queue. */
    method NewQueuedRequest(key: string, s: Settings) returns (res: Result<Request>)
      requires Valid() && (key in queues ==> queues[key].Valid())
      modifies this`requestsCount, if key in queues then {queues[key]} + (set r: object | r in queues[key].requests) else {}
      ensures Valid() && (key in queues ==> queues[key].Valid())
      ensures key !in queues ==> res == Err(QueueDoesNotExist) && requestsCount == old(requestsCount)
      ensures key in queues ==>
        var q := queues[key];
        requestsCount == old(requestsCount) + 1 &&
        (res.Err? <==> !AcceptHandlers(s.listeners).1) &&
        (res.Err? ==> res.fault == FunctionExpected && q.QS() == old(q.QS())) &&
        (res.Ok? ==> res.value.id == old(requestsCount) && res.value.queue == q &&
                     q.QS() == Add(q.config, old(q.QS()), View(res.value.id, s.priority, Initial, Slots(false, false, false))))
      ensures res.Ok? ==> fresh(res.value) && CreatedFrom(res.value, s)
      ensures key in queues ==> SendsOnly(old(queues[key].requests), {})
    {
      if key !in queues {
        return Err(QueueDoesNotExist);
      }
      assert queues[key] in queues.Values;
      res := AddToQueue(queues[key], s);
    }

    /** The part of `newQueuedRequest` once the queue `q` is found. */
    method AddToQueue(q: Queue, s: Settings) returns (res: Result<Request>)
      requires Valid() && q in queues.Values && q.Valid()
      modifies this`requestsCount, q, q.requests
      ensures Valid() && q.Valid() && requestsCount == old(requestsCount) + 1
      ensures res.Err? <==> !AcceptHandlers(s.listeners).1
      ensures res.Err? ==> res.fault == FunctionExpected && q.QS() == old(q.QS())
      ensures res.Ok? ==> res.value.id == old(requestsCount) && res.value.queue == q &&
                          q.QS() == Add(q.config, old(q.QS()), View(res.value.id, s.priority, Initial, Slots(false, false, false)))
      ensures res.Ok? ==> fresh(res.value) && CreatedFrom(res.value, s)
      ensures SendsOnly(old(q.requests), {})
    {
      var id := requestsCount;
      assert forall i :: 0 <= i < |q.views| ==> Ids(q.views)[i] != id;
      ghost var q0 := q.QS();
      requestsCount := requestsCount + 1;
      res := q.AddRequest(id, s.priority, s.callbacks, s.listeners);
      if res.Ok? {
        assert Below(q, requestsCount) by {
          AddBelow(q.config, q0, View(id, s.priority, Initial, Slots(false, false, false)), requestsCount);
        }
      }
    }

    /** `newFilter(condition, preFilter, postFilter)`: a checked filter joins the end of the chain. */
    method NewFilter(c: Arg, pre: Arg, post: Arg) returns (res: Result<Filter>)
      modifies this`filters
      ensures res.Err? <==> CheckRule(c, pre, post).Err?
      ensures res.Err? ==> res == Err(CheckRule(c, pre, post).fault) && filters == old(filters)
      ensures res.Ok? ==> fresh(res.value) && res.value.rule == CheckRule(c, pre, post).value &&
                          res.value.enabled && filters == old(filters) + [res.value]
    {
      match CheckRule(c, pre, post)
      case Err(e) => res := Err(e);
      case Ok(rule) =>
        var f := new Filter(rule);
        filters := filters + [f];
        res := Ok(f);
    }

    /** `ajax(settings)`: the active filters rewrite the settings in turn, the work is submitted
        to the queue the result names, and the post-filters run when a request was added. */
    method Ajax(env: Env, s: Settings) returns (res: Result<Request>, posts: seq<Observation>)
      requires Valid() && forall q :: q in queues.Values ==> q.Valid()
      modifies this`requestsCount, queues.Values, set q, r: object | q in queues.Values && r in q.requests :: r
      ensures Valid()
      ensures var t := ApplyPre(env, Active(env, filters, s), s);
        Submitted(t, res, old(requestsCount), requestsCount) &&
        (KeyOf(t.queue).Some? && KeyOf(t.queue).value in queues ==>
          var q := queues[KeyOf(t.queue).value];
          q.Valid() && (res.Err? ==> q.QS() == old(q.QS())) &&
          (res.Ok? ==> res.value.queue == q &&
                       q.QS() == Add(q.config, old(q.QS()), View(res.value.id, t.priority, Initial, Slots(false, false, false)))) &&
          SendsOnly(old(q.requests), {})) &&
        (res.Ok? ==> fresh(res.value) && CreatedFrom(res.value, t))
      ensures posts == if res.Ok? then Observations(Active(env, filters, s), res.value.id) else []
    {
      var act := Active(env, filters, s);
      var t := PreFilter(env, act, s);
      res := Submit(t);
      posts := [];
      if res.Ok? {
        posts := PostFilter(act, res.value.id);
      }
    }

    /** The part of `ajax` between the pre-filters and the post-filters: without a queue the
        unqueued constructor throws after taking an id; a queue id or handle goes to
        `newQueuedRequest`; a queue value of any other type throws. */
    method Submit(t: Settings) returns (res: Result<Request>)
      requires Valid() && forall q :: q in queues.Values ==> q.Valid()
      modifies this`requestsCount, queues.Values, set q, r: object | q in queues.Values && r in q.requests :: r
      ensures Valid() && Submitted(t, res, old(requestsCount), requestsCount)
      ensures KeyOf(t.queue).Some? && KeyOf(t.queue).value in queues ==>
        var q := queues[KeyOf(t.queue).value];
        q.Valid() && (res.Err? ==> q.QS() == old(q.QS())) &&
        (res.Ok? ==> res.value.queue == q &&
                     q.QS() == Add(q.config, old(q.QS()), View(res.value.id, t.priority, Initial, Slots(false, false, false)))) &&
        SendsOnly(old(q.requests), {})
      ensures res.Ok? ==> fresh(res.value) && CreatedFrom(res.value, t)
    {
      if t.queue.NoQueue? {
        requestsCount := requestsCount + 1;
        res := Err(UnqueuedRequestFailed);
      } else if t.queue.BadTarget? {
        res := Err(IncorrectQueueParameter);
      } else {
        res := NewQueuedRequest(KeyOf(t.queue).value, t);
      }
    }
  }

  /** The `$.each` in `ajax` that runs each active filter's post-filter, in order, on the new
      request; the calls are returned. */
  method PostFilter(fs: seq<Filter>, id: nat) returns (posts: seq<Observation>)
    ensures posts == Observations(fs, id)
  {
    posts := [];
    for i := 0 to |fs|
      invariant posts == Observations(fs[..i], id)
    {
      assert fs[..i + 1][..i] == fs[..i];
      if fs[i].rule.post.Some? {
        posts := posts + [Observation(fs[i].rule.post.value, id)];
      }
    }
    assert fs[..|fs|] == fs;
  }

  /** The request made from the settings `s`: it keeps their callbacks and their checked
      listeners, has been announced to its queue, and is otherwise new, except that `sendRequest`
      may already have sent it. */
  ghost predicate CreatedFrom(r: Request, s: Settings)
    reads r
  {
    r.callbacks == s.callbacks && r.listeners == AcceptHandlers(s.listeners).0 &&
    SendEffect(Created(s.callbacks, AcceptHandlers(s.listeners).0).(events := [AddedToQueue]), r.State())
  }

  /** What submitting the settings `t` returns and does to the request counter, which moved
      from `n` to `m`: the errors of each target, and for a known queue the id of the new request
      or the constructor's listener error. */
  ghost predicate Submitted(t: Settings, res: Result<Request>, n: nat, m: nat)
  {
    match t.queue
    case NoQueue => res == Err(UnqueuedRequestFailed) && m == n + 1
    case BadTarget => res == Err(IncorrectQueueParameter) && m == n
    case _ =>
      if res == Err(QueueDoesNotExist) then m == n
      else m == n + 1 && (res.Err? <==> !AcceptHandlers(t.listeners).1) &&
           (res.Err? ==> res.fault == FunctionExpected) && (res.Ok? ==> res.value.id == n)
  }
}
