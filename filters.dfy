/** The filter chain: a filter has a condition on the settings of incoming work (or none), and an
    optional pre-admission rewrite and post-admission observer. `ajax` selects the filters whose
    condition holds, in registration order, and folds their rewrites over the settings. User
    functions are ids; what they compute is the environment's `Env`. */
module Filters {
  import opened Wrappers
  import opened Lifecycle
  import opened Records

  /** Where `settings.queue` sends the work: nowhere (unqueued), a queue id (a number or a string,
      which the registry looks up by its string form), a queue handle (by the id it reports), or a
      value of any other type. */
  datatype Target = NoQueue | QueueId(key: string) | QueueHandle(key: string) | BadTarget

  /** The settings of incoming work, as far as the engine reads them; `transport` stands for the
      rest, which only the transport reads but filters may rewrite. */
  datatype Settings = Settings(queue: Target, priority: Option<int>, callbacks: Slots<Option<nat>>,
                               listeners: seq<Handler>, transport: nat)

  /** What the user functions compute: a condition's verdict and a pre-filter's rewrite. */
  datatype Env = Env(test: (nat, Settings) -> bool, rewrite: (nat, Settings) -> Settings)

  /** A value passed to `new Filter(...)`. */
  datatype Arg = Undefined | TrueValue | Fn(id: nat) | OtherValue

  /** A filter as constructed: no condition stands for `true`. */
  datatype Rule = Rule(condition: Option<nat>, pre: Option<nat>, post: Option<nat>)

  /** The argument checks of the `Filter` constructor, in its order: the condition must be `true`
      or a function, each of the other two a function or undefined, and not both undefined. */
  function CheckRule(c: Arg, pre: Arg, post: Arg): (r: Result<Rule>)
    ensures r.Ok? <==> (c == TrueValue || c.Fn?) && (pre == Undefined || pre.Fn?) &&
                       (post == Undefined || post.Fn?) && (pre.Fn? || post.Fn?)
    ensures r.Err? ==> r.fault == if c == TrueValue || c.Fn? then FunctionOrUndefinedExpected else TrueOrFunctionExpected
    ensures r.Ok? ==> r.value.pre.Some? || r.value.post.Some?
    ensures r.Ok? ==> (r.value.condition == if c.Fn? then Some(c.id) else None) &&
                      (r.value.pre == if pre.Fn? then Some(pre.id) else None) &&
                      (r.value.post == if post.Fn? then Some(post.id) else None)
  {
    if c != TrueValue && !c.Fn? then Err(TrueOrFunctionExpected)
    else if pre != Undefined && !pre.Fn? then Err(FunctionOrUndefinedExpected)
    else if post != Undefined && !post.Fn? then Err(FunctionOrUndefinedExpected)
    else if pre == Undefined && post == Undefined then Err(FunctionOrUndefinedExpected)
    else Ok(Rule(if c.Fn? then Some(c.id) else None, if pre.Fn? then Some(pre.id) else None,
                 if post.Fn? then Some(post.id) else None))
  }

  class Filter {
    const rule: Rule
    /** Set by `enable`/`disable`/`toggle`; the chain never reads it. */
    var enabled: bool

    constructor (rule: Rule)
      ensures this.rule == rule && enabled
    {
      this.rule := rule;
      enabled := true;
    }

    method Enable()
      modifies this
      ensures enabled
    {
      enabled := true;
    }

    method Disable()
      modifies this
      ensures !enabled
    {
      enabled := false;
    }

    method Toggle()
      modifies this
      ensures enabled == !old(enabled)
    {
      if enabled {
        Disable();
      } else {
        Enable();
      }
    }
  }

  /** `testFilterCondition(settings)`: an unconditional filter always applies. */
  function Holds(env: Env, f: Filter, s: Settings): (b: bool)
    ensures f.rule.condition.None? ==> b
    ensures f.rule.condition.Some? ==> (b <==> env.test(f.rule.condition.value, s))
  {
    match f.rule.condition
    case None => true
    case Some(c) => env.test(c, s)
  }

  /** `applyPreFilter(settings)`: a filter without a pre-filter passes the settings through. */
  function Rewrite(env: Env, f: Filter, s: Settings): (t: Settings)
    ensures f.rule.pre.None? ==> t == s
    ensures f.rule.pre.Some? ==> t == env.rewrite(f.rule.pre.value, s)
  {
    match f.rule.pre
    case None => s
    case Some(p) => env.rewrite(p, s)
  }

  /** `getActiveFilters(settings)`: the filters whose condition holds, in registration order.
      Whether a filter is enabled plays no part (the function reads no mutable state). */
  function Active(env: Env, fs: seq<Filter>, s: Settings): (act: seq<Filter>)
    ensures |act| <= |fs|
    ensures forall i :: 0 <= i < |act| ==> act[i] in fs && Holds(env, act[i], s)
    ensures forall i :: 0 <= i < |fs| && Holds(env, fs[i], s) ==> fs[i] in act
    decreases |fs|
  {
    if fs == [] then []
    else
      var rest := Active(env, fs[1..], s);
      assert forall i :: 0 < i < |fs| ==> fs[i] == fs[1..][i - 1];
      if Holds(env, fs[0], s) then [fs[0]] + rest else rest
  }

  /** Selection keeps registration order: filters registered later come later. */
  lemma {:induction false} ActiveAppend(env: Env, fs: seq<Filter>, gs: seq<Filter>, s: Settings)
    ensures Active(env, fs + gs, s) == Active(env, fs, s) + Active(env, gs, s)
    decreases |fs|
  {
    if fs == [] {
      assert fs + gs == gs;
    } else {
      assert (fs + gs)[1..] == fs[1..] + gs;
      ActiveAppend(env, fs[1..], gs, s);
    }
  }

  /** The pre-filters of `fs` applied in order, each to the previous one's output. */
  function ApplyPre(env: Env, fs: seq<Filter>, s: Settings): Settings
    decreases |fs|
  {
    if fs == [] then s else Rewrite(env, fs[|fs| - 1], ApplyPre(env, fs[..|fs| - 1], s))
  }

  /** Folding over two lists is folding over the first, then over the second. */
  lemma {:induction false} ApplyPreAppend(env: Env, fs: seq<Filter>, gs: seq<Filter>, s: Settings)
    ensures ApplyPre(env, fs + gs, s) == ApplyPre(env, gs, ApplyPre(env, fs, s))
    decreases |gs|
  {
    if gs == [] {
      assert fs + gs == fs;
    } else {
      var last := |gs| - 1;
      assert (fs + gs)[..|fs + gs| - 1] == fs + gs[..last];
      ApplyPreAppend(env, fs, gs[..last], s);
    }
  }

  /** With no pre-filter among them, the filters leave the settings unchanged. */
  lemma {:induction false} ApplyPreWithoutRewrites(env: Env, fs: seq<Filter>, s: Settings)
    requires forall i :: 0 <= i < |fs| ==> fs[i].rule.pre.None?
    ensures ApplyPre(env, fs, s) == s
    decreases |fs|
  {
    if fs != [] {
      ApplyPreWithoutRewrites(env, fs[..|fs| - 1], s);
    }
  }

  /** The `$.each` in `ajax` that rewrites the settings with each active filter in turn. */
  method PreFilter(env: Env, fs: seq<Filter>, s: Settings) returns (t: Settings)
    ensures t == ApplyPre(env, fs, s)
  {
    t := s;
    for i := 0 to |fs|
      invariant t == ApplyPre(env, fs[..i], s)
    {
      assert fs[..i + 1][..i] == fs[..i];
      t := Rewrite(env, fs[i], t);
    }
    assert fs[..|fs|] == fs;
  }

  /** One run of a post-filter: which observer, on which request. */
  datatype Observation = Observation(post: nat, request: nat)

  /** The observers of `fs` that `ajax` runs, in order, on the request `id`. */
  function Observations(fs: seq<Filter>, id: nat): (os: seq<Observation>)
    ensures |os| <= |fs|
    ensures forall o :: o in os ==> o.request == id && exists j :: 0 <= j < |fs| && fs[j].rule.post == Some(o.post)
    decreases |fs|
  {
    if fs == [] then []
    else
      var rest := Observations(fs[..|fs| - 1], id);
      var f := fs[|fs| - 1];
      if f.rule.post.Some? then rest + [Observation(f.rule.post.value, id)] else rest
  }
}
