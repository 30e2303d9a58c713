/**
 * The gateway's router: deployments grouped by alias, atomic round-robin counters shared by all
 * requests, retries and a chain of fallbacks.
 */
module GatewayRouter {
  import opened Prelude

  const U32: int := 0x1_0000_0000
  const USIZE: int := 0x1_0000_0000_0000_0000

  datatype Entry = Entry(alias: string, provider: string, target: nat)

  datatype Config = Config(
    models: seq<Entry>,
    fallbacks: seq<map<string, seq<string>>>,
    generalRetries: Option<nat>,
    gatewayRetries: Option<nat>)

  // ---- What the configuration means -------------------------------------------------------

  /** The entries of one alias, in configuration order. */
  function Group(models: seq<Entry>, alias: string): seq<Entry>
  {
    if models == [] then []
    else Group(models[..|models| - 1], alias)
         + if models[|models| - 1].alias == alias then [models[|models| - 1]] else []
  }

  /** Later tables override earlier ones. */
  function FallbacksOf(tables: seq<map<string, seq<string>>>, alias: string): seq<string>
  {
    if tables == [] then []
    else if alias in tables[|tables| - 1] then tables[|tables| - 1][alias]
    else FallbacksOf(tables[..|tables| - 1], alias)
  }

  function RetriesOf(config: Config): nat
  {
    match config.generalRetries
    case Some(n) => n
    case None => match config.gatewayRetries case Some(n) => n case None => 0
  }

  datatype Error = ModelNotFound | AllDeploymentsFailed | ProviderFailed(code: int) | UnknownProvider
  datatype Outcome<T> = Succeeded(value: T) | FailedWith(error: Error)

  /** A call to the provider of deployment `index` of an alias. */
  datatype Call = Call(alias: string, index: nat)

  /** The deployments map groups exactly these entries. */
  ghost predicate Grouped(deployments: map<string, seq<Entry>>, models: seq<Entry>)
  {
    forall m :: if Group(models, m) == [] then m !in deployments
                else m in deployments && deployments[m] == Group(models, m)
  }

  ghost predicate Merged(fallbacks: map<string, seq<string>>, tables: seq<map<string, seq<string>>>)
  {
    forall m :: (if m in fallbacks then fallbacks[m] else []) == FallbacksOf(tables, m)
  }

  /** The chain of an alias is that of the last table that has one. */
  lemma {:induction false} FallbacksExact(tables: seq<map<string, seq<string>>>, alias: string, k: nat)
    requires k < |tables| && alias in tables[k] && forall j :: k < j < |tables| ==> alias !in tables[j]
    ensures FallbacksOf(tables, alias) == tables[k][alias]
  {
    var n := |tables| - 1;
    if k < n {
      assert alias !in tables[n];
      FallbacksExact(tables[..n], alias, k);
    }
  }

  lemma {:induction false} FallbacksNone(tables: seq<map<string, seq<string>>>, alias: string)
    requires forall j :: 0 <= j < |tables| ==> alias !in tables[j]
    ensures FallbacksOf(tables, alias) == []
  {
    if tables != [] {
      FallbacksNone(tables[..|tables| - 1], alias);
    }
  }

  /** The entries of an alias are all entries that carry it, in configuration order. */
  lemma {:induction false} GroupExact(a: seq<Entry>, e: Entry, b: seq<Entry>, alias: string)
    ensures Group([], alias) == []
    ensures Group(a + [e] + b, alias) == Group(a, alias) + (if e.alias == alias then [e] else []) + Group(b, alias)
    decreases |b|
  {
    var all := a + [e] + b;
    if b == [] {
      assert all[..|all| - 1] == a && all[|all| - 1] == e;
      assert Group(a, alias) + (if e.alias == alias then [e] else []) + [] == Group(a, alias) + if e.alias == alias then [e] else [];
    } else {
      var n := |b| - 1;
      assert all[..|all| - 1] == a + [e] + b[..n] && all[|all| - 1] == b[n];
      GroupExact(a, e, b[..n], alias);
    }
  }

  lemma GroupNext(models: seq<Entry>, i: nat)
    requires i < |models|
    ensures forall m :: Group(models[..i + 1], m) == Group(models[..i], m) + if models[i].alias == m then [models[i]] else []
  {
    assert models[..i + 1][..i] == models[..i];
  }

  /** Groups the entries; an unknown provider rejects the configuration. */
  method GroupEntries(models: seq<Entry>, known: string -> bool) returns (deployments: Option<map<string, seq<Entry>>>)
    ensures deployments == None <==> exists i :: 0 <= i < |models| && !known(models[i].provider)
    ensures deployments != None ==> Grouped(deployments.value, models)
  {
    var groups: map<string, seq<Entry>> := map[];
    var i := 0;
    assert Grouped(groups, models[..0]);
    hide Group;
    while i < |models|
      invariant 0 <= i <= |models|
      invariant forall k :: 0 <= k < i ==> known(models[k].provider)
      invariant Grouped(groups, models[..i])
    {
      var entry := models[i];
      if !known(entry.provider) {
        return None;
      }
      GroupNext(models, i);
      var group := if entry.alias in groups then groups[entry.alias] else [];
      groups := groups[entry.alias := group + [entry]];
      i := i + 1;
    }
    assert models[..i] == models;
    deployments := Some(groups);
  }

  method MergeFallbacks(tables: seq<map<string, seq<string>>>) returns (fallbacks: map<string, seq<string>>)
    ensures Merged(fallbacks, tables)
  {
    fallbacks := map[];
    var i := 0;
    while i < |tables|
      invariant 0 <= i <= |tables|
      invariant Merged(fallbacks, tables[..i])
    {
      assert tables[..i + 1][..i] == tables[..i];
      fallbacks := fallbacks + tables[i];
      i := i + 1;
    }
    assert tables[..i] == tables;
  }

  function Aliases(calls: seq<Call>): (aliases: seq<string>)
    ensures |aliases| == |calls| && forall k :: 0 <= k < |calls| ==> aliases[k] == calls[k].alias
  {
    seq(|calls|, k requires 0 <= k < |calls| => calls[k].alias)
  }

  /** The models of a fallback chain that have deployments, in order. */
  function Known(deployments: map<string, seq<Entry>>, chain: seq<string>): seq<string>
  {
    if chain == [] then []
    else (if chain[0] in deployments then [chain[0]] else []) + Known(deployments, chain[1..])
  }

  lemma {:induction false} KnownNext(deployments: map<string, seq<Entry>>, chain: seq<string>, m: string)
    ensures Known(deployments, chain + [m]) == Known(deployments, chain) + if m in deployments then [m] else []
  {
    if chain == [] {
      assert ([] + [m])[1..] == [];
    } else {
      assert (chain + [m])[1..] == chain[1..] + [m];
      KnownNext(deployments, chain[1..], m);
    }
  }

  /** The number of calls to one alias. */
  function CallsTo(calls: seq<Call>, alias: string): nat
  {
    if calls == [] then 0
    else CallsTo(calls[..|calls| - 1], alias) + if calls[|calls| - 1].alias == alias then 1 else 0
  }

  lemma CallsToNext(calls: seq<Call>, c: Call)
    ensures forall m :: CallsTo(calls + [c], m) == CallsTo(calls, m) + if c.alias == m then 1 else 0
  {
    assert (calls + [c])[..|calls|] == calls;
  }

  /** Nobody else picks while this request runs. */
  ghost predicate Alone(others: nat -> map<string, nat>)
  {
    forall k :: others(k) == map[]
  }

  lemma AloneAt(others: nat -> map<string, nat>, k: nat)
    requires Alone(others)
    ensures others(k) == map[]
  {
  }

  class Router {
    const deployments: map<string, seq<Entry>>
    const fallbacks: map<string, seq<string>>
    const numRetries: nat
    var counters: map<string, nat>

    ghost predicate Valid()
      reads this
    {
      && counters.Keys == deployments.Keys
      && (forall m :: m in deployments ==> deployments[m] != [])
      && (forall m :: m in counters ==> counters[m] < USIZE)
      && numRetries < U32
    }

    constructor (deployments: map<string, seq<Entry>>, fallbacks: map<string, seq<string>>, numRetries: nat)
      requires numRetries < U32
      requires forall m :: m in deployments ==> deployments[m] != []
      ensures Valid()
      ensures this.deployments == deployments && this.fallbacks == fallbacks && this.numRetries == numRetries
      ensures forall m :: m in counters ==> counters[m] == 0
    {
      this.deployments, this.fallbacks, this.numRetries := deployments, fallbacks, numRetries;
      counters := map m | m in deployments :: 0;
    }

    /** The atomic fetch-and-add, which wraps around, reduced to an index. */
    method NextIndex(model: string) returns (index: Option<nat>)
      requires Valid()
      modifies this
      ensures Valid()
      ensures index == None <==> model !in deployments
      ensures model !in deployments ==> counters == old(counters)
      ensures model in deployments ==>
        && counters == old(counters)[model := (old(counters)[model] + 1) % USIZE]
        && index.value == old(counters)[model] % |deployments[model]|
        && index.value < |deployments[model]|
    {
      if model !in deployments || |deployments[model]| == 0 || model !in counters {
        return None;
      }
      var ticket := counters[model];
      counters := counters[model := (ticket + 1) % USIZE];
      index := Some(ticket % |deployments[model]|);
    }

    /** What other requests do between two atomic steps of this one: any number of picks. */
    method Interfere(others: map<string, nat>)
      requires Valid()
      modifies this
      ensures Valid()
      ensures forall m :: m in deployments ==>
        counters[m] == (old(counters)[m] + if m in others then others[m] else 0) % USIZE
    {
      counters := map m | m in counters :: (counters[m] + if m in others then others[m] else 0) % USIZE;
    }

    function FallbacksFor(model: string): seq<string>
    {
      if model in fallbacks then fallbacks[model] else []
    }

    /** num_retries + 1 in 32 bits. */
    function MaxAttempts(): nat
    {
      (numRetries + 1) % U32
    }

    /** The aliases that are tried when every call fails. */
    function Plan(model: string): seq<string>
    {
      (if model in deployments then seq(MaxAttempts(), i => model) else [])
      + Deployable(FallbacksFor(model))
    }

    function Deployable(models: seq<string>): seq<string>
    {
      if models == [] then []
      else Deployable(models[..|models| - 1])
           + if models[|models| - 1] in deployments then [models[|models| - 1]] else []
    }

    /** The calls made so far follow the plan and all of them failed. */
    ghost predicate AllFailed<T(!new)>(plan: seq<string>, calls: seq<Call>, answer: (nat, Call) -> Outcome<T>)
    {
      && |calls| <= |plan|
      && (forall k :: 0 <= k < |calls| ==>
           && calls[k].alias == plan[k]
           && plan[k] in deployments && calls[k].index < |deployments[plan[k]]|
           && answer(k, calls[k]).FailedWith?)
    }

    lemma NothingFailed<T(!new)>(plan: seq<string>, answer: (nat, Call) -> Outcome<T>)
      ensures AllFailed(plan, [], answer)
    {
    }

    lemma OneCallMore<T(!new)>(plan: seq<string>, calls: seq<Call>, c: Call, answer: (nat, Call) -> Outcome<T>)
      requires AllFailed(plan, calls, answer)
      requires |calls| < |plan| && c.alias == plan[|calls|] && c.alias in deployments && c.index < |deployments[c.alias]|
      ensures answer(|calls|, c).FailedWith? ==> AllFailed(plan, calls + [c], answer)
      ensures answer(|calls|, c).Succeeded? ==> EndsWell(plan, calls + [c], answer)
    {
      assert (calls + [c])[..|calls|] == calls;
    }

    /** The index is that of the counter as others have left it; alone, the counter moves on by one. */
    ghost predicate Picked(before: map<string, nat>, others: map<string, nat>, call: Option<Call>, after: map<string, nat>)
    {
      match call
      case None => others == map[] ==> after == before
      case Some(c) =>
        && c.alias in before && c.alias in deployments && deployments[c.alias] != []
        && c.index == ((before[c.alias] + if c.alias in others then others[c.alias] else 0) % USIZE) % |deployments[c.alias]|
        && (others == map[] ==> after == before[c.alias := (before[c.alias] + 1) % USIZE])
    }

    /** One pick and one provider call. */
    method Try<T(!new)>(alias: string, made: nat, others: map<string, nat>, answer: (nat, Call) -> Outcome<T>)
      returns (call: Option<Call>, outcome: Option<Outcome<T>>)
      requires Valid()
      modifies this
      ensures Valid()
      ensures call == None <==> alias !in deployments
      ensures call == None <==> outcome == None
      ensures call != None ==>
        && call.value.alias == alias && call.value.index < |deployments[alias]|
        && outcome.value == answer(made, call.value)
      ensures Picked(old(counters), others, call, counters)
    {
      Interfere(others);
      assert others == map[] ==> counters == old(counters);
      var index := NextIndex(alias);
      if index == None {
        return None, None;
      }
      var c := Call(alias, index.value);
      return Some(c), Some(answer(made, c));
    }

    /**
     * `answer(k, c)` is what the k-th call, made to c, returns, and `others(k)` what other requests
     * do before attempt k. The calls follow the plan and stop at the first success, which is
     * returned; when all fail the last error is returned, or, when there was none to make, an
     * error that tells whether the alias is known. All fail only after num_retries + 1 calls to the
     * alias, if it is known and the sum does not wrap around, and one call to each known fallback.
     */
    method RunWithRetriesAndFallbacks<T(!new)>(model: string, answer: (nat, Call) -> Outcome<T>,
                                         others: nat -> map<string, nat>)
      returns (outcome: Outcome<T>, calls: seq<Call>)
      requires Valid()
      modifies this
      ensures Valid()
      ensures |calls| <= |Plan(model)|
      ensures forall k :: 0 <= k < |calls| ==>
        && calls[k].alias == Plan(model)[k]
        && calls[k].alias in deployments && calls[k].index < |deployments[calls[k].alias]|
      ensures forall k :: 0 <= k < |calls| - 1 ==> answer(k, calls[k]).FailedWith?
      ensures calls != [] ==> outcome == answer(|calls| - 1, calls[|calls| - 1])
      ensures calls == [] ==>
        outcome == FailedWith(if model in deployments then AllDeploymentsFailed else ModelNotFound)
      ensures outcome.FailedWith? ==> |calls| == |Plan(model)|
      ensures CallsFor(model, calls, outcome.FailedWith?)
      ensures Alone(others) ==> Served(old(counters), calls, counters)
    {
      hide Deployable, Plan, CallsFor, FollowsPlan, Served, Alone;
      PlanStart(model);
      var success: Option<Outcome<T>>;
      calls, success := RunAttempts(model, answer, others);
      if success != None {
        EndsWellFollows(model, calls, answer);
        return success.value, calls;
      }
      calls, success := RunFallbacks(model, calls, answer, others, old(counters));
      if success != None {
        EndsWellFollows(model, calls, answer);
        return success.value, calls;
      }
      PlanSize(model);
      AllFailedFollows(model, calls, answer);
      if model !in deployments && calls == [] {
        return FailedWith(ModelNotFound), calls;
      }
      if calls == [] {
        return FailedWith(AllDeploymentsFailed), calls;
      }
      return answer(|calls| - 1, calls[|calls| - 1]), calls;
    }

    /**
     * First the calls to the alias: num_retries + 1, or none when it is unknown or the sum wraps around
     * in 32 bits. Then one call to each fallback of the alias that is known, in order. When all have
     * failed, all of these were made.
     */
    ghost predicate CallsFor(model: string, calls: seq<Call>, failed: bool)
    {
      var attempts := if model !in deployments || numRetries == U32 - 1 then 0 else numRetries + 1;
      var chain := if model in fallbacks then fallbacks[model] else [];
      && (forall k :: 0 <= k < |calls| && k < attempts ==> calls[k].alias == model)
      && (|calls| > attempts ==> Aliases(calls[attempts..]) <= Known(deployments, chain))
      && (failed ==> |calls| >= attempts && Aliases(calls[attempts..]) == Known(deployments, chain))
    }

    /** From these counters on, each call went to its alias's next deployment in turn. */
    ghost predicate InTurn(start: map<string, nat>, calls: seq<Call>)
    {
      && start.Keys == deployments.Keys
      && forall k :: 0 <= k < |calls| ==>
        && calls[k].alias in deployments && deployments[calls[k].alias] != []
        && calls[k].index == ((start[calls[k].alias] + CallsTo(calls[..k], calls[k].alias)) % USIZE) % |deployments[calls[k].alias]|
    }

    /** The counters once these calls have been made and nobody else has picked. */
    ghost predicate Advanced(start: map<string, nat>, calls: seq<Call>, now: map<string, nat>)
    {
      && start.Keys == deployments.Keys && now.Keys == deployments.Keys
      && forall m :: m in deployments ==> now[m] == (start[m] + CallsTo(calls, m)) % USIZE
    }

    ghost predicate Served(start: map<string, nat>, calls: seq<Call>, now: map<string, nat>)
    {
      InTurn(start, calls) && Advanced(start, calls, now)
    }

    lemma NoCallsYet(start: map<string, nat>)
      requires start.Keys == deployments.Keys && forall m :: m in start ==> start[m] < USIZE
      ensures Served(start, [], start)
    {
    }

    lemma NextTurn(start: map<string, nat>, calls: seq<Call>, before: map<string, nat>, c: Call)
      requires InTurn(start, calls) && Advanced(start, calls, before)
      requires c.alias in deployments && deployments[c.alias] != [] && c.index == before[c.alias] % |deployments[c.alias]|
      ensures InTurn(start, calls + [c])
    {
      hide CallsTo;
      var all := calls + [c];
      assert all[..|calls|] == calls;
      assert forall k :: 0 <= k < |calls| ==> all[..k] == calls[..k] && all[k] == calls[k];
      assert c.index == ((start[c.alias] + CallsTo(calls, c.alias)) % USIZE) % |deployments[c.alias]|;
      forall k | 0 <= k < |all|
        ensures all[k].alias in deployments && deployments[all[k].alias] != []
        ensures all[k].index == ((start[all[k].alias] + CallsTo(all[..k], all[k].alias)) % USIZE) % |deployments[all[k].alias]|
      {
        if k < |calls| {
          assert calls[k].index
            == ((start[calls[k].alias] + CallsTo(calls[..k], calls[k].alias)) % USIZE) % |deployments[calls[k].alias]|;
        }
      }
    }

    lemma NextAdvance(start: map<string, nat>, calls: seq<Call>, before: map<string, nat>, c: Call)
      requires Advanced(start, calls, before) && c.alias in deployments
      ensures Advanced(start, calls + [c], before[c.alias := (before[c.alias] + 1) % USIZE])
    {
      WrapSucc(start[c.alias] + CallsTo(calls, c.alias));
      CallsToNext(calls, c);
      hide CallsTo;
    }

    lemma NextServed(start: map<string, nat>, calls: seq<Call>, before: map<string, nat>, others: map<string, nat>,
                     call: Option<Call>, after: map<string, nat>)
      requires Served(start, calls, before) && Picked(before, others, call, after) && others == map[]
      ensures Served(start, if call == None then calls else calls + [call.value], after)
    {
      if call != None {
        NextTurn(start, calls, before, call.value);
        NextAdvance(start, calls, before, call.value);
      }
      hide InTurn, Advanced;
    }

    ghost predicate FollowsPlan(model: string, calls: seq<Call>)
    {
      |calls| <= |Plan(model)| && forall k :: 0 <= k < |calls| ==> calls[k].alias == Plan(model)[k]
    }

    lemma CallsFollowPlan(model: string, calls: seq<Call>)
      requires numRetries < U32 && FollowsPlan(model, calls)
      ensures CallsFor(model, calls, |calls| == |Plan(model)|)
    {
      hide Deployable, Known;
      var attempts := if model !in deployments || numRetries == U32 - 1 then 0 else numRetries + 1;
      var chain := FallbacksFor(model);
      DeployableIsKnown(chain);
      assert MaxAttempts() == (if numRetries == U32 - 1 then 0 else numRetries + 1);
      assert |Plan(model)| == attempts + |Known(deployments, chain)|;
      assert forall k :: 0 <= k < attempts ==> Plan(model)[k] == model;
      assert forall k :: 0 <= k < |Known(deployments, chain)| ==> Plan(model)[attempts + k] == Known(deployments, chain)[k];
    }

    lemma EndsWellFollows<T(!new)>(model: string, calls: seq<Call>, answer: (nat, Call) -> Outcome<T>)
      requires numRetries < U32 && EndsWell(Plan(model), calls, answer)
      ensures CallsFor(model, calls, false)
    {
      assert forall k :: 0 <= k < |calls| - 1 ==> calls[..|calls| - 1][k] == calls[k];
      hide Plan;
      CallsFollowPlan(model, calls);
    }

    lemma AllFailedFollows<T(!new)>(model: string, calls: seq<Call>, answer: (nat, Call) -> Outcome<T>)
      requires numRetries < U32 && AllFailed(Plan(model), calls, answer) && |calls| == |Plan(model)|
      ensures CallsFor(model, calls, true)
    {
      hide Plan;
      CallsFollowPlan(model, calls);
    }

    lemma {:induction false} DeployableIsKnown(chain: seq<string>)
      ensures Deployable(chain) == Known(deployments, chain)
    {
      if chain != [] {
        var n := |chain| - 1;
        DeployableIsKnown(chain[..n]);
        KnownNext(deployments, chain[..n], chain[n]);
        assert chain == chain[..n] + [chain[n]];
      }
    }

    /** The retry loop: ends at the first success, or once all attempts have failed. */
    method RunAttempts<T(!new)>(model: string, answer: (nat, Call) -> Outcome<T>, others: nat -> map<string, nat>)
      returns (calls: seq<Call>, success: Option<Outcome<T>>)
      requires Valid()
      modifies this
      ensures Valid()
      ensures success == None ==> AllFailed(Plan(model), calls, answer)
      ensures success == None ==> |calls| == if model in deployments then MaxAttempts() else 0
      ensures success != None ==> EndsWell(Plan(model), calls, answer) && success.value == answer(|calls| - 1, calls[|calls| - 1])
      ensures Alone(others) ==> Served(old(counters), calls, counters)
    {
      NoCallsYet(counters);
      PlanStart(model);
      hide Deployable, Plan, AllFailed, EndsWell, Served, Alone, Picked, MaxAttempts;
      calls := [];
      NothingFailed(Plan(model), answer);
      var attempt := 0;
      while attempt < MaxAttempts()
        invariant 0 <= attempt <= MaxAttempts() && Valid()
        invariant attempt > 0 ==> model in deployments
        invariant |calls| == attempt
        invariant AllFailed(Plan(model), calls, answer)
        invariant Alone(others) ==> Served(old(counters), calls, counters)
      {
        ghost var before := counters;
        var call, result := Try(model, |calls|, others(attempt), answer);
        if Alone(others) {
          AloneAt(others, attempt);
          NextServed(old(counters), calls, before, others(attempt), call, counters);
        }
        if call == None {
          break;
        }
        OneCallMore(Plan(model), calls, call.value, answer);
        calls := calls + [call.value];
        if result.value.Succeeded? {
          return calls, result;
        }
        attempt := attempt + 1;
      }
      success := None;
    }

    /** The fallback chain: each known fallback is called once. */
    method RunFallbacks<T(!new)>(model: string, tried: seq<Call>, answer: (nat, Call) -> Outcome<T>,
                           others: nat -> map<string, nat>, ghost start: map<string, nat>)
      returns (calls: seq<Call>, success: Option<Outcome<T>>)
      requires Valid()
      requires AllFailed(Plan(model), tried, answer)
      requires |tried| == if model in deployments then MaxAttempts() else 0
      requires start.Keys == deployments.Keys && forall m :: m in start ==> start[m] < USIZE
      requires Alone(others) ==> Served(start, tried, counters)
      modifies this
      ensures Valid()
      ensures success == None ==> AllFailed(Plan(model), calls, answer)
      ensures success == None ==> |calls| == |tried| + |Deployable(FallbacksFor(model))|
      ensures success != None ==> EndsWell(Plan(model), calls, answer) && success.value == answer(|calls| - 1, calls[|calls| - 1])
      ensures Alone(others) ==> Served(start, calls, counters)
    {
      hide Plan, Deployable, AllFailed, EndsWell, Served, Alone, Picked;
      NoneDeployable();
      var fallbackModels := FallbacksFor(model);
      calls := tried;
      var i := 0;
      while i < |fallbackModels|
        invariant 0 <= i <= |fallbackModels| && Valid()
        invariant |calls| == |tried| + |Deployable(fallbackModels[..i])|
        invariant Alone(others) ==> Served(start, calls, counters)
        invariant AllFailed(Plan(model), calls, answer)
      {
        DeployableNext(fallbackModels, i);
        ghost var before := counters;
        var call, result := Try(fallbackModels[i], |calls|, others(MaxAttempts() + i), answer);
        if Alone(others) {
          AloneAt(others, MaxAttempts() + i);
          NextServed(start, calls, before, others(MaxAttempts() + i), call, counters);
        }
        if call != None {
          PlanAt(model, i);
          OneCallMore(Plan(model), calls, call.value, answer);
          calls := calls + [call.value];
          if result.value.Succeeded? {
            return calls, result;
          }
        }
        i := i + 1;
      }
      assert fallbackModels[..i] == fallbackModels;
      success := None;
    }

    /** Calls that follow the plan, of which only the last one succeeded. */
    ghost predicate EndsWell<T(!new)>(plan: seq<string>, calls: seq<Call>, answer: (nat, Call) -> Outcome<T>)
    {
      && 0 < |calls| <= |plan|
      && AllFailed(plan, calls[..|calls| - 1], answer)
      && var k := |calls| - 1;
         && calls[k].alias == plan[k]
         && plan[k] in deployments && calls[k].index < |deployments[plan[k]]|
         && answer(k, calls[k]).Succeeded?
    }

    lemma NoneDeployable()
      ensures Deployable([]) == []
    {
    }

    lemma DeployableNext(models: seq<string>, i: nat)
      requires i < |models|
      ensures |Deployable(models[..i + 1])| == |Deployable(models[..i])| + if models[i] in deployments then 1 else 0
    {
      assert models[..i + 1][..i] == models[..i];
    }

    lemma PlanStart(model: string)
      ensures model in deployments ==> |Plan(model)| >= MaxAttempts()
      ensures model in deployments ==> forall k :: 0 <= k < MaxAttempts() ==> Plan(model)[k] == model
    {
    }

    lemma PlanSize(model: string)
      ensures |Plan(model)| == (if model in deployments then MaxAttempts() else 0) + |Deployable(FallbacksFor(model))|
    {
    }

    lemma {:induction false} DeployablePrefix(models: seq<string>, i: nat)
      requires i < |models| && models[i] in deployments
      ensures |Deployable(models[..i])| < |Deployable(models)|
      ensures Deployable(models)[|Deployable(models[..i])|] == models[i]
    {
      var n := |models| - 1;
      if i < n {
        DeployablePrefix(models[..n], i);
        assert models[..n][..i] == models[..i];
      }
    }

    lemma PlanAt(model: string, i: nat)
      requires i < |FallbacksFor(model)| && FallbacksFor(model)[i] in deployments
      ensures var k := (if model in deployments then MaxAttempts() else 0) + |Deployable(FallbacksFor(model)[..i])|;
        k < |Plan(model)| && Plan(model)[k] == FallbacksFor(model)[i]
    {
      DeployablePrefix(FallbacksFor(model), i);
    }

    lemma {:induction false} DeployableShort(models: seq<string>)
      ensures |Deployable(models)| <= |models|
    {
      if models != [] {
        DeployableShort(models[..|models| - 1]);
      }
    }

    /**
     * At most num_retries + 1 + |fallbacks| calls; and "no call is made" means "the alias and its
     * fallbacks are unknown" exactly when num_retries + 1 does not wrap around to zero or the alias
     * is unknown anyway.
     */
    lemma PlanBounds(model: string)
      requires numRetries < U32
      ensures |Plan(model)| <= numRetries + 1 + |FallbacksFor(model)|
      ensures (Plan(model) == [] ==> model !in deployments)
         <==> (numRetries + 1 < U32 || model !in deployments || Deployable(FallbacksFor(model)) != [])
    {
      DeployableShort(FallbacksFor(model));
    }
  }

  /** Builds the router a configuration describes. */
  method FromConfig(config: Config, known: string -> bool) returns (r: Option<Router>)
    requires RetriesOf(config) < U32
    ensures r == None <==> exists i :: 0 <= i < |config.models| && !known(config.models[i].provider)
    ensures r != None ==>
      && fresh(r.value) && r.value.Valid()
      && Grouped(r.value.deployments, config.models)
      && Merged(r.value.fallbacks, config.fallbacks)
      && (config.generalRetries != None ==> r.value.numRetries == config.generalRetries.value)
      && (config.generalRetries == None && config.gatewayRetries != None ==> r.value.numRetries == config.gatewayRetries.value)
      && (config.generalRetries == None && config.gatewayRetries == None ==> r.value.numRetries == 0)
      && forall m :: m in r.value.counters ==> r.value.counters[m] == 0
  {
    var deployments := GroupEntries(config.models, known);
    if deployments == None {
      return None;
    }
    var fallbacks := MergeFallbacks(config.fallbacks);
    var router := new Router(deployments.value, fallbacks, RetriesOf(config));
    return Some(router);
  }

  // ---- Fairness of the shared counters ----------------------------------------------------

  /** The deployment indices picked for one alias by any requests, in the order of the atomic adds. */
  function Picks(start: nat, n: nat, k: nat): seq<nat>
    requires k > 0
  {
    if n == 0 then [] else Picks(start, n - 1, k) + [((start + n - 1) % USIZE) % k]
  }

  function CountOf(picks: seq<nat>, i: nat): nat
  {
    if picks == [] then 0 else CountOf(picks[..|picks| - 1], i) + if picks[|picks| - 1] == i then 1 else 0
  }

  /**
   * The exact number of picks of each deployment: until the counter wraps around, and for ever when
   * the number of deployments divides the counter's range.
   */
  lemma {:induction false} CountExact(n: nat, k: nat, i: nat)
    requires k > 0 && i < k && (n <= USIZE || USIZE % k == 0)
    ensures CountOf(Picks(0, n, k), i) == n / k + if i < n % k then 1 else 0
  {
    CountNext(0, k, i);
    hide Picks, CountOf;
    if n > 0 {
      var m := n - 1;
      CountNext(m, k, i);
      TicketIndex(m, k);
      CountExact(m, k, i);
      SuccDivMod(m, k);
    } else {
      ZeroDivMod(k);
    }
  }

  lemma CountNext(m: nat, k: nat, i: nat)
    requires k > 0
    ensures CountOf(Picks(0, m + 1, k), i) == CountOf(Picks(0, m, k), i) + if (m % USIZE) % k == i then 1 else 0
    ensures CountOf(Picks(0, 0, k), i) == 0
  {
    var p := Picks(0, m + 1, k);
    assert p == Picks(0, m, k) + [(m % USIZE) % k];
    assert p[..|p| - 1] == Picks(0, m, k);
  }

  /** Wrapping around does not show in the index when k divides the range. */
  lemma TicketIndex(m: nat, k: nat)
    requires k > 0 && (m < USIZE || USIZE % k == 0)
    ensures (m % USIZE) % k == m % k
  {
    if m < USIZE {
      DivModUnique(m, USIZE, 0, m);
    } else {
      var q, c, t := m / USIZE, USIZE / k, m % USIZE;
      assert m == q * USIZE + t;
      assert USIZE == c * k + USIZE % k;
      Regroup(q, c, k, t / k);
      assert t == (t / k) * k + t % k;
      DivModUnique(m, k, q * c + t / k, t % k);
    }
  }

  lemma Regroup(q: nat, c: nat, k: nat, d: nat)
    ensures (q * c + d) * k == q * (c * k) + d * k
  {
  }

  lemma ZeroDivMod(k: nat)
    requires k > 0
    ensures 0 / k == 0 && 0 % k == 0
  {
  }

  lemma SuccDivMod(m: nat, k: nat)
    requires k > 0
    ensures if m % k == k - 1 then (m + 1) / k == m / k + 1 && (m + 1) % k == 0
            else (m + 1) / k == m / k && (m + 1) % k == m % k + 1
  {
    var q, r := m / k, m % k;
    assert m == q * k + r;
    if r == k - 1 {
      assert m + 1 == (q + 1) * k;
      DivModUnique(m + 1, k, q + 1, 0);
    } else {
      DivModUnique(m + 1, k, q, r + 1);
    }
  }

  lemma QuotientAtMost(k: nat, q: nat, r: nat, q': nat, r': nat)
    requires k > 0 && r < k && r' < k
    ensures q * k + r == q' * k + r' ==> q <= q'
  {
    if q' < q {
      assert (q' + 1) * k <= q * k;
    }
  }

  lemma DivModUnique(a: nat, k: nat, q: nat, r: nat)
    requires k > 0 && a == q * k + r && r < k
    ensures a / k == q && a % k == r
  {
    QuotientAtMost(k, q, r, a / k, a % k);
    QuotientAtMost(k, a / k, a % k, q, r);
  }

  /** The shared counters and, for each alias, the indices picked so far. */
  datatype Shared = Shared(counters: map<string, nat>, picked: map<string, seq<nat>>)

  function NewShared(sizes: map<string, nat>): Shared
  {
    Shared(map m | m in sizes :: 0, map m | m in sizes :: [])
  }

  /** One atomic pick by any request. */
  function Pick(sizes: map<string, nat>, s: Shared, m: string): (t: Shared)
    requires s.counters.Keys == s.picked.Keys == sizes.Keys
    ensures t.counters.Keys == t.picked.Keys == sizes.Keys
  {
    if m !in sizes || sizes[m] == 0 then s
    else Shared(s.counters[m := (s.counters[m] + 1) % USIZE],
                s.picked[m := s.picked[m] + [s.counters[m] % sizes[m]]])
  }

  /** All picks of concurrent requests, in the order of the atomic operations. */
  function PickAll(sizes: map<string, nat>, s: Shared, aliases: seq<string>): (t: Shared)
    requires s.counters.Keys == s.picked.Keys == sizes.Keys
    ensures t.counters.Keys == t.picked.Keys == sizes.Keys
    decreases |aliases|
  {
    if aliases == [] then s else PickAll(sizes, Pick(sizes, s, aliases[0]), aliases[1..])
  }

  ghost predicate InStep(sizes: map<string, nat>, s: Shared)
  {
    && s.counters.Keys == s.picked.Keys == sizes.Keys
    && forall m :: m in sizes && sizes[m] > 0 ==>
         s.counters[m] == |s.picked[m]| % USIZE && s.picked[m] == Picks(0, |s.picked[m]|, sizes[m])
  }

  lemma NewInStep(sizes: map<string, nat>)
    ensures InStep(sizes, NewShared(sizes))
  {
  }

  lemma {:induction false} PickAllInStep(sizes: map<string, nat>, s: Shared, aliases: seq<string>)
    requires InStep(sizes, s)
    ensures InStep(sizes, PickAll(sizes, s, aliases))
    decreases |aliases|
  {
    if aliases != [] {
      var m := aliases[0];
      var t := Pick(sizes, s, m);
      if m in sizes && sizes[m] > 0 {
        WrapSucc(|s.picked[m]|);
      }
      assert InStep(sizes, t);
      PickAllInStep(sizes, t, aliases[1..]);
    }
  }

  lemma WrapSucc(n: nat)
    ensures (n % USIZE + 1) % USIZE == (n + 1) % USIZE
  {
    SuccDivMod(n, USIZE);
  }

  /**
   * Over any interleaving of requests, until an alias's counter wraps around or for ever when its
   * number of deployments divides the counter's range, the numbers of picks of any two of its
   * deployments differ by at most one.
   */
  lemma RoundRobinFair(sizes: map<string, nat>, aliases: seq<string>, m: string, i: nat, j: nat)
    requires m in sizes && i < sizes[m] && j < sizes[m]
    requires |PickAll(sizes, NewShared(sizes), aliases).picked[m]| <= USIZE || USIZE % sizes[m] == 0
    ensures var picks := PickAll(sizes, NewShared(sizes), aliases).picked[m];
      -1 <= CountOf(picks, i) - CountOf(picks, j) <= 1
  {
    PickAllInStep(sizes, NewShared(sizes), aliases);
    var picks := PickAll(sizes, NewShared(sizes), aliases).picked[m];
    CountExact(|picks|, sizes[m], i);
    CountExact(|picks|, sizes[m], j);
  }

  /** No interleaving, however long, ever picks one deployment of m two times more than another. */
  ghost predicate AlwaysFair(sizes: map<string, nat>, m: string)
    requires m in sizes
  {
    forall aliases, i: nat, j: nat :: i < sizes[m] && j < sizes[m] ==>
      CountOf(PickAll(sizes, NewShared(sizes), aliases).picked[m], i)
      - CountOf(PickAll(sizes, NewShared(sizes), aliases).picked[m], j) <= 1
  }

  lemma {:induction false} PickOnly(sizes: map<string, nat>, s: Shared, m: string, aliases: seq<string>)
    requires s.counters.Keys == s.picked.Keys == sizes.Keys
    requires m in sizes && sizes[m] > 0 && forall k :: 0 <= k < |aliases| ==> aliases[k] == m
    ensures |PickAll(sizes, s, aliases).picked[m]| == |s.picked[m]| + |aliases|
    decreases |aliases|
  {
    if aliases != [] {
      PickOnly(sizes, Pick(sizes, s, m), m, aliases[1..]);
    }
  }

  /** The first pick after the wrap goes to deployment 0 again, whichever came last. */
  lemma UnfairAfterWrap(k: nat)
    requires k > 0 && USIZE % k != 0
    ensures k > 1 && CountOf(Picks(0, USIZE + 1, k), 0) == CountOf(Picks(0, USIZE + 1, k), k - 1) + 2
  {
    hide Picks, CountOf;
    CountExact(USIZE, k, 0);
    CountExact(USIZE, k, k - 1);
    CountNext(USIZE, k, 0);
    CountNext(USIZE, k, k - 1);
    ZeroDivMod(k);
  }

  /** Round robin is fair for ever exactly when the number of deployments divides the counter's range. */
  lemma AlwaysFairIff(sizes: map<string, nat>, m: string)
    requires m in sizes && sizes[m] > 0
    ensures AlwaysFair(sizes, m) <==> USIZE % sizes[m] == 0
  {
    hide PickAll, CountOf, Picks;
    var k := sizes[m];
    if USIZE % k == 0 {
      forall aliases, i: nat, j: nat | i < k && j < k
        ensures CountOf(PickAll(sizes, NewShared(sizes), aliases).picked[m], i)
              - CountOf(PickAll(sizes, NewShared(sizes), aliases).picked[m], j) <= 1
      {
        RoundRobinFair(sizes, aliases, m, i, j);
      }
    } else {
      var aliases := seq(USIZE + 1, _ => m);
      PickOnly(sizes, NewShared(sizes), m, aliases);
      NewInStep(sizes);
      PickAllInStep(sizes, NewShared(sizes), aliases);
      UnfairAfterWrap(k);
      assert PickAll(sizes, NewShared(sizes), aliases).picked[m] == Picks(0, USIZE + 1, k);
      assert 0 < k && k - 1 < k;
    }
  }
}
