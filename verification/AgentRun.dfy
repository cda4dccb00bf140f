/** The agent run protocol: do_run_global_agents_v1 chains the layers of
    job_queue backwards as nested continuations, do_runlevel_global_agents_v1
    starts one layer, do_decrement_global_counter_v1 joins its parallel agents
    (workers/gearbox/WorkerGearbox.cc:471-625), and run_job fires the
    COMPLETED handlers (gearbox/worker/Worker.cc:96-107,280-331).

    The run is a transition system over every interleaving. Agents are gearman
    jobs that fire at most one COMPLETED event, and the locked section of the
    counter file is one step. */
module AgentRun {
  import opened Outcomes
  import JobQueue

  /** A queued job with its COMPLETED continuation. `RunLevel` carries the
      jobs of its layer, `Decrement` the id of its counter file. */
  datatype Job =
    | RunLevel(jobs: seq<Job>)
    | Agent(name: string, on: Job)
    | Decrement(counter: nat, on: Job)

  type Levels = seq<seq<string>>

  // ---- building the chain --------------------------------------------------------

  /** The job that runs the layers from `l` on; after the last one an empty
      layer, which succeeds. */
  function Continue(q: Levels, l: nat): (j: Job)
    requires l <= |q|
    ensures j.RunLevel?
    decreases |q| - l, 1
  {
    if l == |q| then RunLevel([]) else RunLevel(AgentsOf(q[l], After(q, l)))
  }

  /** What a completed agent of layer `l` triggers. */
  function After(q: Levels, l: nat): Job
    requires l < |q|
    decreases |q| - l, 0
  {
    if |q[l]| == 1 then Continue(q, l + 1) else Decrement(l, Continue(q, l + 1))
  }

  function AgentsOf(names: seq<string>, on: Job): seq<Job> {
    seq(|names|, i requires 0 <= i < |names| => Agent(names[i], on))
  }

  function InitialCounters(q: Levels): map<nat, int> { map l: nat | l < |q| && |q[l]| != 1 :: |q[l]| }

  /** The loop of do_run_global_agents_v1, from the last layer to the first. */
  method ChainLevels(q: Levels) returns (nextLevel: Job, counters: map<nat, int>)
    ensures nextLevel == Continue(q, 0)
    ensures counters == InitialCounters(q)
  {
    nextLevel, counters := RunLevel([]), map[];
    var level := |q|;
    while level > 0
      invariant 0 <= level <= |q|
      invariant nextLevel == Continue(q, level)
      invariant forall l: nat :: l in counters <==> level <= l < |q| && |q[l]| != 1
      invariant forall l <- counters :: counters[l] == |q[l]|
    {
      var batch := q[level - 1];
      var on := nextLevel;
      if |batch| != 1 {
        counters := counters[level - 1 := |batch|];
        on := Decrement(level - 1, nextLevel);
      }
      var jobs := [];
      for i := 0 to |batch|
        invariant jobs == AgentsOf(batch[..i], on)
      {
        assert AgentsOf(batch[..i + 1], on) == AgentsOf(batch[..i], on) + [Agent(batch[i], on)];
        jobs := jobs + [Agent(batch[i], on)];
      }
      assert batch[..|batch|] == batch;
      nextLevel := RunLevel(jobs);
      level := level - 1;
    }
    assert counters == InitialCounters(q);
  }

  // ---- the transition system --------------------------------------------------------

  /** The status handed to an event handler: whose completion it is, and the
      final code. */
  datatype Event = Event(who: string, code: int)

  datatype Msg = Msg(job: Job, event: Option<Event>)

  /** `pending` is the gearman queue, `after` the jobs a worker has pushed to
      its afterwards queue but not run yet, `overall` the final code of the
      whole run. `queued` and `results` record history, `launched` counts the
      layers started so far. */
  datatype State = State(
    pending: set<Msg>,
    after: set<Job>,
    counters: map<nat, int>,
    overall: Option<int>,
    queued: seq<string>,
    results: map<string, int>,
    launched: nat)

  /** A worker takes one message; an agent ends with some code or without a
      COMPLETED event; a worker runs one job of its afterwards queue, or loses it:
      its run() throws, or a later call that fails clears the queue. */
  datatype Step =
    | Take(m: Msg)
    | Ends(m: Msg, code: int)
    | Vanishes(m: Msg)
    | RunsAfterwards(job: Job)
    | Drops(job: Job)

  /** The first final code of the run's status stays. */
  function Finish(s: State, code: int): State { if s.overall.Some? then s else s.(overall := Some(code)) }

  /** throw_from_code: the codes it knows stay, every other one becomes 500, so a
      failure always surfaces as 300 or more. */
  function ErrorCode(code: int): (r: int)
    ensures r >= 300
  {
    if || 300 <= code <= 305 || code == 307 || 400 <= code <= 417 || 422 <= code <= 424 || code == 426
       || 500 <= code <= 507 || code == 510
    then code else 500
  }

  lemma ErrorCodes(code: int)
    ensures ErrorCode(code) == if code in {
      300, 301, 302, 303, 304, 305, 307, 400, 401, 402, 403, 404, 405, 406, 407, 408, 409, 410, 411, 412, 413, 414,
      415, 416, 417, 422, 423, 424, 426, 500, 501, 502, 503, 504, 505, 506, 507, 510} then code else 500
  {
  }

  /** do_runlevel_global_agents_v1. */
  function TakeRunLevel(s: State, m: Msg): State
    requires m.job.RunLevel?
  {
    var s' := s.(pending := s.pending - {m});
    if m.event.Some? && m.event.value.code != 0 then Finish(s', ErrorCode(m.event.value.code))
    else if m.job.jobs == [] then Finish(s', 0)
    else s'.(after := s.after + (set j | j in m.job.jobs), launched := s.launched + 1)
  }

  /** do_decrement_global_counter_v1: a failed agent passes its status on
      without touching the counter; the last success passes a success on. */
  function TakeDecrement(s: State, m: Msg): State
    requires m.job.Decrement? && m.event.Some?
  {
    var s' := s.(pending := s.pending - {m});
    var next := Msg(m.job.on, m.event);
    if m.event.value.code != 0 then s'.(pending := s'.pending + {next})
    else if m.job.counter !in s.counters then s'.(pending := s'.pending + {next})
    else
      var newval := s.counters[m.job.counter] - 1;
      if newval > 0 then s'.(counters := s.counters[m.job.counter := newval])
      else s'.(counters := s.counters - {m.job.counter}, pending := s'.pending + {next})
  }

  /** A decrement hands its event on at once after a failure, without a counter,
      and for the last agent that was counted; otherwise only the counter moves. */
  lemma DecrementPassesOn(s: State, m: Msg)
    requires m in s.pending && m.job.Decrement? && m.event.Some? && Msg(m.job.on, m.event) !in s.pending
    ensures var s', l := TakeDecrement(s, m), m.job.counter;
      if m.event.value.code != 0 || l !in s.counters || s.counters[l] <= 1
      then s'.pending == s.pending - {m} + {Msg(m.job.on, m.event)}
      else s'.pending == s.pending - {m} && s'.counters == s.counters[l := s.counters[l] - 1]
    ensures TakeDecrement(s, m).overall == s.overall
  {
  }

  ghost predicate NextStep(s: State, s': State, step: Step) {
    match step
    case Take(m) =>
      && m in s.pending
      && (|| (m.job.RunLevel? && s' == TakeRunLevel(s, m))
          || (m.job.Decrement? && m.event.Some? && s' == TakeDecrement(s, m)))
    case Ends(m, code) =>
      && m in s.pending && m.job.Agent?
      && s' == s.(pending := s.pending - {m} + {Msg(m.job.on, Some(Event(m.job.name, code)))},
                  results := s.results[m.job.name := code])
    case Vanishes(m) =>
      m in s.pending && m.job.Agent? && s' == s.(pending := s.pending - {m})
    case RunsAfterwards(j) =>
      && j in s.after && j.Agent?
      && s' == s.(after := s.after - {j}, pending := s.pending + {Msg(j, None)}, queued := s.queued + [j.name])
    case Drops(j) => j in s.after && s' == s.(after := s.after - {j})
  }

  ghost predicate Next(s: State, s': State) { exists step :: NextStep(s, s', step) }

  function Init(q: Levels): State {
    State({Msg(Continue(q, 0), None)}, {}, InitialCounters(q), None, [], map[], 0)
  }

  ghost predicate Run(q: Levels, tr: seq<State>) {
    && tr != [] && tr[0] == Init(q)
    && forall i, j | 0 <= i && j == i + 1 < |tr| :: Next(tr[i], tr[j])
  }

  /** No batch is empty and no agent occurs twice. */
  ghost predicate Distinct(q: Levels) {
    && (forall l | 0 <= l < |q| :: q[l] != [])
    && (forall l, i, k, j | 0 <= l < |q| && 0 <= i < |q[l]| && 0 <= k < |q| && 0 <= j < |q[k]| ::
          q[l][i] == q[k][j] ==> l == k && i == j)
  }

  // ---- the invariant -------------------------------------------------------------------

  type Results = map<string, int>

  predicate Succeeded(r: Results, a: string) { a in r && r[a] == 0 }

  /** Every agent of layer `l` completed with code 0. */
  ghost predicate Complete(q: Levels, r: Results, l: nat)
    requires l < |q|
  {
    forall a <- q[l] :: Succeeded(r, a)
  }

  /** The message that starts the next layer. */
  predicate Go(m: Msg) { m.job.RunLevel? && (m.event.None? || m.event.value.code == 0) }

  function DecrementOf(q: Levels, l: nat, a: string): Msg
    requires l < |q|
  {
    Msg(Decrement(l, Continue(q, l + 1)), Some(Event(a, 0)))
  }

  /** Agents of layer `l` whose success has reached the counter. */
  ghost function Counted(q: Levels, r: Results, pending: set<Msg>, l: nat): set<string>
    requires l < |q|
  {
    set a | a in q[l] && Succeeded(r, a) && DecrementOf(q, l, a) !in pending
  }

  /** An event comes from an agent of layer `l` and carries its result. */
  predicate EventOk(q: Levels, r: Results, l: nat, e: Option<Event>)
    requires l < |q|
  {
    e.Some? && e.value.who in q[l] && e.value.who in r && r[e.value.who] == e.value.code
  }

  ghost predicate AgentOk(q: Levels, s: State, m: Msg)
    requires m.job.Agent?
  {
    && 0 < s.launched <= |q| && m.event.None?
    && m.job.name in q[s.launched - 1] && m.job.on == After(q, s.launched - 1)
    && m.job.name in s.queued && m.job.name !in s.results
  }

  ghost predicate DecrementOk(q: Levels, s: State, m: Msg) {
    && 0 < s.launched <= |q|
    && m.job == Decrement(s.launched - 1, Continue(q, s.launched))
    && |q[s.launched - 1]| != 1 && EventOk(q, s.results, s.launched - 1, m.event)
  }

  /** A start message for the next layer is alone: nothing else is queued or
      waiting, and the current layer is complete. */
  ghost predicate RunLevelOk(q: Levels, s: State, m: Msg) {
    && s.launched <= |q| && m.job == Continue(q, s.launched)
    && (s.launched == 0 ==> m.event.None?)
    && (s.launched > 0 ==> EventOk(q, s.results, s.launched - 1, m.event))
    && (Go(m) ==> s.pending == {m} && s.after == {} && (s.launched > 0 ==> Complete(q, s.results, s.launched - 1)))
  }

  ghost predicate MsgOk(q: Levels, s: State, m: Msg) {
    match m.job
    case Agent(_, _) => AgentOk(q, s, m)
    case Decrement(_, _) => DecrementOk(q, s, m)
    case RunLevel(_) => RunLevelOk(q, s, m)
  }

  ghost predicate AfterOk(q: Levels, s: State, j: Job) {
    && 0 < s.launched <= |q|
    && j.Agent? && j.on == After(q, s.launched - 1) && j.name in q[s.launched - 1] && j.name !in s.queued
  }

  /** The counter of layer `l` counts the agents whose success has not reached
      it; it is gone once all have. */
  ghost predicate CounterOk(q: Levels, counters: map<nat, int>, r: Results, pending: set<Msg>, l: nat)
    requires l < |q|
  {
    if l in counters then counters[l] == |q[l]| - |Counted(q, r, pending, l)| > 0 else AllCounted(q, r, pending, l)
  }

  ghost predicate AllCounted(q: Levels, r: Results, pending: set<Msg>, l: nat)
    requires l < |q|
  {
    forall a <- q[l] :: a in Counted(q, r, pending, l)
  }

  ghost predicate CountersOk(q: Levels, s: State) {
    && s.launched <= |q|
    && (forall l: nat | s.launched <= l < |q| && |q[l]| != 1 :: l in s.counters && s.counters[l] == |q[l]|)
    && (s.launched > 0 && |q[s.launched - 1]| != 1 ==>
          CounterOk(q, s.counters, s.results, s.pending, s.launched - 1))
  }

  predicate InLayersBelow(q: Levels, a: string, n: nat)
    requires n <= |q|
  {
    exists l | 0 <= l < n :: a in q[l]
  }

  ghost predicate HistoryOk(q: Levels, s: State) {
    && s.launched <= |q|
    && JobQueue.NoRepeats(s.queued)
    && (forall a <- s.queued :: InLayersBelow(q, a, s.launched))
    && (forall a <- s.results :: a in s.queued)
    && (forall l: nat | l + 1 < s.launched :: Complete(q, s.results, l))
    && (s.overall == Some(0) ==> s.launched == |q| && (|q| > 0 ==> Complete(q, s.results, |q| - 1)))
  }

  ghost predicate Inv(q: Levels, s: State) {
    && HistoryOk(q, s)
    && CountersOk(q, s)
    && (forall j <- s.after :: AfterOk(q, s, j))
    && (forall m <- s.pending :: MsgOk(q, s, m))
  }

  lemma InitInv(q: Levels)
    ensures Inv(q, Init(q))
  {
  }

  // ---- every step keeps it ---------------------------------------------------------------

  /** The layer an agent belongs to is unique. */
  lemma SameLayer(q: Levels, a: string, l: nat, k: nat)
    requires Distinct(q) && l < |q| && k < |q| && a in q[l] && a in q[k]
    ensures l == k
  {
    var i :| 0 <= i < |q[l]| && q[l][i] == a;
    var j :| 0 <= j < |q[k]| && q[k][j] == a;
  }

  lemma NotElsewhere(q: Levels, a: string, l: nat, k: nat)
    requires Distinct(q) && l < |q| && k < |q| && a in q[l] && l != k
    ensures a !in q[k]
  {
    var i :| 0 <= i < |q[l]| && q[l][i] == a;
    assert forall j | 0 <= j < |q[k]| :: q[l][i] != q[k][j];
  }

  lemma AfterwardsKeeps(q: Levels, s: State, s': State, j: Job)
    requires Distinct(q) && Inv(q, s) && NextStep(s, s', RunsAfterwards(j))
    ensures Inv(q, s')
  {
    hide Continue, After, Distinct;
    var l, msg := s.launched - 1, Msg(j, None);
    assert AfterOk(q, s, j);
    forall m | m in s'.pending
      ensures MsgOk(q, s', m)
    {
      assert s'.queued[|s.queued|] == j.name;
      if m != msg { assert MsgOk(q, s, m); }
    }
    forall k | k in s'.after
      ensures AfterOk(q, s', k)
    {
      assert AfterOk(q, s, k);
    }
    assert Counted(q, s'.results, s'.pending, l) == Counted(q, s.results, s.pending, l);
    assert HistoryOk(q, s') by {
      forall a | a in s'.queued
        ensures InLayersBelow(q, a, s.launched)
      {
        if a == j.name { assert a in q[l]; }
      }
    }
  }

  lemma VanishKeeps(q: Levels, s: State, s': State, m: Msg)
    requires Distinct(q) && Inv(q, s) && NextStep(s, s', Vanishes(m))
    ensures Inv(q, s')
  {
    hide Continue, After, Distinct, JobQueue.NoRepeats;
    assert MsgOk(q, s, m);
    forall n | n in s'.pending
      ensures MsgOk(q, s', n)
    {
      assert MsgOk(q, s, n);
    }
    forall k | k in s'.after
      ensures AfterOk(q, s', k)
    {
      assert AfterOk(q, s, k);
    }
    assert Counted(q, s'.results, s'.pending, s.launched - 1) == Counted(q, s.results, s.pending, s.launched - 1);
  }

  /** An agent ends. In a layer of one agent its success starts the next
      layer; otherwise it goes to the counter. */
  lemma EndKeeps(q: Levels, s: State, s': State, m: Msg, code: int)
    requires Distinct(q) && Inv(q, s) && NextStep(s, s', Ends(m, code))
    ensures Inv(q, s')
  {
    hide Continue, Distinct, JobQueue.NoRepeats;
    assert MsgOk(q, s, m);
    var l, a := s.launched - 1, m.job.name;
    var msg := Msg(m.job.on, Some(Event(a, code)));
    forall k: nat | k < |q| && Complete(q, s.results, k)
      ensures Complete(q, s'.results, k)
    {
    }
    assert msg.job == After(q, l) && !msg.job.Agent?;
    if |q[l]| == 1 { OnlyAgent(q, s, m); }
    forall n | n in s'.pending
      ensures MsgOk(q, s', n)
    {
      if n != msg {
        assert MsgOk(q, s, n);
        assert n.job.Agent? ==> n.job.name != a;
      }
    }
    forall k | k in s'.after
      ensures AfterOk(q, s', k)
    {
      assert AfterOk(q, s, k);
    }
    if |q[l]| != 1 {
      assert code == 0 ==> msg == DecrementOf(q, l, a);
      assert Counted(q, s'.results, s'.pending, l) == Counted(q, s.results, s.pending, l);
    }
  }

  /** Once every agent of the current layer has been queued, no worker has
      one left in its afterwards queue. */
  lemma NoneWaiting(q: Levels, s: State, l: nat)
    requires Inv(q, s) && s.launched == l + 1 && forall a <- q[l] :: a in s.queued
    ensures s.after == {}
  {
    assert forall k <- s.after :: AfterOk(q, s, k);
  }

  /** While the only agent of a layer runs, nothing else is going on. */
  lemma OnlyAgent(q: Levels, s: State, m: Msg)
    requires Distinct(q) && Inv(q, s) && m in s.pending && m.job.Agent? && |q[s.launched - 1]| == 1
    ensures s.pending == {m} && s.after == {}
  {
    assert MsgOk(q, s, m);
    var l := s.launched - 1;
    assert q[l] == [m.job.name];
    NoneWaiting(q, s, l);
    forall n | n in s.pending
      ensures n == m
    {
      assert MsgOk(q, s, n);
    }
  }

  // ---- taking a start message ----------------------------------------------------------

  lemma TakeFailedRunLevelKeeps(q: Levels, s: State, s': State, m: Msg)
    requires Distinct(q) && Inv(q, s) && m in s.pending && m.job.RunLevel? && !Go(m) && s' == TakeRunLevel(s, m)
    ensures Inv(q, s')
  {
    hide Continue, After, Distinct, JobQueue.NoRepeats;
    assert MsgOk(q, s, m);
    forall n | n in s'.pending
      ensures MsgOk(q, s', n)
    {
      assert MsgOk(q, s, n);
    }
    forall k | k in s'.after
      ensures AfterOk(q, s', k)
    {
      assert AfterOk(q, s, k);
    }
    if s.launched > 0 {
      assert Counted(q, s'.results, s'.pending, s.launched - 1) == Counted(q, s.results, s.pending, s.launched - 1);
    }
  }

  /** The agents of the next layer have neither been queued nor completed. */
  lemma NextLayerIsFresh(q: Levels, s: State, a: string)
    requires Distinct(q) && Inv(q, s) && s.launched < |q| && a in q[s.launched]
    ensures a !in s.queued && a !in s.results
  {
    forall k | 0 <= k < s.launched
      ensures a !in q[k]
    {
      NotElsewhere(q, a, s.launched, k);
    }
    assert !InLayersBelow(q, a, s.launched);
  }

  lemma LayerJobs(q: Levels, l: nat)
    requires Distinct(q) && l < |q|
    ensures Continue(q, l) == RunLevel(AgentsOf(q[l], After(q, l))) && AgentsOf(q[l], After(q, l)) != []
    ensures forall j <- AgentsOf(q[l], After(q, l)) :: j.Agent? && j.on == After(q, l) && j.name in q[l]
  {
  }

  /** Starting a layer: the one before is complete. */
  lemma TakeGoKeeps(q: Levels, s: State, s': State, m: Msg)
    requires Distinct(q) && Inv(q, s) && m in s.pending && Go(m) && s' == TakeRunLevel(s, m) && s.launched < |q|
    ensures Inv(q, s')
  {
    hide Continue, After, JobQueue.NoRepeats, Distinct, Complete;
    assert MsgOk(q, s, m);
    var l, jobs := s.launched, AgentsOf(q[s.launched], After(q, s.launched));
    LayerJobs(q, l);
    assert s'.pending == {} && s'.after == set j | j in jobs;
    forall a | a in q[l]
      ensures a !in s.queued && a !in s.results
    {
      NextLayerIsFresh(q, s, a);
    }
    assert HistoryOk(q, s') by {
      forall a | a in s'.queued
        ensures InLayersBelow(q, a, l + 1)
      {
        assert InLayersBelow(q, a, l);
      }
    }
    assert CountersOk(q, s') by {
      assert Counted(q, s'.results, s'.pending, l) == {};
    }
  }

  /** Past the last layer the run succeeds. */
  lemma TakeLastKeeps(q: Levels, s: State, s': State, m: Msg)
    requires Distinct(q) && Inv(q, s) && m in s.pending && Go(m) && s' == TakeRunLevel(s, m) && s.launched == |q|
    ensures Inv(q, s')
  {
    hide After, JobQueue.NoRepeats, Distinct, Complete;
    assert MsgOk(q, s, m);
    assert s'.pending == {};
    if |q| > 0 {
      assert Counted(q, s'.results, s'.pending, |q| - 1) == Counted(q, s.results, s.pending, |q| - 1);
    }
  }

  // ---- taking a decrement ------------------------------------------------------------------

  lemma TakeFailedDecrementKeeps(q: Levels, s: State, s': State, m: Msg)
    requires Distinct(q) && Inv(q, s) && m in s.pending && m.job.Decrement? && m.event.Some?
    requires m.event.value.code != 0 && s' == TakeDecrement(s, m)
    ensures Inv(q, s')
  {
    hide Continue, After, Distinct, JobQueue.NoRepeats;
    assert MsgOk(q, s, m);
    var next := Msg(m.job.on, m.event);
    forall n | n in s'.pending
      ensures MsgOk(q, s', n)
    {
      if n != next { assert MsgOk(q, s, n); }
      assert EventOk(q, s.results, s.launched - 1, m.event);
      assert !Complete(q, s.results, s.launched - 1);
    }
    forall k | k in s'.after
      ensures AfterOk(q, s', k)
    {
      assert AfterOk(q, s, k);
    }
    assert Counted(q, s'.results, s'.pending, s.launched - 1) == Counted(q, s.results, s.pending, s.launched - 1);
  }

  /** Distinct names: a set of agents of a layer as large as the layer is the
      whole layer. */
  lemma {:induction false} NamesCount(names: seq<string>)
    requires JobQueue.NoRepeats(names)
    ensures |set a | a in names| == |names|
  {
    if names != [] {
      var n := |names| - 1;
      NamesCount(names[..n]);
      assert (set a | a in names) == (set a | a in names[..n]) + {names[n]};
    }
  }

  lemma FullCount(names: seq<string>, counted: set<string>)
    requires JobQueue.NoRepeats(names) && (forall a <- counted :: a in names)
    ensures |counted| <= |names|
    ensures |counted| == |names| ==> forall a <- names :: a in counted
  {
    var all := set a | a in names;
    NamesCount(names);
    assert |all - counted| == |all| - |counted|;
    assert forall a <- names :: a in all;
    if |counted| == |names| {
      assert all - counted == {};
      assert forall a <- all :: a in counted;
    }
  }

  lemma DecrementIsOk(q: Levels, s: State, m: Msg)
    requires Inv(q, s) && m in s.pending && m.job.Decrement?
    ensures DecrementOk(q, s, m)
  {
    assert MsgOk(q, s, m);
  }

  /** A success that reaches the counter is counted once more, and the counter
      is there to take it. */
  lemma OneMoreCounted(q: Levels, s: State, m: Msg)
    requires Distinct(q) && Inv(q, s) && m in s.pending && m.job.Decrement? && m.event.Some? && m.event.value.code == 0
    ensures 0 < s.launched <= |q| && s.launched - 1 in s.counters && m.job.counter == s.launched - 1
    ensures var l := s.launched - 1;
      var now := Counted(q, s.results, s.pending - {m}, l);
      && s.counters[l] - 1 == |q[l]| - |now| >= 0
      && (|now| == |q[l]| ==> AllCounted(q, s.results, s.pending - {m}, l))
  {
    hide Continue, After, HistoryOk, MsgOk;
    DecrementIsOk(q, s, m);
    var l, a := s.launched - 1, m.event.value.who;
    assert m == DecrementOf(q, l, a);
    var before, now := Counted(q, s.results, s.pending, l), Counted(q, s.results, s.pending - {m}, l);
    assert a !in before && now == before + {a};
    assert JobQueue.NoRepeats(q[l]);
    FullCount(q[l], now);
  }

  lemma TakeDecrementKeeps(q: Levels, s: State, s': State, m: Msg)
    requires Distinct(q) && Inv(q, s) && m in s.pending && m.job.Decrement? && m.event.Some?
    requires m.event.value.code == 0 && s' == TakeDecrement(s, m)
    ensures Inv(q, s')
  {
    hide Continue, After, Distinct, JobQueue.NoRepeats;
    assert MsgOk(q, s, m);
    OneMoreCounted(q, s, m);
    var l := s.launched - 1;
    if s.counters[l] - 1 > 0 {
      forall n | n in s'.pending
        ensures MsgOk(q, s', n)
      {
        assert MsgOk(q, s, n);
      }
      forall k | k in s'.after
        ensures AfterOk(q, s', k)
      {
        assert AfterOk(q, s, k);
      }
    } else {
      AllCountedMeansQuiet(q, s, m, l);
      var next := Msg(Continue(q, l + 1), m.event);
      assert s'.pending == {next};
      assert Counted(q, s'.results, s'.pending, l) == Counted(q, s.results, s.pending - {m}, l);
      assert MsgOk(q, s', next);
    }
  }

  /** The success that empties the counter finds the whole layer complete and
      nothing else going on. */
  lemma AllCountedMeansQuiet(q: Levels, s: State, m: Msg, l: nat)
    requires Distinct(q) && Inv(q, s) && m in s.pending && m.job.Decrement? && s.launched == l + 1
    requires AllCounted(q, s.results, s.pending - {m}, l)
    ensures s.pending == {m} && s.after == {} && Complete(q, s.results, l)
  {
    NoneWaiting(q, s, l);
    forall n | n in s.pending
      ensures n == m
    {
      QuietMsg(q, s, m, n, l);
    }
  }

  lemma QuietMsg(q: Levels, s: State, m: Msg, n: Msg, l: nat)
    requires Inv(q, s) && m in s.pending && n in s.pending && m.job.Decrement? && s.launched == l + 1
    requires AllCounted(q, s.results, s.pending - {m}, l)
    ensures n == m
  {
    assert MsgOk(q, s, n) && MsgOk(q, s, m);
    assert EventOk(q, s.results, l, n.event) && n.event.value.code == 0 && n.job.Decrement? ==>
      n == DecrementOf(q, l, n.event.value.who);
  }

  lemma StepKeeps(q: Levels, s: State, s': State, step: Step)
    requires Distinct(q) && Inv(q, s) && NextStep(s, s', step)
    ensures Inv(q, s')
  {
    match step
    case Take(m) =>
      if m.job.RunLevel? {
        assert MsgOk(q, s, m);
        if !Go(m) {
          TakeFailedRunLevelKeeps(q, s, s', m);
        } else if s.launched < |q| {
          TakeGoKeeps(q, s, s', m);
        } else {
          TakeLastKeeps(q, s, s', m);
        }
      } else if m.event.value.code == 0 {
        TakeDecrementKeeps(q, s, s', m);
      } else {
        TakeFailedDecrementKeeps(q, s, s', m);
      }
    case Ends(m, code) => EndKeeps(q, s, s', m, code);
    case Vanishes(m) => VanishKeeps(q, s, s', m);
    case RunsAfterwards(j) => AfterwardsKeeps(q, s, s', j);
    case Drops(j) => DropKeeps(q, s, s', j);
  }

  lemma DropKeeps(q: Levels, s: State, s': State, j: Job)
    requires Inv(q, s) && NextStep(s, s', Drops(j))
    ensures Inv(q, s')
  {
    hide Continue, After, JobQueue.NoRepeats, CountersOk;
    forall m | m in s'.pending
      ensures MsgOk(q, s', m)
    {
      assert MsgOk(q, s, m);
    }
    forall k | k in s'.after
      ensures AfterOk(q, s', k)
    {
      assert AfterOk(q, s, k);
    }
    CountersStay(q, s, s');
  }

  lemma CountersStay(q: Levels, s: State, s': State)
    requires CountersOk(q, s) && s' == s.(after := s'.after)
    ensures CountersOk(q, s')
  {
  }

  lemma {:induction false} RunInv(q: Levels, tr: seq<State>, i: nat)
    requires Distinct(q) && Run(q, tr) && i < |tr|
    ensures Inv(q, tr[i])
  {
    if i == 0 {
      InitInv(q);
    } else {
      RunInv(q, tr, i - 1);
      assert Next(tr[i - 1], tr[i]);
      var step :| NextStep(tr[i - 1], tr[i], step);
      StepKeeps(q, tr[i - 1], tr[i], step);
    }
  }

  // ---- runs that end ---------------------------------------------------------------------------

  /** The failure of `a` is on its way to the run's status. */
  ghost predicate FailureUnderway(q: Levels, s: State, l: nat, a: string)
    requires l < |q| && a in s.results
  {
    || Msg(After(q, l), Some(Event(a, s.results[a]))) in s.pending
    || Msg(Continue(q, l + 1), Some(Event(a, s.results[a]))) in s.pending
  }

  ghost predicate FailuresUnderway(q: Levels, s: State, l: nat)
    requires l < |q|
  {
    forall a <- q[l] :: a in s.results && s.results[a] != 0 ==> FailureUnderway(q, s, l, a)
  }

  /** The message that starts the layer after `l` is there. */
  ghost predicate GoUnderway(q: Levels, s: State, l: nat)
    requires l < |q|
  {
    exists a :: Msg(Continue(q, l + 1), Some(Event(a, 0))) in s.pending
  }

  /** The last success has been passed on. */
  ghost predicate LayerDone(q: Levels, s: State, l: nat)
    requires l < |q|
  {
    Complete(q, s.results, l) && (|q[l]| == 1 || l !in s.counters)
  }

  /** What keeps a run going until it has an overall code. */
  ghost predicate Live(q: Levels, s: State) {
    && s.launched <= |q|
    && (s.overall.Some? && s.overall.value != 0 ==>
          exists a <- s.results :: s.results[a] != 0 && s.overall.value == ErrorCode(s.results[a]))
    && (s.launched == 0 && s.overall.None? ==> Msg(Continue(q, 0), None) in s.pending)
    && (s.launched > 0 && s.overall.None? ==> FailuresUnderway(q, s, s.launched - 1))
    && (s.launched > 0 && s.overall.None? && LayerDone(q, s, s.launched - 1) ==> GoUnderway(q, s, s.launched - 1))
  }

  lemma EndLives(q: Levels, s: State, s': State, m: Msg, code: int)
    requires Inv(q, s) && Live(q, s) && NextStep(s, s', Ends(m, code))
    ensures Live(q, s')
  {
    assert MsgOk(q, s, m);
    hide Continue, Inv, CountersOk, HistoryOk;
    var l, a := s.launched - 1, m.job.name;
    var msg := Msg(m.job.on, Some(Event(a, code)));
    assert msg in s'.pending;
    assert a !in s.results && forall b <- s.results :: b in s'.results && s'.results[b] == s.results[b];
    if s'.overall.None? {
      forall b | b in q[l] && b in s'.results && s'.results[b] != 0
        ensures FailureUnderway(q, s', l, b)
      {
        if b != a { assert FailureUnderway(q, s, l, b); }
      }
      if |q[l]| != 1 { Uncounted(q, s, l, a); }
    }
  }

  /** The counter of a layer is there as long as an agent has not ended. */
  lemma Uncounted(q: Levels, s: State, l: nat, a: string)
    requires Inv(q, s) && s.launched == l + 1 && l < |q| && |q[l]| != 1 && a in q[l] && a !in s.results
    ensures l in s.counters
  {
  }

  lemma AfterwardsLives(q: Levels, s: State, s': State, j: Job)
    requires Inv(q, s) && Live(q, s) && NextStep(s, s', RunsAfterwards(j))
    ensures Live(q, s')
  {
    assert AfterOk(q, s, j);
    hide Continue, After, Inv;
    var l := s.launched - 1;
    assert forall a <- q[l] :: a in s.results && s.results[a] != 0 && FailureUnderway(q, s, l, a) ==> FailureUnderway(q, s', l, a);
    GoStays(q, s, s', l);
  }

  lemma GoStays(q: Levels, s: State, s': State, l: nat)
    requires l < |q| && s.pending <= s'.pending
    ensures GoUnderway(q, s, l) ==> GoUnderway(q, s', l)
  {
    hide Continue;
  }

  lemma FailedRunLevelLives(q: Levels, s: State, s': State, m: Msg)
    requires Inv(q, s) && Live(q, s) && m in s.pending && m.job.RunLevel? && !Go(m) && s' == TakeRunLevel(s, m)
    ensures Live(q, s')
  {
    assert MsgOk(q, s, m);
    hide Continue, After, Inv;
  }

  lemma GoLives(q: Levels, s: State, s': State, m: Msg)
    requires Distinct(q) && Inv(q, s) && Live(q, s) && m in s.pending && Go(m) && s' == TakeRunLevel(s, m) && s.launched < |q|
    ensures Live(q, s')
  {
    assert MsgOk(q, s, m);
    var l := s.launched;
    LayerJobs(q, l);
    forall a | a in q[l]
      ensures a !in s.results && Agent(a, After(q, l)) in s'.after
    {
      NextLayerIsFresh(q, s, a);
      var i :| 0 <= i < |q[l]| && q[l][i] == a;
      assert AgentsOf(q[l], After(q, l))[i] == Agent(a, After(q, l));
    }
    hide Continue, After, Inv, AgentsOf;
    assert q[l][0] in q[l];
  }

  lemma LastLives(q: Levels, s: State, s': State, m: Msg)
    requires Inv(q, s) && Live(q, s) && m in s.pending && Go(m) && s' == TakeRunLevel(s, m) && s.launched == |q|
    ensures Live(q, s')
  {
    assert MsgOk(q, s, m);
    hide After, Inv;
  }

  /** A decrement is the message of one agent and of nothing else. */
  lemma DecrementLives(q: Levels, s: State, s': State, m: Msg)
    requires Inv(q, s) && Live(q, s) && m in s.pending && m.job.Decrement? && m.event.Some? && s' == TakeDecrement(s, m)
    ensures Live(q, s')
  {
    assert MsgOk(q, s, m);
    hide Continue, Inv, CountersOk, HistoryOk;
    var l, a, code := s.launched - 1, m.event.value.who, m.event.value.code;
    var next := Msg(m.job.on, m.event);
    if s'.overall.None? {
      forall b | b in q[l] && b in s'.results && s'.results[b] != 0
        ensures FailureUnderway(q, s', l, b)
      {
        assert FailureUnderway(q, s, l, b);
        if b == a { assert next in s'.pending; }
      }
      if code == 0 && next in s'.pending {
        assert Msg(Continue(q, l + 1), Some(Event(a, 0))) in s'.pending;
      }
    }
  }

  lemma StepLives(q: Levels, s: State, s': State, step: Step)
    requires Distinct(q) && Inv(q, s) && Live(q, s) && NextStep(s, s', step)
    ensures Live(q, s')
  {
    match step
    case Take(m) =>
      assert MsgOk(q, s, m);
      hide Live, Distinct, Continue, After;
      if m.job.RunLevel? {
        if !Go(m) {
          FailedRunLevelLives(q, s, s', m);
        } else if s.launched < |q| {
          GoLives(q, s, s', m);
        } else {
          LastLives(q, s, s', m);
        }
      } else {
        DecrementLives(q, s, s', m);
      }
    case Ends(m, code) => EndLives(q, s, s', m, code);
    case Vanishes(m) => VanishLives(q, s, s', m);
    case RunsAfterwards(j) => AfterwardsLives(q, s, s', j);
    case Drops(_) =>
  }

  /** Only the message of the agent itself is gone. */
  lemma VanishLives(q: Levels, s: State, s': State, m: Msg)
    requires Inv(q, s) && Live(q, s) && NextStep(s, s', Vanishes(m))
    ensures Live(q, s')
  {
    assert MsgOk(q, s, m);
    hide Continue, Inv;
    var l := s.launched - 1;
    forall a | a in q[l] && a in s.results && s.results[a] != 0 && s.overall.None?
      ensures FailureUnderway(q, s', l, a)
    {
      assert FailureUnderway(q, s, l, a);
    }
    assert forall a :: Msg(Continue(q, l + 1), Some(Event(a, 0))) in s.pending ==>
      Msg(Continue(q, l + 1), Some(Event(a, 0))) in s'.pending;
  }

  ghost predicate ReliableNext(s: State, s': State) {
    exists step :: NextStep(s, s', step) && !step.Vanishes? && !step.Drops?
  }

  /** Every agent that is to be queued is, and ends with a COMPLETED event. */
  ghost predicate Reliable(tr: seq<State>) {
    forall i, j | 0 <= i && j == i + 1 < |tr| :: ReliableNext(tr[i], tr[j])
  }

  lemma InitLives(q: Levels)
    ensures Live(q, Init(q))
  {
  }

  lemma {:induction false} RunLives(q: Levels, tr: seq<State>, i: nat)
    requires Distinct(q) && Run(q, tr) && i < |tr|
    ensures Live(q, tr[i])
  {
    hide Live, Inv, NextStep, Distinct, Init;
    if i == 0 {
      InitLives(q);
    } else {
      RunLives(q, tr, i - 1);
      RunInv(q, tr, i - 1);
      assert Next(tr[i - 1], tr[i]);
      var step :| NextStep(tr[i - 1], tr[i], step);
      StepLives(q, tr[i - 1], tr[i], step);
    }
  }

  /** Every agent of every layer that was started has ended. */
  predicate AllEnded(q: Levels, s: State) {
    s.launched <= |q| && forall l | 0 <= l < s.launched :: forall a <- q[l] :: a in s.results
  }

  predicate SomeFailed(s: State) { exists a <- s.results :: s.results[a] != 0 }

  /** With nothing left to do, nothing failed and every agent ended, the last
      layer is done. */
  lemma QuietLayer(q: Levels, s: State)
    requires Distinct(q) && Inv(q, s) && Live(q, s) && s.pending == {} && s.after == {} && s.launched > 0
    requires AllEnded(q, s) && !SomeFailed(s)
    ensures LayerDone(q, s, s.launched - 1)
  {
    hide Continue, After;
    var l := s.launched - 1;
    forall a | a in q[l]
      ensures Succeeded(s.results, a)
    {
      assert a in s.results;
    }
    if |q[l]| != 1 {
      var counted := Counted(q, s.results, s.pending, l);
      assert JobQueue.NoRepeats(q[l]);
      NamesCount(q[l]);
      assert counted == set a | a in q[l];
    }
  }

  /** A failure is in the current layer: the earlier ones are complete. */
  lemma FailureIsRecent(q: Levels, s: State, a: string)
    requires Inv(q, s) && a in s.results && s.results[a] != 0
    ensures s.launched > 0 && a in q[s.launched - 1]
  {
    hide CountersOk, MsgOk, AfterOk;
    assert a in s.queued;
    assert InLayersBelow(q, a, s.launched);
    var l: nat :| l < s.launched && a in q[l];
    assert Complete(q, s.results, l) ==> Succeeded(s.results, a);
  }

  lemma QuietMeansOver(q: Levels, s: State)
    requires Distinct(q) && Inv(q, s) && Live(q, s) && s.pending == {} && s.after == {}
    ensures s.overall.Some? <==> SomeFailed(s) || AllEnded(q, s)
  {
    if s.overall.None? {
      if SomeFailed(s) {
        var a :| a in s.results && s.results[a] != 0;
        FailureIsRecent(q, s, a);
      } else if AllEnded(q, s) && s.launched > 0 {
        QuietLayer(q, s);
      }
    } else if s.overall == Some(0) {
      OverIsAllEnded(q, s);
    }
  }

  lemma OverIsAllEnded(q: Levels, s: State)
    requires Inv(q, s) && s.overall == Some(0)
    ensures AllEnded(q, s)
  {
    hide CountersOk, MsgOk, AfterOk;
    forall l | 0 <= l < s.launched
      ensures forall a <- q[l] :: a in s.results
    {
      assert Complete(q, s.results, l);
    }
  }

  predicate WaitsFor(s: State, a: string) { exists j <- s.after :: j.Agent? && j.name == a }

  predicate RunsNow(s: State, a: string) { exists m <- s.pending :: m.job.Agent? && m.job.name == a }

  /** Every agent of the current layer waits to be queued, runs or has ended. */
  ghost predicate Answered(q: Levels, s: State) {
    0 < s.launched <= |q| ==> forall a <- q[s.launched - 1] :: WaitsFor(s, a) || RunsNow(s, a) || a in s.results
  }

  lemma {:induction false} ReliableAnswers(q: Levels, tr: seq<State>, i: nat)
    requires Distinct(q) && Run(q, tr) && Reliable(tr) && i < |tr|
    ensures Answered(q, tr[i])
  {
    hide Inv, NextStep, Distinct;
    if i > 0 {
      ReliableAnswers(q, tr, i - 1);
      RunInv(q, tr, i - 1);
      assert ReliableNext(tr[i - 1], tr[i]);
      hide Answered;
      var step :| NextStep(tr[i - 1], tr[i], step) && !step.Vanishes? && !step.Drops?;
      AnswersKept(q, tr[i - 1], tr[i], step);
    }
  }

  lemma AnswersKept(q: Levels, s: State, s': State, step: Step)
    requires Distinct(q) && Inv(q, s) && Answered(q, s) && NextStep(s, s', step) && !step.Vanishes? && !step.Drops?
    ensures Answered(q, s')
  {
    if step.Take? && Go(step.m) {
      assert MsgOk(q, s, step.m);
      hide Inv, Distinct, AgentsOf, Answered;
      if s.launched < |q| { StartAnswers(q, s, s', step.m); } else { LayerStays(q, s, s', step); }
    } else {
      hide Inv, Distinct, Answered;
      LayerStays(q, s, s', step);
    }
  }

  /** A step that starts no layer. */
  lemma LayerStays(q: Levels, s: State, s': State, step: Step)
    requires Answered(q, s) && NextStep(s, s', step) && !step.Vanishes? && !step.Drops? && s'.launched == s.launched
    ensures Answered(q, s')
  {
    hide NextStep;
    if 0 < s.launched <= |q| {
      forall a | a in q[s.launched - 1]
        ensures WaitsFor(s', a) || RunsNow(s', a) || a in s'.results
      {
        AnswerKept(s, s', step, a);
      }
    }
  }

  /** A new layer waits to be queued. */
  lemma StartAnswers(q: Levels, s: State, s': State, m: Msg)
    requires Distinct(q) && m in s.pending && s.launched < |q|
    requires m.job == Continue(q, s.launched) && Go(m) && s' == TakeRunLevel(s, m)
    ensures Answered(q, s')
  {
    var l := s.launched;
    LayerJobs(q, l);
    forall a | a in q[l]
      ensures WaitsFor(s', a)
    {
      var i :| 0 <= i < |q[l]| && q[l][i] == a;
      assert AgentsOf(q[l], After(q, l))[i] in s'.after;
    }
  }

  lemma AnswerKept(s: State, s': State, step: Step, a: string)
    requires NextStep(s, s', step) && !step.Vanishes? && !step.Drops?
    requires WaitsFor(s, a) || RunsNow(s, a) || a in s.results
    ensures WaitsFor(s', a) || RunsNow(s', a) || a in s'.results
  {
    if WaitsFor(s, a) {
      var j :| j in s.after && j.Agent? && j.name == a;
      if step == RunsAfterwards(j) { assert Msg(j, None) in s'.pending; } else { assert j in s'.after; }
    } else if RunsNow(s, a) {
      var m :| m in s.pending && m.job.Agent? && m.job.name == a;
      if !(step.Ends? && step.m == m) { assert m in s'.pending; }
    }
  }

  // ---- main results ----------------------------------------------------------------------------

  /** In every state of every run: each agent has been queued at most once, an
      agent that has been queued found every agent of all earlier layers
      completed with code 0, and the run succeeds only if all agents did. */
  lemma RunIsSafe(q: Levels, tr: seq<State>, i: nat)
    requires Distinct(q) && Run(q, tr) && i < |tr|
    ensures JobQueue.NoRepeats(tr[i].queued)
    ensures forall l: nat, k: nat, a, b | k < l < |q| && a in q[l] && b in q[k] && a in tr[i].queued ::
      Succeeded(tr[i].results, b)
    ensures tr[i].overall == Some(0) ==> forall l: nat, a | l < |q| && a in q[l] :: Succeeded(tr[i].results, a)
  {
    RunInv(q, tr, i);
    var s := tr[i];
    forall l: nat, k: nat, a, b | k < l < |q| && a in q[l] && b in q[k] && a in s.queued
      ensures Succeeded(s.results, b)
    {
      assert InLayersBelow(q, a, s.launched);
      var n :| 0 <= n < s.launched && a in q[n];
      SameLayer(q, a, l, n);
      assert Complete(q, s.results, k);
    }
    if s.overall == Some(0) {
      forall l: nat, a | l < |q| && a in q[l]
        ensures Succeeded(s.results, a)
      {
        assert Complete(q, s.results, l);
      }
    }
  }

  /** When nothing is queued and nothing waits to be queued, the run has an overall
      code if and only if some agent failed or every agent of every layer started
      has ended: it is stuck exactly when an agent was lost, before or after it
      was queued, and none failed. The code is 0 if and only if every agent
      completed with code 0. Runs that lose no agent are never stuck. */
  lemma QuietRunIsDecided(q: Levels, tr: seq<State>, i: nat)
    requires Distinct(q) && Run(q, tr) && i < |tr| && tr[i].pending == {} && tr[i].after == {}
    ensures tr[i].overall.Some? <==> SomeFailed(tr[i]) || AllEnded(q, tr[i])
    ensures tr[i].overall == Some(0) <==> forall l: nat, a | l < |q| && a in q[l] :: Succeeded(tr[i].results, a)
    ensures Reliable(tr) ==> tr[i].overall.Some?
  {
    RunInv(q, tr, i);
    RunLives(q, tr, i);
    QuietMeansOver(q, tr[i]);
    RunIsSafe(q, tr, i);
    var s := tr[i];
    if Reliable(tr) {
      ReliableAnswers(q, tr, i);
      AnsweredMeansEnded(q, s);
    }
    if forall l: nat, a | l < |q| && a in q[l] :: Succeeded(s.results, a) {
      AllSucceeded(q, s);
    }
  }

  /** A run that gets stuck: its only agent is lost from the afterwards queue. */
  lemma LostAgentSticks(a: string) returns (tr: seq<State>)
    ensures Run([[a]], tr)
    ensures var s := tr[|tr| - 1]; s.pending == {} && s.after == {} && s.overall.None?
  {
    var q := [[a]];
    var job, start := Agent(a, After(q, 0)), Msg(Continue(q, 0), None);
    assert AgentsOf(q[0], After(q, 0)) == [job];
    var s0 := Init(q);
    var s1 := s0.(pending := {}, after := {job}, launched := 1);
    var s2 := s1.(after := {});
    assert TakeRunLevel(s0, start) == s1;
    assert NextStep(s0, s1, Take(start)) && Next(s0, s1);
    assert NextStep(s1, s2, Drops(job)) && Next(s1, s2);
    tr := [s0, s1, s2];
  }

  /** The overall code of a failed run is that of an agent that failed, as
      throw_from_code passes it on; and the first overall code stays. */
  lemma {:induction false} OverallIsAFailure(q: Levels, tr: seq<State>, i: nat, k: nat)
    requires Distinct(q) && Run(q, tr) && i <= k < |tr| && tr[i].overall.Some?
    ensures tr[k].overall == tr[i].overall
    ensures tr[i].overall.value != 0 ==>
      exists a <- tr[i].results :: tr[i].results[a] != 0 && tr[i].overall.value == ErrorCode(tr[i].results[a])
    decreases k - i
  {
    hide Live, Distinct, NextStep, ErrorCode;
    RunLives(q, tr, i);
    if tr[i].overall.value != 0 { OverallSource(q, tr[i]); }
    if i < k {
      OverallIsAFailure(q, tr, i, k - 1);
      assert Next(tr[k - 1], tr[k]);
      var step :| NextStep(tr[k - 1], tr[k], step);
      OverallStays(tr[k - 1], tr[k], step);
    }
  }

  lemma OverallSource(q: Levels, s: State)
    requires Live(q, s) && s.overall.Some? && s.overall.value != 0
    ensures exists a <- s.results :: s.results[a] != 0 && s.overall.value == ErrorCode(s.results[a])
  {
  }

  lemma OverallStays(s: State, s': State, step: Step)
    requires NextStep(s, s', step) && s.overall.Some?
    ensures s'.overall == s.overall
  {
  }

  lemma AnsweredMeansEnded(q: Levels, s: State)
    requires Inv(q, s) && Answered(q, s) && s.pending == {} && s.after == {}
    ensures AllEnded(q, s)
  {
    hide CountersOk, MsgOk, AfterOk;
    forall l | 0 <= l < s.launched
      ensures forall a <- q[l] :: a in s.results
    {
      if l + 1 < s.launched { assert Complete(q, s.results, l); }
    }
  }

  lemma AllSucceeded(q: Levels, s: State)
    requires Inv(q, s) && Live(q, s) && forall l: nat, a | l < |q| && a in q[l] :: Succeeded(s.results, a)
    ensures AllEnded(q, s) && (s.overall.Some? ==> s.overall == Some(0))
  {
    hide CountersOk, MsgOk, AfterOk;
    forall l, a | 0 <= l < s.launched && a in q[l]
      ensures a in s.results
    {
      var k: nat := l;
      assert a in q[k] && Succeeded(s.results, a);
    }
    forall a | a in s.results
      ensures s.results[a] == 0
    {
      assert a in s.queued;
      assert InLayersBelow(q, a, s.launched);
      var l: nat :| 0 <= l < s.launched && a in q[l];
      assert Succeeded(s.results, a);
    }
  }

  /** Layers from job_queue are distinct. */
  lemma LayeredIsDistinct(cfg: JobQueue.Config, q: Levels)
    requires JobQueue.Layered(cfg, q)
    ensures Distinct(q)
  {
    forall l, i, k, j | 0 <= l < |q| && 0 <= i < |q[l]| && 0 <= k < |q| && 0 <= j < |q[k]| && q[l][i] == q[k][j]
      ensures l == k && i == j
    {
      DepthIsUnique(cfg, q[l][i], l, k);
    }
  }

  lemma DepthIsUnique(cfg: JobQueue.Config, a: string, d: nat, e: nat)
    requires JobQueue.IsDepth(cfg, a, d) && JobQueue.IsDepth(cfg, a, e)
    ensures d == e
  {
    var p :| JobQueue.Chain(cfg, p) && p[0] == a && |p| == d + 1;
    var r :| JobQueue.Chain(cfg, r) && r[0] == a && |r| == e + 1;
  }

  /** A requirement chain leads to strictly lower depths. */
  lemma ChainLowersDepth(cfg: JobQueue.Config, p: seq<string>, d: nat, e: nat)
    requires JobQueue.Chain(cfg, p) && |p| >= 2
    requires JobQueue.IsDepth(cfg, p[0], d) && JobQueue.IsDepth(cfg, p[|p| - 1], e)
    ensures e < d
  {
    var r :| JobQueue.Chain(cfg, r) && r[0] == p[|p| - 1] && |r| == e + 1;
    var joined := p + r[1..];
    forall i | 0 <= i < |joined| - 1
      ensures JobQueue.Requires(cfg, joined[i], joined[i + 1])
    {
      if i < |p| - 1 {
        assert JobQueue.Requires(cfg, p[i], p[i + 1]);
      } else {
        var k := i - (|p| - 1);
        assert joined[i] == r[k] && joined[i + 1] == r[k + 1];
        assert JobQueue.Requires(cfg, r[k], r[k + 1]);
      }
    }
    assert JobQueue.Chain(cfg, joined) && joined[0] == p[0];
  }

  /** With the layering: whatever the interleaving, no agent is queued before
      everything it transitively requires has completed with code 0. */
  lemma RequirementsSucceedFirst(cfg: JobQueue.Config, q: Levels, tr: seq<State>, i: nat, p: seq<string>)
    requires JobQueue.Layered(cfg, q) && Run(q, tr) && i < |tr|
    requires JobQueue.Chain(cfg, p) && |p| >= 2 && p[0] in tr[i].queued
    ensures Succeeded(tr[i].results, p[|p| - 1])
  {
    LayeredIsDistinct(cfg, q);
    var a, b := p[0], p[|p| - 1];
    var l :| 0 <= l < |q| && a in q[l];
    var k :| 0 <= k < |q| && b in q[k];
    ChainLowersDepth(cfg, p, l, k);
    RunIsSafe(q, tr, i);
  }
}
