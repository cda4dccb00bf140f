/** Cancelling a tree of statuses (workers/gearbox/WorkerGearbox.cc:202-425):
    stop, poll, cancel the children, watch their cancellation jobs, run the
    on-cancel job, CANCELLED. Any number of cancellation jobs run at once, next
    to workers that make any other call on any status; every status operation
    is one step. */
module Cancellation {
  import opened Outcomes
  import opened StatusRow

  type Sid = nat

  /** Status::has_completed and Status::is_success. */
  predicate HasCompleted(x: Life) { x.row.progress == 100 }

  predicate IsSuccess(x: Life) { x.row.progress == 100 && x.row.code == 0 }

  // ---- the watch loop ------------------------------------------------------------------

  datatype Watched = AllDone | Requeue(rest: seq<Sid>) | WatchFails(at: nat)

  /** The loop of do_cancelwatch_global_status_v1: everything ended with code 0;
      or the list to queue again is what is left after a prefix that did, from
      the first status below 100 on; or the first status that did not end with
      code 0 has ended with another. */
  method ScanWatch(lives: map<Sid, Life>, watch: seq<Sid>) returns (r: Watched)
    requires forall w <- watch :: w in lives
    ensures r.AllDone? <==> forall w <- watch :: lives[w].row.progress == 100 && lives[w].row.code == 0
    ensures r.Requeue? ==>
      && r.rest != [] && r.rest[0] in lives && lives[r.rest[0]].row.progress != 100
      && exists done :: watch == done + r.rest && forall w <- done :: lives[w].row.progress == 100 && lives[w].row.code == 0
    ensures r.WatchFails? ==>
      && r.at < |watch| && lives[watch[r.at]].row.progress == 100 && lives[watch[r.at]].row.code != 0
      && forall w <- watch[..r.at] :: lives[w].row.progress == 100 && lives[w].row.code == 0
    ensures (forall w <- watch :: FinalOk(lives[w])) && r.Requeue? ==> !Final(lives[r.rest[0]].row.state)
    ensures (forall w <- watch :: FinalOk(lives[w])) && r.WatchFails? ==> Final(lives[watch[r.at]].row.state)
  {
    var i := 0;
    while i < |watch|
      invariant 0 <= i <= |watch|
      invariant forall k | 0 <= k < i :: IsSuccess(lives[watch[k]])
    {
      if !HasCompleted(lives[watch[i]]) { break; }
      if !IsSuccess(lives[watch[i]]) { return WatchFails(i); }
      i := i + 1;
    }
    if i < |watch| {
      var rest := [];
      for j := 0 to |watch| - i
        invariant rest == watch[i..i + j]
      {
        rest := rest + [watch[i + j]];
      }
      assert watch == watch[..i] + rest;
      return Requeue(rest);
    }
    return AllDone;
  }

  // ---- the system --------------------------------------------------------------------------

  /** Where a cancellation job is. `kids` is the list of children it read after
      entering CANCELLING, `jobs` the statuses of the cancellation jobs it
      posted for them, `left` the part it still watches, `hook` the status of
      the on-cancel job. */
  datatype Phase =
    | Polling
    | Entered
    | Posting(kids: seq<Sid>, jobs: seq<Sid>)
    | Watching(kids: seq<Sid>, jobs: seq<Sid>, left: seq<Sid>)
    | AwaitingHook(kids: seq<Sid>, hook: Sid)
    | Succeeded
    | Failed

  datatype Job = Job(target: Sid, phase: Phase)

  /** What a job that moved its target to CANCELLED had read and run. */
  datatype Record = Record(kids: seq<Sid>, hook: Option<Sid>)

  /** `jobs` maps the status of each cancellation job to the job; `hooks` are
      the statuses with an on-cancel job; `done` is history. */
  datatype System = System(
    lives: map<Sid, Life>,
    children: map<Sid, seq<Sid>>,
    hooks: set<Sid>,
    jobs: map<Sid, Job>,
    done: map<Sid, Record>)

  const NewLife := NewStatus

  function ChildrenOf(x: System, s: Sid): seq<Sid> { if s in x.children then x.children[s] else [] }

  predicate Prefix(a: seq<Sid>, b: seq<Sid>) { |a| <= |b| && b[..|a|] == a }

  /** A status as status_manager().fetch returns it: nothing loaded yet. */
  const Fetched := Cache(Unknown, 0, -1, false, true)

  datatype Step =
    | Other(s: Sid, call: Call, c: Cache)      // any worker, any other call
    | Creates(s: Sid)                          // an unrelated status
    | AddsChild(s: Sid, child: Sid)
    | Posts(j: Sid, target: Sid)               // a cancellation request
    | FindsCancelled(j: Sid)
    | Enters(j: Sid, c: Cache)
    | ReadsChildren(j: Sid)
    | PostsChild(j: Sid, job: Sid)
    | StartsWatch(j: Sid)
    | WatchesOne(j: Sid)
    | RunsHook(j: Sid, hook: Sid)
    | Cancels(j: Sid)
    | GivesUp(j: Sid)
    | Finishes(j: Sid, c: Cache)               // run_job marks the job's own status

  function SetPhase(x: System, j: Sid, p: Phase): System
    requires j in x.jobs
  {
    x.(jobs := x.jobs[j := x.jobs[j].(phase := p)])
  }

  ghost predicate Calls(x: System, y: System, s: Sid, call: Call, c: Cache) {
    && s in x.lives && s in y.lives
    && y == x.(lives := x.lives[s := y.lives[s]])
    && NextCall(x.lives[s], y.lives[s], call, c)
  }

  /** Only cancellation jobs call cancel(); success() on the status of a
      cancellation job is left to run_job; failures are not code 0. */
  predicate MayCall(x: System, s: Sid, call: Call) {
    call != Cancel && (call == Success ==> s !in x.jobs) && (call.Fail? ==> call.code != 0)
  }

  function AddStatus(x: System, s: Sid): System { x.(lives := x.lives[s := NewLife]) }

  /** A cancellation job for `t` with status `k`. */
  function AddJob(x: System, k: Sid, t: Sid): System { AddStatus(x, k).(jobs := x.jobs[k := Job(t, Polling)]) }

  predicate InPhase(x: System, j: Sid, p: Phase -> bool) { j in x.jobs && x.jobs[j].target in x.lives && p(x.jobs[j].phase) }

  ghost predicate EntersStep(x: System, y: System, j: Sid, c: Cache) {
    && InPhase(x, j, (p: Phase) => p.Polling?)
    && var t := x.jobs[j].target;
       && StateOp(x.lives[t].row, c, Cancelling).ok
       && exists z :: Calls(x, z, t, StartCancelling, c) && y == SetPhase(z, j, Entered)
  }

  ghost predicate PostsChildStep(x: System, y: System, j: Sid, k: Sid) {
    && InPhase(x, j, (p: Phase) => p.Posting?) && k !in x.lives
    && var p := x.jobs[j].phase;
       && |p.jobs| < |p.kids| && p.kids[|p.jobs|] in x.lives
       && y == SetPhase(AddJob(x, k, p.kids[|p.jobs|]), j, Posting(p.kids, p.jobs + [k]))
  }

  ghost predicate WatchesOneStep(x: System, y: System, j: Sid) {
    && InPhase(x, j, (p: Phase) => p.Watching?)
    && var p := x.jobs[j].phase;
       && p.left != [] && p.left[0] in x.lives && IsSuccess(x.lives[p.left[0]])
       && y == SetPhase(x, j, Watching(p.kids, p.jobs, p.left[1..]))
  }

  ghost predicate RunsHookStep(x: System, y: System, j: Sid, h: Sid) {
    && InPhase(x, j, (p: Phase) => p.Watching? && p.left == [])
    && x.jobs[j].target in x.hooks && h !in x.lives
    && y == SetPhase(AddStatus(x, h), j, AwaitingHook(x.jobs[j].phase.kids, h))
  }

  ghost predicate CancelsStep(x: System, y: System, j: Sid) {
    && j in x.jobs && x.jobs[j].target in x.lives && ReadyToCancel(x, j)
    && var t := x.jobs[j].target;
       && CancelOp(x.lives[t].row, Fetched).ok
       && exists z :: Calls(x, z, t, Cancel, Fetched) && y == SetPhase(z.(done := DoneAfter(x, j)), j, Phase.Succeeded)
  }

  /** The record is made by the job whose cancel() moved the status. */
  function DoneAfter(x: System, j: Sid): map<Sid, Record>
    requires j in x.jobs && x.jobs[j].target in x.lives && ReadyToCancel(x, j)
  {
    var t := x.jobs[j].target;
    if x.lives[t].row.state == Cancelled then x.done else x.done[t := RecordOf(x, j)]
  }

  ghost predicate NextStep(x: System, y: System, step: Step) {
    match step
    case Other(s, call, c) => MayCall(x, s, call) && Calls(x, y, s, call, c)
    case Creates(s) => s !in x.lives && y == AddStatus(x, s)
    case AddsChild(s, child) =>
      s in x.lives && y == x.(children := x.children[s := ChildrenOf(x, s) + [child]])
    case Posts(j, t) => j !in x.lives && t in x.lives && y == AddJob(x, j, t)
    case FindsCancelled(j) =>
      && InPhase(x, j, (p: Phase) => p.Polling?)
      && x.lives[x.jobs[j].target].row.state == Cancelled && y == SetPhase(x, j, Phase.Succeeded)
    case Enters(j, c) => EntersStep(x, y, j, c)
    case ReadsChildren(j) =>
      && InPhase(x, j, (p: Phase) => p.Entered?)
      && y == SetPhase(x, j, Posting(ChildrenOf(x, x.jobs[j].target), []))
    case PostsChild(j, k) => PostsChildStep(x, y, j, k)
    case StartsWatch(j) =>
      && InPhase(x, j, (p: Phase) => p.Posting? && |p.jobs| == |p.kids|)
      && var p := x.jobs[j].phase;
         y == SetPhase(x, j, Watching(p.kids, p.jobs, p.jobs))
    case WatchesOne(j) => WatchesOneStep(x, y, j)
    case RunsHook(j, h) => RunsHookStep(x, y, j, h)
    case Cancels(j) => CancelsStep(x, y, j)
    case GivesUp(j) => j in x.jobs && !x.jobs[j].phase.Succeeded? && y == SetPhase(x, j, Phase.Failed)
    case Finishes(j, c) => j in x.jobs && x.jobs[j].phase.Succeeded? && Calls(x, y, j, Success, c)
  }

  /** Nothing left to watch: no on-cancel job registered, or it succeeded. */
  predicate ReadyToCancel(x: System, j: Sid)
    requires j in x.jobs
  {
    match x.jobs[j].phase
    case Watching(_, _, left) => left == [] && x.jobs[j].target !in x.hooks
    case AwaitingHook(_, h) => h in x.lives && IsSuccess(x.lives[h])
    case _ => false
  }

  function RecordOf(x: System, j: Sid): Record
    requires j in x.jobs && ReadyToCancel(x, j)
  {
    match x.jobs[j].phase
    case Watching(kids, _, _) => Record(kids, None)
    case AwaitingHook(kids, h) => Record(kids, Some(h))
  }

  ghost predicate Init(x: System) {
    && x.jobs == map[] && x.done == map[]
    && forall s <- x.lives :: x.lives[s] == NewLife
  }

  ghost predicate Run(tr: seq<System>) {
    && tr != [] && Init(tr[0])
    && forall i, j | 0 <= i && j == i + 1 < |tr| :: Next(tr[i], tr[j])
  }

  ghost predicate Next(x: System, y: System) { exists step :: NextStep(x, y, step) }

  // ---- the invariant --------------------------------------------------------------------------

  predicate IsCancelled(x: System, s: Sid) { s in x.lives && x.lives[s].row.state == Cancelled }

  predicate AllCancelled(x: System, kids: seq<Sid>) { forall k <- kids :: IsCancelled(x, k) }

  /** The i-th posted job cancels the i-th child. */
  predicate JobsFor(x: System, kids: seq<Sid>, jobs: seq<Sid>) {
    && |jobs| <= |kids|
    && forall i | 0 <= i < |jobs| :: jobs[i] in x.jobs && x.jobs[jobs[i]].target == kids[i]
  }

  /** What a job knows of its target's children is a prefix of their list. */
  predicate PhaseOk(x: System, job: Job) {
    match job.phase
    case Posting(kids, jobs) => JobsFor(x, kids, jobs) && Prefix(kids, ChildrenOf(x, job.target))
    case Watching(kids, jobs, left) =>
      && Prefix(kids, ChildrenOf(x, job.target))
      && |jobs| == |kids| && JobsFor(x, kids, jobs)
      && |left| <= |jobs| && left == jobs[|jobs| - |left|..]
      && forall i | 0 <= i < |jobs| - |left| :: IsCancelled(x, kids[i])
    case AwaitingHook(kids, h) =>
      AllCancelled(x, kids) && job.target in x.hooks && h in x.lives && Prefix(kids, ChildrenOf(x, job.target))
    case Succeeded => IsCancelled(x, job.target)
    case _ => true
  }

  /** A success code on the status of a cancellation job is its own doing. */
  predicate JobOk(x: System, j: Sid)
    requires j in x.jobs
  {
    j in x.lives && PhaseOk(x, x.jobs[j]) && (x.lives[j].row.code == 0 ==> x.jobs[j].phase.Succeeded?)
  }

  predicate RecordOk(x: System, s: Sid)
    requires s in x.done
  {
    && IsCancelled(x, s) && AllCancelled(x, x.done[s].kids) && Prefix(x.done[s].kids, ChildrenOf(x, s))
    && (s in x.hooks <==> x.done[s].hook.Some?)
    && (x.done[s].hook.Some? ==> x.done[s].hook.value in x.lives && IsSuccess(x.lives[x.done[s].hook.value]))
  }

  ghost predicate LivesOk(x: System) {
    forall s <- x.lives :: FinalOk(x.lives[s]) && (x.lives[s].row.state == Cancelled ==> s in x.done)
  }

  ghost predicate JobsOk(x: System) { forall j <- x.jobs :: JobOk(x, j) }

  ghost predicate RecordsOk(x: System) { forall s <- x.done :: RecordOk(x, s) }

  ghost predicate Inv(x: System) { LivesOk(x) && JobsOk(x) && RecordsOk(x) }

  /** Statuses are never removed, CANCELLED and success are permanent, jobs keep
      their targets and lists of children only get longer. */
  ghost predicate Grows(x: System, y: System) {
    && (forall s <- x.lives :: s in y.lives)
    && (forall s <- x.lives :: x.lives[s].row.state == Cancelled ==> y.lives[s].row.state == Cancelled)
    && (forall s <- x.lives :: IsSuccess(x.lives[s]) ==> IsSuccess(y.lives[s]))
    && (forall j <- x.jobs :: j in y.jobs && y.jobs[j].target == x.jobs[j].target)
    && y.hooks == x.hooks
    && (forall s :: Prefix(ChildrenOf(x, s), ChildrenOf(y, s)))
  }

  lemma PrefixThen(a: seq<Sid>, b: seq<Sid>, c: seq<Sid>)
    requires Prefix(a, b) && Prefix(b, c)
    ensures Prefix(a, c)
  {
    assert c[..|a|] == c[..|b|][..|a|];
  }

  function KidsOf(p: Phase): seq<Sid> { if p.Posting? || p.Watching? || p.AwaitingHook? then p.kids else [] }

  lemma GrowsKeepsPhase(x: System, y: System, job: Job)
    requires Grows(x, y) && PhaseOk(x, job)
    ensures PhaseOk(y, job)
  {
    if job.phase.Posting? || job.phase.Watching? || job.phase.AwaitingHook? {
      PrefixThen(KidsOf(job.phase), ChildrenOf(x, job.target), ChildrenOf(y, job.target));
    }
    hide Prefix;
  }

  lemma GrowsKeepsRecord(x: System, y: System, s: Sid)
    requires Grows(x, y) && s in x.done && s in y.done && y.done[s] == x.done[s] && RecordOk(x, s)
    ensures RecordOk(y, s)
  {
    PrefixThen(x.done[s].kids, ChildrenOf(x, s), ChildrenOf(y, s));
    hide Prefix;
  }

  /** A system that grew keeps what it knew about jobs it did not touch. */
  lemma OldJobOk(x: System, y: System, k: Sid)
    requires Grows(x, y) && k in x.jobs && k in y.jobs && JobOk(x, k) && y.jobs[k] == x.jobs[k]
    requires k in y.lives && y.lives[k].row.code == 0 ==> x.lives[k].row.code == 0
    ensures JobOk(y, k)
  {
    hide PhaseOk;
    GrowsKeepsPhase(x, y, x.jobs[k]);
  }

  lemma OldJobsOk(x: System, y: System)
    requires JobsOk(x) && Grows(x, y) && y.jobs == x.jobs
    requires forall k <- x.jobs :: k in x.lives && k in y.lives && y.lives[k].row.code == 0 ==> x.lives[k].row.code == 0
    ensures JobsOk(y)
  {
    hide PhaseOk, Grows;
    forall k | k in y.jobs
      ensures JobOk(y, k)
    {
      assert JobOk(x, k);
      OldJobOk(x, y, k);
    }
  }

  lemma OldRecordsOk(x: System, y: System)
    requires RecordsOk(x) && Grows(x, y) && y.done == x.done
    ensures RecordsOk(y)
  {
    hide RecordOk, Grows;
    forall s | s in y.done
      ensures RecordOk(y, s)
    {
      GrowsKeepsRecord(x, y, s);
    }
  }

  // ---- every step keeps it ----------------------------------------------------------------------

  lemma CallGrows(x: System, y: System, s: Sid, call: Call, c: Cache)
    requires LivesOk(x) && Calls(x, y, s, call, c)
    ensures Grows(x, y) && forall t <- y.lives :: FinalOk(y.lives[t])
  {
    CallKeeps(x.lives[s], y.lives[s], call, c);
    CancelledIsForever(x.lives[s], y.lives[s], call, c);
    hide NextCall, FinalOk;
  }

  /** Moving one job to a phase that is right for it. */
  lemma MoveKeeps(x: System, j: Sid, p: Phase)
    requires Inv(x) && j in x.jobs && PhaseOk(x, x.jobs[j].(phase := p))
    requires x.jobs[j].phase.Succeeded? ==> p.Succeeded?
    ensures Inv(SetPhase(x, j, p))
  {
    hide FinalOk, PhaseOk, RecordsOk;
    var y := SetPhase(x, j, p);
    assert Grows(x, y);
    assert JobOk(x, j);
    GrowsKeepsPhase(x, y, y.jobs[j]);
    forall k | k in y.jobs
      ensures JobOk(y, k)
    {
      if k != j {
        assert JobOk(x, k);
        OldJobOk(x, y, k);
      }
    }
    OldRecordsOk(x, y);
  }

  lemma AddedStatusLives(x: System, s: Sid)
    requires LivesOk(x) && s !in x.lives
    ensures LivesOk(AddStatus(x, s)) && Grows(x, AddStatus(x, s))
  {
    assert FinalOk(NewLife);
    hide FinalOk;
  }

  lemma AddStatusKeeps(x: System, s: Sid)
    requires Inv(x) && s !in x.lives
    ensures Inv(AddStatus(x, s)) && Grows(x, AddStatus(x, s))
  {
    var y := AddStatus(x, s);
    hide PhaseOk, LivesOk, RecordsOk, Grows;
    AddedStatusLives(x, s);
    assert forall k <- x.jobs :: JobOk(x, k);
    OldJobsOk(x, y);
    OldRecordsOk(x, y);
  }

  lemma AddedJobs(x: System, k: Sid, t: Sid)
    requires JobsOk(x) && k !in x.jobs && k in x.lives && x.lives[k] == NewLife
    ensures var y := x.(jobs := x.jobs[k := Job(t, Polling)]); JobsOk(y) && Grows(x, y)
  {
    var y := x.(jobs := x.jobs[k := Job(t, Polling)]);
    assert JobOk(y, k);
    hide PhaseOk;
    assert Grows(x, y);
    forall j | j in y.jobs
      ensures JobOk(y, j)
    {
      if j != k {
        assert JobOk(x, j);
        OldJobOk(x, y, j);
      }
    }
  }

  lemma AddJobKeeps(x: System, k: Sid, t: Sid)
    requires Inv(x) && k !in x.lives
    ensures Inv(AddJob(x, k, t)) && Grows(x, AddJob(x, k, t))
  {
    assert k !in x.jobs by { assert forall j <- x.jobs :: JobOk(x, j); }
    hide FinalOk, JobsOk, RecordsOk;
    AddStatusKeeps(x, k);
    AddedJobs(AddStatus(x, k), k, t);
    OldRecordsOk(AddStatus(x, k), AddJob(x, k, t));
  }

  lemma CallLives(x: System, y: System, s: Sid, call: Call, c: Cache)
    requires LivesOk(x) && Calls(x, y, s, call, c) && call != Cancel
    ensures LivesOk(y) && Grows(x, y)
  {
    CallGrows(x, y, s, call, c);
    CancelledIsForever(x.lives[s], y.lives[s], call, c);
    hide FinalOk, NextCall;
  }

  lemma CallJobs(x: System, y: System, s: Sid, call: Call, c: Cache)
    requires LivesOk(x) && JobsOk(x) && Grows(x, y) && Calls(x, y, s, call, c) && call != Cancel
    requires s in x.jobs && !x.jobs[s].phase.Succeeded? ==> call != Success && (call.Fail? ==> call.code != 0)
    ensures JobsOk(y)
  {
    hide NextCall, PhaseOk, FinalOk;
    forall j | j in y.jobs
      ensures JobOk(y, j)
    {
      assert JobOk(x, j);
      if j == s && x.jobs[j].phase.Succeeded? {
        GrowsKeepsPhase(x, y, x.jobs[j]);
      } else {
        if j == s { OnlySuccessWritesZero(x.lives[s], y.lives[s], call, c); }
        OldJobOk(x, y, j);
      }
    }
  }

  /** A call by anybody on any status. */
  lemma OtherKeeps(x: System, y: System, s: Sid, call: Call, c: Cache)
    requires Inv(x) && Calls(x, y, s, call, c) && call != Cancel
    requires s in x.jobs && !x.jobs[s].phase.Succeeded? ==> call != Success && (call.Fail? ==> call.code != 0)
    ensures Inv(y)
  {
    hide LivesOk, JobsOk, RecordsOk, Grows, NextCall;
    CallLives(x, y, s, call, c);
    CallJobs(x, y, s, call, c);
    OldRecordsOk(x, y);
  }

  lemma PhaseIsOk(x: System, j: Sid)
    requires Inv(x) && j in x.jobs
    ensures j in x.lives && PhaseOk(x, x.jobs[j])
  {
    hide FinalOk, PhaseOk, RecordOk;
    assert JobOk(x, j);
  }

  /** A watched job that succeeded has cancelled its child. */
  lemma WatchKeeps(x: System, y: System, j: Sid)
    requires Inv(x) && WatchesOneStep(x, y, j)
    ensures Inv(y)
  {
    hide FinalOk;
    assert JobOk(x, j);
    var p := x.jobs[j].phase;
    var n := |p.jobs| - |p.left|;
    assert p.left[0] == p.jobs[n];
    assert JobOk(x, p.jobs[n]);
    assert IsCancelled(x, p.kids[n]);
    assert p.left[1..] == p.jobs[n + 1..];
    MoveKeeps(x, j, Watching(p.kids, p.jobs, p.left[1..]));
  }

  lemma EnterKeeps(x: System, y: System, j: Sid, c: Cache)
    requires Inv(x) && EntersStep(x, y, j, c)
    ensures Inv(y)
  {
    var t := x.jobs[j].target;
    var z :| Calls(x, z, t, StartCancelling, c) && y == SetPhase(z, j, Entered);
    hide FinalOk, NextCall;
    OtherKeeps(x, z, t, StartCancelling, c);
    MoveKeeps(z, j, Entered);
  }

  lemma PostChildKeeps(x: System, y: System, j: Sid, k: Sid)
    requires Inv(x) && PostsChildStep(x, y, j, k)
    ensures Inv(y)
  {
    hide FinalOk, Inv, Grows;
    PhaseIsOk(x, j);
    var p := x.jobs[j].phase;
    var z := AddJob(x, k, p.kids[|p.jobs|]);
    AddJobKeeps(x, k, p.kids[|p.jobs|]);
    GrowsKeepsPhase(x, z, x.jobs[j]);
    MoveKeeps(z, j, Posting(p.kids, p.jobs + [k]));
  }

  lemma HookKeeps(x: System, y: System, j: Sid, h: Sid)
    requires Inv(x) && RunsHookStep(x, y, j, h)
    ensures Inv(y)
  {
    hide FinalOk, Inv, Grows, Prefix, JobsFor, ChildrenOf;
    PhaseIsOk(x, j);
    var kids, z := x.jobs[j].phase.kids, AddStatus(x, h);
    AddStatusKeeps(x, h);
    GrowsKeepsPhase(x, z, x.jobs[j]);
    assert AllCancelled(z, kids);
    MoveKeeps(z, j, AwaitingHook(kids, h));
  }

  /** A job that is ready to cancel has every child it read CANCELLED. */
  lemma ReadyMeansChildrenCancelled(x: System, j: Sid)
    requires Inv(x) && j in x.jobs && ReadyToCancel(x, j)
    ensures RecordReady(x, x.jobs[j].target, RecordOf(x, j))
  {
    hide FinalOk;
    assert JobOk(x, j);
  }

  lemma CancelOpCancels(row: Row)
    requires row.state != Unknown && CancelOp(row, Fetched).ok
    ensures CancelOp(row, Fetched).row.state == Cancelled
  {
  }

  /** What a record must say to be kept. */
  predicate RecordReady(x: System, t: Sid, r: Record) {
    && AllCancelled(x, r.kids) && Prefix(r.kids, ChildrenOf(x, t)) && (t in x.hooks <==> r.hook.Some?)
    && (r.hook.Some? ==> r.hook.value in x.lives && IsSuccess(x.lives[r.hook.value]))
  }

  /** The one call that enters CANCELLED, with the record it leaves. */
  lemma RecordKeeps(x: System, z: System, t: Sid, r: Record)
    requires Inv(x) && Calls(x, z, t, Cancel, Fetched) && z.lives[t].row.state == Cancelled && RecordReady(x, t, r)
    ensures Inv(z.(done := if x.lives[t].row.state == Cancelled then x.done else x.done[t := r]))
  {
    OnlySuccessWritesZero(x.lives[t], z.lives[t], Cancel, Fetched);
    CallGrows(x, z, t, Cancel, Fetched);
    hide FinalOk, NextCall, JobsOk, RecordsOk, RecordReady, CancelOp;
    var w := z.(done := if x.lives[t].row.state == Cancelled then x.done else x.done[t := r]);
    assert Grows(x, w);
    OldJobsOk(x, w);
    RecordsWith(x, w, t, r);
  }

  lemma RecordsWith(x: System, w: System, t: Sid, r: Record)
    requires RecordsOk(x) && Grows(x, w) && RecordReady(x, t, r) && IsCancelled(w, t)
    requires w.done == x.done || w.done == x.done[t := r]
    ensures RecordsOk(w)
  {
    hide RecordOk, Grows, RecordReady;
    forall s | s in w.done
      ensures RecordOk(w, s)
    {
      if s in x.done && w.done[s] == x.done[s] {
        GrowsKeepsRecord(x, w, s);
      } else {
        NewRecordOk(x, w, t, r);
      }
    }
  }

  lemma NewRecordOk(x: System, w: System, t: Sid, r: Record)
    requires Grows(x, w) && RecordReady(x, t, r) && IsCancelled(w, t) && t in w.done && w.done[t] == r
    ensures RecordOk(w, t)
  {
    PrefixThen(r.kids, ChildrenOf(x, t), ChildrenOf(w, t));
    hide FinalOk, Prefix;
  }

  lemma CancelMoves(x: System, z: System, t: Sid)
    requires Inv(x) && Calls(x, z, t, Cancel, Fetched) && CancelOp(x.lives[t].row, Fetched).ok
    ensures t in z.lives && z.lives[t].row.state == Cancelled && z.jobs == x.jobs
  {
    CancelOpCancels(x.lives[t].row);
  }

  lemma CancelKeeps(x: System, y: System, j: Sid)
    requires Inv(x) && CancelsStep(x, y, j)
    ensures Inv(y)
  {
    hide FinalOk, NextCall, CancelOp, ReadyToCancel, Inv, RecordOf;
    var t := x.jobs[j].target;
    var z :| Calls(x, z, t, Cancel, Fetched) && y == SetPhase(z.(done := DoneAfter(x, j)), j, Phase.Succeeded);
    CancelMoves(x, z, t);
    ReadyMeansChildrenCancelled(x, j);
    RecordKeeps(x, z, t, RecordOf(x, j));
    MoveKeeps(z.(done := DoneAfter(x, j)), j, Phase.Succeeded);
  }

  /** The steps that only move one job to another phase. */
  lemma MovesKeep(x: System, y: System, step: Step)
    requires Inv(x) && NextStep(x, y, step)
    requires step.FindsCancelled? || step.ReadsChildren? || step.StartsWatch? || step.GivesUp?
    ensures Inv(y)
  {
    hide FinalOk, NextCall, Inv, Calls, EntersStep, PostsChildStep, WatchesOneStep, RunsHookStep, CancelsStep;
    PhaseIsOk(x, step.j);
    MoveKeeps(x, step.j, y.jobs[step.j].phase);
  }

  lemma StepKeeps(x: System, y: System, step: Step)
    requires Inv(x) && NextStep(x, y, step)
    ensures Inv(y)
  {
    hide FinalOk, NextCall, EntersStep, PostsChildStep, WatchesOneStep, RunsHookStep, CancelsStep, Inv, Calls;
    match step
    case Other(s, call, c) => OtherKeeps(x, y, s, call, c);
    case Creates(s) => AddStatusKeeps(x, s);
    case AddsChild(s, child) => ChildrenGrow(x, y, s, child);
    case Posts(j, t) => AddJobKeeps(x, j, t);
    case Enters(j, c) => EnterKeeps(x, y, j, c);
    case PostsChild(j, k) => PostChildKeeps(x, y, j, k);
    case WatchesOne(j) => WatchKeeps(x, y, j);
    case RunsHook(j, h) => HookKeeps(x, y, j, h);
    case Cancels(j) => CancelKeeps(x, y, j);
    case Finishes(j, c) => OtherKeeps(x, y, j, Success, c);
    case _ => MovesKeep(x, y, step);
  }

  lemma ChildrenGrow(x: System, y: System, s: Sid, child: Sid)
    requires Inv(x) && NextStep(x, y, AddsChild(s, child))
    ensures Inv(y)
  {
    hide FinalOk, PhaseOk, JobsOk, RecordsOk, NextCall;
    assert Grows(x, y);
    CodesKept(x, y);
    OldJobsOk(x, y);
    OldRecordsOk(x, y);
  }

  lemma CodesKept(x: System, y: System)
    requires y.lives == x.lives
    ensures forall k <- x.jobs :: k in x.lives && k in y.lives && y.lives[k].row.code == 0 ==> x.lives[k].row.code == 0
  {
  }

  lemma {:induction false} RunInv(tr: seq<System>, i: nat)
    requires Run(tr) && i < |tr|
    ensures Inv(tr[i])
  {
    if i > 0 {
      RunInv(tr, i - 1);
      assert Next(tr[i - 1], tr[i]);
      var step :| NextStep(tr[i - 1], tr[i], step);
      StepKeeps(tr[i - 1], tr[i], step);
    }
  }

  // ---- where the lists come from ---------------------------------------------------------------

  predicate HasKids(p: Phase) { p.Posting? || p.Watching? || p.AwaitingHook? }

  /** A job enters CANCELLING by its own step only. */
  lemma EntrySource(x: System, y: System, step: Step, j: Sid)
    requires JobsOk(x) && NextStep(x, y, step) && j in y.jobs && y.jobs[j].phase.Entered?
    ensures j in x.jobs && x.jobs[j].target == y.jobs[j].target
    ensures (step.Enters? && step.j == j) || x.jobs[j].phase.Entered?
  {
    assert forall k <- x.jobs :: JobOk(x, k);
    hide NextCall, StateOp, JobsOk, PhaseOk;
  }

  /** Entering moves the target to CANCELLING. */
  lemma EntersCancelling(x: System, y: System, j: Sid, c: Cache)
    requires NextStep(x, y, Enters(j, c))
    ensures j in x.jobs && x.jobs[j].target in y.lives && y.lives[x.jobs[j].target].row.state == Cancelling
  {
  }

  /** A job gets its list by its own step and keeps it from then on. */
  lemma KidsSource(x: System, y: System, step: Step, j: Sid)
    requires JobsOk(x) && NextStep(x, y, step) && j in y.jobs && HasKids(y.jobs[j].phase)
    ensures j in x.jobs && x.jobs[j].target == y.jobs[j].target
    ensures if step == ReadsChildren(j)
      then x.jobs[j].phase.Entered? && y.jobs[j].phase.kids == ChildrenOf(x, x.jobs[j].target)
      else HasKids(x.jobs[j].phase) && y.jobs[j].phase.kids == x.jobs[j].phase.kids
  {
    assert forall k <- x.jobs :: JobOk(x, k);
    hide NextCall, StateOp, ChildrenOf, JobsOk, PhaseOk;
  }

  /** A record is made by a job, of the list it has. */
  lemma RecordSource(x: System, y: System, step: Step, s: Sid)
    requires NextStep(x, y, step) && s in y.done
    ensures || (s in x.done && y.done[s] == x.done[s])
            || (step.Cancels? && step.j in x.jobs && x.jobs[step.j].target == s && HasKids(x.jobs[step.j].phase)
                && y.done[s].kids == x.jobs[step.j].phase.kids)
  {
    hide NextCall, StateOp, ChildrenOf, CancelOp, CancelsStep;
    if step.Cancels? { CancelSource(x, y, step.j, s); }
  }

  lemma CancelSource(x: System, y: System, j: Sid, s: Sid)
    requires CancelsStep(x, y, j) && s in y.done
    ensures j in x.jobs
    ensures || (s in x.done && y.done[s] == x.done[s])
            || (x.jobs[j].target == s && HasKids(x.jobs[j].phase) && y.done[s].kids == x.jobs[j].phase.kids)
  {
    var t := x.jobs[j].target;
    assert y.done == DoneAfter(x, j);
    if t == s && x.lives[t].row.state != Cancelled {
      assert y.done[s] == RecordOf(x, j);
      match x.jobs[j].phase
      case Watching(kids, _, _) => assert RecordOf(x, j).kids == kids;
      case AwaitingHook(kids, _) => assert RecordOf(x, j).kids == kids;
    }
  }

  lemma RunStarts(tr: seq<System>)
    requires Run(tr)
    ensures tr != [] && tr[0].jobs == map[] && tr[0].done == map[]
  {
  }

  lemma RunSteps(tr: seq<System>, i: nat)
    requires Run(tr) && 0 < i < |tr|
    ensures Next(tr[i - 1], tr[i])
  {
  }

  /** At step `k` job `j` moved status `s` to CANCELLING. */
  ghost predicate EnteredAt(tr: seq<System>, k: nat, j: Sid, s: Sid)
    requires k + 1 < |tr|
  {
    && (exists c :: NextStep(tr[k], tr[k + 1], Enters(j, c)))
    && j in tr[k].jobs && tr[k].jobs[j].target == s
    && s in tr[k + 1].lives && tr[k + 1].lives[s].row.state == Cancelling
  }

  /** At step `k` job `j`, which had moved `s` to CANCELLING before, read the list
      `kids` of the children of `s`. */
  ghost predicate ReadAt(tr: seq<System>, k: nat, j: Sid, s: Sid, kids: seq<Sid>)
    requires k + 1 < |tr|
  {
    && NextStep(tr[k], tr[k + 1], ReadsChildren(j)) && j in tr[k].jobs && tr[k].jobs[j].target == s
    && kids == ChildrenOf(tr[k], s)
    && exists e: nat | e < k :: EnteredAt(tr, e, j, s)
  }

  lemma {:induction false} EnteredBefore(tr: seq<System>, i: nat, j: Sid)
    requires Run(tr) && i < |tr| && j in tr[i].jobs && tr[i].jobs[j].phase.Entered?
    ensures exists e: nat | e < i :: EnteredAt(tr, e, j, tr[i].jobs[j].target)
  {
    hide NextStep, Run;
    RunStarts(tr);
    if i > 0 {
      RunSteps(tr, i);
      var step :| NextStep(tr[i - 1], tr[i], step);
      RunInv(tr, i - 1);
      EntrySource(tr[i - 1], tr[i], step, j);
      if step.Enters? && step.j == j {
        assert NextStep(tr[i - 1], tr[i], Enters(j, step.c));
        EntersCancelling(tr[i - 1], tr[i], j, step.c);
        assert EnteredAt(tr, i - 1, j, tr[i].jobs[j].target);
      } else {
        EnteredBefore(tr, i - 1, j);
      }
    }
  }

  lemma {:induction false} KidsWereRead(tr: seq<System>, i: nat, j: Sid)
    requires Run(tr) && i < |tr| && j in tr[i].jobs && HasKids(tr[i].jobs[j].phase)
    ensures exists k: nat | k < i :: ReadAt(tr, k, j, tr[i].jobs[j].target, tr[i].jobs[j].phase.kids)
  {
    hide NextStep, Run;
    RunStarts(tr);
    if i > 0 {
      RunSteps(tr, i);
      var step :| NextStep(tr[i - 1], tr[i], step);
      RunInv(tr, i - 1);
      KidsSource(tr[i - 1], tr[i], step, j);
      if step == ReadsChildren(j) {
        EnteredBefore(tr, i - 1, j);
        assert ReadAt(tr, i - 1, j, tr[i].jobs[j].target, tr[i].jobs[j].phase.kids);
      } else {
        KidsWereRead(tr, i - 1, j);
      }
    }
  }

  lemma {:induction false} RecordWasRead(tr: seq<System>, i: nat, s: Sid)
    requires Run(tr) && i < |tr| && s in tr[i].done
    ensures exists k: nat, j | k < i :: ReadAt(tr, k, j, s, tr[i].done[s].kids)
  {
    hide NextStep, Run;
    RunStarts(tr);
    if i > 0 {
      RunSteps(tr, i);
      var step :| NextStep(tr[i - 1], tr[i], step);
      RecordSource(tr[i - 1], tr[i], step, s);
      if s in tr[i - 1].done && tr[i].done[s] == tr[i - 1].done[s] {
        RecordWasRead(tr, i - 1, s);
      } else {
        KidsWereRead(tr, i - 1, step.j);
      }
    }
  }

  // ---- main results ------------------------------------------------------------------------------------

  /** In every state of every run, a CANCELLED status was cancelled by a job
      that, after moving it to CANCELLING, had read the list of its children, a
      prefix of what the list is now; every child on it is CANCELLED, and the
      on-cancel job, if there is one, succeeded. */
  lemma CancelledTreeIsCancelled(tr: seq<System>, i: nat, s: Sid)
    requires Run(tr) && i < |tr| && s in tr[i].lives && tr[i].lives[s].row.state == Cancelled
    ensures s in tr[i].done
    ensures forall k <- tr[i].done[s].kids :: k in tr[i].lives && tr[i].lives[k].row.state == Cancelled
    ensures exists k: nat, j | k < i :: ReadAt(tr, k, j, s, tr[i].done[s].kids)
    ensures Prefix(tr[i].done[s].kids, ChildrenOf(tr[i], s))
    ensures s in tr[i].hooks <==> tr[i].done[s].hook.Some?
    ensures tr[i].done[s].hook.Some? ==>
      && tr[i].done[s].hook.value in tr[i].lives
      && var hook := tr[i].lives[tr[i].done[s].hook.value]; hook.row.progress == 100 && hook.row.code == 0
  {
    RunInv(tr, i);
    assert RecordOk(tr[i], s);
    RecordWasRead(tr, i, s);
  }

  /** From parent to a child in the list its cancellation read, all the way
      down. */
  predicate Descent(x: System, p: seq<Sid>) {
    p != [] && forall k, n | 0 <= k && n == k + 1 < |p| :: p[k] in x.done && p[n] in x.done[p[k]].kids
  }

  lemma {:induction false} WholeTreeIsCancelled(tr: seq<System>, i: nat, p: seq<Sid>, k: nat)
    requires Run(tr) && i < |tr| && Descent(tr[i], p) && IsCancelled(tr[i], p[0]) && k < |p|
    ensures p[k] in tr[i].lives && tr[i].lives[p[k]].row.state == Cancelled
  {
    if k > 0 {
      WholeTreeIsCancelled(tr, i, p, k - 1);
      CancelledTreeIsCancelled(tr, i, p[k - 1]);
      assert p[k] in tr[i].done[p[k - 1]].kids;
    }
  }

  /** What a job still watches is always a suffix of what it posted, and the
      part already dropped belongs to children that are CANCELLED. */
  lemma WatchListIsSuffix(tr: seq<System>, i: nat, j: Sid)
    requires Run(tr) && i < |tr| && j in tr[i].jobs && tr[i].jobs[j].phase.Watching?
    ensures var p := tr[i].jobs[j].phase;
      && |p.jobs| == |p.kids| && |p.left| <= |p.jobs| && p.left == p.jobs[|p.jobs| - |p.left|..]
      && AllCancelled(tr[i], p.kids[..|p.kids| - |p.left|])
  {
    RunInv(tr, i);
    assert JobOk(tr[i], j);
  }

  // ---- the watch loop as steps ---------------------------------------------------------------------

  ghost predicate Path(tr: seq<System>, x: System, y: System) {
    && tr != [] && tr[0] == x && tr[|tr| - 1] == y
    && forall i, j | 0 <= i && j == i + 1 < |tr| :: Next(tr[i], tr[j])
  }

  function WithLeft(x: System, j: Sid, left: seq<Sid>): System
    requires j in x.jobs && x.jobs[j].phase.Watching?
  {
    SetPhase(x, j, x.jobs[j].phase.(left := left))
  }

  /** A scan of the watch list that leaves `rest` is a series of single steps:
      from the system to the one in which the job watches `rest`. */
  lemma {:induction false} ScanIsSteps(x: System, j: Sid, done: seq<Sid>, rest: seq<Sid>) returns (tr: seq<System>)
    requires j in x.jobs && x.jobs[j].target in x.lives && x.jobs[j].phase.Watching?
    requires x.jobs[j].phase.left == done + rest && forall w <- done :: w in x.lives && IsSuccess(x.lives[w])
    ensures Path(tr, x, WithLeft(x, j, rest))
    decreases |done|
  {
    if done == [] {
      assert done + rest == rest;
      tr := [x];
    } else {
      var y := WithLeft(x, j, done[1..] + rest);
      assert (done + rest)[1..] == done[1..] + rest && (done + rest)[0] == done[0];
      assert WatchesOneStep(x, y, j);
      assert NextStep(x, y, WatchesOne(j)) && Next(x, y);
      var more := ScanIsSteps(y, j, done[1..], rest);
      tr := [x] + more;
      assert WithLeft(y, j, rest) == WithLeft(x, j, rest);
      forall i, k | 0 <= i && k == i + 1 < |tr|
        ensures Next(tr[i], tr[k])
      {
        if i > 0 { assert tr[i] == more[i - 1] && tr[k] == more[k - 1]; }
      }
    }
  }

  /** The handler: scan the list, and queue again what is left of it. */
  method WatchAgain(x: System, j: Sid) returns (r: Watched, y: System)
    requires j in x.jobs && x.jobs[j].target in x.lives && x.jobs[j].phase.Watching?
    requires forall w <- x.jobs[j].phase.left :: w in x.lives
    ensures r.AllDone? ==> y == WithLeft(x, j, [])
    ensures r.Requeue? ==> y == WithLeft(x, j, r.rest)
    ensures r.WatchFails? ==> y == x
    ensures exists tr :: Path(tr, x, y)
  {
    var left := x.jobs[j].phase.left;
    r := ScanWatch(x.lives, left);
    match r {
      case AllDone =>
        y := WithLeft(x, j, []);
        assert left + [] == left;
        ghost var tr := ScanIsSteps(x, j, left, []);
      case Requeue(rest) =>
        y := WithLeft(x, j, rest);
        ghost var done :| left == done + rest && forall w <- done :: x.lives[w].row.progress == 100 && x.lives[w].row.code == 0;
        ghost var tr := ScanIsSteps(x, j, done, rest);
      case WatchFails(_) =>
        y := x;
        assert Path([x], x, y);
    }
  }
}
