/** The delay daemon (workers/gearbox/DelayProcessor.cc, delayDaemon.cc) and the
    handlers that write its table and then poke it
    (workers/gearbox/WorkerGearbox.cc:61-139,346-355,413-423).

    The table is a map from row id to time, the socket a count of pending
    connections. Reading the clock and entering select() is one step. */
module DelayDaemon {
  import opened Outcomes

  type Id = nat
  type Table = map<Id, int>

  // ---- the loop over due rows ------------------------------------------------------------

  predicate Queued(code: int) { code < 300 }

  /** The rows whose job was queued are gone. */
  function Remaining(rows: Table, due: seq<Id>, codes: map<Id, int>): Table
    requires forall id <- due :: id in codes
  {
    rows - set id | id in due && Queued(codes[id])
  }

  /** run_delayed_jobs on the rows it fetched: a row is deleted exactly when
      the code its job returned says it was queued. */
  method RunDelayedJobs(rows: Table, due: seq<Id>, codes: map<Id, int>) returns (left: Table)
    requires forall id <- due :: id in codes
    ensures left == Remaining(rows, due, codes)
    ensures forall id <- left :: id in rows && left[id] == rows[id]
    ensures forall id <- rows :: id in left <==> id !in due || codes[id] >= 300
  {
    left := rows;
    for i := 0 to |due|
      invariant left == Remaining(rows, due[..i], codes)
    {
      assert due[..i + 1] == due[..i] + [due[i]];
      if Queued(codes[due[i]]) {
        left := left - {due[i]};
      }
    }
    assert due[..|due|] == due;
  }

  // ---- the daemon and its writers -----------------------------------------------------------

  datatype Due = Due(id: Id, time: int)

  /** A run of a row and the code it returned. */
  datatype Ran = Ran(id: Id, code: int)

  /** Between the statements of the daemon's loop. `Selected` holds the least
      time in the table (None when it is empty), `Blocked` the deadline of
      select(). */
  datatype Daemon =
    | Top
    | Fetching(due: seq<Due>)
    | Deleting(id: Id, due: seq<Due>)
    | Selected(when: Option<int>)
    | Blocked(deadline: Option<int>)

  /** `writers` maps a worker that has committed but not poked yet to the rows
      it wrote; `inserted` and `ran`, the codes that runs of rows returned, are
      history. */
  datatype System = System(
    now: int,
    rows: Table,
    pokes: nat,
    writers: map<nat, set<Id>>,
    daemon: Daemon,
    inserted: set<Id>,
    ran: set<Ran>)

  datatype Step =
    | Tick(t: int)
    | Inserts(w: nat, id: Id, time: int)
    | Updates(w: nat, ids: set<Id>, time: int)
    | Pokes(w: nat)
    | PokeFails(w: nat)
    | SelectsDue(t: int, due: seq<Due>)
    | Runs(code: int)
    | Deletes
    | SelectsNext(when: Option<int>)
    | Waits
    | WakesOnPoke
    | WakesOnTimeout

  /** The result of SELECT ... WHERE time <= t ORDER BY time. */
  predicate IsDue(rows: Table, t: int, due: seq<Due>) {
    && (forall i | 0 <= i < |due| :: due[i].id in rows && rows[due[i].id] == due[i].time && due[i].time <= t)
    && (forall i, k | 0 <= i < k < |due| :: due[i].time <= due[k].time && due[i].id != due[k].id)
    && (forall id <- rows :: rows[id] <= t ==> Due(id, rows[id]) in due)
  }

  /** The result of SELECT time ... ORDER BY time LIMIT 1. */
  predicate IsLeast(rows: Table, when: Option<int>) {
    match when
    case None => rows == map[]
    case Some(t) => (exists id <- rows :: rows[id] == t) && forall id <- rows :: t <= rows[id]
  }

  /** UPDATE jobs SET time: the rows of one status. */
  function Updated(rows: Table, ids: set<Id>, time: int): Table { map id <- rows :: if id in ids then time else rows[id] }

  ghost predicate NextStep(x: System, y: System, step: Step) {
    match step
    case Tick(t) => x.now <= t && y == x.(now := t)
    case Inserts(w, id, time) =>
      && id !in x.inserted && w !in x.writers
      && y == x.(rows := x.rows[id := time], writers := x.writers[w := {id}], inserted := x.inserted + {id})
    case Updates(w, ids, time) =>
      && w !in x.writers && ids <= x.rows.Keys
      && y == x.(rows := Updated(x.rows, ids, time), writers := x.writers[w := ids])
    case Pokes(w) => w in x.writers && y == x.(writers := x.writers - {w}, pokes := x.pokes + 1)
    case PokeFails(w) => w in x.writers && y == x.(writers := x.writers - {w})
    case SelectsDue(t, due) =>
      x.daemon.Top? && t <= x.now && IsDue(x.rows, t, due) && y == x.(daemon := Fetching(due))
    case Runs(code) =>
      && x.daemon.Fetching? && x.daemon.due != []
      && var d := x.daemon.due;
         y == x.(
           daemon := if Queued(code) then Deleting(d[0].id, d[1..]) else Fetching(d[1..]),
           ran := x.ran + {Ran(d[0].id, code)})
    case Deletes =>
      && x.daemon.Deleting?
      && y == x.(rows := x.rows - {x.daemon.id}, daemon := Fetching(x.daemon.due))
    case SelectsNext(when) =>
      x.daemon == Fetching([]) && IsLeast(x.rows, when) && y == x.(daemon := Selected(when))
    case Waits =>
      && x.daemon.Selected?
      && var when := x.daemon.when;
         y == x.(daemon := if when.Some? && when.value <= x.now then Top else Blocked(when))
    case WakesOnPoke => x.daemon.Blocked? && x.pokes > 0 && y == x.(daemon := Top, pokes := x.pokes - 1)
    case WakesOnTimeout => CanTimeOut(x) && y == x.(daemon := Top)
  }

  predicate CanTimeOut(x: System) {
    x.daemon.Blocked? && x.daemon.deadline.Some? && x.daemon.deadline.value <= x.now
  }

  /** Pokes may fail: poke_delay_daemon only logs its errors. */
  ghost predicate Next(x: System, y: System) { exists step :: NextStep(x, y, step) }

  ghost predicate ReliableNext(x: System, y: System) { exists step :: NextStep(x, y, step) && !step.PokeFails? }

  /** The daemon starts, over whatever rows are in the table. */
  ghost predicate Init(x: System) {
    x.pokes == 0 && x.writers == map[] && x.daemon == Top && x.inserted == x.rows.Keys && x.ran == {}
  }

  ghost predicate Run(tr: seq<System>) {
    && tr != [] && Init(tr[0])
    && forall i, j | 0 <= i && j == i + 1 < |tr| :: Next(tr[i], tr[j])
  }

  /** Every poke arrives. */
  ghost predicate Reliable(tr: seq<System>) {
    forall i, j | 0 <= i && j == i + 1 < |tr| :: ReliableNext(tr[i], tr[j])
  }

  // ---- what every step keeps -------------------------------------------------------------------

  predicate DueInThePast(x: System, due: seq<Due>) {
    forall i | 0 <= i < |due| :: due[i].time <= x.now && due[i].id in x.inserted
  }

  /** Some run of the row returned a code below 300. */
  predicate WasQueued(x: System, id: Id) { exists r <- x.ran :: r.id == id && r.code < 300 }

  /** Kept whether pokes arrive or not. */
  ghost predicate Inv(x: System) {
    && (x.daemon.Fetching? || x.daemon.Deleting? ==> DueInThePast(x, x.daemon.due))
    && (x.daemon.Deleting? ==> WasQueued(x, x.daemon.id))
    && (forall id <- x.inserted :: id in x.rows || WasQueued(x, id))
    && x.rows.Keys <= x.inserted
  }

  lemma StepKeeps(x: System, y: System, step: Step)
    requires Inv(x) && NextStep(x, y, step)
    ensures Inv(y)
  {
    hide WasQueued, IsDue, IsLeast;
    forall id | WasQueued(x, id)
      ensures WasQueued(y, id)
    {
      StaysQueued(x, y, id);
    }
    if step.Runs? && step.code < 300 { NowQueued(y, x.daemon.due[0].id, step.code); }
    DueSlices(x, y, step);
  }

  lemma StaysQueued(x: System, y: System, id: Id)
    requires WasQueued(x, id) && x.ran <= y.ran
    ensures WasQueued(y, id)
  {
  }

  lemma NowQueued(y: System, id: Id, code: int)
    requires Ran(id, code) in y.ran && code < 300
    ensures WasQueued(y, id)
  {
  }

  lemma DueSlices(x: System, y: System, step: Step)
    requires Inv(x) && NextStep(x, y, step)
    ensures y.daemon.Fetching? || y.daemon.Deleting? ==> DueInThePast(y, y.daemon.due)
  {
  }

  lemma {:induction false} RunInv(tr: seq<System>, i: nat)
    requires Run(tr) && i < |tr|
    ensures Inv(tr[i])
  {
    if i > 0 {
      RunInv(tr, i - 1);
      hide Inv, NextStep;
      assert Next(tr[i - 1], tr[i]);
      var step :| NextStep(tr[i - 1], tr[i], step);
      StepKeeps(tr[i - 1], tr[i], step);
    }
  }

  /** At step `k` the daemon ran row `id` and the run returned `code`. */
  ghost predicate RunsAt(tr: seq<System>, k: nat, id: Id, code: int)
    requires k + 1 < |tr|
  {
    NextStep(tr[k], tr[k + 1], Runs(code)) && tr[k].daemon.due[0].id == id
  }

  lemma RanSource(x: System, y: System, step: Step, r: Ran)
    requires NextStep(x, y, step) && r in y.ran
    ensures r in x.ran || (step == Runs(r.code) && x.daemon.due[0].id == r.id)
  {
    hide IsDue, IsLeast;
  }

  lemma {:induction false} RanWasRun(tr: seq<System>, i: nat, r: Ran)
    requires Run(tr) && i < |tr| && r in tr[i].ran
    ensures exists k: nat | k < i :: RunsAt(tr, k, r.id, r.code)
  {
    if i > 0 {
      assert Next(tr[i - 1], tr[i]);
      hide Run, NextStep;
      var step :| NextStep(tr[i - 1], tr[i], step);
      RanSource(tr[i - 1], tr[i], step, r);
      if r in tr[i - 1].ran { RanWasRun(tr, i - 1, r); } else { assert RunsAt(tr, i - 1, r.id, r.code); }
    }
  }

  /** Conservation: every row ever inserted is still in the table, or an earlier
      step ran it and the run returned a code below 300; so is a row that is
      being deleted. */
  lemma RowsAreNotLost(tr: seq<System>, i: nat, id: Id)
    requires Run(tr) && i < |tr| && id in tr[i].inserted
    ensures id in tr[i].rows || exists k: nat, code | k < i && code < 300 :: RunsAt(tr, k, id, code)
    ensures tr[i].daemon == Deleting(id, Held(tr[i])) ==> exists k: nat, code | k < i && code < 300 :: RunsAt(tr, k, id, code)
  {
    RunInv(tr, i);
    hide Run, RunsAt;
    if WasQueued(tr[i], id) {
      var r :| r in tr[i].ran && r.id == id && r.code < 300;
      RanWasRun(tr, i, r);
    }
  }

  /** A run that returns 300 or more leaves the row in the table, and the daemon
      goes on to the next one. */
  lemma RefusedRowStays(x: System, y: System, code: int)
    requires NextStep(x, y, Runs(code)) && code >= 300
    ensures y.rows == x.rows && y.daemon == Fetching(x.daemon.due[1..])
  {
  }

  // ---- the wake-up -------------------------------------------------------------------------------

  /** The daemon will see the row in time: it wakes at or before the row's
      time, or a poke is pending, or the row's writer has yet to poke. */
  predicate Covered(x: System, deadline: Option<int>, id: Id)
    requires id in x.rows
  {
    || (deadline.Some? && deadline.value <= x.rows[id])
    || x.pokes > 0
    || exists w <- x.writers :: id in x.writers[w]
  }

  predicate AllCovered(x: System, deadline: Option<int>) { forall id <- x.rows :: Covered(x, deadline, id) }

  /** The daemon has decided how long to sleep, or sleeps. */
  predicate Asleep(x: System) { x.daemon.Selected? || x.daemon.Blocked? }

  function DeadlineOf(x: System): Option<int>
    requires Asleep(x)
  {
    if x.daemon.Selected? then x.daemon.when else x.daemon.deadline
  }

  predicate CoveredNow(x: System) { Asleep(x) ==> AllCovered(x, DeadlineOf(x)) }

  /** `w` is the last cover of row `id`: the deadline is none or too late, no
      poke is pending and nobody else has written the row and not poked yet. */
  predicate LastCover(x: System, w: nat, id: Id)
    requires w in x.writers
  {
    && Asleep(x) && id in x.rows && id in x.writers[w] && x.pokes == 0
    && !(DeadlineOf(x).Some? && DeadlineOf(x).value <= x.rows[id])
    && forall v <- x.writers :: v != w ==> id !in x.writers[v]
  }

  /** A poke fails although it was the last cover of a row. */
  ghost predicate Uncovers(x: System, y: System) {
    exists w, id :: w in x.writers && NextStep(x, y, PokeFails(w)) && LastCover(x, w, id)
  }

  lemma WriteKeepsCovered(x: System, y: System, deadline: Option<int>, w: nat, ids: set<Id>)
    requires AllCovered(x, deadline) && w !in x.writers && y.writers == x.writers[w := ids] && y.pokes == x.pokes
    requires forall id <- y.rows :: id in ids || (id in x.rows && y.rows[id] == x.rows[id])
    ensures AllCovered(y, deadline)
  {
    forall id | id in y.rows
      ensures Covered(y, deadline, id)
    {
      if id in ids {
        assert id in y.writers[w];
      } else {
        assert Covered(x, deadline, id);
        if v: nat :| v in x.writers && id in x.writers[v] { assert id in y.writers[v]; }
      }
    }
  }

  /** With arriving pokes every step keeps all rows covered. */
  lemma StepCovers(x: System, y: System, step: Step)
    requires CoveredNow(x) && NextStep(x, y, step) && !step.PokeFails?
    ensures CoveredNow(y)
  {
    match step
    case Inserts(w, id, _) => if Asleep(x) { WriteKeepsCovered(x, y, DeadlineOf(x), w, {id}); }
    case Updates(w, ids, _) => if Asleep(x) { WriteKeepsCovered(x, y, DeadlineOf(x), w, ids); }
    case _ =>
  }

  lemma FailureCoversIff(x: System, y: System, w: nat)
    requires CoveredNow(x) && NextStep(x, y, PokeFails(w)) && w in x.writers
    ensures CoveredNow(y) <==> forall id :: !LastCover(x, w, id)
  {
    if id :| LastCover(x, w, id) {
      assert !Covered(y, DeadlineOf(y), id);
    } else if Asleep(x) {
      forall id | id in y.rows
        ensures Covered(y, DeadlineOf(y), id)
      {
        assert Covered(x, DeadlineOf(x), id);
        assert !LastCover(x, w, id);
        if v: nat :| v in x.writers && v != w && id in x.writers[v] { assert id in y.writers[v]; }
      }
    }
  }

  lemma FailureOf(x: System, y: System, w: nat)
    requires NextStep(x, y, PokeFails(w))
    ensures w in x.writers
  {
  }

  lemma StepCoversIff(tr: seq<System>, i: nat)
    requires Run(tr) && i + 1 < |tr| && CoveredNow(tr[i])
    ensures CoveredNow(tr[i + 1]) <==> !Uncovers(tr[i], tr[i + 1])
  {
    hide CoveredNow, LastCover, NextStep;
    var x, y := tr[i], tr[i + 1];
    assert Next(x, y);
    if Uncovers(x, y) {
      var w, id :| w in x.writers && NextStep(x, y, PokeFails(w)) && LastCover(x, w, id);
      FailureCoversIff(x, y, w);
    } else {
      var step :| NextStep(x, y, step);
      if step.PokeFails? { FailureOf(x, y, step.w); FailureCoversIff(x, y, step.w); } else { StepCovers(x, y, step); }
    }
  }

  lemma {:induction false} CoveredSoFar(tr: seq<System>, i: nat)
    requires Run(tr) && i < |tr|
    requires forall k, j | 0 <= k && j == k + 1 < |tr| :: !Uncovers(tr[k], tr[j])
    ensures CoveredNow(tr[i])
  {
    if i > 0 {
      CoveredSoFar(tr, i - 1);
      hide CoveredNow, Uncovers;
      StepCoversIff(tr, i - 1);
    }
  }

  /** Over every run, failed pokes included: no sleeping daemon ever misses a
      row if and only if no poke fails that is the last cover of a row. */
  lemma {:induction false} CoveredIffNoLastCoverFails(tr: seq<System>)
    requires Run(tr)
    ensures (forall i | 0 <= i < |tr| :: CoveredNow(tr[i])) <==>
      (forall i, j | 0 <= i && j == i + 1 < |tr| :: !Uncovers(tr[i], tr[j]))
  {
    hide CoveredNow, Uncovers, Run;
    if forall i | 0 <= i < |tr| :: CoveredNow(tr[i]) {
      forall i, j | 0 <= i && j == i + 1 < |tr|
        ensures !Uncovers(tr[i], tr[j])
      {
        StepCoversIff(tr, i);
      }
    }
    if forall i, j | 0 <= i && j == i + 1 < |tr| :: !Uncovers(tr[i], tr[j]) {
      forall i | 0 <= i < |tr|
        ensures CoveredNow(tr[i])
      {
        CoveredSoFar(tr, i);
      }
    }
  }

  lemma {:induction false} ReliableCovers(tr: seq<System>, i: nat)
    requires Run(tr) && Reliable(tr) && i < |tr|
    ensures CoveredNow(tr[i])
  {
    if i > 0 {
      ReliableCovers(tr, i - 1);
      hide CoveredNow, NextStep;
      assert ReliableNext(tr[i - 1], tr[i]);
      var step :| NextStep(tr[i - 1], tr[i], step) && !step.PokeFails?;
      StepCovers(tr[i - 1], tr[i], step);
    }
  }

  /** No lost wake-up, in every state of every run whose pokes arrive. */
  lemma NoLostWakeup(tr: seq<System>, i: nat)
    requires Run(tr) && Reliable(tr) && i < |tr| && tr[i].daemon.Blocked?
    ensures AllCovered(tr[i], tr[i].daemon.deadline)
  {
    ReliableCovers(tr, i);
  }

  /** Hence, once no writer is between commit and poke, a due row finds the
      daemon able to wake up. */
  lemma DueRowWakesDaemon(tr: seq<System>, i: nat, id: Id)
    requires Run(tr) && Reliable(tr) && i < |tr| && tr[i].daemon.Blocked?
    requires id in tr[i].rows && tr[i].rows[id] <= tr[i].now && tr[i].writers == map[]
    ensures tr[i].pokes > 0 || (tr[i].daemon.deadline.Some? && tr[i].daemon.deadline.value <= tr[i].now)
  {
    NoLostWakeup(tr, i);
    assert Covered(tr[i], tr[i].daemon.deadline, id);
  }

  /** With the table as it was selected, the daemon goes to sleep only over rows
      that are not due: with a deadline still to come, or over an empty table. */
  lemma SleepsOnlyWhenNothingIsDue(x: System, y: System)
    requires x.daemon.Selected? && IsLeast(x.rows, x.daemon.when) && NextStep(x, y, Waits) && y.daemon.Blocked?
    ensures forall id <- x.rows :: x.rows[id] > x.now
  {
  }

  /** Steps between consecutive states. */
  ghost predicate Steps(tr: seq<System>, ss: seq<Step>) {
    |tr| == |ss| + 1 && forall i, j | 0 <= i < |ss| && j == i + 1 :: NextStep(tr[i], tr[j], ss[i])
  }

  function CountPokes(ss: seq<Step>): nat {
    if ss == [] then 0 else CountPokes(ss[..|ss| - 1]) + if ss[|ss| - 1].Pokes? then 1 else 0
  }

  function CountWakes(ss: seq<Step>): nat {
    if ss == [] then 0 else CountWakes(ss[..|ss| - 1]) + if ss[|ss| - 1].WakesOnPoke? then 1 else 0
  }

  /** Every poke is pending or has woken the daemon once. */
  lemma {:induction false} PokesAreUsedOnce(tr: seq<System>, ss: seq<Step>)
    requires Steps(tr, ss)
    ensures tr[0].pokes + CountPokes(ss) == tr[|tr| - 1].pokes + CountWakes(ss)
    decreases |ss|
  {
    if ss != [] {
      var n := |ss| - 1;
      var most, steps := tr[..n + 1], ss[..n];
      forall i, j | 0 <= i < |steps| && j == i + 1
        ensures NextStep(most[i], most[j], steps[i])
      {
        assert NextStep(tr[i], tr[j], ss[i]);
      }
      PokesAreUsedOnce(most, steps);
      OneStepPokes(tr[n], tr[n + 1], ss[n]);
    }
  }

  lemma OneStepPokes(x: System, y: System, step: Step)
    requires NextStep(x, y, step)
    ensures y.pokes == x.pokes + (if step.Pokes? then 1 else 0) - (if step.WakesOnPoke? then 1 else 0)
  {
    hide IsDue, IsLeast;
  }

  // ---- a poke that fails ---------------------------------------------------------------------------

  /** A run in which the poke for a due row fails while the daemon sleeps without
      a deadline. */
  lemma FailedPokeLosesTheRow() returns (tr: seq<System>)
    ensures Run(tr)
    ensures var x := tr[|tr| - 1];
      && x.daemon == Blocked(None) && x.pokes == 0 && x.writers == map[]
      && 1 in x.rows && x.rows[1] <= x.now && !Covered(x, None, 1)
  {
    var s0 := System(10, map[], 0, map[], Top, {}, {});
    var s1 := s0.(daemon := Fetching([]));
    var s2 := s0.(daemon := Selected(None));
    var s3 := s0.(daemon := Blocked(None));
    var s4 := s3.(rows := map[1 := 5], writers := map[7 := {1}], inserted := {1});
    var s5 := s4.(writers := map[]);
    tr := [s0, s1, s2, s3, s4, s5];
    assert NextStep(s0, s1, SelectsDue(10, []));
    assert NextStep(s1, s2, SelectsNext(None));
    assert NextStep(s2, s3, Waits);
    assert NextStep(s3, s4, Inserts(7, 1, 5));
    assert s4.writers - {7} == map[];
    assert NextStep(s4, s5, PokeFails(7));
    assert Next(s0, s1) && Next(s1, s2) && Next(s2, s3) && Next(s3, s4) && Next(s4, s5);
    hide Next, NextStep;
    assert Run(tr);
  }

  ghost predicate UnpokedNext(x: System, y: System) { exists step :: NextStep(x, y, step) && !step.Pokes? }

  /** From there the daemon sleeps for ever, whatever else happens, as long as
      no poke arrives: workers may go on inserting and updating rows. */
  lemma {:induction false} SleepsForEver(tr: seq<System>, i: nat)
    requires tr != [] && i < |tr| && tr[0].daemon == Blocked(None) && tr[0].pokes == 0
    requires forall k, j | 0 <= k && j == k + 1 < |tr| :: UnpokedNext(tr[k], tr[j])
    ensures tr[i].daemon == Blocked(None) && tr[i].pokes == 0 && tr[0].rows.Keys <= tr[i].rows.Keys
  {
    if i > 0 {
      SleepsForEver(tr, i - 1);
      assert UnpokedNext(tr[i - 1], tr[i]);
      var step :| NextStep(tr[i - 1], tr[i], step) && !step.Pokes?;
    }
  }

  /** The rows the daemon has fetched and not run yet. */
  function Held(x: System): seq<Due> { if x.daemon.Fetching? || x.daemon.Deleting? then x.daemon.due else [] }

  predicate IsCalm(step: Step) {
    step.Tick? || step.Pokes? || step.WakesOnPoke? || step.WakesOnTimeout? || step.SelectsDue?
  }

  /** Time passes, writers that have committed poke, and the daemon wakes up and
      looks for due rows; nobody writes. */
  ghost predicate CalmNext(x: System, y: System) { exists step :: NextStep(x, y, step) && IsCalm(step) }

  ghost predicate Calm(tr: seq<System>) {
    tr != [] && forall k, j | 0 <= k && j == k + 1 < |tr| :: CalmNext(tr[k], tr[j])
  }

  /** Without new writes, the daemon can still fetch the row. */
  ghost predicate PickedUp(x: System, id: Id) {
    exists tr :: Calm(tr) && tr[0] == x && id in x.rows && Due(id, x.rows[id]) in Held(tr[|tr| - 1])
  }

  lemma {:induction false} Latest(rows: Table, ids: set<Id>) returns (m: Id)
    requires ids != {} && ids <= rows.Keys
    ensures m in ids && forall id <- ids :: rows[id] <= rows[m]
  {
    m :| m in ids;
    var rest := ids - {m};
    if rest != {} {
      var r := Latest(rows, rest);
      if rows[r] > rows[m] { m := r; }
    }
  }

  /** `due` lists the rows `ids` in the order of their times. */
  predicate Lists(rows: Table, ids: set<Id>, due: seq<Due>) {
    && (forall i | 0 <= i < |due| :: due[i].id in ids && due[i].id in rows && rows[due[i].id] == due[i].time)
    && (forall i, k | 0 <= i < k < |due| :: due[i].time <= due[k].time && due[i].id != due[k].id)
    && (forall id <- ids :: id in rows && Due(id, rows[id]) in due)
  }

  lemma {:induction false} ListExists(rows: Table, ids: set<Id>) returns (due: seq<Due>)
    requires ids <= rows.Keys
    ensures Lists(rows, ids, due)
    decreases ids
  {
    if ids == {} {
      due := [];
    } else {
      var m := Latest(rows, ids);
      var most := ListExists(rows, ids - {m});
      due := most + [Due(m, rows[m])];
      forall id | id in ids
        ensures Due(id, rows[id]) in due
      {
        if id == m { assert due[|most|] == Due(m, rows[m]); } else { assert Due(id, rows[id]) in most; }
      }
    }
  }

  /** A daemon at the top of its loop fetches every row whose time has come. */
  lemma FetchesDueRow(x: System, id: Id) returns (y: System)
    requires x.daemon.Top? && id in x.rows && x.rows[id] <= x.now
    ensures CalmNext(x, y) && Due(id, x.rows[id]) in Held(y)
  {
    var due := ListExists(x.rows, set i | i in x.rows && x.rows[i] <= x.now);
    y := x.(daemon := Fetching(due));
    assert IsDue(x.rows, x.now, due);
    assert NextStep(x, y, SelectsDue(x.now, due)) && IsCalm(SelectsDue(x.now, due));
  }

  predicate CanWake(x: System) { CanTimeOut(x) || (x.daemon.Blocked? && x.pokes > 0) }

  /** What keeps a blocked daemon from sleeping for ever. */
  predicate Hopeful(x: System) { x.daemon.Blocked? && (x.daemon.deadline.Some? || x.pokes > 0 || x.writers != map[]) }

  /** The same sleep: deadline and table unchanged, and no poke lost, pending or
      still to come. */
  predicate StillAsleep(x: System, y: System) {
    y.daemon == x.daemon && y.rows == x.rows && y.pokes + |y.writers| == x.pokes + |x.writers|
  }

  predicate Woken(tr: seq<System>, i: nat)
    requires i < |tr|
  {
    exists k | 0 <= k <= i :: tr[k].daemon.Top?
  }

  lemma CalmStepAsleep(x: System, y: System)
    requires x.daemon.Blocked? && CalmNext(x, y)
    ensures y.daemon.Top? || StillAsleep(x, y)
  {
    var step :| NextStep(x, y, step) && IsCalm(step);
    if step.Pokes? { OneWriterLess(x.writers, step.w); }
  }

  /** No calm run passes by a sleeping daemon: until it wakes it sleeps the same
      sleep. */
  lemma {:induction false} NothingIsMissed(tr: seq<System>, i: nat)
    requires Calm(tr) && i < |tr| && tr[0].daemon.Blocked?
    ensures Woken(tr, i) || StillAsleep(tr[0], tr[i])
  {
    hide Calm, CalmNext, StillAsleep, Woken;
    if i == 0 {
      SleepsOn(tr[0], tr[0], tr[0]);
    } else {
      NothingIsMissed(tr, i - 1);
      CalmAt(tr, i);
      WokenStays(tr, i);
      if !Woken(tr, i - 1) {
        SleepsOn(tr[0], tr[i - 1], tr[i]);
        CalmStepAsleep(tr[i - 1], tr[i]);
        SleepsOn(tr[0], tr[i - 1], tr[i]);
      }
    }
  }

  lemma CalmAt(tr: seq<System>, i: nat)
    requires Calm(tr) && 0 < i < |tr|
    ensures CalmNext(tr[i - 1], tr[i])
  {
    hide CalmNext;
  }

  lemma WokenStays(tr: seq<System>, i: nat)
    requires 0 < i < |tr|
    ensures Woken(tr, i - 1) || tr[i].daemon.Top? ==> Woken(tr, i)
  {
  }

  lemma SleepsOn(x: System, y: System, z: System)
    ensures StillAsleep(x, x)
    ensures StillAsleep(x, y) && StillAsleep(y, z) ==> StillAsleep(x, z)
    ensures StillAsleep(x, y) ==> y.daemon == x.daemon
  {
  }

  lemma OneWriterLess(writers: map<nat, set<Id>>, w: nat)
    requires w in writers
    ensures |writers - {w}| == |writers| - 1
  {
    assert (writers - {w}).Keys == writers.Keys - {w};
    assert |writers.Keys - {w}| == |writers.Keys| - 1;
    assert |(writers - {w}).Keys| == |writers - {w}| && |writers.Keys| == |writers|;
  }

  /** Hence in every calm run of a hopeful daemon, it has woken, or it can wake
      as soon as its deadline has passed or the writers have poked. */
  lemma WakesInTime(tr: seq<System>, i: nat)
    requires Calm(tr) && i < |tr| && Hopeful(tr[0])
    requires (tr[0].daemon.deadline.Some? && tr[0].daemon.deadline.value <= tr[i].now) ||
      (tr[i].writers == map[] && (tr[0].pokes > 0 || tr[0].writers != map[]))
    ensures Woken(tr, i) || CanWake(tr[i])
  {
    hide Calm, Woken;
    NothingIsMissed(tr, i);
    assert tr[0].writers != map[] ==> |tr[0].writers| > 0;
    assert tr[i].writers == map[] ==> |tr[i].writers| == 0;
  }

  lemma {:induction false} NobodyWakes(tr: seq<System>, i: nat)
    requires Calm(tr) && i < |tr| && tr[0].daemon == Blocked(None) && tr[0].pokes == 0 && tr[0].writers == map[]
    ensures tr[i].daemon == Blocked(None) && tr[i].pokes == 0 && tr[i].writers == map[]
  {
    if i > 0 {
      NobodyWakes(tr, i - 1);
      assert CalmNext(tr[i - 1], tr[i]);
      var step :| NextStep(tr[i - 1], tr[i], step) && IsCalm(step);
    }
  }

  /** From waking up at or after the row's time to the fetch. */
  lemma CalmEnds(tr: seq<System>, x: System, id: Id)
    requires Calm(tr) && tr[0] == x && id in x.rows
    requires var z := tr[|tr| - 1]; z.daemon.Top? && z.rows == x.rows && x.rows[id] <= z.now
    ensures PickedUp(x, id)
  {
    hide CalmNext;
    var z := FetchesDueRow(tr[|tr| - 1], id);
    var more := tr + [z];
    forall k, j | 0 <= k && j == k + 1 < |more|
      ensures CalmNext(more[k], more[j])
    {
      if j < |tr| { assert CalmNext(tr[k], tr[j]); }
    }
    assert Calm(more) && more[|more| - 1] == z;
  }

  lemma WakesWithin(x: System, id: Id)
    requires Hopeful(x) && id in x.rows
    ensures PickedUp(x, id)
  {
    var dl := x.daemon.deadline;
    var late := if dl.Some? && dl.value > x.rows[id] then dl.value else x.rows[id];
    var y := x.(now := if late > x.now then late else x.now);
    assert NextStep(x, y, Tick(y.now)) && IsCalm(Tick(y.now)) && CalmNext(x, y);
    if dl.Some? {
      var z := y.(daemon := Top);
      assert NextStep(y, z, WakesOnTimeout) && IsCalm(WakesOnTimeout) && CalmNext(y, z);
      CalmEnds([x, y, z], x, id);
    } else if x.pokes > 0 {
      var z := y.(daemon := Top, pokes := y.pokes - 1);
      assert NextStep(y, z, WakesOnPoke) && IsCalm(WakesOnPoke) && CalmNext(y, z);
      CalmEnds([x, y, z], x, id);
    } else {
      assert x.writers.Keys != {};
      var w :| w in x.writers;
      var p := y.(writers := y.writers - {w}, pokes := y.pokes + 1);
      var z := p.(daemon := Top, pokes := y.pokes);
      assert NextStep(y, p, Pokes(w)) && IsCalm(Pokes(w)) && CalmNext(y, p);
      assert NextStep(p, z, WakesOnPoke) && IsCalm(WakesOnPoke) && CalmNext(p, z);
      CalmEnds([x, y, p, z], x, id);
    }
  }

  /** A blocked daemon, whatever pokes have failed before, can still fetch a row if
      and only if it has a deadline, a poke is pending, or a writer has yet to
      poke. */
  lemma PickedUpIff(x: System, id: Id)
    requires x.daemon.Blocked? && id in x.rows
    ensures PickedUp(x, id) <==> x.daemon.deadline.Some? || x.pokes > 0 || x.writers != map[]
  {
    if Hopeful(x) {
      WakesWithin(x, id);
    } else if PickedUp(x, id) {
      var tr :| Calm(tr) && tr[0] == x && Due(id, x.rows[id]) in Held(tr[|tr| - 1]);
      NobodyWakes(tr, |tr| - 1);
    }
  }

  // ---- rows run on time ------------------------------------------------------------------------------

  /** No row that the daemon has fetched has its time in the future. */
  predicate OnTime(x: System) { forall d <- Held(x) :: d.id in x.rows ==> x.rows[d.id] <= x.now }

  /** A worker moves a row that the daemon has already fetched to the future. */
  ghost predicate Postpones(x: System, y: System) {
    exists w, ids, time :: NextStep(x, y, Updates(w, ids, time)) && time > x.now && exists d <- Held(x) :: d.id in ids
  }

  lemma StepOnTime(x: System, y: System, step: Step)
    requires Inv(x) && OnTime(x) && NextStep(x, y, step)
    ensures OnTime(y) <==> !Postpones(x, y)
  {
    if Postpones(x, y) {
      var w, ids, time :| NextStep(x, y, Updates(w, ids, time)) && time > x.now && exists d <- Held(x) :: d.id in ids;
      var d :| d in Held(x) && d.id in ids;
      assert d in Held(y) && y.rows[d.id] > y.now;
    } else {
      forall d | d in Held(y) && d.id in y.rows
        ensures y.rows[d.id] <= y.now
      {
        match step
        case SelectsDue(t, due) =>
          var i :| 0 <= i < |due| && due[i] == d;
        case Updates(w, ids, time) =>
          assert NextStep(x, y, Updates(w, ids, time));
          assert d in Held(x);
        case _ =>
          assert d in Held(x);
      }
    }
  }

  /** No fetched row is ever waiting for a time in the future if and only if no
      worker postpones a row that the daemon has already fetched. */
  lemma {:induction false} FetchedRowsStayDue(tr: seq<System>)
    requires Run(tr)
    ensures (forall i | 0 <= i < |tr| :: OnTime(tr[i])) <==>
      (forall i, j | 0 <= i && j == i + 1 < |tr| :: !Postpones(tr[i], tr[j]))
  {
    if forall i | 0 <= i < |tr| :: OnTime(tr[i]) {
      forall i, j | 0 <= i && j == i + 1 < |tr|
        ensures !Postpones(tr[i], tr[j])
      {
        OneStepOnTime(tr, i);
      }
    }
    if forall i, j | 0 <= i && j == i + 1 < |tr| :: !Postpones(tr[i], tr[j]) {
      forall i | 0 <= i < |tr|
        ensures OnTime(tr[i])
      {
        OnTimeSoFar(tr, i);
      }
    }
  }

  lemma OneStepOnTime(tr: seq<System>, i: nat)
    requires Run(tr) && i + 1 < |tr| && OnTime(tr[i])
    ensures OnTime(tr[i + 1]) <==> !Postpones(tr[i], tr[i + 1])
  {
    hide OnTime, Postpones;
    RunInv(tr, i);
    assert Next(tr[i], tr[i + 1]);
    var step :| NextStep(tr[i], tr[i + 1], step);
    StepOnTime(tr[i], tr[i + 1], step);
  }

  lemma {:induction false} OnTimeSoFar(tr: seq<System>, i: nat)
    requires Run(tr) && i < |tr|
    requires forall k, j | 0 <= k && j == k + 1 < |tr| :: !Postpones(tr[k], tr[j])
    ensures OnTime(tr[i])
  {
    if i > 0 {
      OnTimeSoFar(tr, i - 1);
      OneStepOnTime(tr, i - 1);
    }
  }

  /** At step `k` a worker set the time of `d`, fetched and not run yet, to `time`. */
  ghost predicate Moved(tr: seq<System>, k: nat, d: Due, time: int)
    requires k + 1 < |tr|
  {
    && d in Held(tr[k]) && d.id in tr[k].rows
    && exists w, ids :: NextStep(tr[k], tr[k + 1], Updates(w, ids, time)) && d.id in ids
  }

  /** A step that neither fetches rows nor changes the time of row `id`. */
  ghost predicate Untouched(x: System, y: System, id: Id) {
    exists step :: NextStep(x, y, step) && !step.SelectsDue? && !(step.Updates? && id in step.ids)
  }

  /** Between its fetch and state `i`, the last that happened to the time of `d`
      is the update of step `k`. */
  ghost predicate LastMoved(tr: seq<System>, k: nat, i: nat, d: Due, time: int)
    requires k < i < |tr|
  {
    Moved(tr, k, d, time) && forall m, n | k < m && n == m + 1 <= i :: Untouched(tr[m], tr[n], d.id)
  }

  /** The time of a fetched row is the one it was fetched with, or the one the
      last update since then gave it. */
  lemma {:induction false} TimeOfHeldRow(tr: seq<System>, i: nat, d: Due)
    requires Run(tr) && i < |tr| && d in Held(tr[i]) && d.id in tr[i].rows
    ensures tr[i].rows[d.id] == d.time || exists k: nat | k < i :: LastMoved(tr, k, i, d, tr[i].rows[d.id])
  {
    if i > 0 {
      var x, y := tr[i - 1], tr[i];
      RunInv(tr, i - 1);
      assert Next(x, y);
      var step :| NextStep(x, y, step);
      if step.SelectsDue? {
        var n :| 0 <= n < |step.due| && step.due[n] == d;
      } else {
        HeldBefore(x, y, step, d);
        if step.Updates? && d.id in step.ids {
          assert Moved(tr, i - 1, d, y.rows[d.id]);
          assert LastMoved(tr, i - 1, i, d, y.rows[d.id]);
        } else {
          assert Untouched(x, y, d.id);
          TimeOfHeldRow(tr, i - 1, d);
          if x.rows[d.id] != d.time {
            var k: nat :| k < i - 1 && LastMoved(tr, k, i - 1, d, x.rows[d.id]);
            assert LastMoved(tr, k, i, d, y.rows[d.id]);
          }
        }
      }
    }
  }

  /** Unless it has just been fetched, a row held now was held before. */
  lemma HeldBefore(x: System, y: System, step: Step, d: Due)
    requires Inv(x) && NextStep(x, y, step) && !step.SelectsDue? && d in Held(y) && d.id in y.rows
    ensures d in Held(x) && d.id in x.rows
    ensures !(step.Updates? && d.id in step.ids) ==> y.rows[d.id] == x.rows[d.id]
  {
    assert d in Held(x);
    var n :| 0 <= n < |Held(x)| && Held(x)[n] == d;
    assert d.id in x.inserted;
  }

  /** Untouched, a row that is still there has kept its time. */
  lemma {:induction false} KeepsTime(tr: seq<System>, k: nat, m: nat, i: nat, id: Id)
    requires Run(tr) && k < m <= i < |tr| && id in tr[i].rows && id in tr[m].inserted
    requires forall p, n | k < p && n == p + 1 <= i :: Untouched(tr[p], tr[n], id)
    ensures id in tr[m].rows && tr[m].rows[id] == tr[i].rows[id]
    decreases i - m
  {
    hide Untouched, Run;
    if m < i {
      UntouchedKeeps(tr[m], tr[m + 1], id);
      KeepsTime(tr, k, m + 1, i, id);
    }
  }

  lemma UntouchedKeeps(x: System, y: System, id: Id)
    requires Untouched(x, y, id) && id in x.inserted
    ensures id in y.inserted && (id in y.rows ==> id in x.rows && x.rows[id] == y.rows[id])
  {
    var step :| NextStep(x, y, step) && !step.SelectsDue? && !(step.Updates? && id in step.ids);
  }

  /** The daemon runs a row whose time is still to come. */
  ghost predicate RunsEarly(x: System, y: System) {
    && (exists code :: NextStep(x, y, Runs(code)))
    && var d := x.daemon.due[0]; d.id in x.rows && x.rows[d.id] > x.now
  }

  /** The rows run before their time are exactly those that a worker moved, after
      they were fetched and for the last time, to a time that has not come yet. */
  lemma NothingRunsEarly(tr: seq<System>, i: nat, code: int)
    requires Run(tr) && i + 1 < |tr| && NextStep(tr[i], tr[i + 1], Runs(code))
    ensures var d := tr[i].daemon.due[0];
      RunsEarly(tr[i], tr[i + 1]) <==>
        && d.id in tr[i].rows
        && exists k: nat, time | k < i :: LastMoved(tr, k, i, d, time) && time > tr[i].now
  {
    var d := tr[i].daemon.due[0];
    RunInv(tr, i);
    assert d in Held(tr[i]);
    hide Run, LastMoved, NextStep, Inv;
    if d.id in tr[i].rows {
      TimeOfHeldRow(tr, i, d);
      FetchedInThePast(tr, i, d);
      if k: nat, time :| k < i && LastMoved(tr, k, i, d, time) && time > tr[i].now {
        MovedStays(tr, k, i, d, time);
      }
    }
  }

  lemma FetchedInThePast(tr: seq<System>, i: nat, d: Due)
    requires Run(tr) && i < |tr| && d in Held(tr[i])
    ensures d.time <= tr[i].now
  {
    RunInv(tr, i);
    var n :| 0 <= n < |Held(tr[i])| && Held(tr[i])[n] == d;
  }

  lemma MovedStays(tr: seq<System>, k: nat, i: nat, d: Due, time: int)
    requires Run(tr) && k < i < |tr| && LastMoved(tr, k, i, d, time) && d.id in tr[i].rows
    ensures tr[i].rows[d.id] == time
  {
    RunInv(tr, k);
    KeepsTime(tr, k, k + 1, i, d.id);
  }

  /** Hence nothing runs early in a run in which no fetched row is postponed. */
  lemma NoPostponementNoEarlyRun(tr: seq<System>, i: nat)
    requires Run(tr) && i + 1 < |tr|
    requires forall k, j | 0 <= k && j == k + 1 < |tr| :: !Postpones(tr[k], tr[j])
    ensures !RunsEarly(tr[i], tr[i + 1])
  {
    OnTimeSoFar(tr, i);
    assert tr[i].daemon.Fetching? && tr[i].daemon.due != [] ==> tr[i].daemon.due[0] in Held(tr[i]);
  }

  /** There are such runs: a row due at 5 is fetched at 10, a worker postpones it
      to 100, and the daemon runs it at 10. */
  lemma PostponedRowStillRuns() returns (tr: seq<System>)
    ensures Run(tr) && |tr| >= 2 && RunsEarly(tr[|tr| - 2], tr[|tr| - 1])
    ensures Ran(1, 0) in tr[|tr| - 1].ran
  {
    var s0 := System(10, map[], 0, map[], Top, {}, {});
    var s1 := s0.(rows := map[1 := 5], writers := map[7 := {1}], inserted := {1});
    var s2 := s1.(daemon := Fetching([Due(1, 5)]));
    var s3 := s2.(rows := map[1 := 100], writers := map[7 := {1}, 8 := {1}]);
    var s4 := s3.(daemon := Deleting(1, []), ran := {Ran(1, 0)});
    tr := [s0, s1, s2, s3, s4];
    assert NextStep(s0, s1, Inserts(7, 1, 5));
    assert Due(1, 5) in [Due(1, 5)];
    assert NextStep(s1, s2, SelectsDue(10, [Due(1, 5)]));
    assert s3.rows == Updated(s2.rows, {1}, 100);
    assert NextStep(s2, s3, Updates(8, {1}, 100));
    assert s3.daemon.due[1..] == [];
    assert NextStep(s3, s4, Runs(0));
    assert Next(s0, s1) && Next(s1, s2) && Next(s2, s3) && Next(s3, s4);
    hide Next, NextStep;
    assert Run(tr);
  }

  /** The rows the daemon holds are in the order of their times, so that is the
      order it runs them in. */
  predicate InOrder(x: System) {
    forall i, k | 0 <= i < k < |Held(x)| :: Held(x)[i].time <= Held(x)[k].time
  }

  lemma {:induction false} RunsInOrder(tr: seq<System>, i: nat)
    requires Run(tr) && i < |tr|
    ensures InOrder(tr[i])
  {
    if i > 0 {
      RunsInOrder(tr, i - 1);
      assert Next(tr[i - 1], tr[i]);
      var step :| NextStep(tr[i - 1], tr[i], step);
      StepInOrder(tr[i - 1], tr[i], step);
    }
  }

  lemma StepInOrder(x: System, y: System, step: Step)
    requires InOrder(x) && NextStep(x, y, step)
    ensures InOrder(y)
  {
    hide IsLeast;
    if step.SelectsDue? {
      assert Held(y) == step.due;
    } else if step.Runs? {
      assert Held(y) == Held(x)[1..];
      assert forall i | 0 <= i < |Held(y)| :: Held(y)[i] == Held(x)[i + 1];
    } else {
      assert Held(y) == Held(x) || Held(y) == [];
    }
  }

  // ---- the loop as steps -------------------------------------------------------------------------------

  function Ids(due: seq<Due>): seq<Id> { seq(|due|, i requires 0 <= i < |due| => due[i].id) }

  ghost predicate Path(tr: seq<System>, x: System, y: System) {
    && tr != [] && tr[0] == x && tr[|tr| - 1] == y
    && forall i, j | 0 <= i && j == i + 1 < |tr| :: Next(tr[i], tr[j])
  }

  lemma PathThen(a: seq<System>, b: seq<System>, x: System, y: System, z: System)
    requires Path(a, x, y) && Path(b, y, z)
    ensures Path(a + b[1..], x, z)
  {
    hide Next;
    var c := a + b[1..];
    forall i, j | 0 <= i && j == i + 1 < |c|
      ensures Next(c[i], c[j])
    {
      if j < |a| {
        assert Next(a[i], a[j]);
      } else {
        assert c[i] == b[i - |a| + 1] && c[j] == b[j - |a| + 1];
        assert Next(b[i - |a| + 1], b[j - |a| + 1]);
      }
    }
  }

  /** Left alone, the daemon's steps do what run_delayed_jobs does: from the
      fetched rows to the table that method leaves. */
  lemma {:induction false} LoopIsSteps(x: System, due: seq<Due>, codes: map<Id, int>) returns (tr: seq<System>, y: System)
    requires x.daemon == Fetching(due) && forall id <- Ids(due) :: id in codes
    ensures Path(tr, x, y) && y.daemon == Fetching([]) && y.rows == Remaining(x.rows, Ids(due), codes)
    decreases |due|
  {
    if due == [] {
      tr, y := [x], x;
    } else {
      var id, rest := due[0].id, due[1..];
      assert Ids(due) == [id] + Ids(rest);
      var code := codes[id];
      var z := x.(daemon := if Queued(code) then Deleting(id, rest) else Fetching(rest), ran := x.ran + {Ran(id, code)});
      assert NextStep(x, z, Runs(code)) && Next(x, z);
      var u := if Queued(code) then z.(rows := z.rows - {id}, daemon := Fetching(rest)) else z;
      var first := [x, z];
      if Queued(code) {
        assert NextStep(z, u, Deletes) && Next(z, u);
        first := [x, z, u];
      }
      assert Path(first, x, u);
      var more;
      more, y := LoopIsSteps(u, rest, codes);
      PathThen(first, more, x, u, y);
      tr := first + more[1..];
      LoopTable(x.rows, id, Ids(rest), codes);
    }
  }

  lemma LoopTable(rows: Table, id: Id, ids: seq<Id>, codes: map<Id, int>)
    requires id in codes && forall i <- ids :: i in codes
    ensures Remaining(rows, [id] + ids, codes) ==
      Remaining(if Queued(codes[id]) then rows - {id} else rows, ids, codes)
  {
  }
}
