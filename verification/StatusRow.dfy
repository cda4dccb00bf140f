/** A status and its database row (gearbox/job/Status.cc:184-289,
    gearbox/job/StatusImpl.cc:120-275, plugins/status/sql/SQLStatusImpl.cc).
    Every worker holds its own cached copy of the row and may be out of date;
    state changes are checked on the copy first and again under the database
    lock. */
module StatusRow {

  datatype State = Unknown | Pending | Running | Stopping | Stopped | Cancelling | Cancelled | Completed

  const GONE := 410
  const CONFLICT := 409

  /** Status::validStateTransition. */
  predicate ValidTransition(from: State, to: State) {
    || to == Unknown
    || to == from
    || match from
       case Unknown => true
       case Pending => to == Running || to == Cancelled || to == Completed
       case Running => to == Completed || to == Stopping
       case Stopping => to == Stopped || to == Completed
       case Stopped => to == Cancelling
       case Completed => to == Cancelling
       case Cancelling => to == Cancelled || to == Completed
       case Cancelled => false
  }

  /** The phase order of a status. */
  function Phase(s: State): nat {
    match s
    case Unknown => 0
    case Pending => 1
    case Running => 2
    case Stopping => 3
    case Stopped => 4
    case Completed => 5
    case Cancelling => 5
    case Cancelled => 6
  }

  /** Among accepted changes of a known state, exactly those that do not write
      UNKNOWN respect the phase order. */
  lemma PhaseNeverDrops(from: State, to: State)
    requires from != Unknown && ValidTransition(from, to)
    ensures Phase(from) <= Phase(to) <==> to != Unknown
  {
  }

  /** The changes a status may make, besides staying as it is, being reset to
      UNKNOWN and leaving UNKNOWN. */
  lemma TransitionsAre(from: State, to: State)
    requires from != Unknown && to != Unknown && from != to
    ensures ValidTransition(from, to) <==> (from, to) in {
      (Pending, Running), (Pending, Completed), (Pending, Cancelled),
      (Running, Stopping), (Running, Completed),
      (Stopping, Stopped), (Stopping, Completed),
      (Stopped, Cancelling), (Completed, Cancelling),
      (Cancelling, Cancelled), (Cancelling, Completed)}
  {
  }

  lemma PhaseOrder()
    ensures Phase(Pending) < Phase(Running) < Phase(Stopping) < Phase(Stopped) < Phase(Completed)
    ensures Phase(Completed) == Phase(Cancelling) < Phase(Cancelled)
  {
  }

  datatype Row = Row(state: State, progress: nat, code: int)

  /** StatusImpl's fields as SQLStatusImpl uses them. */
  datatype Cache = Cache(state: State, progress: nat, code: int, loaded: bool, shouldLoad: bool)

  // ---- the operations on one row and one copy --------------------------------------

  /** StatusImpl::state(s): the copy refuses an invalid change. */
  function CacheState(c: Cache, to: State): Cache { if ValidTransition(c.state, to) then c.(state := to) else c }

  /** really_load. The state is assigned through StatusImpl::state, so a copy
      that is not UNKNOWN may refuse it. */
  function Load(c: Cache, row: Row): Cache {
    CacheState(c, row.state).(progress := row.progress, code := row.code, loaded := true, shouldLoad := true)
  }

  /** sync resets the copy to UNKNOWN first. */
  function Sync(c: Cache, row: Row): Cache { Load(c.(state := Unknown), row) }

  datatype Outcome = Outcome(row: Row, cache: Cache, ok: bool)

  /** The transaction of SQLStatusImpl::state. */
  function LockedState(row: Row, to: State): Row { if ValidTransition(row.state, to) then row.(state := to) else row }

  function StateOp(row: Row, c: Cache, to: State): Outcome {
    var c1 := if c.shouldLoad && !c.loaded then Load(c, row) else c;
    if !ValidTransition(c1.state, to) then Outcome(row, c1, false)
    else Outcome(LockedState(row, to), c1.(state := to), ValidTransition(row.state, to))
  }

  /** What end() leaves in the copy before it takes the lock. */
  function EndCache(row: Row, c: Cache, code: int, to: State): Cache {
    var c1 := if c.loaded then Sync(c, row) else Load(c, row);
    var c2 := CacheState(c1, to);
    if c2.progress < 100 then c2.(code := code, progress := 100) else c2
  }

  predicate EndAllowed(row: Row, c: Cache, to: State) {
    ValidTransition((if c.loaded then Sync(c, row) else Load(c, row)).state, to)
  }

  /** The transaction of end(): all three columns, from the copy. */
  function LockedEnd(row: Row, c: Cache): Row {
    if ValidTransition(row.state, c.state) then Row(c.state, c.progress, c.code) else row
  }

  /** end(): `ok` is false when it throws. */
  function EndOp(row: Row, c: Cache, code: int, to: State): Outcome {
    if EndAllowed(row, c, to) then
      var c' := EndCache(row, c, code, to);
      Outcome(LockedEnd(row, c'), c', true)
    else Outcome(row, if c.loaded then Sync(c, row) else Load(c, row), false)
  }

  /** Reading a field loads the copy first if that never happened. */
  function Loaded(c: Cache, row: Row): Cache { if c.loaded then c else Load(c, row) }

  function CancelOp(row: Row, c: Cache): Outcome {
    var c1 := Loaded(c, row);
    if c1.state == Cancelled then Outcome(row, c1, true)
    else EndOp(row, c1, if c1.code == -1 then CONFLICT else c1.code, Cancelled)
  }

  /** The UPDATE ... WHERE progress < :progress of SQLStatusImpl::progress. */
  function WriteProgress(row: Row, p: nat): Row { if row.progress < p then row.(progress := p) else row }

  /** Status::progress only ever raises the copy. */
  function ProgressOp(row: Row, c: Cache, p: nat): Outcome {
    var c1 := Loaded(c, row);
    if p > c1.progress then Outcome(WriteProgress(row, p), c1.(progress := p), true) else Outcome(row, c1, true)
  }

  /** Status::checkpoint: `ok` is false when it throws WorkerStop. */
  function CheckpointOp(row: Row, c: Cache): Outcome {
    var c1 := Sync(c, row);
    if c1.state in {Stopping, Stopped, Cancelling, Cancelled} then
      var o := StateOp(row, c1, Stopped);
      if o.ok then Outcome(WriteProgress(o.row.(code := GONE), 100), o.cache.(code := GONE, progress := 100), false)
      else o.(ok := false)
    else Outcome(row, c1, true)
  }

  /** A synchronised copy shows the row. */
  lemma SyncShowsRow(c: Cache, row: Row)
    ensures Sync(c, row) == Cache(row.state, row.progress, row.code, true, true)
  {
  }

  // ---- what the operations do to the row ------------------------------------------------

  /** A copy whose first read sees the row: never used, or synchronised. */
  predicate Readable(c: Cache) { c.loaded || c.state == Unknown }

  /** checkpoint() stops the work exactly when somebody wants it stopped, whatever
      the copy shows, and marks a STOPPING status STOPPED with code 410. */
  lemma CheckpointStops(row: Row, c: Cache)
    ensures CheckpointOp(row, c).ok <==> row.state !in {Stopping, Stopped, Cancelling, Cancelled}
    ensures row.state == Stopping || row.state == Stopped ==>
      CheckpointOp(row, c).row == Row(Stopped, if row.progress > 100 then row.progress else 100, 410)
    ensures row.state != Stopping && row.state != Stopped ==> CheckpointOp(row, c).row == row
  {
    SyncShowsRow(c, row);
  }

  /** fail() and success() end a status that has not ended: COMPLETED, 100 and the
      code, through any readable copy. */
  lemma EndEnds(row: Row, c: Cache, code: int)
    requires Readable(c) && row.progress < 100 && row.state in {Pending, Running, Stopping}
    ensures EndOp(row, c, code, Completed).ok && EndOp(row, c, code, Completed).row == Row(Completed, 100, code)
  {
    SyncShowsRow(c, row);
  }

  /** Once a status has ended its code stays, and STOPPED and CANCELLED refuse. */
  lemma EndIsTooLate(row: Row, c: Cache, code: int)
    requires Readable(c) && row.progress == 100
    ensures EndOp(row, c, code, Completed).row.code == row.code
    ensures row.state == Stopped || row.state == Cancelled ==>
      !EndOp(row, c, code, Completed).ok && EndOp(row, c, code, Completed).row == row
  {
    SyncShowsRow(c, row);
  }

  /** cancel() with a fetched copy: a status that never ran gets code 409, one that
      is being cancelled keeps its code, and nothing else can be cancelled. */
  lemma CancelCancels(row: Row, c: Cache)
    requires !c.loaded && c.state == Unknown && row.state != Unknown
    ensures row.state == Pending && row.progress < 100 && row.code == -1 ==> CancelOp(row, c).row == Row(Cancelled, 100, 409)
    ensures row.state == Cancelling && row.progress == 100 ==> CancelOp(row, c).row == Row(Cancelled, 100, row.code)
    ensures row.state in {Running, Stopping, Stopped, Completed} ==> !CancelOp(row, c).ok && CancelOp(row, c).row == row
  {
  }

  /** A report raises the row to at least what is reported, and never lowers it,
      through a copy that is not ahead of the row. */
  lemma ProgressReports(row: Row, c: Cache, p: nat)
    requires Lags(c, row)
    ensures ProgressOp(row, c, p).row == row.(progress := if row.progress < p then p else row.progress)
  {
  }

  /** A state is set exactly when copy and row both allow it. */
  lemma StateIsSet(row: Row, c: Cache, to: State)
    requires c.loaded
    ensures StateOp(row, c, to).ok <==> ValidTransition(c.state, to) && ValidTransition(row.state, to)
    ensures StateOp(row, c, to).row == if StateOp(row, c, to).ok then row.(state := to) else row
  {
  }

  // ---- the same as objects -----------------------------------------------------------

  class DbRow {
    var row: Row

    constructor (r: Row)
      ensures row == r
    {
      row := r;
    }
  }

  class Status {
    var cache: Cache
    const db: DbRow

    constructor (d: DbRow, c: Cache)
      ensures db == d && cache == c
    {
      db, cache := d, c;
    }

    method ReallyLoad()
      modifies this
      ensures cache == Load(old(cache), db.row)
    {
      var r := db.row;
      if ValidTransition(cache.state, r.state) { cache := cache.(state := r.state); }
      cache := cache.(progress := r.progress, code := r.code);
      cache := cache.(loaded := true, shouldLoad := true);
    }

    method DoSync()
      modifies this
      ensures cache == Sync(old(cache), db.row)
    {
      cache := cache.(state := Unknown);
      ReallyLoad();
    }

    method SetState(to: State) returns (ok: bool)
      modifies this, db
      ensures Outcome(db.row, cache, ok) == StateOp(old(db.row), old(cache), to)
    {
      if cache.shouldLoad && !cache.loaded { ReallyLoad(); }
      if !ValidTransition(cache.state, to) { return false; }
      cache := cache.(state := to);
      if !ValidTransition(db.row.state, to) { return false; }
      db.row := db.row.(state := cache.state);
      return true;
    }

    method End(code: int, to: State) returns (ok: bool)
      modifies this, db
      ensures Outcome(db.row, cache, ok) == EndOp(old(db.row), old(cache), code, to)
    {
      if !cache.loaded { ReallyLoad(); } else { DoSync(); }
      if !ValidTransition(cache.state, to) { return false; }
      cache := cache.(state := to);
      if cache.progress < 100 { cache := cache.(code := code, progress := 100); }
      if ValidTransition(db.row.state, to) {
        db.row := Row(cache.state, cache.progress, cache.code);
      }
      return true;
    }

    method Cancel() returns (ok: bool)
      modifies this, db
      ensures Outcome(db.row, cache, ok) == CancelOp(old(db.row), old(cache))
    {
      if !cache.loaded { ReallyLoad(); }
      if cache.state == Cancelled { return true; }
      var code := if cache.code == -1 then CONFLICT else cache.code;
      ok := End(code, Cancelled);
    }

    method SetProgress(p: nat)
      modifies this, db
      ensures Outcome(db.row, cache, true) == ProgressOp(old(db.row), old(cache), p)
    {
      if !cache.loaded { ReallyLoad(); }
      if p > cache.progress {
        cache := cache.(progress := p);
        if db.row.progress < p { db.row := db.row.(progress := p); }
      }
    }

    method Checkpoint() returns (ok: bool)
      modifies this, db
      ensures Outcome(db.row, cache, ok) == CheckpointOp(old(db.row), old(cache))
    {
      DoSync();
      if cache.state in {Stopping, Stopped, Cancelling, Cancelled} {
        var moved := SetState(Stopped);
        if moved {
          cache := cache.(code := GONE);
          db.row := db.row.(code := GONE);
          cache := cache.(progress := 100);
          if db.row.progress < 100 { db.row := db.row.(progress := 100); }
        }
        return false;
      }
      return true;
    }
  }

  // ---- any number of workers with stale copies ----------------------------------------------

  /** A worker is outside an operation, or it has passed the check on its own
      copy and waits for the lock. */
  datatype Local = Idle(cache: Cache) | InState(cache: Cache) | InEnd(cache: Cache)

  datatype World = World(row: Row, workers: map<nat, Local>)

  datatype Event =
    | Reads(w: nat)
    | Syncs(w: nat)
    | BeginsState(w: nat, to: State)
    | LocksState(w: nat)
    | BeginsEnd(w: nat, to: State, code: int)
    | LocksEnd(w: nat)
    | SetsProgress(w: nat, p: nat)
    | SetsCode(w: nat, code: int)

  /** Only the locked transaction is atomic. */
  ghost predicate NextEvent(x: World, y: World, e: Event) {
    && e.w in x.workers
    && var l := x.workers[e.w];
       match e
       case Reads(w) => l.Idle? && y == x.(workers := x.workers[w := Idle(Load(l.cache, x.row))])
       case Syncs(w) => l.Idle? && y == x.(workers := x.workers[w := Idle(Sync(l.cache, x.row))])
       case BeginsState(w, to) =>
         && l.Idle? && ValidTransition(l.cache.state, to)
         && y == x.(workers := x.workers[w := InState(l.cache.(state := to))])
       case LocksState(w) =>
         l.InState? && y == World(LockedState(x.row, l.cache.state), x.workers[w := Idle(l.cache)])
       case BeginsEnd(w, to, code) =>
         && l.Idle? && EndAllowed(x.row, l.cache, to)
         && y == x.(workers := x.workers[w := InEnd(EndCache(x.row, l.cache, code, to))])
       case LocksEnd(w) =>
         l.InEnd? && y == World(LockedEnd(x.row, l.cache), x.workers[w := Idle(l.cache)])
       case SetsProgress(w, p) =>
         && l.Idle?
         && y == World(WriteProgress(x.row, p), x.workers[w := Idle(l.cache.(progress := p))])
       case SetsCode(w, code) =>
         l.Idle? && y == World(x.row.(code := code), x.workers[w := Idle(l.cache.(code := code))])
  }

  /** A new status: the row as inserted, and copies that may be anything up to
      date or not, with a progress of at most 100. */
  ghost predicate WorldInit(x: World) {
    && x.row == Row(Pending, 0, -1)
    && forall w <- x.workers :: x.workers[w].Idle? && x.workers[w].cache.progress <= 100
  }

  /** Nobody asks for UNKNOWN or for a progress above 100. */
  predicate Proper(e: Event) {
    match e
    case BeginsState(_, to) => to != Unknown
    case BeginsEnd(_, to, _) => to != Unknown
    case SetsProgress(_, p) => p <= 100
    case _ => true
  }

  ghost predicate History(tr: seq<World>) {
    && tr != [] && WorldInit(tr[0])
    && forall i, j | 0 <= i && j == i + 1 < |tr| :: exists e :: NextEvent(tr[i], tr[j], e) && Proper(e)
  }

  ghost predicate WorldOk(x: World) {
    && x.row.state != Unknown && x.row.progress <= 100
    && forall w <- x.workers :: LocalOk(x.workers[w])
  }

  ghost predicate LocalOk(l: Local) {
    && l.cache.progress <= 100
    && (l.InState? || l.InEnd? ==> l.cache.state != Unknown)
    && (l.InEnd? ==> l.cache.progress == 100)
  }

  /** What may happen to the row in one step or many. */
  predicate RowMoves(a: Row, b: Row) {
    Phase(a.state) <= Phase(b.state) && a.progress <= b.progress && (a.state == Cancelled ==> b.state == Cancelled)
  }

  lemma EventKeeps(x: World, y: World, e: Event)
    requires WorldOk(x) && NextEvent(x, y, e) && Proper(e)
    ensures WorldOk(y) && ValidTransition(x.row.state, y.row.state) && RowMoves(x.row, y.row)
  {
    var l := x.workers[e.w];
    assert LocalOk(l);
    assert LocalOk(y.workers[e.w]);
    forall w | w in y.workers
      ensures LocalOk(y.workers[w])
    {
      assert w != e.w ==> y.workers[w] == x.workers[w];
    }
  }

  lemma {:induction false} HistoryOk(tr: seq<World>, i: nat)
    requires History(tr) && i < |tr|
    ensures WorldOk(tr[i])
  {
    if i > 0 {
      HistoryOk(tr, i - 1);
      var e :| NextEvent(tr[i - 1], tr[i], e) && Proper(e);
      EventKeeps(tr[i - 1], tr[i], e);
    }
  }

  /** Successive row states are valid transitions. */
  lemma RowStepsAreValid(tr: seq<World>, i: nat)
    requires History(tr) && i + 1 < |tr|
    ensures ValidTransition(tr[i].row.state, tr[i + 1].row.state) && RowMoves(tr[i].row, tr[i + 1].row)
  {
    HistoryOk(tr, i);
    var e :| NextEvent(tr[i], tr[i + 1], e) && Proper(e);
    EventKeeps(tr[i], tr[i + 1], e);
  }

  /** Over any stretch of any run the phase never goes down, CANCELLED is
      permanent and progress never decreases. */
  lemma {:induction false} RowIsSafe(tr: seq<World>, i: nat, k: nat)
    requires History(tr) && i <= k < |tr|
    ensures RowMoves(tr[i].row, tr[k].row)
    decreases k - i
  {
    hide History, ValidTransition, Phase;
    if i < k {
      RowIsSafe(tr, i, k - 1);
      RowStepsAreValid(tr, k - 1);
    }
  }

  /** One event, UNKNOWN included: a valid transition, and progress drops only
      where end() writes a copy that shows less than the row. */
  lemma AnyEventIsValid(x: World, y: World, e: Event)
    requires NextEvent(x, y, e)
    ensures ValidTransition(x.row.state, y.row.state)
    ensures y.row.progress < x.row.progress <==>
      && e.LocksEnd? && x.workers[e.w].cache.progress < x.row.progress
      && ValidTransition(x.row.state, x.workers[e.w].cache.state)
  {
  }

  /** Nobody reports more than 100. */
  predicate Mild(e: Event) { e.SetsProgress? ==> e.p <= 100 }

  ghost predicate MildEvent(x: World, y: World) { exists e :: NextEvent(x, y, e) && Mild(e) }

  /** Any number of workers, any requests, UNKNOWN included. */
  ghost predicate MildHistory(tr: seq<World>) {
    && tr != [] && WorldInit(tr[0])
    && forall i, j | 0 <= i && j == i + 1 < |tr| :: MildEvent(tr[i], tr[j])
  }

  ghost predicate ProgressOk(x: World) {
    && x.row.progress <= 100
    && forall w <- x.workers :: x.workers[w].cache.progress <= 100 && (x.workers[w].InEnd? ==> x.workers[w].cache.progress == 100)
  }

  lemma MildKeeps(x: World, y: World, e: Event)
    requires ProgressOk(x) && NextEvent(x, y, e) && Mild(e)
    ensures ProgressOk(y)
  {
    forall w | w in y.workers
      ensures y.workers[w].cache.progress <= 100 && (y.workers[w].InEnd? ==> y.workers[w].cache.progress == 100)
    {
      assert w != e.w ==> y.workers[w] == x.workers[w];
    }
  }

  lemma {:induction false} MildOk(tr: seq<World>, i: nat)
    requires MildHistory(tr) && i < |tr|
    ensures ProgressOk(tr[i])
  {
    if i > 0 {
      MildOk(tr, i - 1);
      hide NextEvent, ProgressOk;
      assert MildEvent(tr[i - 1], tr[i]);
      var e :| NextEvent(tr[i - 1], tr[i], e) && Mild(e);
      MildKeeps(tr[i - 1], tr[i], e);
    }
  }

  /** Whatever is asked for, UNKNOWN included, every step of the row is a valid
      transition and progress never decreases. */
  lemma RowStepsAreAlwaysValid(tr: seq<World>, i: nat)
    requires MildHistory(tr) && i + 1 < |tr|
    ensures ValidTransition(tr[i].row.state, tr[i + 1].row.state) && tr[i].row.progress <= tr[i + 1].row.progress
  {
    MildOk(tr, i);
    assert MildEvent(tr[i], tr[i + 1]);
    hide ValidTransition;
    var e :| NextEvent(tr[i], tr[i + 1], e) && Mild(e);
    AnyEventIsValid(tr[i], tr[i + 1], e);
  }

  /** A step lowers the phase if and only if it writes UNKNOWN over a known state:
      no other transition does, for any worker with any copy. */
  lemma PhaseDropsIff(x: World, y: World, e: Event)
    requires NextEvent(x, y, e)
    ensures Phase(y.row.state) < Phase(x.row.state) <==> x.row.state != Unknown && y.row.state == Unknown
  {
    hide NextEvent;
    AnyEventIsValid(x, y, e);
  }

  ghost predicate AnyEvent(x: World, y: World) { exists e :: NextEvent(x, y, e) }

  /** Over every series of events, UNKNOWN included, the phase never goes down if
      and only if UNKNOWN is never written over a known state. */
  lemma {:induction false} PhaseKeptIff(tr: seq<World>)
    requires forall i, j | 0 <= i && j == i + 1 < |tr| :: AnyEvent(tr[i], tr[j])
    ensures (forall i, k | 0 <= i <= k < |tr| :: Phase(tr[i].row.state) <= Phase(tr[k].row.state)) <==>
      (forall i, j | 0 <= i && j == i + 1 < |tr| :: tr[i].row.state == Unknown || tr[j].row.state != Unknown)
  {
    hide Phase, NextEvent;
    forall i, j | 0 <= i && j == i + 1 < |tr|
      ensures Phase(tr[j].row.state) < Phase(tr[i].row.state) <==>
        tr[i].row.state != Unknown && tr[j].row.state == Unknown
    {
      assert AnyEvent(tr[i], tr[j]);
      var e :| NextEvent(tr[i], tr[j], e);
      PhaseDropsIff(tr[i], tr[j], e);
    }
    if forall i, j | 0 <= i && j == i + 1 < |tr| :: tr[i].row.state == Unknown || tr[j].row.state != Unknown {
      forall i, k | 0 <= i <= k < |tr|
        ensures Phase(tr[i].row.state) <= Phase(tr[k].row.state)
      {
        PhaseClimbs(tr, i, k);
      }
    }
  }

  lemma {:induction false} PhaseClimbs(tr: seq<World>, i: nat, k: nat)
    requires i <= k < |tr|
    requires forall m, j | 0 <= m && j == m + 1 < |tr| :: Phase(tr[m].row.state) <= Phase(tr[j].row.state)
    ensures Phase(tr[i].row.state) <= Phase(tr[k].row.state)
    decreases k - i
  {
    hide Phase;
    if i < k {
      PhaseClimbs(tr, i, k - 1);
      var m := k - 1;
      assert Phase(tr[m].row.state) <= Phase(tr[k].row.state);
    }
  }

  /** Without the restriction the order is lost: UNKNOWN is accepted from
      everywhere and leads everywhere. */
  lemma UnknownResetsTheRow(row: Row, to: State)
    ensures LockedState(LockedState(row, Unknown), to).state == to
  {
  }

  // ---- the first final code wins --------------------------------------------------------------

  /** The calls the workers make on a status. `Reopen` is the state(COMPLETED)
      of a failed cancellation, made only after CANCELLING was reached. */
  datatype Call =
    | Start | Stop | StartCancelling | Reopen
    | Checkpoint | Fail(code: int) | Success | Cancel | Progress(p: nat)

  function OutcomeOf(call: Call, row: Row, c: Cache): Outcome {
    match call
    case Start => StateOp(row, c, Running)
    case Stop => StateOp(row, c, Stopping)
    case StartCancelling => StateOp(row, c, Cancelling)
    case Reopen => StateOp(row, c, Completed)
    case Checkpoint => CheckpointOp(row, c)
    case Fail(code) => EndOp(row, c, code, Completed)
    case Success => EndOp(row, c, 0, Completed)
    case Cancel => CancelOp(row, c)
    case Progress(p) => ProgressOp(row, c, p)
  }

  function Apply(call: Call, row: Row, c: Cache): Row { OutcomeOf(call, row, c).row }

  /** The state changes among the calls, through a copy just fetched. */
  lemma CallsMove(row: Row, c: Cache)
    requires !c.loaded && c.state == Unknown && c.shouldLoad
    ensures row.state == Pending ==> Apply(Start, row, c) == row.(state := Running)
    ensures row.state == Running ==> Apply(Stop, row, c) == row.(state := Stopping)
    ensures row.state == Stopped || row.state == Completed ==> Apply(StartCancelling, row, c) == row.(state := Cancelling)
    ensures row.state == Cancelling ==> Apply(Reopen, row, c) == row.(state := Completed)
    ensures row.state == Cancelled ==> forall call: Call | call.Start? || call.Stop? || call.StartCancelling? || call.Reopen? ::
      Apply(call, row, c) == row
  {
  }

  datatype Life = Life(row: Row, cancelling: bool)

  predicate Allowed(x: Life, call: Call) {
    match call
    case Reopen => x.cancelling
    case Fail(code) => code != -1
    case _ => true
  }

  /** One call, made through a copy in any state whatsoever. */
  ghost predicate NextAny(x: Life, y: Life, call: Call, c: Cache) {
    && Allowed(x, call)
    && y.row == Apply(call, x.row, c)
    && y.cancelling == (x.cancelling || (call == StartCancelling && y.row.state == Cancelling))
  }

  /** A report of 100 or more is harmless when the copy, or the row behind it,
      is there already: then nothing is written. */
  predicate Harmless(row: Row, call: Call, c: Cache) {
    call.Progress? ==> call.p < 100 || call.p <= Loaded(c, row).progress || call.p <= row.progress
  }

  ghost predicate NextCall(x: Life, y: Life, call: Call, c: Cache) {
    NextAny(x, y, call, c) && Harmless(x.row, call, c)
  }

  ghost predicate Lifetime(tr: seq<Life>) {
    && tr != [] && tr[0] == NewStatus
    && forall i, j | 0 <= i && j == i + 1 < |tr| :: exists call, c :: NextCall(tr[i], tr[j], call, c)
  }

  const NewStatus := Life(Row(Pending, 0, -1), false)

  predicate Final(s: State) { s in {Stopped, Completed, Cancelling, Cancelled} }

  /** Progress 100 exactly in the final states, which carry a code. */
  predicate FinalOk(x: Life) {
    && x.row.state != Unknown && x.row.progress <= 100
    && (x.row.progress == 100 <==> Final(x.row.state))
    && (Final(x.row.state) ==> x.row.code != -1)
    && (x.row.state == Stopped ==> x.row.code == GONE)
    && (x.row.progress < 100 ==> x.row.code == -1)
    && (x.cancelling ==> Phase(x.row.state) >= Phase(Cancelling))
  }

  /** Every call keeps this, except exactly the reports that are not harmless. */
  lemma KeptIffHarmless(x: Life, y: Life, call: Call, c: Cache)
    requires FinalOk(x) && NextAny(x, y, call, c)
    ensures FinalOk(y) <==> Harmless(x.row, call, c)
    ensures FinalOk(y) && x.row.progress == 100 ==> y.row.code == x.row.code && y.row.progress == 100
  {
    if call.Progress? {
      assert y.row == ProgressOp(x.row, c, call.p).row;
    } else {
      hide Harmless, FinalOk, NextAny, Apply;
      OperationKeeps(x, y, call, c);
      OnlyReportsHarm(x.row, call, c);
    }
  }

  lemma OnlyReportsHarm(row: Row, call: Call, c: Cache)
    ensures !call.Progress? ==> Harmless(row, call, c)
  {
  }

  lemma OperationKeeps(x: Life, y: Life, call: Call, c: Cache)
    requires FinalOk(x) && NextAny(x, y, call, c) && !call.Progress?
    ensures FinalOk(y)
    ensures x.row.progress == 100 ==> y.row.code == x.row.code && y.row.progress == 100
  {
    match call
    case Fail(code) =>
    case Success =>
    case Cancel =>
    case Checkpoint => SyncShowsRow(c, x.row);
    case _ =>
  }

  lemma CallKeeps(x: Life, y: Life, call: Call, c: Cache)
    requires FinalOk(x) && NextCall(x, y, call, c)
    ensures FinalOk(y)
    ensures x.row.progress == 100 ==> y.row.code == x.row.code && y.row.progress == 100
  {
    hide FinalOk, NextAny, Harmless;
    KeptIffHarmless(x, y, call, c);
  }

  /** Nothing leaves CANCELLED, and only cancel() enters it. */
  lemma CancelledIsForever(x: Life, y: Life, call: Call, c: Cache)
    requires FinalOk(x) && NextCall(x, y, call, c)
    ensures x.row.state == Cancelled ==> y.row.state == Cancelled
    ensures y.row.state == Cancelled ==> x.row.state == Cancelled || call == Cancel
  {
  }

  /** A code 0 is written by success() alone, unless somebody fails with code 0
      or cancels through a loaded copy that carries a 0. */
  lemma OnlySuccessWritesZero(x: Life, y: Life, call: Call, c: Cache)
    requires FinalOk(x) && NextCall(x, y, call, c)
    ensures y.row.code == 0 ==>
      x.row.code == 0 || call == Success || call == Fail(0) || (call == Cancel && c.loaded && c.code == 0)
  {
  }

  /** A copy that lags behind: it claims no more than the row. */
  predicate Lags(c: Cache, row: Row) { Loaded(c, row).progress <= row.progress }

  /** Copies only ever lag behind: after a call neither the copy it went through
      nor any other copy is ahead of the row. */
  lemma CopiesLagBehind(x: Life, y: Life, call: Call, c: Cache, other: Cache)
    requires FinalOk(x) && NextCall(x, y, call, c) && Lags(c, x.row) && Lags(other, x.row)
    ensures Lags(OutcomeOf(call, x.row, c).cache, y.row) && Lags(other, y.row)
  {
    SyncShowsRow(c, x.row);
    SyncShowsRow(Loaded(c, x.row), x.row);
  }

  lemma {:induction false} LifetimeOk(tr: seq<Life>, i: nat)
    requires Lifetime(tr) && i < |tr|
    ensures FinalOk(tr[i])
  {
    if i > 0 {
      LifetimeOk(tr, i - 1);
      var call, c :| NextCall(tr[i - 1], tr[i], call, c);
      CallKeeps(tr[i - 1], tr[i], call, c);
    }
  }

  lemma CodeStays(tr: seq<Life>, k: nat)
    requires Lifetime(tr) && 0 < k < |tr| && tr[k - 1].row.progress == 100
    ensures tr[k].row.progress == 100 && tr[k].row.code == tr[k - 1].row.code
  {
    hide NextCall, FinalOk;
    LifetimeOk(tr, k - 1);
    var call, c :| NextCall(tr[k - 1], tr[k], call, c);
    CallKeeps(tr[k - 1], tr[k], call, c);
  }

  /** In every run, the row has progress 100 exactly in a final state, its code
      is then set, and no later call changes it. */
  lemma {:induction false} FirstFinalCodeWins(tr: seq<Life>, i: nat, k: nat)
    requires Lifetime(tr) && i <= k < |tr|
    ensures tr[i].row.progress == 100 <==> Final(tr[i].row.state)
    ensures tr[i].row.progress == 100 ==>
      tr[i].row.code != -1 && tr[k].row.progress == 100 && tr[k].row.code == tr[i].row.code
    decreases k - i
  {
    LifetimeOk(tr, i);
    if i < k && tr[i].row.progress == 100 {
      FirstFinalCodeWins(tr, i, k - 1);
      CodeStays(tr, k);
    }
  }

  // ---- reports of 100 ---------------------------------------------------------------------------

  ghost predicate AnyStep(x: Life, y: Life) { exists call, c :: NextAny(x, y, call, c) }

  /** A run in which handlers may report whatever they like. */
  ghost predicate AnyLifetime(tr: seq<Life>) {
    && tr != [] && tr[0] == NewStatus
    && forall i, j | 0 <= i && j == i + 1 < |tr| :: AnyStep(tr[i], tr[j])
  }

  /** A report that claims the work is done although nothing has ended it. */
  ghost predicate EndsByReport(x: Life, y: Life) {
    exists call, c :: NextAny(x, y, call, c) && !Harmless(x.row, call, c)
  }

  lemma StepKeptIff(tr: seq<Life>, i: nat)
    requires AnyLifetime(tr) && i + 1 < |tr| && FinalOk(tr[i])
    ensures FinalOk(tr[i + 1]) <==> !EndsByReport(tr[i], tr[i + 1])
  {
    hide FinalOk, NextAny, Harmless;
    var x, y := tr[i], tr[i + 1];
    assert AnyStep(x, y);
    if EndsByReport(x, y) {
      var call, c :| NextAny(x, y, call, c) && !Harmless(x.row, call, c);
      KeptIffHarmless(x, y, call, c);
    } else {
      var call, c :| NextAny(x, y, call, c);
      KeptIffHarmless(x, y, call, c);
    }
  }

  lemma {:induction false} KeptSoFar(tr: seq<Life>, i: nat)
    requires AnyLifetime(tr) && i < |tr|
    requires forall k, j | 0 <= k && j == k + 1 < |tr| :: !EndsByReport(tr[k], tr[j])
    ensures FinalOk(tr[i])
  {
    if i > 0 {
      KeptSoFar(tr, i - 1);
      hide FinalOk, EndsByReport;
      StepKeptIff(tr, i - 1);
    }
  }

  /** Over every run, with any reports: progress 100 marks the final states, and
      these carry a code, throughout the run if and only if no report of 100 or
      more is the first to write it. */
  lemma {:induction false} FinalOkIffNoEndingReport(tr: seq<Life>)
    requires AnyLifetime(tr)
    ensures (forall i | 0 <= i < |tr| :: FinalOk(tr[i])) <==>
      (forall i, j | 0 <= i && j == i + 1 < |tr| :: !EndsByReport(tr[i], tr[j]))
  {
    hide FinalOk, EndsByReport, AnyLifetime;
    if forall i | 0 <= i < |tr| :: FinalOk(tr[i]) {
      forall i, j | 0 <= i && j == i + 1 < |tr|
        ensures !EndsByReport(tr[i], tr[j])
      {
        StepKeptIff(tr, i);
      }
    }
    if forall i, j | 0 <= i && j == i + 1 < |tr| :: !EndsByReport(tr[i], tr[j]) {
      forall i | 0 <= i < |tr|
        ensures FinalOk(tr[i])
      {
        KeptSoFar(tr, i);
      }
    }
  }

  /** A run of a new status in which the handler reports 100 and then fails: the
      row is COMPLETED and its code stays -1. */
  lemma ReportingHundredLosesTheCode() returns (tr: seq<Life>)
    ensures AnyLifetime(tr) && tr[|tr| - 1] == Life(Row(Completed, 100, -1), false)
  {
    var c := Cache(Unknown, 0, -1, false, true);
    var x1 := Life(Row(Running, 0, -1), false);
    var x2 := Life(Row(Running, 100, -1), false);
    var x3 := Life(Row(Completed, 100, -1), false);
    tr := [NewStatus, x1, x2, x3];
    assert NextAny(NewStatus, x1, Start, c);
    assert NextAny(x1, x2, Progress(100), c);
    assert NextAny(x2, x3, Fail(500), c);
    assert AnyStep(NewStatus, x1) && AnyStep(x1, x2) && AnyStep(x2, x3);
  }
}
