/** run_job (gearbox/worker/Worker.cc:109-378): one call of a handler, whatever
    it returns or throws, and the afterwards queue (lines 481-518), which
    outlives the call. The log records the calls run_job makes to the outside.
    Event handlers and logging do not throw; jobs run from the afterwards queue
    may. */
module WorkerRun {
  import opened StatusRow

  datatype Response = WorkerSuccess | WorkerError | WorkerContinue | WorkerRetry

  /** The exception classes run_job tells apart. */
  datatype Thrown = HttpError(code: int) | JsonError | SqlError | WorkerStop | OtherError

  /** How far the call gets: the envelope cannot be decoded; the status cannot
      be fetched; something throws between starting() and the handler, before
      or after STARTED is fired; the handler (or the checkpoint before it)
      returns or throws. */
  datatype Attempt =
    | NoJob(t: Thrown)
    | NoStatus(t: Thrown)
    | SetupThrows(t: Thrown, started: bool)
    | Returns(r: Response, code: int)
    | Throws(t: Thrown)

  datatype JobEvent = StartedEvent | StoppedEvent | CompletedEvent | SucceededEvent | FailedEvent | CancelledEvent

  datatype Effect =
    | CallsStarting
    | CallsStopping
    | Fires(e: JobEvent)
    | Delays
    | Retries
    | RunsAfterwards(job: string, delay: nat)
    | AfterwardsThrows(job: string, delay: nat)

  datatype Entry = Entry(job: string, delay: nat)

  predicate HasJob(a: Attempt) { !a.NoJob? }

  predicate HasStatus(a: Attempt) { !a.NoJob? && !a.NoStatus? }

  predicate RanJob(a: Attempt) { a.Returns? || a.Throws? }

  predicate Started(a: Attempt) { RanJob(a) || (a.SetupThrows? && a.started) }

  predicate Stops(a: Attempt) { (a.Throws? || a.SetupThrows?) && a.t.WorkerStop? }

  function ThrownCode(t: Thrown): int {
    match t
    case HttpError(code) => code
    case JsonError => 400
    case SqlError => 500
    case WorkerStop => GONE
    case OtherError => 500
  }

  /** content["code"]: a handler that returns WORKER_ERROR counts as a 500. */
  function CodeOf(a: Attempt): int {
    match a
    case Returns(r, code) => if r == WorkerError then 500 else code
    case NoJob(t) => ThrownCode(t)
    case NoStatus(t) => ThrownCode(t)
    case SetupThrows(t, _) => ThrownCode(t)
    case Throws(t) => ThrownCode(t)
  }

  /** The response after the catch blocks: a job that never ran is tried again
      later. */
  function ResponseOf(a: Attempt): Response {
    if HasJob(a) && !RanJob(a) then WorkerContinue
    else
      match a
      case Returns(r, _) => r
      case Throws(WorkerStop) => WorkerError
      case _ => WorkerSuccess
  }

  /** The call is the last one for this status. */
  predicate Ends(a: Attempt) { ResponseOf(a) != WorkerContinue && ResponseOf(a) != WorkerRetry }

  /** The code run_job ends the status with. */
  function EndCode(a: Attempt): int { if CodeOf(a) >= 300 then CodeOf(a) else 0 }

  /** What run_job makes of the row and of the copy `c` in the response: it ends
      the status unless the copy, which may be out of date, shows progress 100.
      `ok` is false when ending it throws. */
  function Ended(a: Attempt, row: Row, c: Cache): Outcome {
    if !HasStatus(a) || !Ends(a) then Outcome(row, c, false)
    else
      var c1 := Loaded(c, row);
      if c1.progress == 100 then Outcome(row, c1, true) else EndOp(row, c1, EndCode(a), Completed)
  }

  /** The events fired at the end, by what the copy shows. */
  function FinalEvents(o: Outcome): seq<Effect> {
    if !o.ok then []
    else if o.cache.state == Completed || o.cache.state == Stopped then
      [Fires(CompletedEvent), Fires(if o.cache.code == 0 then SucceededEvent else FailedEvent)]
    else if o.cache.state == Cancelled then [Fires(CancelledEvent)]
    else []
  }

  function When(b: bool, effects: seq<Effect>): seq<Effect> { if b then effects else [] }

  /** Everything up to the finalisation of the status. */
  function Opening(a: Attempt): seq<Effect> {
    When(HasStatus(a), [CallsStarting]) + When(Started(a), [Fires(StartedEvent)]) +
    When(Stops(a), [Fires(StoppedEvent)]) + When(HasJob(a) && !RanJob(a), [Delays])
  }

  /** The finalisation, stopping() and the retry. */
  function Closing(a: Attempt, row: Row, c: Cache): seq<Effect> {
    FinalEvents(Ended(a, row, c)) +
    When(HasStatus(a), [CallsStopping]) + When(HasJob(a) && ResponseOf(a) == WorkerRetry, [Retries])
  }

  // ---- the afterwards queue ---------------------------------------------------------------

  /** The first position from `from` on whose job throws, or the length. */
  function FirstThrow(n: nat, throws: set<nat>, from: nat): (k: nat)
    requires from <= n
    ensures from <= k <= n && (k < n ==> k in throws) && forall i | from <= i < k :: i !in throws
    decreases n - from
  {
    if from == n || from in throws then from else FirstThrow(n, throws, from + 1)
  }

  function RunsOf(q: seq<Entry>): seq<Effect> {
    seq(|q|, i requires 0 <= i < |q| => RunsAfterwards(q[i].job, q[i].delay))
  }

  /** post_request pops entries and runs them up to the first that throws. */
  function PostLog(q: seq<Entry>, throws: set<nat>): seq<Effect> {
    var k := FirstThrow(|q|, throws, 0);
    RunsOf(q[..k]) + When(k < |q|, if k < |q| then [AfterwardsThrows(q[k].job, q[k].delay)] else [])
  }

  /** The entries popped: those that ran and the one that threw. */
  function Popped(q: seq<Entry>, throws: set<nat>): (r: seq<Entry>)
    ensures |r| <= |q| && r == q[..|r|]
  {
    var k := FirstThrow(|q|, throws, 0);
    if k < |q| then q[..k + 1] else q
  }

  /** What the handler pushed. */
  function Pushed(a: Attempt, after: seq<Entry>): seq<Entry> { if RanJob(a) then after else [] }

  /** The queue post_request finds: leftovers of earlier calls first; a failed
      call clears it all. */
  function Queue(a: Attempt, left: seq<Entry>, after: seq<Entry>): seq<Entry> {
    if CodeOf(a) >= 300 then [] else left + Pushed(a, after)
  }

  /** The entries this call takes from the queue. */
  function Tried(a: Attempt, left: seq<Entry>, after: seq<Entry>, throws: set<nat>): seq<Entry> {
    if HasJob(a) then Popped(Queue(a, left, after), throws) else []
  }

  /** What stays for the next call. */
  function Leftover(a: Attempt, left: seq<Entry>, after: seq<Entry>, throws: set<nat>): seq<Entry> {
    Queue(a, left, after)[|Tried(a, left, after, throws)|..]
  }

  function Afterwards(a: Attempt, left: seq<Entry>, after: seq<Entry>, throws: set<nat>): seq<Effect> {
    if HasJob(a) then PostLog(Queue(a, left, after), throws) else []
  }

  /** What a call depends on: how it goes, the row and the copy at its end, the
      entries left over from earlier calls, the entries its handler pushes, and
      which of the runs from the queue throw. */
  datatype Case = Case(a: Attempt, row: Row, c: Cache, left: seq<Entry>, after: seq<Entry>, throws: set<nat>)

  /** Everything a call does, in order. */
  function Log(k: Case): seq<Effect> {
    Opening(k.a) + Closing(k.a, k.row, k.c) + Afterwards(k.a, k.left, k.after, k.throws)
  }

  class Worker {
    var afterwards: seq<Entry>

    constructor ()
      ensures afterwards == []
    {
      afterwards := [];
    }

    /** A job that throws ends the loop; run_job swallows the exception. */
    method PostRequest(throws: set<nat>) returns (log: seq<Effect>)
      modifies this
      ensures log == PostLog(old(afterwards), throws)
      ensures afterwards == old(afterwards)[|Popped(old(afterwards), throws)|..]
    {
      log := [];
      ghost var all := afterwards;
      var n := 0;
      while afterwards != []
        invariant n <= |all| && afterwards == all[n..] && log == RunsOf(all[..n])
        invariant forall i | 0 <= i < n :: i !in throws
        decreases |afterwards|
      {
        var next := afterwards[0];
        assert next == all[n];
        afterwards := afterwards[1..];
        if n in throws {
          ThrowAt(|all|, throws, n);
          log := log + [AfterwardsThrows(next.job, next.delay)];
          return;
        }
        assert RunsOf(all[..n + 1]) == RunsOf(all[..n]) + [RunsAfterwards(next.job, next.delay)];
        log := log + [RunsAfterwards(next.job, next.delay)];
        n := n + 1;
      }
      ThrowAt(|all|, throws, |all|);
      assert all[..n] == all;
    }

    /** Ends the status if its copy is not at 100, then fires by what it shows. */
    method Finalise(s: Status, code: int) returns (log: seq<Effect>)
      modifies s, s.db
      ensures var c1 := Loaded(old(s.cache), old(s.db.row));
        var o := if c1.progress == 100 then Outcome(old(s.db.row), c1, true)
          else EndOp(old(s.db.row), c1, if code >= 300 then code else 0, Completed);
        log == FinalEvents(o) && s.db.row == o.row && s.cache == o.cache
    {
      if !s.cache.loaded { s.ReallyLoad(); }
      var ok := true;
      if s.cache.progress != 100 {
        ok := s.End(if code >= 300 then code else 0, Completed);
      }
      log := FinalEvents(Outcome(s.db.row, s.cache, ok));
    }

    method RunJob(a: Attempt, s: Status, after: seq<Entry>, throws: set<nat>) returns (log: seq<Effect>)
      modifies this, s, s.db
      ensures var k := Case(a, old(s.db.row), old(s.cache), old(afterwards), after, throws);
        && log == Log(k)
        && afterwards == Leftover(a, old(afterwards), after, throws)
        && s.db.row == Ended(a, k.row, k.c).row && s.cache == Ended(a, k.row, k.c).cache
    {
      log := [];
      var resp := WorkerSuccess;
      if HasStatus(a) { log := log + [CallsStarting]; }
      if Started(a) { log := log + [Fires(StartedEvent)]; }
      if RanJob(a) { afterwards := afterwards + after; }
      match a {
        case Returns(r, _) => resp := r;
        case Throws(WorkerStop) => resp := WorkerError;
        case _ =>
      }
      if Stops(a) { log := log + [Fires(StoppedEvent)]; }
      if !RanJob(a) && HasJob(a) {
        log := log + [Delays];
        resp := WorkerContinue;
      }
      assert log == Opening(a) && resp == ResponseOf(a);
      assert afterwards == old(afterwards) + Pushed(a, after);
      hide EndOp, FinalEvents, Opening, PostLog, Popped, ResponseOf;
      var close := [];
      if HasStatus(a) && resp != WorkerContinue && resp != WorkerRetry {
        close := Finalise(s, CodeOf(a));
      } else {
        NotFinal(a, s.db.row, s.cache);
      }
      assert close == FinalEvents(Ended(a, old(s.db.row), old(s.cache)));
      if HasStatus(a) { close := close + [CallsStopping]; }
      if resp == WorkerRetry && HasJob(a) { close := close + [Retries]; }
      assert close == Closing(a, old(s.db.row), old(s.cache));
      log := log + close;
      if CodeOf(a) >= 300 { afterwards := []; }
      assert afterwards == Queue(a, old(afterwards), after);
      if HasJob(a) {
        var runs := PostRequest(throws);
        log := log + runs;
      }
    }
  }

  lemma NotFinal(a: Attempt, row: Row, c: Cache)
    requires !HasStatus(a) || !Ends(a)
    ensures FinalEvents(Ended(a, row, c)) == [] && Ended(a, row, c) == Outcome(row, c, false)
  {
  }

  lemma {:induction false} ThrowFrom(n: nat, throws: set<nat>, from: nat, k: nat)
    requires from <= k <= n && (k < n ==> k in throws) && forall i | from <= i < k :: i !in throws
    ensures FirstThrow(n, throws, from) == k
    decreases k - from
  {
    if from < k { ThrowFrom(n, throws, from + 1, k); }
  }

  lemma ThrowAt(n: nat, throws: set<nat>, k: nat)
    requires k <= n && (k < n ==> k in throws) && forall i | 0 <= i < k :: i !in throws
    ensures FirstThrow(n, throws, 0) == k
  {
    ThrowFrom(n, throws, 0, k);
  }

  // ---- what stays in the queue --------------------------------------------------------------

  /** The queue is empty after a call exactly when the call failed, there was
      nothing to run, or no entry but the last one threw. */
  lemma QueueEmptyIff(a: Attempt, left: seq<Entry>, after: seq<Entry>, throws: set<nat>)
    ensures Leftover(a, left, after, throws) == [] <==>
      || CodeOf(a) >= 300
      || left + Pushed(a, after) == []
      || (HasJob(a) && forall i | 0 <= i < |left + Pushed(a, after)| - 1 :: i !in throws)
  {
    hide CodeOf, Pushed;
    var q := Queue(a, left, after);
    var k := FirstThrow(|q|, throws, 0);
    if HasJob(a) && k < |q| - 1 {
      assert k in throws;
    }
  }

  /** One call of a worker, as far as the queue is concerned. */
  datatype Turn = Turn(a: Attempt, after: seq<Entry>, throws: set<nat>)

  function NextQueue(q: seq<Entry>, t: Turn): seq<Entry> { Leftover(t.a, q, t.after, t.throws) }

  function Takes(q: seq<Entry>, t: Turn): seq<Entry> { Tried(t.a, q, t.after, t.throws) }

  function QueueAfter(q: seq<Entry>, ts: seq<Turn>): seq<Entry>
    decreases ts
  {
    if ts == [] then q else QueueAfter(NextQueue(q, ts[0]), ts[1..])
  }

  function TriedBy(q: seq<Entry>, ts: seq<Turn>): seq<Entry>
    decreases ts
  {
    if ts == [] then [] else Takes(q, ts[0]) + TriedBy(NextQueue(q, ts[0]), ts[1..])
  }

  function PushedBy(ts: seq<Turn>): seq<Entry>
    decreases ts
  {
    if ts == [] then [] else Pushed(ts[0].a, ts[0].after) + PushedBy(ts[1..])
  }

  /** No failed call finds anything in the queue, its own entries included. */
  predicate NothingDropped(q: seq<Entry>, ts: seq<Turn>)
    decreases ts
  {
    ts != [] ==>
      && (CodeOf(ts[0].a) >= 300 ==> q + Pushed(ts[0].a, ts[0].after) == [])
      && NothingDropped(NextQueue(q, ts[0]), ts[1..])
  }

  lemma TurnSplits(q: seq<Entry>, t: Turn)
    ensures CodeOf(t.a) < 300 ==> Takes(q, t) + NextQueue(q, t) == q + Pushed(t.a, t.after)
    ensures CodeOf(t.a) >= 300 ==> Takes(q, t) == [] && NextQueue(q, t) == []
  {
    hide CodeOf, Pushed, FirstThrow;
  }

  lemma {:induction false} TriedAtMostOnce(q: seq<Entry>, ts: seq<Turn>)
    ensures |TriedBy(q, ts)| + |QueueAfter(q, ts)| <= |q| + |PushedBy(ts)|
    ensures |TriedBy(q, ts)| + |QueueAfter(q, ts)| == |q| + |PushedBy(ts)| ==> NothingDropped(q, ts)
    decreases ts
  {
    if ts != [] {
      hide Takes, NextQueue, Pushed, CodeOf;
      TurnSplits(q, ts[0]);
      TriedAtMostOnce(NextQueue(q, ts[0]), ts[1..]);
      if CodeOf(ts[0].a) < 300 {
        assert |Takes(q, ts[0]) + NextQueue(q, ts[0])| == |q + Pushed(ts[0].a, ts[0].after)|;
      }
    }
  }

  lemma {:induction false} InOrder(q: seq<Entry>, ts: seq<Turn>)
    requires NothingDropped(q, ts)
    ensures TriedBy(q, ts) + QueueAfter(q, ts) == q + PushedBy(ts)
    decreases ts
  {
    if ts != [] {
      var t := ts[0];
      var n := NextQueue(q, t);
      TurnSplits(q, t);
      InOrder(n, ts[1..]);
      hide Takes, NextQueue, Pushed, CodeOf, NothingDropped;
      Regroup(Takes(q, t), n, q, Pushed(t.a, t.after), TriedBy(n, ts[1..]), QueueAfter(n, ts[1..]), PushedBy(ts[1..]));
    }
  }

  lemma Regroup(
    t: seq<Entry>, n: seq<Entry>, q: seq<Entry>, p: seq<Entry>, u: seq<Entry>, v: seq<Entry>, r: seq<Entry>)
    requires t + n == q + p && u + v == n + r
    ensures (t + u) + v == q + (p + r)
  {
    assert (t + u) + v == t + (u + v);
    assert t + (n + r) == (t + n) + r;
    assert (q + p) + r == q + (p + r);
  }

  /** Over any series of calls of one worker: every entry pushed is tried once,
      in the order of pushing, or still queued, if and only if no failed call
      finds anything in the queue. */
  lemma QueueIsConserved(q: seq<Entry>, ts: seq<Turn>)
    ensures TriedBy(q, ts) + QueueAfter(q, ts) == q + PushedBy(ts) <==> NothingDropped(q, ts)
  {
    hide TriedBy, QueueAfter, PushedBy, NothingDropped;
    if NothingDropped(q, ts) {
      InOrder(q, ts);
    } else if TriedBy(q, ts) + QueueAfter(q, ts) == q + PushedBy(ts) {
      assert |TriedBy(q, ts) + QueueAfter(q, ts)| == |q + PushedBy(ts)|;
      TriedAtMostOnce(q, ts);
    }
  }

  /** An entry accepted by a successful call can be lost: its neighbour throws,
      and the next call fails. */
  lemma LeftoverIsDropped(x: Entry, y: Entry)
    ensures var ts := [Turn(Returns(WorkerSuccess, 200), [x, y], {0}), Turn(Throws(OtherError), [], {})];
      TriedBy([], ts) == [x] && QueueAfter([], ts) == []
  {
    var one, two := Turn(Returns(WorkerSuccess, 200), [x, y], {0}), Turn(Throws(OtherError), [], {});
    assert Queue(one.a, [], one.after) == [x, y];
    assert FirstThrow(2, {0}, 0) == 0;
    assert Popped([x, y], {0}) == [x];
    assert NextQueue([], one) == [y] && Takes([], one) == [x];
    TurnSplits([y], two);
    TwoTurns([], one, two);
  }

  lemma TwoTurns(q: seq<Entry>, one: Turn, two: Turn)
    ensures TriedBy(q, [one, two]) == Takes(q, one) + Takes(NextQueue(q, one), two)
    ensures QueueAfter(q, [one, two]) == NextQueue(NextQueue(q, one), two)
  {
    hide Takes, NextQueue;
    var n := NextQueue(q, one);
    assert [one, two][1..] == [two] && [two][1..] == [];
    assert TriedBy(n, [two]) == Takes(n, two) + TriedBy(NextQueue(n, two), []);
    assert QueueAfter(n, [two]) == QueueAfter(NextQueue(n, two), []);
  }

  // ---- what the log of a call says ------------------------------------------------------

  function Count(log: seq<Effect>, e: Effect): nat {
    if log == [] then 0 else (if log[0] == e then 1 else 0) + Count(log[1..], e)
  }

  lemma {:induction false} CountAppend(log: seq<Effect>, more: seq<Effect>, e: Effect)
    ensures Count(log + more, e) == Count(log, e) + Count(more, e)
  {
    if log == [] {
      assert log + more == more;
    } else {
      assert (log + more)[1..] == log[1..] + more;
      CountAppend(log[1..], more, e);
    }
  }

  lemma {:induction false} CountNone(log: seq<Effect>, e: Effect)
    requires e !in log
    ensures Count(log, e) == 0
  {
    if log != [] { CountNone(log[1..], e); }
  }

  lemma CountOne(x: Effect, e: Effect)
    ensures Count([x], e) == if x == e then 1 else 0
  {
    assert [x][1..] == [];
  }

  lemma CountWhen(b: bool, x: Effect, e: Effect)
    ensures Count(When(b, [x]), e) == if b && x == e then 1 else 0
  {
    CountOne(x, e);
  }

  lemma CountOpening(a: Attempt, e: Effect)
    ensures Count(Opening(a), e) ==
      Count(When(HasStatus(a), [CallsStarting]), e) + Count(When(Started(a), [Fires(StartedEvent)]), e) +
      Count(When(Stops(a), [Fires(StoppedEvent)]), e) + Count(When(HasJob(a) && !RanJob(a), [Delays]), e)
  {
    var p, q := When(HasStatus(a), [CallsStarting]), When(Started(a), [Fires(StartedEvent)]);
    var r, t := When(Stops(a), [Fires(StoppedEvent)]), When(HasJob(a) && !RanJob(a), [Delays]);
    CountAppend(p, q, e);
    CountAppend(p + q, r, e);
    CountAppend(p + q + r, t, e);
  }

  lemma CountClosing(a: Attempt, row: Row, c: Cache, e: Effect)
    ensures Count(Closing(a, row, c), e) ==
      Count(FinalEvents(Ended(a, row, c)), e) + Count(When(HasStatus(a), [CallsStopping]), e) +
      Count(When(HasJob(a) && ResponseOf(a) == WorkerRetry, [Retries]), e)
  {
    var p, q := FinalEvents(Ended(a, row, c)), When(HasStatus(a), [CallsStopping]);
    CountAppend(p, q, e);
    CountAppend(p + q, When(HasJob(a) && ResponseOf(a) == WorkerRetry, [Retries]), e);
  }

  predicate FromQueue(e: Effect) { e.RunsAfterwards? || e.AfterwardsThrows? }

  /** Only the last part of a log comes from the queue. */
  lemma OnlyQueueAtTheEnd(k: Case)
    ensures forall x <- Opening(k.a) + Closing(k.a, k.row, k.c) :: !FromQueue(x)
    ensures forall x <- Afterwards(k.a, k.left, k.after, k.throws) :: FromQueue(x)
  {
    hide Ended, Opening, Closing, Queue;
    InOpening(k.a);
    InClosing(k.a, k.row, k.c);
  }

  lemma CountLog(k: Case, e: Effect)
    requires !FromQueue(e)
    ensures Count(Log(k), e) == Count(Opening(k.a), e) + Count(Closing(k.a, k.row, k.c), e)
  {
    hide Opening, Closing, Afterwards, Count;
    var tail := Afterwards(k.a, k.left, k.after, k.throws);
    CountAppend(Opening(k.a), Closing(k.a, k.row, k.c), e);
    CountAppend(Opening(k.a) + Closing(k.a, k.row, k.c), tail, e);
    OnlyQueueAtTheEnd(k);
    CountNone(tail, e);
  }

  lemma CountFinal(o: Outcome, e: Effect)
    ensures e == Fires(CompletedEvent) ==>
      Count(FinalEvents(o), e) == if o.ok && (o.cache.state == Completed || o.cache.state == Stopped) then 1 else 0
    ensures e == CallsStarting || e == CallsStopping ==> Count(FinalEvents(o), e) == 0
  {
    var f := FinalEvents(o);
    if |f| == 2 {
      assert f[1..] == [f[1]];
      CountOne(f[1], e);
    } else if |f| == 1 {
      CountOne(f[0], e);
    }
  }

  /** A call starts and stops its status once each, starting first, or not at
      all. */
  lemma EveryStartStops(k: Case)
    ensures Count(Log(k), CallsStarting) == Count(Log(k), CallsStopping)
    ensures Count(Log(k), CallsStarting) == if HasStatus(k.a) then 1 else 0
    ensures HasStatus(k.a) ==> Log(k)[0] == CallsStarting
  {
    Tally(k, CallsStarting);
    Tally(k, CallsStopping);
  }

  /** The whole log, for the effects that matter most. */
  lemma Tally(k: Case, e: Effect)
    ensures e == CallsStarting || e == CallsStopping ==> Count(Log(k), e) == if HasStatus(k.a) then 1 else 0
    ensures e == Fires(CompletedEvent) ==>
      var o := Ended(k.a, k.row, k.c);
      Count(Log(k), e) == if o.ok && (o.cache.state == Completed || o.cache.state == Stopped) then 1 else 0
  {
    if !FromQueue(e) {
      hide Ended, FinalEvents, Opening, Closing, Log, When, Count, HasStatus, Started, Stops, ResponseOf;
      CountLog(k, e);
      CountOpening(k.a, e);
      CountClosing(k.a, k.row, k.c, e);
      CountFinal(Ended(k.a, k.row, k.c), e);
      CountWhen(HasStatus(k.a), CallsStarting, e);
      CountWhen(Started(k.a), Fires(StartedEvent), e);
      CountWhen(Stops(k.a), Fires(StoppedEvent), e);
      CountWhen(HasJob(k.a) && !RanJob(k.a), Delays, e);
      CountWhen(HasStatus(k.a), CallsStopping, e);
      CountWhen(HasJob(k.a) && ResponseOf(k.a) == WorkerRetry, Retries, e);
    }
  }

  /** Whatever the copy in the response shows, COMPLETED fires once or not at
      all, and exactly when the call is the last one and either the copy is at
      100 and shows COMPLETED or STOPPED, or it is not and the row can still go
      to COMPLETED. */
  lemma CompletedFiresIff(k: Case)
    ensures Count(Log(k), Fires(CompletedEvent)) <= 1
    ensures Count(Log(k), Fires(CompletedEvent)) == 1 <==>
      && HasStatus(k.a) && Ends(k.a)
      && var c := Loaded(k.c, k.row);
         if c.progress == 100 then c.state == Completed || c.state == Stopped
         else ValidTransition(k.row.state, Completed)
  {
    Tally(k, Fires(CompletedEvent));
    hide Log, HasStatus, Ends, EndCode;
    SyncShowsRow(Loaded(k.c, k.row), k.row);
  }

  /** The last call leaves the status final, with the code of the call if
      nobody ended it before: what a continuation on COMPLETED may rely on. */
  lemma LastCallEndsStatus(k: Case)
    requires FinalOk(Life(k.row, false)) && Lags(k.c, k.row) && HasStatus(k.a) && Ends(k.a)
    ensures var r := Ended(k.a, k.row, k.c).row;
      && FinalOk(Life(r, false)) && r.progress == 100
      && (k.row.progress < 100 ==> r.state == Completed && r.code == EndCode(k.a))
      && (k.row.progress == 100 ==> r.code == k.row.code)
  {
    hide EndCode, HasStatus, Ends;
    EndCodeIsSet(k.a);
    SyncShowsRow(Loaded(k.c, k.row), k.row);
  }

  lemma EndCodeIsSet(a: Attempt)
    ensures EndCode(a) != -1
  {
    hide CodeOf;
  }

  /** A stale copy loses the event: with the status ended behind its back,
      COMPLETED is not fired exactly when it was ended by STOPPED or CANCELLED. */
  lemma StaleCopyLosesCompleted(k: Case)
    requires FinalOk(Life(k.row, false)) && HasStatus(k.a) && Ends(k.a) && Loaded(k.c, k.row).progress < 100
    ensures Fires(CompletedEvent) !in Log(k) <==> k.row.state == Stopped || k.row.state == Cancelled
  {
    hide Log, HasStatus, Ends, Count;
    CompletedFiresIff(k);
    InLogIffCounted(Log(k), Fires(CompletedEvent));
  }

  lemma {:induction false} InLogIffCounted(log: seq<Effect>, e: Effect)
    ensures e in log <==> Count(log, e) > 0
  {
    if log != [] {
      InLogIffCounted(log[1..], e);
      assert log == [log[0]] + log[1..];
    }
  }

  /** The last call of a status that nobody has ended yet tells its outcome:
      COMPLETED, with SUCCEEDED exactly when the code is below 300 and FAILED
      exactly when it is not. */
  lemma EventsTellTheOutcome(k: Case)
    requires FinalOk(Life(k.row, false)) && Lags(k.c, k.row) && k.row.progress < 100
    requires HasStatus(k.a) && Ends(k.a)
    ensures Fires(CompletedEvent) in Log(k)
    ensures Fires(SucceededEvent) in Log(k) <==> CodeOf(k.a) < 300
    ensures Fires(FailedEvent) in Log(k) <==> CodeOf(k.a) >= 300
  {
    EndedCopy(k);
    hide Ended, CodeOf, Ends, HasStatus, Log;
    EventInLog(k, Fires(CompletedEvent));
    EventInLog(k, Fires(SucceededEvent));
    EventInLog(k, Fires(FailedEvent));
    var last := FinalEvents(Ended(k.a, k.row, k.c));
    assert last[0] == Fires(CompletedEvent);
    assert last[1] == Fires(if CodeOf(k.a) < 300 then SucceededEvent else FailedEvent);
  }

  /** The closing events come from nowhere else. */
  lemma EventInLog(k: Case, e: Effect)
    requires e.Fires? && e != Fires(StartedEvent) && e != Fires(StoppedEvent)
    ensures e in Log(k) <==> e in FinalEvents(Ended(k.a, k.row, k.c))
  {
    hide Ended, FinalEvents, Opening, Closing, Afterwards;
    InOpening(k.a);
    InClosing(k.a, k.row, k.c);
    OnlyQueueAtTheEnd(k);
  }

  lemma EndedCopy(k: Case)
    requires FinalOk(Life(k.row, false)) && Lags(k.c, k.row) && k.row.progress < 100
    requires HasStatus(k.a) && Ends(k.a)
    ensures var o := Ended(k.a, k.row, k.c);
      o.ok && o.cache.state == Completed && (o.cache.code == 0 <==> CodeOf(k.a) < 300)
  {
    hide CodeOf, HasStatus, Ends;
    SyncShowsRow(Loaded(k.c, k.row), k.row);
  }

  /** An error of the server's own: codes below 300 are not errors. */
  predicate IsFailure(t: Thrown) { t.HttpError? ==> t.code >= 300 }

  /** Whatever a handler throws, on a status nobody has ended, the status is
      COMPLETED with the code of that error, FAILED is fired, SUCCEEDED is not,
      and nothing is run from the afterwards queue. */
  lemma ThrowingCallFails(k: Case, t: Thrown)
    requires FinalOk(Life(k.row, false)) && Lags(k.c, k.row) && k.row.progress < 100
    requires k.a == Throws(t) && IsFailure(t)
    ensures Fires(CompletedEvent) in Log(k) && Fires(FailedEvent) in Log(k) && Fires(SucceededEvent) !in Log(k)
    ensures forall e <- Log(k) :: !e.RunsAfterwards? && !e.AfterwardsThrows?
    ensures var r := Ended(k.a, k.row, k.c).row;
      && r.state == Completed && r.progress == 100
      && (t == JsonError ==> r.code == 400)
      && (t == SqlError || t == OtherError ==> r.code == 500)
      && (t == WorkerStop ==> r.code == 410)
      && (t.HttpError? ==> r.code == t.code)
  {
    EventsTellTheOutcome(k);
    LastCallEndsStatus(k);
    FailedCallRunsNothing(k);
  }

  lemma FailedCallRunsNothing(k: Case)
    requires CodeOf(k.a) >= 300
    ensures forall e <- Log(k) :: !e.RunsAfterwards? && !e.AfterwardsThrows?
  {
    hide Opening, Closing, CodeOf;
    OnlyQueueAtTheEnd(k);
    assert Afterwards(k.a, k.left, k.after, k.throws) == [];
  }

  /** What a handler returns, on a status nobody has ended: WORKER_ERROR counts as
      500, a code from 300 on as that failure, a code below as success; with
      WORKER_CONTINUE and WORKER_RETRY nothing is ended and nothing told. */
  lemma ReturningCallEnds(k: Case, r: Response, code: int)
    requires FinalOk(Life(k.row, false)) && Lags(k.c, k.row) && k.row.progress < 100 && k.a == Returns(r, code)
    ensures r == WorkerError ==> Ended(k.a, k.row, k.c).row == Row(Completed, 100, 500) && Fires(FailedEvent) in Log(k)
    ensures r == WorkerSuccess && code >= 300 ==>
      Ended(k.a, k.row, k.c).row == Row(Completed, 100, code) && Fires(FailedEvent) in Log(k)
    ensures r == WorkerSuccess && code < 300 ==>
      Ended(k.a, k.row, k.c).row == Row(Completed, 100, 0) && Fires(SucceededEvent) in Log(k)
    ensures r == WorkerContinue || r == WorkerRetry ==>
      && Ended(k.a, k.row, k.c).row == k.row
      && Fires(CompletedEvent) !in Log(k) && Fires(SucceededEvent) !in Log(k) && Fires(FailedEvent) !in Log(k)
  {
    if r == WorkerError || r == WorkerSuccess {
      EventsTellTheOutcome(k);
      LastCallEndsStatus(k);
    } else {
      EventInLog(k, Fires(CompletedEvent));
      EventInLog(k, Fires(SucceededEvent));
      EventInLog(k, Fires(FailedEvent));
    }
  }

  /** CANCELLED is fired exactly by the last call of a status whose copy shows it
      ended as CANCELLED. */
  lemma CancelledFiresIff(k: Case)
    ensures Fires(CancelledEvent) in Log(k) <==>
      && (k.a.Throws? || (k.a.Returns? && k.a.r != WorkerContinue && k.a.r != WorkerRetry))
      && Loaded(k.c, k.row).progress == 100 && Loaded(k.c, k.row).state == Cancelled
  {
    EventInLog(k, Fires(CancelledEvent));
    SyncShowsRow(Loaded(k.c, k.row), k.row);
  }

  /** The other effects of a call, by how it went. */
  lemma OtherEffects(k: Case)
    ensures CallsStarting in Log(k) <==> k.a.SetupThrows? || k.a.Returns? || k.a.Throws?
    ensures Fires(StartedEvent) in Log(k) <==> k.a.Returns? || k.a.Throws? || (k.a.SetupThrows? && k.a.started)
    ensures Fires(StoppedEvent) in Log(k) <==> (k.a.Throws? || k.a.SetupThrows?) && k.a.t == WorkerStop
    ensures Delays in Log(k) <==> k.a.NoStatus? || k.a.SetupThrows?
    ensures Retries in Log(k) <==> k.a.Returns? && k.a.r == WorkerRetry
  {
    OpeningEffects(k.a);
    ClosingEffects(k.a, k.row, k.c);
    OnlyQueueAtTheEnd(k);
    hide Opening, Closing, Afterwards;
  }

  lemma OpeningEffects(a: Attempt)
    ensures CallsStarting in Opening(a) <==> a.SetupThrows? || a.Returns? || a.Throws?
    ensures Fires(StartedEvent) in Opening(a) <==> a.Returns? || a.Throws? || (a.SetupThrows? && a.started)
    ensures Fires(StoppedEvent) in Opening(a) <==> (a.Throws? || a.SetupThrows?) && a.t == WorkerStop
    ensures Delays in Opening(a) <==> a.NoStatus? || a.SetupThrows?
    ensures Retries !in Opening(a)
  {
  }

  lemma ClosingEffects(a: Attempt, row: Row, c: Cache)
    ensures var last := Closing(a, row, c);
      && CallsStarting !in last && Fires(StartedEvent) !in last && Fires(StoppedEvent) !in last && Delays !in last
      && (Retries in last <==> a.Returns? && a.r == WorkerRetry)
  {
    hide Ended;
  }

  /** A call that throws anything, at any point, leaves an empty queue. */
  lemma ThrowingCallClears(a: Attempt, left: seq<Entry>, after: seq<Entry>, throws: set<nat>)
    requires !a.Returns? && IsFailure(a.t)
    ensures Leftover(a, left, after, throws) == []
  {
  }

  lemma InOpening(a: Attempt)
    ensures forall x <- Opening(a) :: x in {CallsStarting, Fires(StartedEvent), Fires(StoppedEvent), Delays}
  {
  }

  lemma InClosing(a: Attempt, row: Row, c: Cache)
    ensures var last := FinalEvents(Ended(a, row, c));
      && (forall x <- last :: x in Closing(a, row, c) && x.Fires? && x != Fires(StartedEvent) && x != Fires(StoppedEvent))
      && forall x <- Closing(a, row, c) :: x in last || x == CallsStopping || x == Retries
  {
    hide Ended, ResponseOf;
  }

  /** An entry runs in a call exactly when it is in the queue of a call that did
      not fail, left over or pushed, and nothing at or before it throws. */
  lemma AfterwardsOnlyOnSuccess(k: Case, e: Entry)
    ensures RunsAfterwards(e.job, e.delay) in Log(k) <==>
      && HasJob(k.a) && CodeOf(k.a) < 300
      && exists i :: 0 <= i < |k.left + Pushed(k.a, k.after)| && (k.left + Pushed(k.a, k.after))[i] == e
           && forall j | 0 <= j <= i :: j !in k.throws
  {
    hide Opening, Closing, CodeOf, Pushed;
    OnlyQueueAtTheEnd(k);
    var q := Queue(k.a, k.left, k.after);
    var n := FirstThrow(|q|, k.throws, 0);
    RunsMembers(q[..n], e);
    if HasJob(k.a) && CodeOf(k.a) < 300 {
      if e in q[..n] {
        var i :| 0 <= i < n && q[i] == e;
        assert forall j | 0 <= j <= i :: j !in k.throws;
      }
      if i :| 0 <= i < |q| && q[i] == e && forall j | 0 <= j <= i :: j !in k.throws {
        assert i < n;
        assert q[..n][i] == e;
      }
    }
  }

  lemma RunsMembers(q: seq<Entry>, e: Entry)
    ensures RunsAfterwards(e.job, e.delay) in RunsOf(q) <==> e in q
  {
    if e in q {
      var i :| 0 <= i < |q| && q[i] == e;
      assert RunsOf(q)[i] == RunsAfterwards(e.job, e.delay);
    }
    if RunsAfterwards(e.job, e.delay) in RunsOf(q) {
      var i :| 0 <= i < |q| && RunsOf(q)[i] == RunsAfterwards(e.job, e.delay);
      assert q[i] == e;
    }
  }

  // ---- many calls on one row ----------------------------------------------------------------

  /** A call of run_job that has made the first `at` effects of its log. */
  datatype Ongoing = Ongoing(log: seq<Effect>, at: nat)

  /** Any number of calls on one status row. */
  datatype Calls = Calls(concurrency: int, calls: map<nat, Ongoing>)

  /** The balance of starting() and stopping() in a log. */
  function Balance(log: seq<Effect>): int { Count(log, CallsStarting) - Count(log, CallsStopping) }

  /** What one effect does to the row's concurrency. */
  function Change(e: Effect): int { if e == CallsStarting then 1 else if e == CallsStopping then -1 else 0 }

  /** A log that some call may have, whatever its handler does. */
  ghost predicate IsLog(log: seq<Effect>) { exists k :: log == Log(k) }

  datatype CallStep = Arrives(c: nat, log: seq<Effect>) | Advances(c: nat)

  /** A new call with any outcome, or the next effect of one in progress. */
  ghost predicate NextCalls(x: Calls, y: Calls, step: CallStep) {
    match step
    case Arrives(c, log) =>
      c !in x.calls && IsLog(log) && y == x.(calls := x.calls[c := Ongoing(log, 0)])
    case Advances(c) =>
      && c in x.calls && x.calls[c].at < |x.calls[c].log|
      && var o := x.calls[c];
         y == Calls(x.concurrency + Change(o.log[o.at]), x.calls[c := o.(at := o.at + 1)])
  }

  ghost predicate CallsNext(x: Calls, y: Calls) { exists step :: NextCalls(x, y, step) }

  ghost predicate CallRun(tr: seq<Calls>) {
    && tr != [] && tr[0] == Calls(0, map[])
    && forall i, j | 0 <= i && j == i + 1 < |tr| :: CallsNext(tr[i], tr[j])
  }

  predicate IsInFlight(o: Ongoing) { o.at <= |o.log| && Balance(o.log[..o.at]) == 1 }

  /** The calls between starting() and stopping(). */
  function InFlight(x: Calls): set<nat> { set c | c in x.calls && IsInFlight(x.calls[c]) }

  lemma {:induction false} CountPrefix(log: seq<Effect>, at: nat, e: Effect)
    requires at <= |log|
    ensures Count(log[..at], e) <= Count(log, e)
    ensures at > 0 && log[0] == e ==> Count(log[..at], e) >= 1
  {
    assert log == log[..at] + log[at..];
    CountAppend(log[..at], log[at..], e);
    if at > 0 { assert log[..at][0] == log[0]; }
  }

  lemma BalanceStep(log: seq<Effect>, at: nat)
    requires at < |log|
    ensures Balance(log[..at + 1]) == Balance(log[..at]) + Change(log[at])
  {
    assert log[..at + 1] == log[..at] + [log[at]];
    CountAppend(log[..at], [log[at]], CallsStarting);
    CountAppend(log[..at], [log[at]], CallsStopping);
    CountOne(log[at], CallsStarting);
    CountOne(log[at], CallsStopping);
  }

  /** Nowhere in a call is stopping() ahead of starting(). */
  lemma PrefixBalance(log: seq<Effect>, at: nat)
    requires IsLog(log) && at <= |log|
    ensures 0 <= Balance(log[..at]) <= 1
    ensures at == |log| ==> Balance(log[..at]) == 0
  {
    var k :| log == Log(k);
    hide Log, HasStatus, Count;
    EveryStartStops(k);
    CountPrefix(log, at, CallsStarting);
    CountPrefix(log, at, CallsStopping);
    assert log[..|log|] == log;
    if at == 0 { EmptyBalance(log); }
  }

  lemma EmptyBalance(log: seq<Effect>)
    ensures Balance(log[..0]) == 0
  {
  }

  ghost predicate CallsOk(x: Calls) {
    && x.concurrency == |InFlight(x)|
    && forall c <- x.calls :: IsLog(x.calls[c].log) && x.calls[c].at <= |x.calls[c].log|
  }

  lemma CallStepKeeps(x: Calls, y: Calls, step: CallStep)
    requires CallsOk(x) && NextCalls(x, y, step)
    ensures CallsOk(y)
  {
    hide IsLog, Count, Balance;
    var c := step.c;
    match step
    case Arrives(_, log) =>
      EmptyBalance(log);
      assert InFlight(y) == InFlight(x);
    case Advances(_) =>
      var o := x.calls[c];
      PrefixBalance(o.log, o.at);
      PrefixBalance(o.log, o.at + 1);
      BalanceStep(o.log, o.at);
      if o.log[o.at] == CallsStarting {
        assert InFlight(y) == InFlight(x) + {c} && c !in InFlight(x);
      } else if o.log[o.at] == CallsStopping {
        assert InFlight(y) == InFlight(x) - {c} && c in InFlight(x);
      } else {
        assert InFlight(y) == InFlight(x);
      }
  }

  /** Over every interleaving of calls, whatever each handler returns or
      throws, the row's concurrency is the number of calls in flight, so it
      never goes below zero; and it is zero again once every call is over. */
  lemma {:induction false} ConcurrencyIsInFlight(tr: seq<Calls>, i: nat)
    requires CallRun(tr) && i < |tr|
    ensures CallsOk(tr[i])
    ensures tr[i].concurrency == |InFlight(tr[i])| >= 0
    ensures (forall c <- tr[i].calls :: tr[i].calls[c].at == |tr[i].calls[c].log|) ==> tr[i].concurrency == 0
  {
    if i > 0 {
      ConcurrencyIsInFlight(tr, i - 1);
      assert CallsNext(tr[i - 1], tr[i]);
      var step :| NextCalls(tr[i - 1], tr[i], step);
      CallStepKeeps(tr[i - 1], tr[i], step);
    }
    AllOver(tr[i]);
  }

  lemma AllOver(x: Calls)
    requires CallsOk(x)
    ensures (forall c <- x.calls :: x.calls[c].at == |x.calls[c].log|) ==> x.concurrency == 0
  {
    hide IsLog, Balance;
    if forall c <- x.calls :: x.calls[c].at == |x.calls[c].log| {
      forall c | c in x.calls
        ensures !IsInFlight(x.calls[c])
      {
        PrefixBalance(x.calls[c].log, x.calls[c].at);
      }
      assert InFlight(x) == {};
    }
  }
}
