/** A Run alone is one of the interleavings; and the grace bound of Protection is exact over all executions. */
module Embedding {
  import opened StateMachine
  import opened StoreSpec
  import opened Protocol
  import opened Isolation
  import opened Interleaving
  import opened Protection

  /** e goes on from e0, and starts Runs for this job only. */
  predicate Continues(e0: Execution, e: Execution, job: Job) {
    && e0.states <= e.states && e0.actions <= e.actions
    && forall k :: |e0.actions| <= k < |e.actions| && e.actions[k].Spawn? ==> e.actions[k].job == job
  }

  lemma ExtendContinues(cfg: Config, e0: Execution, e: Execution, a: Action, s: Sys, job: Job)
    requires IsExecution(cfg, e) && StepsTo(cfg, Last(e), a, s) && Continues(e0, e, job) && (a.Spawn? ==> a.job == job)
    ensures IsExecution(cfg, Extend(e, a, s)) && Last(Extend(e, a, s)) == s && Continues(e0, Extend(e, a, s), job)
  {
    ExtendIsExecution(cfg, e, a, s);
  }

  /** Timers are set from the present, as they are when nothing else lets time pass. */
  predicate Timed(cfg: Config, run: Run, db: Db) {
    && (run.pc.Await? ==> run.pc.until == db.now + cfg.window)
    && (run.pc.Pause? ==> run.pc.until == db.now + run.backoff)
  }

  lemma MoveIsTimed(cfg: Config, env: Env, run: Run, db: Db)
    requires InRange(run) && !run.pc.Done? && Timed(cfg, run, db)
    ensures var t := Move(cfg, env, (run, db)); Timed(cfg, t.0, t.1)
  {
  }

  /** No Run is at work. */
  predicate AllDone(runs: map<nat, Run>) {
    forall x :: x in runs ==> runs[x].pc.Done?
  }

  lemma MoveIsATurn(cfg: Config, env: Env, runs: map<nat, Run>, r: nat, run: Run, db: Db)
    requires AllDone(runs) && InRange(run) && !run.pc.Done? && Timed(cfg, run, db)
    ensures var now := ClockAt(cfg, env, run, db.now);
            var s := Sys(db, runs[r := run]);
            var s' := Sys(db.(now := now), runs[r := run]);
            var turn := Turn(r, Hears(cfg, env.answers(run.trip, run.rounds)).0, env.fails(run.steps));
            var t := Move(cfg, env, (run, db));
            && (now != db.now ==> StepsTo(cfg, s, Tick(now), s'))
            && (now == db.now ==> s' == s)
            && StepsTo(cfg, s', turn, Sys(t.1, runs[r := t.0]))
  {
    var s' := Sys(db.(now := ClockAt(cfg, env, run, db.now)), runs[r := run]);
    var t := Move(cfg, env, (run, db));
    assert s'.runs[r := t.0] == runs[r := t.0];
  }

  /** One step along an isolated Run. */
  lemma Follow(cfg: Config, env: Env, job: Job, db: Db, n: nat, s: (Run, Db)) returns (t: (Run, Db))
    requires s == Started(cfg, env, job, db, n)
    ensures InRange(s.0) && t == Move(cfg, env, s) && t == Started(cfg, env, job, db, n + 1)
  {
    t := Started(cfg, env, job, db, n + 1);
  }

  /** Whatever a Run does alone, for any answers and failures, from any system with no other Run at work, the whole
      system can do from there. */
  lemma {:induction false} IsolatedRunIsAnExecution(cfg: Config, env: Env, job: Job, e0: Execution, r: nat, n: nat)
    returns (e: Execution, s: (Run, Db))
    requires IsExecution(cfg, e0) && AllDone(Last(e0).runs) && r !in Last(e0).runs
    ensures s == Started(cfg, env, job, Last(e0).db, n)
    ensures IsExecution(cfg, e) && Continues(e0, e, job)
    ensures Last(e) == Sys(s.1, Last(e0).runs[r := s.0]) && Timed(cfg, s.0, s.1)
  {
    if n == 0 {
      s := (Begin(job, cfg.base), Last(e0).db);
      e := Extend(e0, Spawn(r, job), Act(cfg, Last(e0), Spawn(r, job)));
      ExtendContinues(cfg, e0, e0, Spawn(r, job), Act(cfg, Last(e0), Spawn(r, job)), job);
    } else {
      e, s := IsolatedRunIsAnExecution(cfg, env, job, e0, r, n - 1);
      var t := Follow(cfg, env, job, Last(e0).db, n - 1, s);
      e := AppendMove(cfg, env, s, t, e0, e, Last(e0).runs, r, job);
      s := t;
    }
  }

  lemma FollowPath(cfg: Config, env: Env, path: nat -> (Run, Db), job: Job, e0: Execution, r: nat, n: nat)
    returns (e: Execution)
    requires IsExecution(cfg, e0) && AllDone(Last(e0).runs) && r !in Last(e0).runs
    requires IsPath(cfg, env, job, Last(e0).db, path)
    ensures IsExecution(cfg, e) && Continues(e0, e, job)
    ensures Last(e) == Sys(path(n).1, Last(e0).runs[r := path(n).0])
  {
    var s;
    e, s := IsolatedRunIsAnExecution(cfg, env, job, e0, r, n);
  }

  lemma AppendMove(
    cfg: Config, env: Env, s: (Run, Db), t: (Run, Db), e0: Execution, e: Execution,
    runs: map<nat, Run>, r: nat, job: Job)
    returns (e': Execution)
    requires InRange(s.0) && Timed(cfg, s.0, s.1) && t == Move(cfg, env, s) && AllDone(runs)
    requires IsExecution(cfg, e) && Continues(e0, e, job) && Last(e) == Sys(s.1, runs[r := s.0])
    ensures IsExecution(cfg, e') && Continues(e0, e', job) && Last(e') == Sys(t.1, runs[r := t.0])
    ensures Timed(cfg, t.0, t.1)
  {
    var (run, db) := s;
    e' := e;
    if !run.pc.Done? {
      MoveIsTimed(cfg, env, run, db);
      MoveIsATurn(cfg, env, runs, r, run, db);
      var now := ClockAt(cfg, env, run, db.now);
      var turn := Turn(r, Hears(cfg, env.answers(run.trip, run.rounds)).0, env.fails(run.steps));
      var waited := Sys(db.(now := now), runs[r := run]);
      if now != db.now {
        ExtendContinues(cfg, e0, e', Tick(now), waited, job);
        e' := Extend(e', Tick(now), waited);
      }
      ExtendContinues(cfg, e0, e', turn, Sys(t.1, runs[r := t.0]), job);
      e' := Extend(e', turn, Sys(t.1, runs[r := t.0]));
    }
  }

  // ---- the bound is necessary ----------------------------------------------

  const SILENT: Env := Env((t, r) => Silence, n => false)

  /** Every one of ids is a driver free to be claimed. */
  predicate AllFree(db: Db, ids: seq<DriverId>) {
    forall i :: 0 <= i < |ids| ==> ids[i] in db.drivers && db.drivers[ids[i]].state == Available
  }

  /** A Run over ids, about to ask for the (k+1)-th time after k timeouts. */
  predicate AboutToAsk(cfg: Config, run: Run, db: Db, ids: seq<DriverId>, k: nat) {
    && run.candidates == ids && run.pc.Claim? && run.i == run.rounds == k < |ids| && run.backoff == Backoff(cfg, k + 1)
    && InState(db, run.trip, TripOffered) && AllFree(db, ids)
  }

  predicate Asked(cfg: Config, run: Run, db: Db, ids: seq<DriverId>, k: nat) {
    && run.candidates == ids && run.pc.Await? && run.i == k < |ids| && run.rounds == k + 1
    && run.backoff == Backoff(cfg, k + 1)
    && InState(db, run.trip, TripOffered) && ids[k] in db.drivers && db.drivers[ids[k]].state == Offered
    && AllFree(db.(drivers := db.drivers[ids[k] := db.drivers[ids[k]].(state := Available)]), ids)
    && run.openedAt == db.now && run.trip in db.offers.offers
    && var o := db.offers.offers[run.trip];
       o.driver == ids[k] && o.state == OfferPending && o.expiresAt == db.now + cfg.window + OFFER_RECORD_GRACE
  }

  predicate TimedOut(cfg: Config, run: Run, db: Db, ids: seq<DriverId>, k: nat) {
    && run.candidates == ids && run.pc == Pause(db.now + run.backoff) && run.i == k < |ids| && run.rounds == k + 1
    && run.backoff == Backoff(cfg, k + 1)
    && InState(db, run.trip, TripOffered) && AllFree(db, ids)
    && db.now == run.openedAt + cfg.window && run.trip in db.offers.offers
    && db.offers.offers[run.trip].expiresAt == db.now + OFFER_RECORD_GRACE
  }

  lemma AskMoves(cfg: Config, run: Run, db: Db, ids: seq<DriverId>, k: nat)
    requires AboutToAsk(cfg, run, db, ids, k)
    ensures var s1 := Move(cfg, SILENT, (run, db));
            var s2 := Move(cfg, SILENT, s1);
            Asked(cfg, s2.0, s2.1, ids, k)
  {
    var s1 := Move(cfg, SILENT, (run, db));
    assert s1.0.pc.Open?;
  }

  lemma TimeoutMoves(cfg: Config, run: Run, db: Db, ids: seq<DriverId>, k: nat)
    requires Asked(cfg, run, db, ids, k) && k + 1 < |ids| && k + 1 < cfg.maxRounds
    ensures var s1 := Move(cfg, SILENT, (run, db));
            var s2 := Move(cfg, SILENT, s1);
            var s3 := Move(cfg, SILENT, s2);
            TimedOut(cfg, s3.0, s3.1, ids, k)
  {
    var s1 := Move(cfg, SILENT, (run, db));
    assert s1.0.pc == Settle(NoResponse) && s1.1.now == run.openedAt + cfg.window;
    var s2 := Move(cfg, SILENT, s1);
    assert s2.0.pc.Release? && s2.1.drivers == db.drivers;
  }

  lemma WakeMoves(cfg: Config, run: Run, db: Db, ids: seq<DriverId>, k: nat)
    requires TimedOut(cfg, run, db, ids, k) && k + 1 < |ids| && k + 1 < cfg.maxRounds
    ensures var s1 := Move(cfg, SILENT, (run, db)); AboutToAsk(cfg, s1.0, s1.1, ids, k + 1)
  {
    BackoffSteps(cfg, k + 1);
  }

  /** The steps before the (k+1)-th claim: two to start, six a round. */
  function StepsBefore(k: nat): nat {
    if k == 0 then 2 else StepsBefore(k - 1) + 6
  }

  /** path is the Run of a fresh trip over free drivers who never answer. */
  ghost predicate AsksOnly(cfg: Config, path: nat -> (Run, Db), ids: seq<DriverId>) {
    && IsMachine(cfg, SILENT, path)
    && path(0).0.pc.Load? && path(0).0.i == path(0).0.rounds == 0 && path(0).0.backoff == cfg.base
    && path(0).0.candidates == ids
    && InState(path(0).1, path(0).0.trip, TripRequested) && AllFree(path(0).1, ids)
  }

  lemma {:induction false} SilentRounds(cfg: Config, path: nat -> (Run, Db), ids: seq<DriverId>, k: nat)
    requires AsksOnly(cfg, path, ids) && k < |ids| && k < cfg.maxRounds
    ensures AboutToAsk(cfg, path(StepsBefore(k)).0, path(StepsBefore(k)).1, ids, k)
  {
    if k == 0 {
      FirstAsk(cfg, path, ids);
    } else {
      var n := StepsBefore(k - 1);
      SilentRounds(cfg, path, ids, k - 1);
      SilentRound(cfg, path, ids, k - 1, n);
      WakeUp(cfg, path, ids, k - 1, n + 5);
    }
  }

  lemma FirstAsk(cfg: Config, path: nat -> (Run, Db), ids: seq<DriverId>)
    requires AsksOnly(cfg, path, ids) && 0 < |ids| && 0 < cfg.maxRounds
    ensures AboutToAsk(cfg, path(2).0, path(2).1, ids, 0)
  {
    PathMoves(cfg, SILENT, path, 0);
    assert path(1).0.pc.MarkOffered?;
    PathMoves(cfg, SILENT, path, 1);
  }

  lemma WakeUp(cfg: Config, path: nat -> (Run, Db), ids: seq<DriverId>, k: nat, n: nat)
    requires AsksOnly(cfg, path, ids) && TimedOut(cfg, path(n).0, path(n).1, ids, k)
    requires k + 1 < |ids| && k + 1 < cfg.maxRounds
    ensures AboutToAsk(cfg, path(n + 1).0, path(n + 1).1, ids, k + 1)
  {
    WakeMoves(cfg, path(n).0, path(n).1, ids, k);
    PathMoves(cfg, SILENT, path, n);
  }

  /** From about to ask to the sleep after the timeout. */
  lemma SilentRound(cfg: Config, path: nat -> (Run, Db), ids: seq<DriverId>, k: nat, n: nat)
    requires AsksOnly(cfg, path, ids) && AboutToAsk(cfg, path(n).0, path(n).1, ids, k)
    requires k + 1 < |ids| && k + 1 < cfg.maxRounds
    ensures TimedOut(cfg, path(n + 5).0, path(n + 5).1, ids, k)
  {
    AskMoves(cfg, path(n).0, path(n).1, ids, k);
    PathMoves(cfg, SILENT, path, n);
    PathMoves(cfg, SILENT, path, n + 1);
    TimeoutMoves(cfg, path(n + 2).0, path(n + 2).1, ids, k);
    PathMoves(cfg, SILENT, path, n + 2);
    PathMoves(cfg, SILENT, path, n + 3);
    PathMoves(cfg, SILENT, path, n + 4);
  }

  predicate DistinctIds(ids: seq<DriverId>) {
    forall i, j :: 0 <= i < j < |ids| ==> ids[i] != ids[j]
  }

  /** Every Run is given a list without repeats, as ranking distinct drivers makes it. */
  predicate DistinctJobs(e: Execution) {
    forall a :: a in e.actions && a.Spawn? ==> DistinctIds(a.job.candidates)
  }

  /** No reachable state shows a sweep a stuck trip whose Run is at work on an offer, from its first one on. */
  ghost predicate NeverSweptOnceOpened(cfg: Config) {
    forall e, k, r ::
      IsExecution(cfg, e) && DistinctJobs(e) && 0 <= k < |e.states|
      && r in e.states[k].runs && Opened(e.states[k].runs[r])
      ==> !Stuck(e.states[k].db, e.states[k].runs[r].trip)
  }

  /** From their first offers on, Runs are safe from sweeps exactly when every backoff they can sleep is below the
      grace. */
  lemma NeverSweptOnceOpenedIffShortSleeps(cfg: Config)
    ensures NeverSweptOnceOpened(cfg) <==> ShortSleeps(cfg)
  {
    if ShortSleeps(cfg) {
      forall e: Execution, k: nat, r: nat
        | IsExecution(cfg, e) && k < |e.states| && r in e.states[k].runs && Opened(e.states[k].runs[r])
        ensures !Stuck(e.states[k].db, e.states[k].runs[r].trip)
      {
        LivingRunIsNeverSwept(cfg, e, k, r);
      }
    } else {
      var round :| 1 <= round < cfg.maxRounds && Backoff(cfg, round) >= OFFER_RECORD_GRACE;
      var e := SweptWhileAsleep(cfg, round);
      assert Opened(Last(e).runs[0]);
    }
  }

  function Name(i: nat): (d: DriverId)
    ensures |d| == i
  {
    seq(i, _ => 'd')
  }

  /** An execution in which a Run over distinct drivers, asleep after the given round, looks dead to a sweep. */
  lemma SweptWhileAsleep(cfg: Config, round: nat) returns (e: Execution)
    requires 1 <= round < cfg.maxRounds && Backoff(cfg, round) >= OFFER_RECORD_GRACE
    ensures IsExecution(cfg, e) && DistinctJobs(e) && 0 in Last(e).runs && Opened(Last(e).runs[0])
    ensures Stuck(Last(e).db, Last(e).runs[0].trip)
  {
    var origin := Location(0.0, 0.0);
    var ids := seq(round + 1, i requires 0 <= i < round + 1 => Name(i));
    assert DistinctIds(ids) by {
      forall i, j | 0 <= i < j < |ids|
        ensures ids[i] != ids[j]
      {
        assert |ids[i]| == i && |ids[j]| == j;
      }
    }
    var drivers := map d | d in ids :: DriverRecord(origin, 0, Available, 0, None);
    var db := Db(drivers, TripTable(map[], {}), OfferTable(map[], map[]), 0);
    e := SweptInRound(cfg, round, Job("t", 0, ids, 0), db);
  }

  lemma SilentPath(cfg: Config, job: Job, db: Db) returns (path: nat -> (Run, Db))
    requires InState(db, job.trip, TripRequested) && AllFree(db, job.candidates)
    ensures IsPath(cfg, SILENT, job, db, path) && AsksOnly(cfg, path, job.candidates)
  {
    path := (n: nat) => Started(cfg, SILENT, job, db, n);
    assert IsPath(cfg, SILENT, job, db, path);
    assert path(0) == (Begin(job, cfg.base), db);
  }

  /** A trip just created among idle Runs. */
  lemma Ordered(cfg: Config, t: TripId, db: Db) returns (e: Execution)
    requires db.trips == TripTable(map[], {}) && db.offers == OfferTable(map[], map[])
    ensures IsExecution(cfg, e) && |e.actions| == 1 && !e.actions[0].Spawn?
    ensures Last(e).runs == map[] && InState(Last(e).db, t, TripRequested) && Last(e).db.drivers == db.drivers
  {
    var s := Sys(db, map[]);
    var a := CreateTrip(t, Location(0.0, 0.0));
    e := Execution([s], []);
    ExtendIsExecution(cfg, e, a, Act(cfg, s, a));
    e := Extend(e, a, Act(cfg, s, a));
  }

  lemma SweptInRound(cfg: Config, round: nat, job: Job, db: Db) returns (e: Execution)
    requires 1 <= round < cfg.maxRounds && Backoff(cfg, round) >= OFFER_RECORD_GRACE
    requires |job.candidates| == round + 1 && DistinctIds(job.candidates) && AllFree(db, job.candidates)
    requires db.trips == TripTable(map[], {}) && db.offers == OfferTable(map[], map[])
    ensures IsExecution(cfg, e) && DistinctJobs(e) && 0 in Last(e).runs && Opened(Last(e).runs[0])
    ensures Stuck(Last(e).db, Last(e).runs[0].trip)
  {
    var n := StepsBefore(round - 1);
    var e0 := Ordered(cfg, job.trip, db);
    var path := SilentPath(cfg, job, Last(e0).db);
    SilentRounds(cfg, path, job.candidates, round - 1);
    SilentRound(cfg, path, job.candidates, round - 1, n);
    e := FollowPath(cfg, SILENT, path, job, e0, 0, n + 5);
    e := StuckAsleep(cfg, path(n + 5).0, path(n + 5).1, job.candidates, round - 1, e0, e, job);
  }

  lemma StuckAsleep(cfg: Config, run: Run, db: Db, ids: seq<DriverId>, k: nat, e0: Execution, e: Execution, job: Job)
    returns (e': Execution)
    requires TimedOut(cfg, run, db, ids, k) && Backoff(cfg, k + 1) >= OFFER_RECORD_GRACE
    requires IsExecution(cfg, e) && Last(e) == Sys(db, map[0 := run]) && Continues(e0, e, job)
    requires |e0.actions| == 1 && !e0.actions[0].Spawn? && DistinctIds(job.candidates)
    ensures IsExecution(cfg, e') && DistinctJobs(e') && 0 in Last(e').runs && Opened(Last(e').runs[0])
    ensures Stuck(Last(e').db, Last(e').runs[0].trip)
  {
    var until := db.now + run.backoff;
    var s := Sys(db.(now := until), map[0 := run]);
    assert StepsTo(cfg, Last(e), Tick(until), s);
    ExtendContinues(cfg, e0, e, Tick(until), s, job);
    e' := Extend(e, Tick(until), s);
    assert forall k :: 0 <= k < |e'.actions| && e'.actions[k].Spawn? ==> k >= 1;
  }
}
