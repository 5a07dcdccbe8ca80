/** How long a Run can last, in steps and in time, whatever the rest of the system does meanwhile. */
module RunBounds {
  import opened StoreSpec
  import opened Protocol
  import opened Isolation
  import opened Interleaving

  /** The j-th action starts Run r for this job, and up to state k it has not crashed. */
  predicate StartedAt(e: Execution, j: nat, k: nat, r: nat, job: Job) {
    && j < k <= |e.actions| && e.actions[j] == Spawn(r, job)
    && forall i :: j < i < k ==> e.actions[i] != Crash(r)
  }

  /** The steps r takes among actions j to k - 1. */
  function Turns(actions: seq<Action>, j: nat, k: nat, r: nat): nat
    requires k <= |actions|
    decreases k
  {
    if k <= j then 0
    else Turns(actions, j, k - 1, r) + if actions[k - 1].Turn? && actions[k - 1].run == r then 1 else 0
  }

  // ---- steps ---------------------------------------------------------------

  predicate Begins(run: Run) {
    InRange(run) && (run.pc.Load? || run.pc.MarkOffered? ==> run.i == 0)
  }

  lemma StepLowersLeft(cfg: Config, run: Run, db: Db, resp: Response, down: bool)
    requires Begins(run) && !run.pc.Done?
    ensures var run' := Step(cfg, run, db, resp, down).0;
            Begins(run') && Left(run') < Left(run) && SameRequest(run', run)
  {
  }

  /** After n steps, r is on job, and what it has done and has left to do fit the bound. */
  predicate Within(s: Sys, r: nat, ids: seq<DriverId>, n: nat) {
    r in s.runs && Begins(s.runs[r]) && s.runs[r].candidates == ids && n + Left(s.runs[r]) <= StepBound(ids)
  }

  lemma ActStaysWithin(cfg: Config, s: Sys, a: Action, r: nat, ids: seq<DriverId>, n: nat)
    requires Enabled(s, a) && a != Crash(r) && Within(s, r, ids, n)
    ensures Within(Act(cfg, s, a), r, ids, n + if a.Turn? && a.run == r then 1 else 0)
  {
    if a.Turn? && a.run == r {
      StepLowersLeft(cfg, s.runs[r], s.db, a.resp, a.down);
    }
  }

  lemma SpawnIsWithin(cfg: Config, s: Sys, r: nat, job: Job)
    ensures Within(Act(cfg, s, Spawn(r, job)), r, job.candidates, 0)
  {
  }

  lemma {:induction false} RunStaysWithin(cfg: Config, e: Execution, j: nat, k: nat, r: nat, job: Job)
    requires IsExecution(cfg, e) && StartedAt(e, j, k, r, job)
    ensures Within(e.states[k], r, job.candidates, Turns(e.actions, j + 1, k, r))
    decreases k
  {
    var s, a := e.states[k - 1], e.actions[k - 1];
    assert StepsTo(cfg, s, a, e.states[k - 1 + 1]);
    if k == j + 1 {
      SpawnIsWithin(cfg, s, r, job);
    } else {
      RunStaysWithin(cfg, e, j, k - 1, r, job);
      ActStaysWithin(cfg, s, a, r, job.candidates, Turns(e.actions, j + 1, k - 1, r));
    }
  }

  /** In every interleaving a Run takes at most ten steps per candidate and ten more. */
  lemma TurnsAreBounded(cfg: Config, e: Execution, j: nat, k: nat, r: nat, job: Job)
    requires IsExecution(cfg, e) && StartedAt(e, j, k, r, job)
    ensures Turns(e.actions, j + 1, k, r) <= StepBound(job.candidates)
  {
    RunStaysWithin(cfg, e, j, k, r, job);
  }

  // ---- time ----------------------------------------------------------------

  /** The waits so far, and the one in progress to its end, fit the rounds so far. */
  predicate Punctual(cfg: Config, start: nat, run: Run, now: nat) {
    start <= now &&
    match run.pc
    case Load => now == start
    case MarkOffered => now == start
    case Claim => now - start <= Spent(cfg, run.rounds, Sleeps(cfg, run.rounds))
    case Open => run.rounds >= 1 && now - start <= Spent(cfg, run.rounds - 1, run.rounds - 1)
    case Await(until) => run.rounds >= 1 && now <= until && until - start <= Spent(cfg, run.rounds, run.rounds - 1)
    case Pause(until) => run.rounds >= 1 && now <= until && until - start <= Spent(cfg, run.rounds, run.rounds)
    case GiveUp => now - start <= Spent(cfg, run.rounds, Sleeps(cfg, run.rounds))
    case Done(_) => true
    case _ => run.rounds >= 1 && now - start <= Spent(cfg, run.rounds, run.rounds - 1)
  }

  lemma AskingIsPunctual(cfg: Config, start: nat, run: Run, db: Db, resp: Response, down: bool)
    requires Counted(cfg, run) && Punctual(cfg, start, run, db.now)
    requires run.pc.Load? || run.pc.MarkOffered? || run.pc.Claim? || run.pc.Open? || run.pc.Await?
    ensures var t := Step(cfg, run, db, resp, down); Punctual(cfg, start, t.0, t.1.now)
  {
    SpentSteps(cfg, run.rounds);
  }

  lemma ClosingIsPunctual(cfg: Config, start: nat, run: Run, db: Db, resp: Response, down: bool)
    requires Counted(cfg, run) && Punctual(cfg, start, run, db.now) && !run.pc.Done?
    requires !(run.pc.Load? || run.pc.MarkOffered? || run.pc.Claim? || run.pc.Open? || run.pc.Await?)
    ensures var t := Step(cfg, run, db, resp, down); Punctual(cfg, start, t.0, t.1.now)
  {
    SpentSteps(cfg, run.rounds);
    if run.rounds >= 1 {
      SleptGrows(cfg, run.rounds - 1, Sleeps(cfg, run.rounds));
    }
  }

  lemma StepIsPunctual(cfg: Config, start: nat, run: Run, db: Db, resp: Response, down: bool)
    requires Counted(cfg, run) && Punctual(cfg, start, run, db.now) && !run.pc.Done?
    ensures var t := Step(cfg, run, db, resp, down); Punctual(cfg, start, t.0, t.1.now) && t.1.now == db.now
  {
    if run.pc.Load? || run.pc.MarkOffered? || run.pc.Claim? || run.pc.Open? || run.pc.Await? {
      AskingIsPunctual(cfg, start, run, db, resp, down);
    } else {
      ClosingIsPunctual(cfg, start, run, db, resp, down);
    }
  }

  predicate OnSchedule(cfg: Config, start: nat, s: Sys, r: nat) {
    r in s.runs && Punctual(cfg, start, s.runs[r], s.db.now)
  }

  lemma SpawnIsPunctual(cfg: Config, s: Sys, r: nat, job: Job)
    ensures OnSchedule(cfg, s.db.now, Act(cfg, s, Spawn(r, job)), r)
  {
  }

  lemma ActIsPunctual(cfg: Config, s: Sys, a: Action, start: nat, r: nat)
    requires RunsAreLocal(cfg, s) && Enabled(s, a) && a != Crash(r) && OnSchedule(cfg, start, s, r)
    ensures OnSchedule(cfg, start, Act(cfg, s, a), r)
  {
    if a.Turn? {
      assert Counted(cfg, s.runs[a.run]);
      if a.run == r {
        StepIsPunctual(cfg, start, s.runs[r], s.db, a.resp, a.down);
      }
      StepKeepsNow(cfg, s.runs[a.run], s.db, a.resp, a.down);
    } else if a.Tick? {
      assert !s.runs[r].pc.Done? ==> Active(s, r);
    }
  }

  lemma StepKeepsNow(cfg: Config, run: Run, db: Db, resp: Response, down: bool)
    requires InRange(run) && !run.pc.Done?
    ensures Step(cfg, run, db, resp, down).1.now == db.now
  {
  }

  lemma {:induction false} RunsArePunctual(cfg: Config, e: Execution, j: nat, k: nat, r: nat, job: Job)
    requires IsExecution(cfg, e) && StartedAt(e, j, k, r, job)
    ensures OnSchedule(cfg, e.states[j].db.now, e.states[k], r)
    decreases k
  {
    var s, a := e.states[k - 1], e.actions[k - 1];
    assert StepsTo(cfg, s, a, e.states[k - 1 + 1]);
    if k == j + 1 {
      SpawnIsPunctual(cfg, s, r, job);
    } else {
      RunsArePunctual(cfg, e, j, k - 1, r, job);
      EveryExecutionIsSafe(cfg, e, k - 1);
      ActIsPunctual(cfg, s, a, e.states[j].db.now, r);
    }
  }

  lemma PunctualIsBounded(cfg: Config, start: nat, run: Run, now: nat)
    requires Counted(cfg, run) && Punctual(cfg, start, run, now) && !run.pc.Done?
    ensures now - start <= if cfg.maxRounds <= 0 then 0 else Spent(cfg, cfg.maxRounds, cfg.maxRounds - 1)
  {
    var r := run.rounds;
    if cfg.maxRounds > 0 {
      SpentGrows(cfg, r, Sleeps(cfg, r), cfg.maxRounds, cfg.maxRounds - 1);
      if r >= 1 {
        SpentGrows(cfg, r - 1, r - 1, cfg.maxRounds, cfg.maxRounds - 1);
        SpentGrows(cfg, r, r - 1, cfg.maxRounds, cfg.maxRounds - 1);
      }
      if run.pc.Pause? {
        SpentGrows(cfg, r, r, cfg.maxRounds, cfg.maxRounds - 1);
      }
    }
  }

  /** In every interleaving a Run still at work was started no longer ago than MaxRounds windows and the MaxRounds - 1
      delays between them. */
  lemma LifeIsBounded(cfg: Config, e: Execution, j: nat, k: nat, r: nat, job: Job)
    requires IsExecution(cfg, e) && StartedAt(e, j, k, r, job) && Active(e.states[k], r)
    ensures e.states[k].db.now - e.states[j].db.now
            <= if cfg.maxRounds <= 0 then 0 else Spent(cfg, cfg.maxRounds, cfg.maxRounds - 1)
  {
    RunsArePunctual(cfg, e, j, k, r, job);
    EveryExecutionIsSafe(cfg, e, k);
    assert Counted(cfg, e.states[k].runs[r]);
    PunctualIsBounded(cfg, e.states[j].db.now, e.states[k].runs[r], e.states[k].db.now);
  }

  lemma DefaultLifeIsNinetySeconds(e: Execution, j: nat, k: nat, r: nat, job: Job)
    requires IsExecution(DEFAULT_CONFIG, e) && StartedAt(e, j, k, r, job) && Active(e.states[k], r)
    ensures e.states[k].db.now - e.states[j].db.now <= 90 * SECOND
  {
    LifeIsBounded(DEFAULT_CONFIG, e, j, k, r, job);
    DefaultConfigSpends();
  }
}
