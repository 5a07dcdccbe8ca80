/** Why a sweep leaves a trip with a living dispatch loop alone: the offer record outlives every wait of its Run. */
module Protection {
  import opened StoreSpec
  import opened Protocol
  import opened Interleaving

  /** Every backoff that is ever slept is below the grace added to the offer's TTL. */
  ghost predicate ShortSleeps(cfg: Config) {
    forall r :: 1 <= r < cfg.maxRounds ==> Backoff(cfg, r) < OFFER_RECORD_GRACE
  }

  /** Between a Run's first CreateOffer and its last write. */
  predicate Opened(run: Run) {
    || run.pc.Await? || run.pc.Settle? || run.pc.Engage? || run.pc.Commit? || run.pc.Release? || run.pc.Pause?
    || ((run.pc.Claim? || run.pc.GiveUp?) && run.rounds >= 1)
    || (run.pc.Open? && run.rounds >= 2)
  }

  function TimeLimit(cfg: Config, run: Run): nat {
    match run.pc
    case Await(until) => until
    case Settle(_) => run.openedAt + cfg.window
    case Engage => run.openedAt + cfg.window
    case Commit => run.openedAt + cfg.window
    case Release => run.openedAt + cfg.window
    case Pause(until) => until
    case _ => run.openedAt + cfg.window + OFFER_RECORD_GRACE - 1
  }

  predicate Guarded(cfg: Config, db: Db, run: Run) {
    Opened(run) ==>
      && run.openedAt <= db.now <= TimeLimit(cfg, run) < run.openedAt + cfg.window + OFFER_RECORD_GRACE
      && (run.pc.Await? ==> run.pc.until == run.openedAt + cfg.window)
      && run.trip in db.offers.offers
      && db.offers.offers[run.trip].expiresAt >= run.openedAt + cfg.window + OFFER_RECORD_GRACE
  }

  ghost predicate Protected(cfg: Config, s: Sys) {
    forall r :: r in s.runs ==> Guarded(cfg, s.db, s.runs[r])
  }

  /** A step never shortens a trip's offer: it leaves the deadline, or restarts it from now. */
  lemma StepKeepsDeadlines(cfg: Config, run: Run, db: Db, resp: Response, down: bool, t: TripId)
    requires InRange(run) && !run.pc.Done?
    ensures var db' := Step(cfg, run, db, resp, down).1;
            && db'.now == db.now
            && (t in db.offers.offers ==>
                  && t in db'.offers.offers
                  && (db'.offers.offers[t].expiresAt == db.offers.offers[t].expiresAt
                      || db'.offers.offers[t].expiresAt == db.now + cfg.window + OFFER_RECORD_GRACE))
  {
  }

  lemma AskingKeepsGuarded(cfg: Config, run: Run, db: Db, resp: Response, down: bool)
    requires Counted(cfg, run) && Guarded(cfg, db, run)
    requires run.pc.Load? || run.pc.MarkOffered? || run.pc.Claim? || run.pc.Open? || run.pc.Await?
    ensures var t := Step(cfg, run, db, resp, down); Guarded(cfg, t.1, t.0)
  {
  }

  lemma ClosingKeepsGuarded(cfg: Config, run: Run, db: Db, resp: Response, down: bool)
    requires ShortSleeps(cfg) && Counted(cfg, run) && Guarded(cfg, db, run) && !run.pc.Done?
    requires !(run.pc.Load? || run.pc.MarkOffered? || run.pc.Claim? || run.pc.Open? || run.pc.Await?)
    ensures var t := Step(cfg, run, db, resp, down); Guarded(cfg, t.1, t.0)
  {
    if run.pc.Release? && run.rounds < cfg.maxRounds {
      assert Backoff(cfg, run.rounds) < OFFER_RECORD_GRACE;
    }
  }

  lemma StepKeepsGuarded(cfg: Config, run: Run, db: Db, resp: Response, down: bool)
    requires ShortSleeps(cfg) && Counted(cfg, run) && Guarded(cfg, db, run) && !run.pc.Done?
    ensures var t := Step(cfg, run, db, resp, down); Guarded(cfg, t.1, t.0)
  {
    if run.pc.Load? || run.pc.MarkOffered? || run.pc.Claim? || run.pc.Open? || run.pc.Await? {
      AskingKeepsGuarded(cfg, run, db, resp, down);
    } else {
      ClosingKeepsGuarded(cfg, run, db, resp, down);
    }
  }

  lemma ActKeepsProtected(cfg: Config, s: Sys, a: Action)
    requires ShortSleeps(cfg) && RunsAreLocal(cfg, s) && Protected(cfg, s) && Enabled(s, a)
    ensures Protected(cfg, Act(cfg, s, a))
  {
    var s' := Act(cfg, s, a);
    forall r | r in s'.runs
      ensures Guarded(cfg, s'.db, s'.runs[r])
    {
      if a.Turn? && a.run == r {
        StepKeepsGuarded(cfg, s.runs[r], s.db, a.resp, a.down);
      } else if a.Turn? {
        assert Guarded(cfg, s.db, s.runs[r]);
        StepKeepsDeadlines(cfg, s.runs[a.run], s.db, a.resp, a.down, s.runs[r].trip);
      } else if r in s.runs {
        assert Guarded(cfg, s.db, s.runs[r]);
        assert !s.runs[r].pc.Done? ==> Active(s, r);
      }
    }
  }

  lemma {:induction false} EveryExecutionIsProtected(cfg: Config, e: Execution, k: nat)
    requires ShortSleeps(cfg) && IsExecution(cfg, e) && k < |e.states|
    ensures Protected(cfg, e.states[k])
  {
    if k > 0 {
      EveryExecutionIsProtected(cfg, e, k - 1);
      EveryExecutionIsSafe(cfg, e, k - 1);
      assert StepsTo(cfg, e.states[k - 1], e.actions[k - 1], e.states[k - 1 + 1]);
      ActKeepsProtected(cfg, e.states[k - 1], e.actions[k - 1]);
    }
  }

  /** At every instant of every execution, a trip whose Run has made an offer and is still at work has a live offer
      record, so no sweep takes it for stuck. */
  lemma LivingRunIsNeverSwept(cfg: Config, e: Execution, k: nat, r: nat)
    requires ShortSleeps(cfg) && IsExecution(cfg, e) && k < |e.states|
    requires r in e.states[k].runs && Opened(e.states[k].runs[r])
    ensures LiveOffer(e.states[k].db.offers, e.states[k].runs[r].trip, e.states[k].db.now)
    ensures !Stuck(e.states[k].db, e.states[k].runs[r].trip)
  {
    EveryExecutionIsProtected(cfg, e, k);
    assert Guarded(cfg, e.states[k].db, e.states[k].runs[r]);
  }

  /** The bound is exact: after a round that used its whole window, the record lasts through the sleep if and only if
      the backoff slept is below the grace. */
  lemma SleepIsCoveredIff(cfg: Config, run: Run, db: Db)
    requires run.pc.Release? && run.i + 1 < |run.candidates| && run.rounds < cfg.maxRounds
    requires db.now == run.openedAt + cfg.window
    requires run.trip in db.offers.offers
    requires db.offers.offers[run.trip].expiresAt == run.openedAt + cfg.window + OFFER_RECORD_GRACE
    requires run.candidates[run.i] in db.drivers
    ensures var t := Step(cfg, run, db, NoResponse, false);
            && t.0.pc.Pause?
            && (LiveOffer(t.1.offers, run.trip, t.0.pc.until) <==> run.backoff < OFFER_RECORD_GRACE)
  {
  }

  /** The default backoffs are 1s, 2s, 4s, 8s; a sixth round would sleep the ceiling, which equals the grace. */
  lemma DefaultConfigSleepsShort()
    ensures ShortSleeps(DEFAULT_CONFIG)
    ensures !ShortSleeps(DEFAULT_CONFIG.(maxRounds := 6))
    ensures DEFAULT_CONFIG.max == OFFER_RECORD_GRACE
  {
    var c := DEFAULT_CONFIG;
    assert Pow2(1) == 2 && Pow2(2) == 4 && Pow2(3) == 8 && Pow2(4) == 16;
    forall r | 1 <= r < c.maxRounds
      ensures Backoff(c, r) < OFFER_RECORD_GRACE
    {
      assert r == 1 || r == 2 || r == 3 || r == 4;
    }
    assert Backoff(c.(maxRounds := 6), 5) == OFFER_RECORD_GRACE;
  }
}
