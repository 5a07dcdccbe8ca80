/** The driver to trip reverse index: a driver who knows only their own ID can always find the offer they are to
    answer. */
module OfferIndex {
  import opened StoreSpec
  import opened Protocol
  import opened Interleaving

  /** While a Run waits for its driver's answer, or has yet to record it, the index leads that driver to its trip. */
  predicate Findable(cfg: Config, db: Db, run: Run) {
    run.pc.Await? || run.pc.Settle? ==>
      && run.i < |run.candidates|
      && var d := run.candidates[run.i];
         && d in db.offers.openFor
         && db.offers.openFor[d] == OpenOffer(run.trip, run.openedAt + cfg.window + OFFER_RECORD_GRACE)
         && db.now <= run.openedAt + cfg.window
         && (run.pc.Await? ==> run.pc.until == run.openedAt + cfg.window)
  }

  ghost predicate AllFindable(cfg: Config, s: Sys) {
    forall r :: r in s.runs ==> Findable(cfg, s.db, s.runs[r])
  }

  lemma StepKeepsOwnFindable(cfg: Config, run: Run, db: Db, resp: Response, down: bool)
    requires InRange(run) && !run.pc.Done? && Findable(cfg, db, run)
    ensures var t := Step(cfg, run, db, resp, down); Findable(cfg, t.1, t.0)
  {
  }

  /** A step changes the index only for the driver its Run holds. */
  lemma StepKeepsOthersIndex(cfg: Config, run: Run, db: Db, resp: Response, down: bool, d: DriverId)
    requires InRange(run) && !run.pc.Done? && !Occupied(run, d) && d in db.offers.openFor
    ensures var db' := Step(cfg, run, db, resp, down).1;
            d in db'.offers.openFor && db'.offers.openFor[d] == db.offers.openFor[d] && db'.now == db.now
  {
  }

  lemma TurnKeepsFindable(cfg: Config, s: Sys, r: nat, resp: Response, down: bool, other: nat)
    requires Safe(cfg, s) && AllFindable(cfg, s) && Enabled(s, Turn(r, resp, down)) && other in s.runs
    ensures var s' := Act(cfg, s, Turn(r, resp, down)); Findable(cfg, s'.db, s'.runs[other])
  {
    var run := s.runs[other];
    assert Findable(cfg, s.db, run);
    if other == r {
      StepKeepsOwnFindable(cfg, run, s.db, resp, down);
    } else if run.pc.Await? || run.pc.Settle? {
      var d := run.candidates[run.i];
      assert Holds(s, ByRun(other), d);
      assert !Holds(s, ByRun(r), d);
      StepKeepsOthersIndex(cfg, s.runs[r], s.db, resp, down, d);
    }
  }

  lemma ActKeepsFindable(cfg: Config, s: Sys, a: Action)
    requires Safe(cfg, s) && AllFindable(cfg, s) && Enabled(s, a)
    ensures AllFindable(cfg, Act(cfg, s, a))
  {
    var s' := Act(cfg, s, a);
    forall r | r in s'.runs
      ensures Findable(cfg, s'.db, s'.runs[r])
    {
      if a.Turn? {
        TurnKeepsFindable(cfg, s, a.run, a.resp, a.down, r);
      } else if r in s.runs {
        assert Findable(cfg, s.db, s.runs[r]);
        assert !s.runs[r].pc.Done? ==> Active(s, r);
      }
    }
  }

  lemma {:induction false} EveryExecutionIsFindable(cfg: Config, e: Execution, k: nat)
    requires IsExecution(cfg, e) && k < |e.states|
    ensures AllFindable(cfg, e.states[k])
  {
    if k > 0 {
      EveryExecutionIsFindable(cfg, e, k - 1);
      EveryExecutionIsSafe(cfg, e, k - 1);
      assert StepsTo(cfg, e.states[k - 1], e.actions[k - 1], e.states[k - 1 + 1]);
      ActKeepsFindable(cfg, e.states[k - 1], e.actions[k - 1]);
    }
  }

  /** For the whole of every offer window, whatever other Runs, on this trip or any other, are doing: asked for the
      driver's current offer, any node answers with the trip that waits for this driver. */
  lemma OfferedDriverFindsTrip(cfg: Config, e: Execution, k: nat, r: nat)
    requires IsExecution(cfg, e) && k < |e.states| && r in e.states[k].runs && e.states[k].runs[r].pc.Await?
    ensures var s := e.states[k];
            var run := s.runs[r];
            run.i < |run.candidates| && CurrentOffer(s.db.offers, run.candidates[run.i], s.db.now) == Some(run.trip)
  {
    EveryExecutionIsFindable(cfg, e, k);
    assert Findable(cfg, e.states[k].db, e.states[k].runs[r]);
  }
}
