/** Drivers lost to dispatch: which steps take a driver out of the pool with nobody left to bring it back. */
module Orphans {
  import opened StateMachine
  import opened StoreSpec
  import opened Protocol
  import opened Interleaving

  /** Not AVAILABLE, and held by no Run and no matched trip. */
  ghost predicate Orphan(s: Sys, d: DriverId) {
    d in s.db.drivers && s.db.drivers[d].state != Available && forall h :: !Holds(s, h, d)
  }

  /** Where the driver of a round can be after one more step of its Run: still held by it, held by the trip it matched,
      or back in the pool. */
  predicate Placed(run': Run, db': Db, d: DriverId) {
    || Occupied(run', d)
    || (run'.pc == Done(Matched(d)) && InState(db', run'.trip, TripMatched)
        && db'.trips.trips[run'.trip].matchedDriver == Some(d))
    || (d in db'.drivers && db'.drivers[d].state == Available)
  }

  lemma StepPlacesDriver(cfg: Config, run: Run, db: Db, resp: Response, down: bool, d: DriverId)
    requires InRange(run) && !run.pc.Done? && Occupied(run, d)
    requires d in db.drivers && db.drivers[d].state == (if run.pc.Commit? then EnRoute else Offered)
    ensures var t := Step(cfg, run, db, resp, down);
            if t.0.pc.Done? && t.0.pc.result.Failed?
            then d in t.1.drivers && t.1.drivers[d].state != Available
            else Placed(t.0, t.1, d)
  {
  }

  /** What, before the step, makes it end the Run: a failing call, an offer that is no longer the Run's own to settle,
      or a trip that is no longer OFFERED when it is to be matched. */
  predicate Ends(run: Run, db: Db, down: bool)
    requires run.i < |run.candidates|
  {
    !run.pc.Await?
    && (down
        || match run.pc
           case Settle(resp) =>
             if LiveOffer(db.offers, run.trip, db.now)
             then var o := db.offers.offers[run.trip]; o.driver != run.candidates[run.i] || o.state != OfferPending
             else resp != NoResponse
           case Commit => !InState(db, run.trip, TripOffered)
           case _ => false)
  }

  /** A Run's step strands the driver it holds exactly when one of these is so. */
  lemma TurnOrphansIffEnds(cfg: Config, s: Sys, r: nat, resp: Response, down: bool, d: DriverId)
    requires Safe(cfg, s) && Enabled(s, Turn(r, resp, down)) && Holds(s, ByRun(r), d)
    ensures Orphan(Act(cfg, s, Turn(r, resp, down)), d) <==> Ends(s.runs[r], s.db, down)
  {
    assert Busy(s, d, ByRun(r));
    TurnOrphansIffRunFails(cfg, s, r, resp, down, d);
    StepFailsIffEnds(cfg, s.runs[r], s.db, resp, down, d);
  }

  lemma StepFailsIffEnds(cfg: Config, run: Run, db: Db, resp: Response, down: bool, d: DriverId)
    requires InRange(run) && !run.pc.Done? && Occupied(run, d)
    requires d in db.drivers && db.drivers[d].state == (if run.pc.Commit? then EnRoute else Offered)
    ensures var run' := Step(cfg, run, db, resp, down).0;
            run'.pc.Done? && run'.pc.result.Failed? <==> Ends(run, db, down)
  {
  }

  /** A Run that finds its offer replaced by another's strands its driver, though every call succeeds. */
  lemma ReplacedOfferOrphans(cfg: Config, s: Sys, r: nat, resp: Response, d: DriverId)
    requires Safe(cfg, s) && Enabled(s, Turn(r, resp, false)) && Holds(s, ByRun(r), d) && s.runs[r].pc.Settle?
    requires LiveOffer(s.db.offers, s.runs[r].trip, s.db.now) && s.db.offers.offers[s.runs[r].trip].driver != d
    ensures Orphan(Act(cfg, s, Turn(r, resp, false)), d)
  {
    TurnOrphansIffEnds(cfg, s, r, resp, false, d);
  }

  /** In terms of the outcome: the Run ends with an error. */
  lemma TurnOrphansIffRunFails(cfg: Config, s: Sys, r: nat, resp: Response, down: bool, d: DriverId)
    requires Safe(cfg, s) && Enabled(s, Turn(r, resp, down)) && Holds(s, ByRun(r), d)
    ensures var s' := Act(cfg, s, Turn(r, resp, down));
            Orphan(s', d) <==> s'.runs[r].pc.Done? && s'.runs[r].pc.result.Failed?
  {
    var s' := Act(cfg, s, Turn(r, resp, down));
    var run, run' := s.runs[r], s'.runs[r];
    assert Busy(s, d, ByRun(r));
    StepPlacesDriver(cfg, run, s.db, resp, down, d);
    if run'.pc.Done? && run'.pc.result.Failed? {
      forall h
        ensures !Holds(s', h, d)
      {
        if Holds(s', h, d) {
          FailureLeavesNoHolder(cfg, s, r, resp, down, h, d);
        }
      }
    } else if Occupied(run', d) {
      assert Holds(s', ByRun(r), d);
    } else if run'.pc == Done(Matched(d)) {
      assert Holds(s', ByTrip(run'.trip), d);
    }
  }

  lemma FailureLeavesNoHolder(
    cfg: Config, s: Sys, r: nat, resp: Response, down: bool, h: Holder, d: DriverId)
    requires Safe(cfg, s) && Enabled(s, Turn(r, resp, down)) && Holds(s, ByRun(r), d)
    requires var run' := Act(cfg, s, Turn(r, resp, down)).runs[r]; run'.pc.Done? && run'.pc.result.Failed?
    ensures !Holds(Act(cfg, s, Turn(r, resp, down)), h, d)
  {
    if h.ByTrip? {
      StepKeepsTrips(cfg, s.runs[r], s.db, resp, down, h.trip);
    }
    if Holds(s, h, d) {
      assert h == ByRun(r);
    }
  }

  /** A crash strands the driver of the crashed Run's round. */
  lemma CrashOrphans(cfg: Config, s: Sys, r: nat, d: DriverId)
    requires Safe(cfg, s) && Active(s, r) && Holds(s, ByRun(r), d)
    ensures Orphan(Act(cfg, s, Crash(r)), d)
  {
    var s' := Act(cfg, s, Crash(r));
    assert Busy(s, d, ByRun(r));
    forall h
      ensures !Holds(s', h, d)
    {
      assert Holds(s', h, d) ==> Holds(s, h, d);
    }
  }

  lemma ActKeepsOrphan(cfg: Config, s: Sys, a: Action, d: DriverId)
    requires Orphan(s, d) && Enabled(s, a) && a != Expire(d)
    ensures Orphan(Act(cfg, s, a), d)
    ensures Act(cfg, s, a).db.drivers[d].state == s.db.drivers[d].state
  {
    var s' := Act(cfg, s, a);
    if a.Turn? {
      assert !Holds(s, ByRun(a.run), d);
      StepHandsOver(cfg, s.runs[a.run], s.db, a.resp, a.down, d);
    }
    forall h
      ensures !Holds(s', h, d)
    {
      assert !Holds(s, h, d);
      if a.Turn? && h.ByTrip? {
        StepKeepsTrips(cfg, s.runs[a.run], s.db, a.resp, a.down, h.trip);
      }
    }
  }

  /** A stranded driver stays out of the pool in the state it was left in, however often it pings and whatever sweeps
      and dispatches follow: only the expiry of its hash frees it. */
  lemma {:induction false} OrphansWaitForExpiry(cfg: Config, e: Execution, j: nat, k: nat, d: DriverId)
    requires IsExecution(cfg, e) && j <= k < |e.states| && Orphan(e.states[j], d)
    requires forall i :: j <= i < k ==> e.actions[i] != Expire(d)
    ensures Orphan(e.states[k], d)
    ensures e.states[k].db.drivers[d].state == e.states[j].db.drivers[d].state
    decreases k
  {
    if j < k {
      OrphansWaitForExpiry(cfg, e, j, k - 1, d);
      assert StepsTo(cfg, e.states[k - 1], e.actions[k - 1], e.states[k - 1 + 1]);
      ActKeepsOrphan(cfg, e.states[k - 1], e.actions[k - 1], d);
    }
  }

  /** And expiry followed by a ping does free it. */
  lemma ExpiryFreesOrphan(cfg: Config, s: Sys, d: DriverId, at: Location, cell: Cell)
    requires Safe(cfg, s) && Orphan(s, d)
    ensures var s' := Act(cfg, Act(cfg, s, Expire(d)), Ping(d, at, cell));
            Safe(cfg, s') && s'.db.drivers[d].state == Available
  {
    ExpiryIsSafeIffUnheld(cfg, s, d);
    OthersAreSafe(cfg, Act(cfg, s, Expire(d)), Ping(d, at, cell));
  }
}
