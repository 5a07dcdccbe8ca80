/** A trip served by one Run: its offers stay its own, so that only failing calls can lose a driver. */
module SoleRun {
  import opened StateMachine
  import opened StoreSpec
  import opened Protocol
  import opened Recovery
  import opened Interleaving
  import opened EarlySweep
  import opened Orphans

  /** In the loop the trip is OFFERED; while an answer is awaited or to be recorded, the trip's offer is the PENDING one
      of this round, with the whole grace to go. */
  predicate Owns(cfg: Config, run: Run, db: Db) {
    && (run.pc.Claim? || run.pc.Open? || run.pc.Await? || run.pc.Settle?
        || run.pc.Engage? || run.pc.Commit? || run.pc.Release? || run.pc.Pause?
        ==> InState(db, run.trip, TripOffered))
    && (run.pc.Await? || run.pc.Settle? ==>
          && run.i < |run.candidates| && run.trip in db.offers.offers
          && var o := db.offers.offers[run.trip];
             && o.driver == run.candidates[run.i] && o.state == OfferPending
             && o.round == run.rounds && o.createdAt == run.openedAt
             && o.expiresAt == run.openedAt + cfg.window + OFFER_RECORD_GRACE
             && db.now <= run.openedAt + cfg.window
             && (run.pc.Await? ==> run.pc.until == run.openedAt + cfg.window))
  }

  lemma AskingKeepsOwns(cfg: Config, run: Run, db: Db, resp: Response, down: bool)
    requires InRange(run) && Owns(cfg, run, db)
    requires run.pc.Load? || run.pc.MarkOffered? || run.pc.Claim? || run.pc.Open? || run.pc.Await?
    ensures var t := Step(cfg, run, db, resp, down); Owns(cfg, t.0, t.1) && t.0.trip == run.trip
  {
  }

  lemma ClosingKeepsOwns(cfg: Config, run: Run, db: Db, resp: Response, down: bool)
    requires InRange(run) && Owns(cfg, run, db) && !run.pc.Done?
    requires !(run.pc.Load? || run.pc.MarkOffered? || run.pc.Claim? || run.pc.Open? || run.pc.Await?)
    ensures var t := Step(cfg, run, db, resp, down); Owns(cfg, t.0, t.1) && t.0.trip == run.trip
  {
  }

  lemma StepKeepsOwns(cfg: Config, run: Run, db: Db, resp: Response, down: bool)
    requires InRange(run) && !run.pc.Done? && Owns(cfg, run, db)
    ensures var t := Step(cfg, run, db, resp, down); Owns(cfg, t.0, t.1) && t.0.trip == run.trip
  {
    if run.pc.Load? || run.pc.MarkOffered? || run.pc.Claim? || run.pc.Open? || run.pc.Await? {
      AskingKeepsOwns(cfg, run, db, resp, down);
    } else {
      ClosingKeepsOwns(cfg, run, db, resp, down);
    }
  }

  /** r alone works on t, and what r takes for its own is. */
  ghost predicate Solely(cfg: Config, s: Sys, t: TripId, r: nat) {
    && (forall x :: x in s.runs && s.runs[x].trip == t ==> x == r)
    && (r in s.runs && s.runs[r].trip == t ==> Owns(cfg, s.runs[r], s.db))
  }

  lemma OthersKeepOwns(cfg: Config, s: Sys, a: Action, r: nat)
    requires r in s.runs && Owns(cfg, s.runs[r], s.db) && Enabled(s, a)
    requires a.Turn? ==> a.run != r && s.runs[a.run].trip != s.runs[r].trip
    ensures r in Act(cfg, s, a).runs && Act(cfg, s, a).runs[r] == s.runs[r] ==> Owns(cfg, s.runs[r], Act(cfg, s, a).db)
  {
    if a.Turn? {
      StepTouchesOwnTrip(cfg, s.runs[a.run], s.db, a.resp, a.down);
      assert SameTrip(s.db, Act(cfg, s, a).db, s.runs[r].trip);
    } else {
      assert !s.runs[r].pc.Done? ==> Active(s, r);
    }
  }

  lemma ActKeepsSolely(cfg: Config, s: Sys, a: Action, t: TripId, r: nat)
    requires Solely(cfg, s, t, r) && Enabled(s, a) && (a.Spawn? && a.job.trip == t ==> a.id == r)
    ensures Solely(cfg, Act(cfg, s, a), t, r)
  {
    if a.Turn? {
      StepTouchesOwnTrip(cfg, s.runs[a.run], s.db, a.resp, a.down);
    }
    if r in s.runs && s.runs[r].trip == t {
      if a.Turn? && a.run == r {
        StepKeepsOwns(cfg, s.runs[r], s.db, a.resp, a.down);
      } else {
        OthersKeepOwns(cfg, s, a, r);
      }
    }
  }

  lemma {:induction false} SoleRunOwnsItsOffer(cfg: Config, e: Execution, k: nat, t: TripId, r: nat)
    requires IsExecution(cfg, e) && k < |e.states| && ServedBy(e, k, t, r)
    ensures Solely(cfg, e.states[k], t, r)
  {
    if k > 0 {
      assert e.actions[..k] == e.actions[..k - 1] + [e.actions[k - 1]];
      SoleRunOwnsItsOffer(cfg, e, k - 1, t, r);
      assert StepsTo(cfg, e.states[k - 1], e.actions[k - 1], e.states[k - 1 + 1]);
      ActKeepsSolely(cfg, e.states[k - 1], e.actions[k - 1], t, r);
    }
  }

  /** In every interleaving, a step of the only Run on a trip strands the driver it holds exactly when its call fails,
      whatever the rest of the system is doing. */
  lemma SoleRunOrphansIffCallFails(cfg: Config, e: Execution, k: nat, r: nat, resp: Response, down: bool, d: DriverId)
    requires IsExecution(cfg, e) && k < |e.states| && Enabled(e.states[k], Turn(r, resp, down))
    requires Holds(e.states[k], ByRun(r), d) && ServedBy(e, k, e.states[k].runs[r].trip, r)
    ensures Orphan(Act(cfg, e.states[k], Turn(r, resp, down)), d) <==> down && !e.states[k].runs[r].pc.Await?
  {
    SoleRunOwnsItsOffer(cfg, e, k, e.states[k].runs[r].trip, r);
    EveryExecutionIsSafe(cfg, e, k);
    TurnOrphansIffEnds(cfg, e.states[k], r, resp, down, d);
  }

  /** No call fails, no Run crashes and no hash expires. */
  predicate Untroubled(e: Execution) {
    forall a :: a in e.actions ==> (a.Turn? ==> !a.down) && !a.Crash? && !a.Expire?
  }

  /** Each trip's Runs are one Run, as when every request is dispatched once and no sweep resumes it. */
  predicate OneRunEach(e: Execution) {
    forall k, r :: 0 <= k < |e.states| && k <= |e.actions| && r in e.states[k].runs ==>
      ServedBy(e, k, e.states[k].runs[r].trip, r)
  }

  lemma StepLosesNoOther(cfg: Config, run: Run, db: Db, resp: Response, down: bool, d: DriverId)
    requires InRange(run) && !run.pc.Done? && !Occupied(run, d)
    ensures var (run', db') := Step(cfg, run, db, resp, down);
            d in db'.drivers ==> d in db.drivers && (db'.drivers[d] == db.drivers[d] || Occupied(run', d))
  {
  }

  lemma HoldsPersists(cfg: Config, s: Sys, a: Action, h: Holder, d: DriverId)
    requires Holds(s, h, d) && Enabled(s, a) && !a.Crash? && (a.Turn? ==> h != ByRun(a.run))
    ensures Holds(Act(cfg, s, a), h, d)
  {
    if h.ByTrip? && a.Turn? {
      StepKeepsTrips(cfg, s.runs[a.run], s.db, a.resp, a.down, h.trip);
    }
  }

  lemma UntroubledActLosesNone(cfg: Config, e: Execution, k: nat, d: DriverId)
    requires IsExecution(cfg, e) && Untroubled(e) && OneRunEach(e) && k < |e.actions|
    requires !Orphan(e.states[k], d)
    ensures !Orphan(e.states[k + 1], d)
  {
    var s, a := e.states[k], e.actions[k];
    assert StepsTo(cfg, s, a, e.states[k + 1]);
    assert a in e.actions;
    if a.Turn? && Holds(s, ByRun(a.run), d) {
      assert ServedBy(e, k, s.runs[a.run].trip, a.run);
      SoleRunOrphansIffCallFails(cfg, e, k, a.run, a.resp, a.down, d);
    } else if h :| Holds(s, h, d) {
      HoldsPersists(cfg, s, a, h, d);
    } else if a.Turn? {
      StepLosesNoOther(cfg, s.runs[a.run], s.db, a.resp, a.down, d);
      assert Occupied(e.states[k + 1].runs[a.run], d) ==> Holds(e.states[k + 1], ByRun(a.run), d);
    }
  }

  /** Where no call fails, no Run crashes, no hash expires and each trip has one Run, no driver is ever stranded. */
  lemma {:induction false} NoDriverIsLost(cfg: Config, e: Execution, k: nat, d: DriverId)
    requires IsExecution(cfg, e) && Untroubled(e) && OneRunEach(e) && k < |e.states|
    requires !Orphan(e.states[0], d)
    ensures !Orphan(e.states[k], d)
  {
    if k > 0 {
      NoDriverIsLost(cfg, e, k - 1, d);
      UntroubledActLosesNone(cfg, e, k - 1, d);
    }
  }

  // ---- a second Run --------------------------------------------------------

  lemma Take(cfg: Config, e: Execution, a: Action) returns (e': Execution)
    requires IsExecution(cfg, e) && Untroubled(e) && Enabled(Last(e), a)
    requires (a.Turn? ==> !a.down) && !a.Crash? && !a.Expire?
    ensures IsExecution(cfg, e') && Untroubled(e') && Last(e') == Act(cfg, Last(e), a)
    ensures e.states <= e'.states && e.actions + [a] == e'.actions
  {
    e' := Extend(e, a, Act(cfg, Last(e), a));
    ExtendIsExecution(cfg, e, a, Act(cfg, Last(e), a));
  }

  /** r is at the claim of its only candidate, a free driver, for an OFFERED trip. */
  predicate Poised(s: Sys, r: nat, t: TripId, d: DriverId) {
    && r in s.runs && s.runs[r].pc.Claim? && s.runs[r].trip == t && s.runs[r].candidates == [d] && s.runs[r].i == 0
    && InState(s.db, t, TripOffered) && d in s.db.drivers && s.db.drivers[d].state == Available
  }

  predicate Asking(s: Sys, r: nat, t: TripId, d: DriverId) {
    && r in s.runs && s.runs[r].pc.Await? && s.runs[r].trip == t && s.runs[r].candidates == [d] && s.runs[r].i == 0
    && LiveOffer(s.db.offers, t, s.db.now) && s.db.offers.offers[t].driver == d
  }

  /** Claim and open. */
  lemma TakesTheOffer(cfg: Config, e: Execution, r: nat, t: TripId, d: DriverId) returns (e': Execution)
    requires IsExecution(cfg, e) && Untroubled(e) && Poised(Last(e), r, t, d)
    ensures IsExecution(cfg, e') && Untroubled(e') && Asking(Last(e'), r, t, d)
    ensures e.states <= e'.states && e.actions <= e'.actions && InState(Last(e').db, t, TripOffered)
    ensures forall x :: x in Last(e).runs && x != r ==> x in Last(e').runs && Last(e').runs[x] == Last(e).runs[x]
    ensures forall x :: x in Last(e).db.drivers && x != d ==>
              x in Last(e').db.drivers && Last(e').db.drivers[x] == Last(e).db.drivers[x]
  {
    e' := Take(cfg, e, Turn(r, NoResponse, false));
    assert Last(e').runs[r].pc.Open?;
    e' := Take(cfg, e', Turn(r, NoResponse, false));
  }

  /** A Run that has just marked its trip OFFERED, and looks dead. */
  lemma MarkedRun(cfg: Config, t: TripId, d: DriverId, c: DriverId) returns (e: Execution)
    requires cfg.maxRounds > 0 && c != d
    ensures IsExecution(cfg, e) && Untroubled(e) && Poised(Last(e), 0, t, d) && Stuck(Last(e).db, t)
    ensures 1 !in Last(e).runs && c in Last(e).db.drivers && Last(e).db.drivers[c].state == Available
  {
    var origin := Location(0.0, 0.0);
    var free := DriverRecord(origin, 0, Available, 0, None);
    e := Execution([Sys(Db(map[d := free, c := free], TripTable(map[], {}), OfferTable(map[], map[]), 0), map[])], []);
    e := Take(cfg, e, CreateTrip(t, origin));
    e := Take(cfg, e, Spawn(0, Job(t, 0, [d], 0)));
    e := Take(cfg, e, Turn(0, NoResponse, false));
    assert Last(e).runs[0].pc.MarkOffered?;
    e := Take(cfg, e, Turn(0, NoResponse, false));
  }

  /** A sweep that resumes the trip of a living Run costs a driver: without any failing call, crash or expiry, the
      second Run's offer replaces the first's, and the first Run's driver, whether they accept, decline or say nothing,
      is stranded. */
  lemma SecondRunStrandsFirstsDriver(cfg: Config, t: TripId, d: DriverId, c: DriverId, resp: Response)
    returns (e: Execution, n: nat)
    requires cfg.maxRounds > 0 && c != d
    ensures IsExecution(cfg, e) && Untroubled(e) && Orphan(Last(e), d)
    ensures n < |e.actions| && e.actions[n] == Spawn(1, Job(t, 0, [c], 0)) && Stuck(e.states[n].db, t)
  {
    e := MarkedRun(cfg, t, d, c);
    n := |e.actions|;
    var marked := Last(e);
    e := Take(cfg, e, Spawn(1, Job(t, 0, [c], 0)));
    e := Take(cfg, e, Turn(1, NoResponse, false));
    e := TakesTheOffer(cfg, e, 0, t, d);
    e := TakesTheOffer(cfg, e, 1, t, c);
    assert e.states[n] == marked;
    e := SettlesInVain(cfg, e, t, d, c, resp);
  }

  lemma SettlesInVain(cfg: Config, e: Execution, t: TripId, d: DriverId, c: DriverId, resp: Response)
    returns (e': Execution)
    requires IsExecution(cfg, e) && Untroubled(e) && c != d && 0 in Last(e).runs && Last(e).runs[0].pc.Await?
    requires Last(e).runs[0].trip == t && Last(e).runs[0].candidates == [d] && Last(e).runs[0].i == 0
    requires LiveOffer(Last(e).db.offers, t, Last(e).db.now) && Last(e).db.offers.offers[t].driver == c
    ensures IsExecution(cfg, e') && Untroubled(e') && Orphan(Last(e'), d)
    ensures e.states <= e'.states && e.actions <= e'.actions
  {
    e' := Take(cfg, e, Turn(0, resp, false));
    EveryExecutionIsSafe(cfg, e', |e'.states| - 1);
    assert Holds(Last(e'), ByRun(0), d);
    ReplacedOfferOrphans(cfg, Last(e'), 0, NoResponse, d);
    e' := Take(cfg, e', Turn(0, NoResponse, false));
  }
}
