/** Recovery in company: what becomes of a trip whose Run is gone while the rest of the system goes on. */
module Abandonment {
  import opened StateMachine
  import opened StoreSpec
  import opened Protocol
  import opened Recovery
  import opened Interleaving

  lemma StepKeepsExpiry(cfg: Config, run: Run, db: Db, resp: Response, down: bool, t: TripId)
    requires InRange(run) && !run.pc.Done? && ExpiresWithin(cfg, db, t)
    ensures ExpiresWithin(cfg, Step(cfg, run, db, resp, down).1, t)
  {
  }

  /** In every interleaving no offer record outlives one window and grace from now. */
  lemma {:induction false} OffersExpire(cfg: Config, e: Execution, k: nat, t: TripId)
    requires IsExecution(cfg, e) && k < |e.states|
    ensures ExpiresWithin(cfg, e.states[k].db, t)
  {
    if k > 0 {
      OffersExpire(cfg, e, k - 1, t);
      var s, a := e.states[k - 1], e.actions[k - 1];
      assert StepsTo(cfg, s, a, e.states[k - 1 + 1]);
      if a.Turn? {
        StepKeepsExpiry(cfg, s.runs[a.run], s.db, a.resp, a.down, t);
      }
    }
  }

  /** a is a step of a Run for t. */
  predicate WorksOn(s: Sys, a: Action, t: TripId) {
    a.Turn? && a.run in s.runs && s.runs[a.run].trip == t
  }

  /** No Run works on t from step j to step k. */
  predicate LeftAlone(e: Execution, j: nat, k: nat, t: TripId)
    requires j <= k <= |e.actions| < |e.states|
  {
    forall i {:trigger WorksOn(e.states[i], e.actions[i], t)} :: j <= i < k ==> !WorksOn(e.states[i], e.actions[i], t)
  }

  lemma ActTouchesOwnTrip(cfg: Config, s: Sys, a: Action, t: TripId)
    requires Enabled(s, a) && t in s.db.trips.trips && !WorksOn(s, a, t)
    ensures SameTrip(s.db, Act(cfg, s, a).db, t)
  {
    if a.Turn? {
      StepTouchesOwnTrip(cfg, s.runs[a.run], s.db, a.resp, a.down);
    }
  }

  lemma SameTripChains(a: Db, b: Db, c: Db, t: TripId)
    requires SameTrip(a, b, t) && SameTrip(b, c, t)
    ensures SameTrip(a, c, t)
  {
  }

  lemma {:induction false} AloneStaysTheSame(cfg: Config, e: Execution, j: nat, k: nat, t: TripId)
    requires IsExecution(cfg, e) && j <= k < |e.states| && LeftAlone(e, j, k, t) && t in e.states[j].db.trips.trips
    ensures SameTrip(e.states[j].db, e.states[k].db, t)
    decreases k
  {
    if j < k {
      AloneStaysTheSame(cfg, e, j, k - 1, t);
      var s, a := e.states[k - 1], e.actions[k - 1];
      assert StepsTo(cfg, s, a, e.states[k - 1 + 1]);
      assert !WorksOn(s, a, t);
      ActTouchesOwnTrip(cfg, s, a, t);
      SameTripChains(e.states[j].db, s.db, e.states[k].db, t);
    }
  }

  /** Whatever else goes on, an OFFERED trip no Run works on any more is, one window and grace later, what a sweep looks
      for: listed, OFFERED and without a live offer. */
  lemma AbandonedTripBecomesStuck(cfg: Config, e: Execution, j: nat, k: nat, t: TripId)
    requires IsExecution(cfg, e) && j <= k < |e.states| && LeftAlone(e, j, k, t)
    requires InState(e.states[j].db, t, TripOffered)
    requires e.states[k].db.now >= e.states[j].db.now + cfg.window + OFFER_RECORD_GRACE
    ensures Stuck(e.states[k].db, t) && t in e.states[k].db.trips.offered
  {
    OffersExpire(cfg, e, j, t);
    AloneStaysTheSame(cfg, e, j, k, t);
    EveryExecutionIsSafe(cfg, e, k);
  }
}
