/** Before its first offer a living Run has nothing that tells a sweep it is alive. */
module EarlySweep {
  import opened StateMachine
  import opened StoreSpec
  import opened Protocol
  import opened Recovery
  import opened Interleaving
  import opened Protection

  /** Of all Runs started for t in the first k steps, each is r, and r has not crashed. */
  predicate ServedBy(e: Execution, k: nat, t: TripId, r: nat)
    requires k <= |e.actions|
  {
    forall a :: a in e.actions[..k] ==> (a.Spawn? && a.job.trip == t ==> a.id == r) && a != Crash(r)
  }

  /** r alone works on t, and t has an offer record only if r has made it. */
  ghost predicate MadeBy(s: Sys, t: TripId, r: nat) {
    && (forall x :: x in s.runs && s.runs[x].trip == t ==> x == r)
    && (t in s.db.offers.offers ==>
          r in s.runs && s.runs[r].trip == t && (Opened(s.runs[r]) || s.runs[r].pc.Done?))
  }

  lemma StepKeepsOpened(cfg: Config, run: Run, db: Db, resp: Response, down: bool)
    requires Counted(cfg, run) && !run.pc.Done?
    ensures var (run', db') := Step(cfg, run, db, resp, down);
            && run'.trip == run.trip
            && (Opened(run) || (run.trip in db'.offers.offers && run.trip !in db.offers.offers)
                ==> Opened(run') || run'.pc.Done?)
  {
  }

  lemma ActKeepsMadeBy(cfg: Config, s: Sys, a: Action, t: TripId, r: nat)
    requires RunsAreLocal(cfg, s) && MadeBy(s, t, r) && Enabled(s, a)
    requires (a.Spawn? && a.job.trip == t ==> a.id == r) && a != Crash(r)
    ensures MadeBy(Act(cfg, s, a), t, r)
  {
    if a.Turn? {
      StepKeepsOpened(cfg, s.runs[a.run], s.db, a.resp, a.down);
      StepTouchesOwnTrip(cfg, s.runs[a.run], s.db, a.resp, a.down);
      var db' := Act(cfg, s, a).db;
      assert s.runs[a.run].trip != t ==> SameTrip(s.db, db', t);
    }
  }

  lemma {:induction false} OffersAreMadeBy(cfg: Config, e: Execution, k: nat, t: TripId, r: nat)
    requires IsExecution(cfg, e) && k < |e.states| && ServedBy(e, k, t, r)
    ensures MadeBy(e.states[k], t, r)
  {
    if k > 0 {
      assert e.actions[..k] == e.actions[..k - 1] + [e.actions[k - 1]];
      OffersAreMadeBy(cfg, e, k - 1, t, r);
      EveryExecutionIsSafe(cfg, e, k - 1);
      assert StepsTo(cfg, e.states[k - 1], e.actions[k - 1], e.states[k - 1 + 1]);
      ActKeepsMadeBy(cfg, e.states[k - 1], e.actions[k - 1], t, r);
    }
  }

  /** The OFFERED trip of a Run at work looks dead to a sweep, whatever the configuration, as long as the Run has made
      no offer: while it marks the trip, and for as long as it loses every driver it tries to claim. If every backoff is
      below the grace it does so exactly then. */
  lemma LivingRunLooksDeadIff(cfg: Config, e: Execution, k: nat, r: nat)
    requires IsExecution(cfg, e) && k < |e.states| && Active(e.states[k], r)
    requires ServedBy(e, k, e.states[k].runs[r].trip, r)
    requires InState(e.states[k].db, e.states[k].runs[r].trip, TripOffered)
    ensures !Opened(e.states[k].runs[r]) ==> Stuck(e.states[k].db, e.states[k].runs[r].trip)
    ensures ShortSleeps(cfg) ==> (Stuck(e.states[k].db, e.states[k].runs[r].trip) <==> !Opened(e.states[k].runs[r]))
  {
    OffersAreMadeBy(cfg, e, k, e.states[k].runs[r].trip, r);
    if ShortSleeps(cfg) && Opened(e.states[k].runs[r]) {
      LivingRunIsNeverSwept(cfg, e, k, r);
    }
  }

  /** The state a Run leaves when it has just marked its trip OFFERED. */
  lemma MarkingLooksDead(cfg: Config, s: Sys, r: nat, resp: Response)
    requires Enabled(s, Turn(r, resp, false)) && s.runs[r].pc.MarkOffered? && Counted(cfg, s.runs[r])
    requires InState(s.db, s.runs[r].trip, TripRequested) && s.runs[r].trip !in s.db.offers.offers
    ensures var s' := Act(cfg, s, Turn(r, resp, false));
            Active(s', r) && Stuck(s'.db, s'.runs[r].trip) && !Opened(s'.runs[r]) && s'.runs[r].trip == s.runs[r].trip
  {
  }

  /** Under every configuration that state is reached: some execution ends in it. */
  lemma SomeLivingRunLooksDead(cfg: Config) returns (e: Execution)
    ensures IsExecution(cfg, e) && |e.states| == 5
    ensures Active(e.states[4], 0) && Stuck(e.states[4].db, e.states[4].runs[0].trip)
  {
    var origin := Location(0.0, 0.0);
    var s0 := Sys(Db(map[], TripTable(map[], {}), OfferTable(map[], map[]), 0), map[]);
    var a0, a1, a2 := CreateTrip("t", origin), Spawn(0, Job("t", 0, ["d"], 0)), Turn(0, NoResponse, false);
    var s1 := Act(cfg, s0, a0);
    var s2 := Act(cfg, s1, a1);
    var s3 := Act(cfg, s2, a2);
    assert s3.runs[0].pc.MarkOffered?;
    MarkingLooksDead(cfg, s3, 0, NoResponse);
    var s4 := Act(cfg, s3, a2);
    e := Execution([s0, s1, s2, s3, s4], [a0, a1, a2, a2]);
    forall k | 0 <= k < 4
      ensures StepsTo(cfg, e.states[k], e.actions[k], e.states[k + 1])
    {
      assert k == 0 || k == 1 || k == 2 || k == 3;
    }
  }
}
