/** What a dispatched trip adds to the surge demand of its cell, by way of the events its Run publishes. */
module Demand {
  import opened StateMachine
  import opened StoreSpec
  import opened Protocol
  import opened Isolation
  import opened Narrative
  import opened Surge

  /** The trip events, as the surge service records them; offer events go to another topic. The k-th event carries the
      time stamps(k). */
  function Fed(trace: seq<Protocol.Event>, stamps: nat -> Time): seq<Surge.Event> {
    if trace == [] then []
    else
      var n := |trace| - 1;
      Fed(trace[..n], stamps)
      + if trace[n].TripEvent?
        then [Trip(trace[n].cell, trace[n].trip, TripName(trace[n].tripState), stamps(n))] else []
  }

  /** Of a trip that waits, OFFERED is all that is reported. */
  lemma {:induction false} WaitingSaysNothingElse(
    trip: TripId, cell: Cell, ids: seq<DriverId>, maxRounds: int, trace: seq<Protocol.Event>, stamps: nat -> Time)
    requires ids != [] && trace != []
    requires var p := Parse(Unmarked, trip, cell, ids, maxRounds, trace); p.Some? && !p.value.Closed?
    ensures Fed(trace, stamps) == [Trip(cell, trip, TripName(TripOffered), stamps(0))]
  {
    var n := |trace| - 1;
    var before := trace[..n];
    if n == 0 {
      UnmarkedIsAnnounced(trip, cell, ids, maxRounds, trace);
      assert Fed(before, stamps) == [];
    } else {
      UnmarkedIsAnnounced(trip, cell, ids, maxRounds, before);
      WaitingSaysNothingElse(trip, cell, ids, maxRounds, before, stamps);
    }
  }

  /** From its announcement until its outcome a trip counts as demand for as long as the window lasts, whatever was
      recorded of it before. */
  lemma WaitingTripIsDemand(
    cfg: Config, env: Env, job: Job, db: Db, n: nat, h: seq<Surge.Event>, stamps: nat -> Time, now: Time, window: int)
    requires FoundIn(db, job.trip) == Some(TripRequested) && job.candidates != []
    requires var run := Started(cfg, env, job, db, n).0; run.trace != [] && (run.pc.Done? ==> run.pc.result.Failed?)
    ensures var trace := Started(cfg, env, job, db, n).0.trace;
            job.trip in OpenTrips(h + Fed(trace, stamps), job.cell, now, window) <==> now - stamps(0) <= window
  {
    EventsFollowTheGrammar(cfg, env, job, db, n);
    var trace := Started(cfg, env, job, db, n).0.trace;
    WaitingSaysNothingElse(job.trip, job.cell, job.candidates, cfg.maxRounds, trace, stamps);
    OpenAfterReport(h, job.cell, job.trip, TripOffered, stamps(0), now, window);
  }

  /** Once its Run has returned without an error, a trip is demand no longer, whichever way it was resolved. */
  lemma ResolvedTripIsNoDemand(
    cfg: Config, env: Env, job: Job, db: Db, n: nat, h: seq<Surge.Event>, stamps: nat -> Time, now: Time, window: int)
    requires var run := Started(cfg, env, job, db, n).0; run.pc.Done? && !run.pc.result.Failed?
    ensures var trace := Started(cfg, env, job, db, n).0.trace;
            job.trip !in OpenTrips(h + Fed(trace, stamps), job.cell, now, window)
  {
    RunTellsItsStory(cfg, env, job, db, n);
    var trace := Started(cfg, env, job, db, n).0.trace;
    var last := trace[|trace| - 1];
    var before := Fed(trace[..|trace| - 1], stamps);
    OpenAfterReport(h + before, job.cell, job.trip, last.tripState, stamps(|trace| - 1), now, window);
    assert h + Fed(trace, stamps)
           == h + before + [Trip(job.cell, job.trip, TripName(last.tripState), stamps(|trace| - 1))];
  }
}
