/** localHandler.Handle for a trip just created: candidate search, ranking and the offer loop, one after the other. */
module Requests {
  import opened StateMachine
  import opened StoreSpec
  import opened Protocol
  import opened Isolation
  import opened FirstAcceptor
  import opened DriverIndex
  import opened Stores
  import opened Dispatching
  import opened CandidateSearch
  import opened Ranking
  import opened Matching
  import opened Narrative

  /** The outcome of offering a trip to ranked drivers: the first acceptor among the best MaxRounds, alone changed. */
  ghost predicate BestAcceptor(
    cfg: Config, env: Env, trip: TripId, ranked: seq<Ranked>, before: Drivers, after: Db, matched: bool, d: DriverId)
  {
    var offers := Take(Names(ranked), cfg.maxRounds);
    var winner := FirstAcceptance(cfg, env, trip, |offers|);
    if winner > 0 then
      && matched && d == offers[winner - 1] && OnlyMoved(after.drivers, before, d, EnRoute)
      && InState(after, trip, TripMatched) && after.trips.trips[trip].matchedDriver == Some(d)
    else
      !matched && SameStates(after.drivers, before) && InState(after, trip, TripUnfulfilled)
  }

  lemma RunServesBest(
    cfg: Config, env: Env, job: Job, db: Db, n: nat, ix: Index, ranked: seq<Ranked>, matched: bool, d: DriverId)
    requires job.candidates == Names(ranked) && db.drivers == ix.records
    requires Willing(ix.records, Names(ranked)) == Names(ranked)
    requires Started(cfg, env, job, db, n).0.pc == Done(if matched then Matched(d) else Unmatched)
    ensures BestAcceptor(cfg, env, job.trip, ranked, db.drivers, Started(cfg, env, job, db, n).1, matched, d)
  {
    RunFindsFirstAcceptor(cfg, env, job, db, n);
  }

  class LocalHandler {
    const dispatcher: Dispatcher
    const matcher: Matcher

    constructor (dispatcher: Dispatcher, matcher: Matcher)
      ensures this.dispatcher == dispatcher && this.matcher == matcher
    {
      this.dispatcher := dispatcher;
      this.matcher := matcher;
    }

    /** A request ends as offering it to the shortlist does. On a complete, single-indexed store it is matched with the
        best-ranked AVAILABLE driver within the radius where the search stops who accepts, among the MaxRounds best; no
        other driver changes state. */
    method Handle(ctx: Context, trip: TripId, rider: Location, origin: Cell)
      returns (matched: bool, driver: DriverId, err: Option<Err>,
               ghost ranked: seq<Ranked>, ghost k: nat, ghost events: seq<Event>)
      modifies ctx, dispatcher.drivers, dispatcher.trips, dispatcher.offers, dispatcher.publisher
      ensures err.None? ==>
                && matcher.Shortlisted(old(dispatcher.drivers.Contents()), rider, origin, old(ctx.now), ranked, k)
                && Served(dispatcher.cfg, ctx.env, trip, origin, Names(ranked),
                          old(dispatcher.Snapshot(ctx)), dispatcher.Snapshot(ctx), events)
                && dispatcher.publisher.events == old(dispatcher.publisher.events) + events
      ensures err.None? && matcher.Searchable(old(dispatcher.drivers.Contents()), origin) ==>
                BestAcceptor(dispatcher.cfg, ctx.env, trip, ranked, old(dispatcher.drivers.records),
                             dispatcher.Snapshot(ctx), matched, driver)
    {
      ghost var ix, db := dispatcher.drivers.Contents(), dispatcher.Snapshot(ctx);
      matched, driver, events := false, "", [];
      var list;
      err, list, k := matcher.Shortlist(ctx, dispatcher.drivers, rider, origin);
      ranked := list;
      if err.Some? {
        return;
      }
      assert dispatcher.Snapshot(ctx) == db;
      ghost var job := Job(trip, origin, Names(list), ctx.steps);
      ghost var steps;
      matched, driver, err, steps := dispatcher.Run(ctx, trip, origin, Names(list));
      events := Started(dispatcher.cfg, ctx.env, job, db, steps).0.trace;
      if err.None? {
        RunTellsItsStory(dispatcher.cfg, ctx.env, job, db, steps);
        if matcher.Searchable(ix, origin) {
          RankedAreWilling(ranked, ix, matcher.grid, origin, k,
                           Setting(matcher.estimate, rider, matcher.rankCfg, db.now));
          RunServesBest(dispatcher.cfg, ctx.env, job, db, steps, ix, ranked, matched, driver);
        }
      }
    }
  }
}
