/** Reconciler.Sweep: the recovery of trips whose dispatch loop died, from what the stores hold alone. */
module Reconciling {
  import opened StateMachine
  import opened StoreSpec
  import opened Protocol
  import opened Isolation
  import opened Stores
  import opened Dispatching
  import opened Recovery
  import opened FirstAcceptor
  import opened Narrative
  import opened DriverIndex
  import opened CandidateSearch
  import opened Ranking
  import opened Matching

  /** Trips listed and OFFERED before, and resolved after. */
  function Recovered(before: Db, after: Db): set<TripId> {
    set t | t in before.trips.offered && InState(before, t, TripOffered) && Resolved(after, t)
  }

  /** What a sweep has done when it returns. The count is the number of trips resolved. A sweep without an error has
      resolved every listed OFFERED trip that had no live offer; trips whose offer is still live at the end, trips not
      listed, and trips not OFFERED, are as they were; and no trip has left OFFERED other than by being resolved. */
  ghost predicate SweptFrom(before: Db, after: Db, recovered: nat, complete: bool) {
    && recovered == |Recovered(before, after)|
    && (complete ==>
          forall t :: t in before.trips.offered && Stuck(before, t)
                      ==> Resolved(after, t) && t !in after.trips.offered)
    && (forall t ::
          LiveOffer(before.offers, t, after.now) || t !in before.trips.offered || !InState(before, t, TripOffered)
          ==> SameTrip(before, after, t))
    && (forall t :: InState(before, t, TripOffered) ==> InState(after, t, TripOffered) || Resolved(after, t))
  }

  /** How far a sweep has come: it has examined `seen` and resolved `done` of them. */
  ghost predicate Progress(before: Db, now: Db, seen: set<TripId>, done: set<TripId>) {
    && before.now <= now.now && done <= seen <= before.trips.offered
    && (forall t :: t !in done ==> SameTrip(before, now, t))
    && (forall t :: t in seen && t !in done ==> !Stuck(before, t))
    && (forall t :: t in done ==>
          InState(before, t, TripOffered) && Resolved(now, t) && t !in now.trips.offered
          && !LiveOffer(before.offers, t, now.now))
  }

  /** One trip a sweep has dispatched again: the driver index searched, the shortlist with the radius searched, the
      stores before and after, and what was published. */
  datatype Resumption = Resumption(
    trip: TripId, cell: Cell, index: Index, ranked: seq<Ranked>, k: nat,
    before: Db, after: Db, events: seq<Protocol.Event>)

  function Trips(log: seq<Resumption>): set<TripId> {
    set k | 0 <= k < |log| :: log[k].trip
  }

  /** Everything published in these resumptions. */
  function Published(log: seq<Resumption>): seq<Protocol.Event> {
    if log == [] then [] else Published(log[..|log| - 1]) + log[|log| - 1].events
  }

  /** Each resumption finds the drivers as the one before it left them. */
  predicate Relayed(from: Drivers, log: seq<Resumption>, to: Drivers) {
    if log == [] then from == to
    else Relayed(from, log[..|log| - 1], log[|log| - 1].before.drivers) && log[|log| - 1].after.drivers == to
  }

  ghost predicate Throughout(log: seq<Resumption>, p: Resumption -> bool) {
    forall k :: 0 <= k < |log| ==> p(log[k])
  }

  /** Each trip was found as it was when the sweep began and is as its resumption left it. */
  ghost predicate Untouched(before: Db, log: seq<Resumption>, now: Db) {
    forall k :: 0 <= k < |log| ==>
      SameTrip(before, log[k].before, log[k].trip) && SameTrip(log[k].after, now, log[k].trip)
  }

  /** A sweep's log so far: what was published and what became of the drivers and the trips is all accounted for. */
  ghost predicate Accounts(
    before: Db, heard: seq<Protocol.Event>, log: seq<Resumption>, now: Db, events: seq<Protocol.Event>)
  {
    Untouched(before, log, now) && Relayed(before.drivers, log, now.drivers) && events == heard + Published(log)
  }

  class Reconciler {
    const dispatcher: Dispatcher
    const matcher: Matcher
    const cellFor: Location -> Option<Cell>

    constructor (dispatcher: Dispatcher, matcher: Matcher, cellFor: Location -> Option<Cell>)
      ensures this.dispatcher == dispatcher && this.matcher == matcher && this.cellFor == cellFor
    {
      this.dispatcher := dispatcher;
      this.matcher := matcher;
      this.cellFor := cellFor;
    }

    function Snapshot(ctx: Context): Db
      reads dispatcher.drivers, dispatcher.trips, dispatcher.offers, ctx
    {
      dispatcher.Snapshot(ctx)
    }

    /** A stuck trip was offered, from the cell of its origin, to the drivers a search there finds and ranks then. */
    ghost predicate Redispatched(env: Env, r: Resumption) {
      && Stuck(r.before, r.trip) && r.index.records == r.before.drivers
      && Served(dispatcher.cfg, env, r.trip, r.cell, Names(r.ranked), r.before, r.after, r.events)
      && var origin := r.before.trips.trips[r.trip].origin;
         cellFor(origin) == Some(r.cell) && matcher.Shortlisted(r.index, origin, r.cell, r.before.now, r.ranked, r.k)
    }

    /** What every resumption of a sweep is: of a stuck trip, on an index in order if the sweep found it so. */
    ghost function Right(env: Env, index: Index): Resumption -> bool {
      r => Redispatched(env, r) && (Findable(index) ==> Findable(r.index))
    }

    ghost predicate Rightly(env: Env, index: Index, log: seq<Resumption>) {
      |Trips(log)| == |log| && Throughout(log, Right(env, index))
    }

    /** resumeIfStuck: a trip with a live offer, or no longer OFFERED, is left alone; any other is dispatched again. */
    method ResumeIfStuck(ctx: Context, trip: TripId) returns (resumed: bool, err: Option<Err>, ghost r: Resumption)
      modifies ctx, dispatcher.drivers, dispatcher.trips, dispatcher.offers, dispatcher.publisher
      ensures TouchesOnly(trip, old(Snapshot(ctx)), Snapshot(ctx))
      ensures Findable(old(dispatcher.drivers.Contents())) ==> Findable(dispatcher.drivers.Contents())
      ensures resumed ==>
                && err.None? && Resolved(Snapshot(ctx), trip) && trip !in Snapshot(ctx).trips.offered
                && Redispatched(ctx.env, r) && r.trip == trip && r.index == old(dispatcher.drivers.Contents())
                && r.before == old(Snapshot(ctx)) && r.after == Snapshot(ctx)
                && dispatcher.publisher.events == old(dispatcher.publisher.events) + r.events
      ensures !resumed && err.None? ==>
                && Snapshot(ctx) == old(Snapshot(ctx)) && !Stuck(Snapshot(ctx), trip)
                && dispatcher.publisher.events == old(dispatcher.publisher.events)
      ensures err.Some? && Snapshot(ctx) != old(Snapshot(ctx)) ==>
                Stuck(old(Snapshot(ctx)), trip) && InState(Snapshot(ctx), trip, TripOffered)
    {
      ghost var before, index := Snapshot(ctx), dispatcher.drivers.Contents();
      resumed := false;
      r := Resumption(trip, 0, index, [], 0, before, before, []);
      var offerErr, offer := dispatcher.offers.GetOffer(ctx, trip);
      if offerErr.None? {
        return false, None, r;
      }
      if offerErr != Some(OfferNotFound) {
        return false, offerErr, r;
      }
      var getErr, rec := dispatcher.trips.GetTrip(ctx, trip);
      if getErr.Some? {
        return false, getErr, r;
      }
      if rec.value.state != TripOffered {
        return false, None, r;
      }
      var cell := cellFor(rec.value.origin);
      if cell.None? {
        return false, Some(SearchFailed), r;
      }
      var ranked;
      ghost var k;
      err, ranked, k := matcher.Shortlist(ctx, dispatcher.drivers, rec.value.origin, cell.value);
      if Findable(index) {
        SearchesKeepFindable(index, dispatcher.drivers.Contents(), dispatcher.drivers.records);
      }
      if err.Some? {
        return;
      }
      assert Snapshot(ctx) == before;
      resumed, err, r := Redispatch(ctx, trip, cell.value, rec.value.origin, ranked, index, k);
    }

    /** The last step of resumeIfStuck: Run, with the shortlist. */
    method Redispatch(ctx: Context, trip: TripId, cell: Cell, origin: Location, ranked: seq<Ranked>,
                      ghost index: Index, ghost k: nat)
      returns (resumed: bool, err: Option<Err>, ghost r: Resumption)
      requires Stuck(Snapshot(ctx), trip) && dispatcher.trips.trips[trip].origin == origin
      requires cellFor(origin) == Some(cell)
      requires matcher.Shortlisted(index, origin, cell, ctx.now, ranked, k)
      requires SameViews(index, dispatcher.drivers.Contents())
      modifies ctx, dispatcher.drivers`records, dispatcher.trips, dispatcher.offers, dispatcher.publisher
      ensures TouchesOnly(trip, old(Snapshot(ctx)), Snapshot(ctx))
      ensures Findable(index) ==> Findable(dispatcher.drivers.Contents())
      ensures resumed <==> err.None?
      ensures resumed ==>
                && Resolved(Snapshot(ctx), trip) && trip !in Snapshot(ctx).trips.offered
                && Redispatched(ctx.env, r) && r.trip == trip && r.index == index
                && r.before == old(Snapshot(ctx)) && r.after == Snapshot(ctx)
                && dispatcher.publisher.events == old(dispatcher.publisher.events) + r.events
      ensures !resumed ==> InState(Snapshot(ctx), trip, TripOffered)
    {
      ghost var before := Snapshot(ctx);
      ghost var swept := dispatcher.drivers.Contents();
      ghost var job := Job(trip, cell, Names(ranked), ctx.steps);
      var matched, driver;
      ghost var steps;
      matched, driver, err, steps := dispatcher.Run(ctx, trip, cell, Names(ranked));
      RunTouchesOwnTrip(dispatcher.cfg, ctx.env, job, before, steps);
      ResumedTripStaysOpen(dispatcher.cfg, ctx.env, job, before, steps);
      RunKeepsPlaces(dispatcher.cfg, ctx.env, job, before, steps);
      if Findable(index) {
        SearchesKeepFindable(index, swept, dispatcher.drivers.records);
      }
      ghost var events := Started(dispatcher.cfg, ctx.env, job, before, steps).0.trace;
      r := Resumption(trip, cell, index, ranked, k, before, Snapshot(ctx), events);
      if err.None? {
        RunTellsItsStory(dispatcher.cfg, ctx.env, job, before, steps);
      }
      resumed := err.None?;
    }

    /** A sweep that has examined `seen` and kept this log. */
    ghost predicate UnderWay(
      env: Env, index: Index, before: Db, heard: seq<Protocol.Event>, seen: set<TripId>, log: seq<Resumption>,
      now: Db, events: seq<Protocol.Event>)
    {
      Progress(before, now, seen, Trips(log)) && Accounts(before, heard, log, now, events) && Rightly(env, index, log)
    }

    lemma SetOut(env: Env, index: Index, before: Db, heard: seq<Protocol.Event>)
      ensures UnderWay(env, index, before, heard, {}, [], before, heard)
    {
      assert Trips([]) == {};
    }

    lemma Through(
      env: Env, index: Index, before: Db, heard: seq<Protocol.Event>, seen: set<TripId>, log: seq<Resumption>,
      now: Db, events: seq<Protocol.Event>)
      requires UnderWay(env, index, before, heard, seen, log, now, events)
      ensures SweptFrom(before, now, |log|, seen == before.trips.offered) && Recovered(before, now) == Trips(log)
      ensures Accounts(before, heard, log, now, events) && Rightly(env, index, log)
    {
      Stopped(before, now, seen, Trips(log));
    }

    lemma RightGrows(env: Env, index: Index, log: seq<Resumption>, r: Resumption, log': seq<Resumption>)
      requires Rightly(env, index, log) && Redispatched(env, r) && (Findable(index) ==> Findable(r.index))
      requires log' == log + [r] && |Trips(log')| == |log'|
      ensures Rightly(env, index, log')
    {
      assert Right(env, index)(r);
    }

    /** One iteration of a sweep that has so far examined `seen` and logged what it did. */
    method Examine(ctx: Context, trip: TripId, ghost before: Db, ghost index: Index, ghost heard: seq<Protocol.Event>,
                   ghost seen: set<TripId>, ghost log: seq<Resumption>)
      returns (resumed: bool, err: Option<Err>, ghost now: Db, ghost log': seq<Resumption>)
      requires trip !in seen && trip in before.trips.offered
      requires UnderWay(ctx.env, index, before, heard, seen, log, Snapshot(ctx), dispatcher.publisher.events)
      requires Findable(index) ==> Findable(dispatcher.drivers.Contents())
      modifies ctx, dispatcher.drivers, dispatcher.trips, dispatcher.offers, dispatcher.publisher
      ensures now == Snapshot(ctx)
      ensures Findable(index) ==> Findable(dispatcher.drivers.Contents())
      ensures err.None? ==>
                && |log'| == |log| + (if resumed then 1 else 0)
                && UnderWay(ctx.env, index, before, heard, seen + {trip}, log', now, dispatcher.publisher.events)
      ensures err.Some? ==>
                && log' == log && Rightly(ctx.env, index, log)
                && SweptFrom(before, now, |log|, false) && Recovered(before, now) == Trips(log)
    {
      ghost var prior, events := Snapshot(ctx), dispatcher.publisher.events;
      ghost var r;
      resumed, err, r := ResumeIfStuck(ctx, trip);
      now := Snapshot(ctx);
      log' := log;
      if err.Some? {
        BrokenOff(before, prior, now, seen, Trips(log), trip);
      } else {
        Examined(before, prior, now, seen, Trips(log), trip, resumed);
        if resumed {
          log' := log + [r];
          TripsGrow(log, r, log');
          AccountGrows(before, heard, log, prior, events, r, log');
          RightGrows(ctx.env, index, log, r, log');
        }
      }
    }

    /** Sweep. The trips it counts are those it has resolved, each dispatched again once, to the drivers a search and a
        ranking found at that point; nothing else was published and no other driver moved. */
    method Sweep(ctx: Context) returns (recovered: nat, err: Option<Err>, ghost log: seq<Resumption>)
      modifies ctx, dispatcher.drivers, dispatcher.trips, dispatcher.offers, dispatcher.publisher
      ensures SweptFrom(old(Snapshot(ctx)), Snapshot(ctx), recovered, err.None?)
      ensures Rightly(ctx.env, old(dispatcher.drivers.Contents()), log) && |log| == recovered
      ensures Trips(log) == Recovered(old(Snapshot(ctx)), Snapshot(ctx))
      ensures err.None? ==>
                Accounts(old(Snapshot(ctx)), old(dispatcher.publisher.events), log,
                         Snapshot(ctx), dispatcher.publisher.events)
    {
      ghost var before, index := Snapshot(ctx), dispatcher.drivers.Contents();
      ghost var heard := dispatcher.publisher.events;
      recovered, log := 0, [];
      var listErr, ids := dispatcher.trips.OfferedTrips(ctx);
      ghost var seen: set<TripId> := {};
      ghost var now := Snapshot(ctx);
      SetOut(ctx.env, index, before, heard);
      if listErr.Some? {
        Through(ctx.env, index, before, heard, seen, log, now, heard);
        return 0, listErr, log;
      }
      for i := 0 to |ids|
        invariant now == Snapshot(ctx) && recovered == |log|
        invariant forall k :: 0 <= k < i ==> ids[k] in seen
        invariant forall k :: i <= k < |ids| ==> ids[k] !in seen
        invariant forall t :: t in seen ==> t in before.trips.offered
        invariant UnderWay(ctx.env, index, before, heard, seen, log, now, dispatcher.publisher.events)
        invariant Findable(index) ==> Findable(dispatcher.drivers.Contents())
      {
        var id := ids[i];
        assert id in ids;
        var resumed;
        resumed, err, now, log := Examine(ctx, id, before, index, heard, seen, log);
        if err.Some? {
          return;
        }
        seen := seen + {id};
        if resumed {
          recovered := recovered + 1;
        }
      }
      assert forall t :: t in before.trips.offered ==> t in ids;
      Through(ctx.env, index, before, heard, seen, log, now, dispatcher.publisher.events);
      err := None;
    }

    /** A trip that is the only one OFFERED, and stuck, is matched by a sweep without an error with the first acceptor
        among those shortlisted for it, who alone goes EN_ROUTE, or is UNFULFILLED if none of them accepts. */
    lemma LoneStuckTripIsServed(
      env: Env, index: Index, before: Db, heard: seq<Protocol.Event>, log: seq<Resumption>,
      after: Db, events: seq<Protocol.Event>, trip: TripId)
      requires Stuck(before, trip) && before.trips.offered == {trip}
      requires SweptFrom(before, after, |log|, true) && Trips(log) == Recovered(before, after)
      requires Accounts(before, heard, log, after, events) && Rightly(env, index, log)
      ensures |log| == 1 && log[0].trip == trip && log[0].before.drivers == before.drivers
      ensures Decided(dispatcher.cfg, env, trip, Names(log[0].ranked), before.drivers, after)
      ensures events == heard + log[0].events
    {
      assert Recovered(before, after) == {trip};
      assert |Trips(log)| == 1;
      OneResumption(before, log, after, trip);
      assert Right(env, index)(log[0]);
    }
  }

  lemma AccountGrows(
    before: Db, heard: seq<Protocol.Event>, log: seq<Resumption>,
    prior: Db, events: seq<Protocol.Event>, r: Resumption, log': seq<Resumption>)
    requires Accounts(before, heard, log, prior, events) && log' == log + [r]
    requires r.trip !in Trips(log) && r.before == prior && SameTrip(before, prior, r.trip)
    requires TouchesOnly(r.trip, prior, r.after)
    ensures Accounts(before, heard, log', r.after, events + r.events)
  {
    StaysUntouched(before, prior, log, r);
    assert log'[..|log'| - 1] == log;
  }

  /** The drivers, the events and the trip of a sweep that resumed one trip. */
  lemma OneResumption(before: Db, log: seq<Resumption>, after: Db, trip: TripId)
    requires |log| == 1 && Trips(log) == {trip}
    requires Untouched(before, log, after) && Relayed(before.drivers, log, after.drivers)
    ensures log[0].trip == trip && log[0].before.drivers == before.drivers && log[0].after.drivers == after.drivers
    ensures Published(log) == log[0].events && SameTrip(log[0].after, after, trip)
  {
    assert log[0].trip in Trips(log);
    assert log[..0] == [];
  }

  lemma TripsGrow(log: seq<Resumption>, r: Resumption, log': seq<Resumption>)
    requires |Trips(log)| == |log| && r.trip !in Trips(log) && log' == log + [r]
    ensures Trips(log') == Trips(log) + {r.trip} && |Trips(log')| == |log'|
  {
    forall t
      ensures t in Trips(log') <==> t in Trips(log) || t == r.trip
    {
      if t in Trips(log) {
        var k :| 0 <= k < |log| && log[k].trip == t;
        assert log'[k].trip == t;
      }
      assert log'[|log|].trip == r.trip;
    }
  }

  lemma StaysUntouched(before: Db, prior: Db, log: seq<Resumption>, r: Resumption)
    requires Untouched(before, log, prior) && r.trip !in Trips(log)
    requires r.before == prior && TouchesOnly(r.trip, prior, r.after) && SameTrip(before, prior, r.trip)
    ensures Untouched(before, log + [r], r.after)
  {
    forall k | 0 <= k < |log + [r]|
      ensures SameTrip(before, (log + [r])[k].before, (log + [r])[k].trip)
      ensures SameTrip((log + [r])[k].after, r.after, (log + [r])[k].trip)
    {
      if k < |log| {
        assert log[k].trip in Trips(log);
        StaysSame(log[k].after, prior, r.after, log[k].trip);
      }
    }
  }

  lemma StaysSame(a: Db, b: Db, c: Db, t: TripId)
    requires SameTrip(a, b, t) && SameTrip(b, c, t)
    ensures SameTrip(a, c, t)
  {
  }

  /** Examining one more trip, resolved or left alone. */
  lemma Examined(
    before: Db, prior: Db, now: Db, seen: set<TripId>, done: set<TripId>, t: TripId, resumed: bool)
    requires Progress(before, prior, seen, done) && t !in seen && t in before.trips.offered
    requires TouchesOnly(t, prior, now)
    requires resumed ==>
               Stuck(prior, t) && Resolved(now, t) && t !in now.trips.offered
    requires !resumed ==> now == prior && !Stuck(now, t)
    ensures Progress(before, now, seen + {t}, if resumed then done + {t} else done)
  {
    assert SameTrip(before, prior, t);
    forall x | x != t
      ensures x in done ==> Resolved(now, x) && x !in now.trips.offered
      ensures SameTrip(before, prior, x) ==> SameTrip(before, now, x)
    {
      assert SameTrip(prior, now, x);
    }
  }

  /** A sweep that stops short, with or without an error, having examined `seen`. */
  lemma Stopped(before: Db, now: Db, seen: set<TripId>, done: set<TripId>)
    requires Progress(before, now, seen, done)
    ensures SweptFrom(before, now, |done|, seen == before.trips.offered) && Recovered(before, now) == done
  {
    forall x
      ensures x in Recovered(before, now) <==> x in done
      ensures x !in done ==> SameTrip(before, now, x)
    {
      assert x !in done ==> SameTrip(before, now, x);
    }
    assert Recovered(before, now) == done;
  }

  /** A resume that failed part way has left its trip OFFERED and every other as it was. */
  lemma BrokenOff(before: Db, prior: Db, now: Db, seen: set<TripId>, done: set<TripId>, t: TripId)
    requires Progress(before, prior, seen, done) && t !in seen && t in before.trips.offered
             && TouchesOnly(t, prior, now)
    requires now != prior ==> Stuck(prior, t) && InState(now, t, TripOffered)
    ensures SweptFrom(before, now, |done|, false) && Recovered(before, now) == done
  {
    assert SameTrip(before, prior, t);
    if now == prior {
      Stopped(before, now, seen, done);
    } else {
      forall x
        ensures x in Recovered(before, now) <==> x in done
        ensures x !in done && x != t ==> SameTrip(before, now, x)
        ensures x in done ==> !LiveOffer(before.offers, x, now.now) && x in before.trips.offered
      {
        assert x != t ==> SameTrip(prior, now, x);
        assert x !in done ==> SameTrip(before, prior, x);
      }
      assert Recovered(before, now) == done;
    }
  }

  /** Crash, then sweep: once the last offer of a Run stopped anywhere has run out, a sweep without an error leaves its
      trip resolved exactly when the Run had got as far as marking it OFFERED, or had resolved it itself. */
  lemma CrashedRunIsRecovered(
    cfg: Config, env: Env, job: Job, db: Db, n: nat, later: nat, after: Db, recovered: nat)
    requires Indexed(db.trips) && job.trip in db.trips.trips && ExpiresWithin(cfg, db, job.trip)
    requires later >= Started(cfg, env, job, db, n).1.now + cfg.window + OFFER_RECORD_GRACE
    requires SweptFrom(Started(cfg, env, job, db, n).1.(now := later), after, recovered, true)
    ensures Resolved(after, job.trip) <==> !InState(Started(cfg, env, job, db, n).1, job.trip, TripRequested)
    ensures !Resolved(after, job.trip) ==> InState(after, job.trip, TripRequested)
  {
    CrashLeavesTripRecoverable(cfg, env, job, db, n, later);
    var crashed := Started(cfg, env, job, db, n).1.(now := later);
    if InState(crashed, job.trip, TripOffered) {
      assert Stuck(crashed, job.trip);
    } else {
      assert SameTrip(crashed, after, job.trip);
    }
  }
}
