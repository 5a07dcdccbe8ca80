/** TripStore.transitionTo as the two writes it makes, the trip hash and then the offered index, and SetOfferState as
    its two, the offer and then the reverse index, each cut off between them: by a crash, or by an error of the second
    write. This is what the atomic-step assumption leaves out of recovery and of failing calls. */
module SplitTransition {
  import opened StateMachine
  import opened StoreSpec
  import opened Protocol
  import opened Recovery
  import opened Reconciling
  import opened Interleaving
  import Orphans

  /** The tables when the process stops after this many of the writes. */
  function Cut(t: TripTable, id: TripId, to: TripState, driver: Option<DriverId>, writes: nat): TripTable {
    var whole := MoveTrip(t, id, to, driver).table;
    if writes == 0 then t else if writes == 1 then TripTable(whole.trips, t.offered) else whole
  }

  /** The index survives every cut but the one between the writes of a change into or out of OFFERED. */
  lemma CutKeepsIndexIff(t: TripTable, id: TripId, to: TripState, driver: Option<DriverId>, writes: nat)
    requires Indexed(t)
    ensures Indexed(Cut(t, id, to, driver, writes))
            <==> !(writes == 1 && MoveTrip(t, id, to, driver).err.None?
                   && (to == TripOffered || t.trips[id].state == TripOffered))
  {
    MoveTripKeepsIndexed(t, id, to, driver);
    var cut := Cut(t, id, to, driver, writes);
    if MoveTrip(t, id, to, driver).err.None? {
      assert id in cut.offered <==> (if writes <= 1 then id in t.offered else to == TripOffered);
    }
  }

  /** b is what some sweep, at any later time, with or without an error, made of a. */
  ghost predicate SweptLater(a: Db, b: Db) {
    exists now: nat, recovered: nat, complete: bool :: SweptFrom(a.(now := now), b, recovered, complete)
  }

  ghost predicate Sweeps(dbs: seq<Db>) {
    |dbs| > 1 ==> SweptLater(dbs[0], dbs[1]) && Sweeps(dbs[1..])
  }

  /** No number of sweeps touches a trip that is unlisted, or listed but not OFFERED. */
  lemma {:induction false} SweepsPassOver(dbs: seq<Db>, id: TripId)
    requires dbs != [] && Sweeps(dbs)
    requires id !in dbs[0].trips.offered || !InState(dbs[0], id, TripOffered)
    ensures SameTrip(dbs[0], dbs[|dbs| - 1], id)
  {
    if |dbs| > 1 {
      var now: nat, recovered: nat, complete: bool :| SweptFrom(dbs[0].(now := now), dbs[1], recovered, complete);
      assert SameTrip(dbs[0].(now := now), dbs[1], id);
      SweepsPassOver(dbs[1..], id);
    }
  }

  /** A crash between the writes that open a trip for offers strands it: OFFERED, unlisted, and passed over by every
      later sweep. A crash between the writes that resolve one is harmless: it stays as it was resolved. */
  lemma CutIsHarmlessIffNotOpening(db: Db, id: TripId, to: TripState, driver: Option<DriverId>, dbs: seq<Db>)
    requires Indexed(db.trips) && MoveTrip(db.trips, id, to, driver).err.None?
    requires dbs != [] && Sweeps(dbs) && dbs[0] == db.(trips := Cut(db.trips, id, to, driver, 1))
    ensures var last := dbs[|dbs| - 1];
            && InState(last, id, to) && (Resolved(last, id) <==> to != TripOffered)
            && (to == TripMatched && driver.Some? ==> last.trips.trips[id].matchedDriver == driver)
  {
    SweepsPassOver(dbs, id);
  }

  /** A commit whose second write fails: the trip is MATCHED and still listed, and its Run reports an error. */
  function HalfCommitted(s: Sys, r: nat): Sys
    requires r in s.runs && s.runs[r].pc.Commit? && InRange(s.runs[r])
  {
    var run := s.runs[r];
    Sys(s.db.(trips := Cut(s.db.trips, run.trip, TripMatched, Some(run.candidates[run.i]), 1)),
        s.runs[r := Fail(run, Io)])
  }

  /** Unlike the other errors of a Run, that one strands nobody: the trip itself holds the driver. */
  lemma HalfCommitStrandsNobody(cfg: Config, s: Sys, r: nat)
    requires Safe(cfg, s) && Active(s, r) && s.runs[r].pc.Commit? && InRange(s.runs[r])
    requires InState(s.db, s.runs[r].trip, TripOffered)
    ensures var d := s.runs[r].candidates[s.runs[r].i];
            var s' := HalfCommitted(s, r);
            && Holds(s', ByTrip(s.runs[r].trip), d) && !Orphans.Orphan(s', d)
            && d in s'.db.drivers && s'.db.drivers[d].state == EnRoute
            && s.runs[r].trip in s'.db.trips.offered && !Indexed(s'.db.trips)
  {
    var d := s.runs[r].candidates[s.runs[r].i];
    assert Holds(s, ByRun(r), d);
    assert Busy(s, d, ByRun(r));
    assert Holds(HalfCommitted(s, r), ByTrip(s.runs[r].trip), d);
  }

  /** SetOfferState stopped after this many of its writes. */
  function CutSettle(o: OfferTable, id: TripId, d: DriverId, to: OfferState, now: nat, writes: nat): OfferTable {
    var whole := SettleOffer(o, id, d, to, now).table;
    if writes == 0 then o else if writes == 1 then OfferTable(whole.offers, o.openFor) else whole
  }

  /** Stopped between the writes, the offer is settled for good, but its driver is still led to it until the
      deadline. */
  lemma CutSettleMisleadsUntilDeadline(
    o: OfferTable, id: TripId, d: DriverId, to: OfferState, now: nat, later: nat, again: OfferState)
    requires SettleOffer(o, id, d, to, now).err.None? && now <= later
    requires d in o.openFor && o.openFor[d] == OpenOffer(id, o.offers[id].expiresAt)
    ensures var cut := CutSettle(o, id, d, to, now, 1);
            && (CurrentOffer(cut, d, later) == Some(id) <==> later < o.offers[id].expiresAt)
            && SettleOffer(cut, id, d, again, later).err
               == Some(if later < o.offers[id].expiresAt then IllegalOffer(to, again) else OfferNotFound)
    ensures CurrentOffer(CutSettle(o, id, d, to, now, 2), d, later) == None
  {
  }
}
