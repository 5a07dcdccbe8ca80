/** The driver hashes together with the cell sets that index them, over all runs of pings, state changes, expiries and
    stale-member sweeps, each taken as one atomic step. */
module DriverIndex {
  import opened StateMachine
  import opened StoreSpec

  datatype Index = Index(records: map<DriverId, DriverRecord>, members: map<Cell, set<DriverId>>)

  const EMPTY := Index(map[], map[])

  /** SMEMBERS; a set without members has no key. */
  function Members(members: map<Cell, set<DriverId>>, c: Cell): set<DriverId> {
    if c in members then members[c] else {}
  }

  /** moveDriverScript. */
  function Relocate(ix: Index, d: DriverId, at: Location, cell: Cell, now: nat): Index {
    var left := if d in ix.records && ix.records[d].cell != cell
                then ix.members[ix.records[d].cell := Members(ix.members, ix.records[d].cell) - {d}]
                else ix.members;
    Index(ix.records[d := Located(ix.records, d, at, cell, now)],
          left[cell := Members(left, cell) + {d}])
  }

  /** HSETNX available_since on a hash the script has just written. */
  function Stamp(ix: Index, d: DriverId, now: nat): Index {
    if d in ix.records then ix.(records := ix.records[d := Stamped(ix.records[d], now)]) else ix
  }

  function Ping(ix: Index, d: DriverId, at: Location, cell: Cell, now: nat): Index {
    Stamp(Relocate(ix, d, at, cell, now), d, now)
  }

  /** The members of c that still have a hash. */
  function Live(ix: Index, c: Cell): set<DriverId> {
    set d | d in Members(ix.members, c) && d in ix.records
  }

  /** DriversInCell's side effect: members without a hash leave the set. */
  function Swept(ix: Index, c: Cell): Index {
    if Members(ix.members, c) <= ix.records.Keys then ix else ix.(members := ix.members[c := Live(ix, c)])
  }

  datatype Change =
    | Pings(d: DriverId, at: Location, cell: Cell, now: nat)
    | HalfPings(d: DriverId, at: Location, cell: Cell, now: nat)  // the script went through, HSETNX did not
    | Sets(d: DriverId, to: DriverState, now: nat)
    | Expires(d: DriverId)
    | Sweeps(c: Cell)

  function Apply(ix: Index, e: Change): Index {
    match e
    case Pings(d, at, cell, now) => Ping(ix, d, at, cell, now)
    case HalfPings(d, at, cell, now) => Relocate(ix, d, at, cell, now)
    case Sets(d, to, now) => ix.(records := SetDriver(ix.records, d, to, now).drivers)
    case Expires(d) => ix.(records := ix.records - {d})
    case Sweeps(c) => Swept(ix, c)
  }

  function Replay(events: seq<Change>): Index {
    if events == [] then EMPTY else Apply(Replay(events[..|events| - 1]), events[|events| - 1])
  }

  /** Every driver with a hash is in its recorded cell's set. */
  ghost predicate Complete(ix: Index) {
    forall d :: d in ix.records ==> d in Members(ix.members, ix.records[d].cell)
  }

  /** No driver with a hash is in any other cell's set. */
  ghost predicate Single(ix: Index) {
    forall d, c :: d in ix.records && d in Members(ix.members, c) ==> ix.records[d].cell == c
  }

  /** A ping finds either the driver's hash, or no trace of the driver in any other cell's set. */
  ghost predicate CleanPing(ix: Index, d: DriverId, cell: Cell) {
    d in ix.records || forall c :: c != cell ==> d !in Members(ix.members, c)
  }

  ghost predicate CleanEvent(ix: Index, e: Change) {
    e.Pings? || e.HalfPings? ==> CleanPing(ix, e.d, e.cell)
  }

  /** Runs in which no driver pings from a new cell between its hash expiring and the sweep of its old cell. */
  ghost predicate Clean(events: seq<Change>) {
    forall k :: 0 <= k < |events| ==> CleanEvent(Replay(events[..k]), events[k])
  }

  // ---- what a hash says, from the history alone ----------------------------

  datatype Sighting = Sighting(at: Location, cell: Cell, now: nat)

  /** The driver's last ping, whole or half, since its hash last expired. */
  function LastPing(events: seq<Change>, d: DriverId): Option<Sighting> {
    if events == [] then None
    else
      match events[|events| - 1]
      case Pings(d', at, cell, now) => if d' == d then Some(Sighting(at, cell, now)) else LastPing(Init(events), d)
      case HalfPings(d', at, cell, now) => if d' == d then Some(Sighting(at, cell, now)) else LastPing(Init(events), d)
      case Expires(d') => if d' == d then None else LastPing(Init(events), d)
      case _ => LastPing(Init(events), d)
  }

  function Init(events: seq<Change>): (r: seq<Change>)
    requires events != []
    ensures |r| == |events| - 1
  {
    events[..|events| - 1]
  }

  /** The last event is a change of the driver's state that the lifecycle allows. */
  predicate Accepted(events: seq<Change>, d: DriverId)
    requires events != []
    decreases |events|, 0
  {
    var e := events[|events| - 1];
    e.Sets? && e.d == d && LastPing(Init(events), d).Some? && DriverMay(StateAfter(Init(events), d), e.to)
  }

  /** The state of the last accepted change since the last expiry, or AVAILABLE. */
  function StateAfter(events: seq<Change>, d: DriverId): DriverState
    decreases |events|, 1
  {
    if events == [] || events[|events| - 1] == Expires(d) then Available
    else if Accepted(events, d) then events[|events| - 1].to
    else StateAfter(Init(events), d)
  }

  /** When the driver last became AVAILABLE by a change of state since its hash last expired. */
  function LastFreed(events: seq<Change>, d: DriverId): Option<nat> {
    if events == [] || events[|events| - 1] == Expires(d) then None
    else if Accepted(events, d) && events[|events| - 1].to == Available then Some(events[|events| - 1].now)
    else LastFreed(Init(events), d)
  }

  /** When the driver's first whole ping since then was. */
  function FirstWholePing(events: seq<Change>, d: DriverId): Option<nat> {
    if events == [] || events[|events| - 1] == Expires(d) then None
    else if FirstWholePing(Init(events), d).Some? then FirstWholePing(Init(events), d)
    else
      var e := events[|events| - 1];
      if e.Pings? && e.d == d then Some(e.now) else None
  }

  /** Over all runs: a driver has a hash exactly if it has pinged since its hash last expired, and the hash holds the
      place, cell and time of its last ping, the state of its last accepted change, and, as the time since when it has
      been idle, that of its last return to AVAILABLE or, if there was none, of its first whole ping. */
  lemma {:induction false} HashTellsHistory(events: seq<Change>, d: DriverId)
    ensures d in Replay(events).records <==> LastPing(events, d).Some?
    ensures d in Replay(events).records ==>
              var freed := LastFreed(events, d);
              var last := LastPing(events, d).value;
              Replay(events).records[d]
              == DriverRecord(last.at, last.cell, StateAfter(events, d), last.now,
                              if freed.Some? then freed else FirstWholePing(events, d))
    ensures d !in Replay(events).records ==>
              StateAfter(events, d) == Available && LastFreed(events, d).None? && FirstWholePing(events, d).None?
  {
    if events != [] {
      HashTellsHistory(Init(events), d);
    }
  }

  /** A whole ping, as Interleaving takes it in one step. */
  lemma PingIsPinged(ix: Index, d: DriverId, at: Location, cell: Cell, now: nat)
    ensures Ping(ix, d, at, cell, now).records == Pinged(ix.records, d, at, cell, now)
  {
  }

  /** The drivers a scan of every hash finds in c. */
  function Scan(ix: Index, c: Cell): set<DriverId> {
    set d | d in ix.records && ix.records[d].cell == c
  }

  lemma RelocatedMembers(ix: Index, d: DriverId, at: Location, cell: Cell, now: nat, c: Cell)
    ensures Ping(ix, d, at, cell, now).members == Relocate(ix, d, at, cell, now).members
    ensures Members(Relocate(ix, d, at, cell, now).members, c)
            == if c == cell then Members(ix.members, c) + {d}
               else if d in ix.records && ix.records[d].cell == c then Members(ix.members, c) - {d}
               else Members(ix.members, c)
  {
  }

  lemma ApplyKeepsComplete(ix: Index, e: Change)
    requires Complete(ix)
    ensures Complete(Apply(ix, e))
  {
    if e.Pings? || e.HalfPings? {
      forall x | x in Apply(ix, e).records
        ensures x in Members(Apply(ix, e).members, Apply(ix, e).records[x].cell)
      {
        RelocatedMembers(ix, e.d, e.at, e.cell, e.now, Apply(ix, e).records[x].cell);
      }
    }
  }

  /** Whatever expires, pings or is swept, and when: a driver with a hash can be found in its own cell. */
  lemma {:induction false} EveryRunIsComplete(events: seq<Change>)
    ensures Complete(Replay(events))
  {
    if events != [] {
      EveryRunIsComplete(events[..|events| - 1]);
      ApplyKeepsComplete(Replay(events[..|events| - 1]), events[|events| - 1]);
    }
  }

  lemma StampKeepsSingle(ix: Index, d: DriverId, now: nat)
    ensures Single(Stamp(ix, d, now)) <==> Single(ix)
  {
    var ix' := Stamp(ix, d, now);
    assert forall x :: x in ix.records <==> x in ix'.records;
    assert forall x :: x in ix.records ==> ix.records[x].cell == ix'.records[x].cell;
  }

  /** Exactly the clean pings keep a driver out of two cells. */
  lemma PingKeepsSingleIff(ix: Index, d: DriverId, at: Location, cell: Cell, now: nat)
    requires Single(ix)
    ensures Single(Relocate(ix, d, at, cell, now)) <==> CleanPing(ix, d, cell)
    ensures Single(Ping(ix, d, at, cell, now)) <==> CleanPing(ix, d, cell)
  {
    var ix' := Relocate(ix, d, at, cell, now);
    StampKeepsSingle(ix', d, now);
    if CleanPing(ix, d, cell) {
      forall x, c | x in ix'.records && x in Members(ix'.members, c)
        ensures ix'.records[x].cell == c
      {
        RelocatedMembers(ix, d, at, cell, now, c);
      }
    } else {
      var c :| c != cell && d in Members(ix.members, c);
      RelocatedMembers(ix, d, at, cell, now, c);
      assert d in ix'.records && ix'.records[d].cell != c;
    }
  }

  lemma ApplyKeepsSingle(ix: Index, e: Change)
    requires Single(ix) && CleanEvent(ix, e)
    ensures Single(Apply(ix, e))
  {
    if e.Pings? || e.HalfPings? {
      PingKeepsSingleIff(ix, e.d, e.at, e.cell, e.now);
    } else if e.Sweeps? {
      SweepChangesNoView(ix, e.c, e.c);
    }
  }

  lemma PrefixIsClean(events: seq<Change>, n: nat)
    requires Clean(events) && n <= |events|
    ensures Clean(events[..n])
  {
    forall k | 0 <= k < n
      ensures CleanEvent(Replay(events[..n][..k]), events[..n][k])
    {
      assert events[..n][..k] == events[..k];
    }
  }

  lemma {:induction false} CleanRunIsSingle(events: seq<Change>)
    requires Clean(events)
    ensures Single(Replay(events))
  {
    if events != [] {
      var n := |events| - 1;
      PrefixIsClean(events, n);
      CleanRunIsSingle(events[..n]);
      ApplyKeepsSingle(Replay(events[..n]), events[n]);
    }
  }

  /** Drivers stay out of second cells throughout a run exactly when every ping in it is clean. */
  lemma RunIsSingleIffClean(events: seq<Change>)
    ensures (forall k :: 0 <= k <= |events| ==> Single(Replay(events[..k]))) <==> Clean(events)
  {
    if Clean(events) {
      forall k | 0 <= k <= |events|
        ensures Single(Replay(events[..k]))
      {
        PrefixIsClean(events, k);
        CleanRunIsSingle(events[..k]);
      }
    }
    if forall k :: 0 <= k <= |events| ==> Single(Replay(events[..k])) {
      forall k | 0 <= k < |events|
        ensures CleanEvent(Replay(events[..k]), events[k])
      {
        SingleStepIsClean(events, k);
      }
    }
  }

  lemma SingleStepIsClean(events: seq<Change>, k: nat)
    requires k < |events| && Single(Replay(events[..k])) && Single(Replay(events[..k + 1]))
    ensures CleanEvent(Replay(events[..k]), events[k])
  {
    var e := events[k];
    assert events[..k + 1] == events[..k] + [e];
    ReplayAppends(events[..k], e);
    if e.Pings? || e.HalfPings? {
      PingKeepsSingleIff(Replay(events[..k]), e.d, e.at, e.cell, e.now);
    }
  }

  /** The index answers like a scan of all driver hashes exactly when no driver is in two cells. */
  lemma ViewIsScanIffSingle(ix: Index)
    requires Complete(ix)
    ensures (forall c :: Live(ix, c) == Scan(ix, c)) <==> Single(ix)
  {
    if Single(ix) {
      forall c
        ensures Live(ix, c) == Scan(ix, c)
      {
        assert forall d :: d in Live(ix, c) <==> d in Scan(ix, c);
      }
    }
    if forall c :: Live(ix, c) == Scan(ix, c) {
      forall d, c | d in ix.records && d in Members(ix.members, c)
        ensures ix.records[d].cell == c
      {
        assert d in Live(ix, c);
        assert d in Scan(ix, c);
      }
    }
  }

  /** On clean runs every cell reads as a scan of all hashes would. */
  lemma CleanRunReadsAsScan(events: seq<Change>, c: Cell)
    requires Clean(events)
    ensures Live(Replay(events), c) == Scan(Replay(events), c)
  {
    EveryRunIsComplete(events);
    CleanRunIsSingle(events);
    ViewIsScanIffSingle(Replay(events));
  }

  /** A sweep removes only what no reader sees, in its own cell and everywhere else. */
  lemma SweepChangesNoView(ix: Index, swept: Cell, c: Cell)
    ensures Live(Swept(ix, swept), c) == Live(ix, c)
    ensures Single(ix) ==> Single(Swept(ix, swept))
    ensures Complete(ix) ==> Complete(Swept(ix, swept))
    ensures Members(Swept(ix, swept).members, c) == if c == swept then Live(ix, c) else Members(ix.members, c)
  {
    assert forall x :: Members(Swept(ix, swept).members, x) <= Members(ix.members, x);
  }

  /** The promise "exactly one cell at all times" fails without that condition: a driver whose hash expires and who then
      pings from another cell is listed in both. */
  lemma ExpiredDriverEndsInTwoCells(d: DriverId, at: Location, a: Cell, b: Cell, now: nat)
    requires a != b
    ensures var ix := Replay([Pings(d, at, a, now), Expires(d)] + [Pings(d, at, b, now)]);
            d in Live(ix, a) && d in Live(ix, b) && ix.records[d].cell == b
  {
    var e0, e1, e2 := Pings(d, at, a, now), Expires(d), Pings(d, at, b, now);
    assert [] + [e0] == [e0] && [e0] + [e1] == [e0, e1];
    ReplayAppends([], e0);
    ReplayAppends([e0], e1);
    ReplayAppends([e0, e1], e2);
    var ix0 := Replay([e0]);
    var ix1 := Replay([e0, e1]);
    RelocatedMembers(EMPTY, d, at, a, now, a);
    assert d in Members(ix0.members, a);
    assert d in Members(ix1.members, a) && d !in ix1.records;
    RelocatedMembers(ix1, d, at, b, now, a);
    RelocatedMembers(ix1, d, at, b, now, b);
  }

  lemma ReplayAppends(events: seq<Change>, e: Change)
    ensures Replay(events + [e]) == Apply(Replay(events), e)
  {
    assert (events + [e])[..|events + [e]| - 1] == events;
  }
}
