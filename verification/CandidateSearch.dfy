/** internal/matching/candidates.go: expanding the search ring by ring over the cell index. */
module CandidateSearch {
  import opened Sets
  import opened StateMachine
  import opened StoreSpec
  import opened DriverIndex
  import opened Stores

  /** H3: the cells of a disk, listed in some order, or an error; and grid distance. */
  datatype Grid = Grid(disk: (Cell, nat) -> Option<seq<Cell>>, dist: (Cell, Cell) -> nat)

  /** A disk that can be computed holds exactly the cells within its radius. */
  ghost predicate Disks(g: Grid, origin: Cell) {
    forall k, c :: g.disk(origin, k).Some? ==> (c in g.disk(origin, k).value <==> g.dist(origin, c) <= k)
  }

  datatype SearchConfig = SearchConfig(minCandidates: int, maxK: int)

  datatype Candidate = Candidate(id: DriverId, record: DriverRecord)

  predicate Waiting(ix: Index, d: DriverId) {
    d in ix.records && ix.records[d].state == Available
  }

  /** The naive answer: every AVAILABLE driver whose record puts them within k. */
  function Within(ix: Index, g: Grid, origin: Cell, k: nat): set<DriverId> {
    set d | d in ix.records && Waiting(ix, d) && g.dist(origin, ix.records[d].cell) <= k
  }

  /** The AVAILABLE drivers the index lists under some of these cells. */
  ghost function Listed(ix: Index, cells: set<Cell>): set<DriverId> {
    set d | d in ix.records && Waiting(ix, d) && exists c :: c in cells && d in Live(ix, c)
  }

  ghost predicate Distinct<T(!new)>(s: seq<T>) {
    forall i, j :: 0 <= i < j < |s| ==> s[i] != s[j]
  }

  /** Sweeps along the way change the sets but nothing a reader sees. */
  ghost predicate SameViews(a: Index, b: Index) {
    a.records == b.records && forall c :: Live(a, c) == Live(b, c)
  }

  /** Every driver with a hash is in its own cell's set and in no other. */
  ghost predicate Findable(ix: Index) {
    Complete(ix) && Single(ix)
  }

  /** No search and no change of state makes a driver any harder to find. */
  lemma SearchesKeepFindable(a: Index, b: Index, records: map<DriverId, DriverRecord>)
    requires SameViews(a, b) && SamePlaces(a.records, records) && Findable(a)
    ensures Findable(Index(records, b.members))
  {
    var ix := Index(records, b.members);
    forall d, c
      ensures d in records ==> (d in Members(ix.members, c) <==> d in Live(a, c))
    {
      assert Live(a, c) == Live(b, c);
    }
  }

  /** The candidates collected from the cells read so far. */
  ghost predicate Collected(ix: Index, cells: set<Cell>, candidates: seq<Candidate>, ids: seq<DriverId>) {
    && |ids| == |candidates|
    && (forall i :: 0 <= i < |ids| ==> ids[i] in ix.records && candidates[i] == Candidate(ids[i], ix.records[ids[i]]))
    && (forall d :: d in ids <==> d in Listed(ix, cells))
    && (Single(ix) ==> Distinct(ids))
  }

  /** Reading one more cell, in a store that still shows the views of ix. */
  lemma CollectCell(
    ix: Index, cells: set<Cell>, candidates: seq<Candidate>, ids: seq<DriverId>, c: Cell, more: seq<Candidate>,
    moreIds: seq<DriverId>)
    requires Collected(ix, cells, candidates, ids) && c !in cells
    requires |moreIds| == |more| && Distinct(moreIds)
    requires forall i :: 0 <= i < |moreIds| ==>
               moreIds[i] in ix.records && more[i] == Candidate(moreIds[i], ix.records[moreIds[i]])
    requires forall d :: d in moreIds <==> d in Live(ix, c) && Waiting(ix, d)
    ensures Collected(ix, cells + {c}, candidates + more, ids + moreIds)
  {
    forall d
      ensures d in ids + moreIds <==> d in Listed(ix, cells + {c})
    {
    }
    if Single(ix) {
      var all := ids + moreIds;
      forall i, j | 0 <= i < j < |all|
        ensures all[i] != all[j]
      {
        assert i < |ids| <= j ==> all[i] in ids && all[j] in moreIds;
      }
    }
  }

  /** On a complete, single-indexed store, what is listed under the disk is what a scan finds within its radius. */
  lemma ListedIsWithin(ix: Index, g: Grid, origin: Cell, cells: set<Cell>, k: nat)
    requires Complete(ix) && forall c :: c in cells <==> g.dist(origin, c) <= k
    requires Single(ix)
    ensures Listed(ix, cells) == Within(ix, g, origin, k)
  {
    forall d
      ensures d in Listed(ix, cells) <==> d in Within(ix, g, origin, k)
    {
      if d in Listed(ix, cells) {
        var c :| c in cells && d in Live(ix, c);
        assert ix.records[d].cell == c;
      }
      if d in Within(ix, g, origin, k) {
        assert d in Live(ix, ix.records[d].cell);
      }
    }
  }

  /** The AVAILABLE drivers of one cell. */
  method ScanCell(ctx: Context, store: DriverStore, c: Cell)
    returns (err: Option<Err>, found: seq<Candidate>, ghost ids: seq<DriverId>)
    modifies store`members, ctx
    ensures ctx.now == old(ctx.now)
    ensures SameViews(old(store.Contents()), store.Contents())
    ensures err.None? ==>
              && |ids| == |found| && Distinct(ids)
              && (forall i :: 0 <= i < |ids| ==>
                   ids[i] in store.records && found[i] == Candidate(ids[i], store.records[ids[i]]))
              && (forall d :: d in ids <==> d in Live(store.Contents(), c) && Waiting(store.Contents(), d))
  {
    ghost var ix := store.Contents();
    found, ids := [], [];
    var live, drivers;
    err, live := store.DriversInCell(ctx, c);
    ViewsKept(ix, store.Contents(), c);
    if err.Some? || |live| == 0 {
      return;
    }
    err, drivers := store.GetDrivers(ctx, live);
    if err.Some? {
      return;
    }
    for i := 0 to |live|
      invariant |ids| == |found| && Distinct(ids)
      invariant forall j :: 0 <= j < |ids| ==>
                  ids[j] in store.records && found[j] == Candidate(ids[j], store.records[ids[j]])
      invariant forall d :: d in ids <==> d in live[..i] && Waiting(store.Contents(), d)
    {
      var id := live[i];
      assert live[..i + 1] == live[..i] + [id];
      assert id !in live[..i];
      if id in drivers && drivers[id].state == Available {
        found := found + [Candidate(id, drivers[id])];
        ids := ids + [id];
      }
    }
    assert live[..|live|] == live;
  }

  lemma ViewsKept(ix: Index, ix': Index, c: Cell)
    requires ix' == Swept(ix, c) || ix' == ix
    ensures SameViews(ix, ix')
  {
    forall c'
      ensures Live(ix, c') == Live(ix', c')
    {
      SweepChangesNoView(ix, c, c');
    }
  }

  /** The unread cells of one disk are read, each once. */
  method ScanDisk(ctx: Context, store: DriverStore, disk: seq<Cell>, scanned: set<Cell>, candidates: seq<Candidate>,
                  ghost ix: Index, ghost ids: seq<DriverId>, ghost visited: seq<Cell>)
    returns (err: Option<Err>, scanned': set<Cell>, candidates': seq<Candidate>, ghost ids': seq<DriverId>,
        ghost visited': seq<Cell>)
    requires SameViews(ix, store.Contents()) && Collected(ix, scanned, candidates, ids)
    requires Distinct(visited) && forall c :: c in visited <==> c in scanned
    modifies store`members, ctx
    ensures ctx.now == old(ctx.now)
    ensures SameViews(ix, store.Contents())
    ensures err.None? ==>
              && Collected(ix, scanned', candidates', ids')
              && (forall c :: c in scanned' <==> c in scanned || c in disk)
              && Distinct(visited') && (forall c :: c in visited' <==> c in scanned')
  {
    err, scanned', candidates', ids', visited' := None, scanned, candidates, ids, visited;
    for i := 0 to |disk|
      invariant err.None? && SameViews(ix, store.Contents()) && ctx.now == old(ctx.now)
      invariant Collected(ix, scanned', candidates', ids')
      invariant forall c :: c in scanned' <==> c in scanned || c in disk[..i]
      invariant Distinct(visited') && forall c :: c in visited' <==> c in scanned'
    {
      var cell := disk[i];
      assert disk[..i + 1] == disk[..i] + [cell];
      if cell in scanned' {
        continue;
      }
      var found;
      ghost var more;
      err, found, more := ScanCell(ctx, store, cell);
      if err.Some? {
        return;
      }
      assert Live(ix, cell) == Live(store.Contents(), cell);
      CollectCell(ix, scanned', candidates', ids', cell, found, more);
      scanned' := scanned' + {cell};
      candidates' := candidates' + found;
      ids' := ids' + more;
      visited' := visited' + [cell];
    }
    assert disk[..|disk|] == disk;
  }

  /** k is where the search stops: the least radius up to maxK reaching minCandidates, else maxK. */
  ghost predicate StopsAt(ix: Index, g: Grid, origin: Cell, cfg: SearchConfig, k: nat) {
    && k <= cfg.maxK
    && (forall j: nat :: j < k ==> |Within(ix, g, origin, j)| < cfg.minCandidates)
    && (k < cfg.maxK ==> |Within(ix, g, origin, k)| >= cfg.minCandidates)
  }

  /** It is there that the first radius with enough drivers is, if one up to maxK has enough, and otherwise at maxK; and
      nowhere else. */
  lemma StopsAtFirstSufficient(ix: Index, g: Grid, origin: Cell, cfg: SearchConfig, k: nat, j: nat)
    requires StopsAt(ix, g, origin, cfg, k) && j <= cfg.maxK
    ensures |Within(ix, g, origin, j)| >= cfg.minCandidates ==>
              k <= j && |Within(ix, g, origin, k)| >= cfg.minCandidates
    ensures |Within(ix, g, origin, k)| < cfg.minCandidates ==> k == cfg.maxK
    ensures StopsAt(ix, g, origin, cfg, j) ==> j == k
  {
  }

  /** FindCandidates. However stale the sets: the result is the AVAILABLE drivers listed under the cells read, each cell
      read once. On a complete, single-indexed store it is, without repeats, the scan of all records at the radius where
      the search stops. */
  method FindCandidates(ctx: Context, store: DriverStore, g: Grid, origin: Cell, cfg: SearchConfig)
    returns (err: Option<Err>, candidates: seq<Candidate>,
             ghost ids: seq<DriverId>, ghost k: nat, ghost visited: seq<Cell>)
    modifies store`members, ctx
    ensures ctx.now == old(ctx.now)
    ensures SameViews(old(store.Contents()), store.Contents())
    ensures err.None? ==> Distinct(visited) && Collected(old(store.Contents()), (set c | c in visited), candidates, ids)
    ensures err.None? && cfg.maxK < 0 ==> candidates == []
    ensures err.None? && cfg.maxK >= 0 && Disks(g, origin) ==> forall c :: c in visited <==> g.dist(origin, c) <= k
    ensures err.None? && cfg.maxK >= 0 && Disks(g, origin)
            && Complete(old(store.Contents())) && Single(old(store.Contents())) ==>
              && Distinct(ids) && StopsAt(old(store.Contents()), g, origin, cfg, k)
              && forall d :: d in ids <==> d in Within(old(store.Contents()), g, origin, k)
  {
    ghost var ix := store.Contents();
    err, candidates, ids, k, visited := None, [], [], 0, [];
    var scanned: set<Cell> := {};
    var r := 0;
    while r <= cfg.maxK
      invariant err.None? && 0 <= r && (r <= cfg.maxK + 1 || r == 0) && ctx.now == old(ctx.now)
      invariant SameViews(ix, store.Contents()) && Collected(ix, scanned, candidates, ids)
      invariant Distinct(visited) && forall c :: c in visited <==> c in scanned
      invariant k == if r == 0 then 0 else r - 1
      invariant r == 0 ==> scanned == {} && candidates == []
      invariant Disks(g, origin) && r > 0 ==> forall c :: c in scanned <==> g.dist(origin, c) <= k
      invariant Disks(g, origin) && Complete(ix) && Single(ix) ==>
                  forall j: nat :: j < r ==> |Within(ix, g, origin, j)| < cfg.minCandidates
      decreases cfg.maxK + 1 - r
    {
      k := r;
      var disk := g.disk(origin, r);
      if disk.None? {
        err := Some(SearchFailed);
        return;
      }
      err, scanned, candidates, ids, visited := ScanDisk(ctx, store, disk.value, scanned, candidates, ix, ids, visited);
      if err.Some? {
        return;
      }
      ghost var plain := Disks(g, origin) && Complete(ix) && Single(ix);
      if Disks(g, origin) {
        assert forall c :: c in scanned <==> g.dist(origin, c) <= k;
        if plain {
          Sized(ix, g, origin, scanned, candidates, ids, k);
        }
      }
      if |candidates| >= cfg.minCandidates {
        break;
      }
      r := r + 1;
    }
    assert (set c | c in visited) == scanned;
    if Disks(g, origin) && Complete(ix) && Single(ix) && cfg.maxK >= 0 {
      Sized(ix, g, origin, scanned, candidates, ids, k);
    }
  }

  lemma Sized(
    ix: Index, g: Grid, origin: Cell, cells: set<Cell>, candidates: seq<Candidate>, ids: seq<DriverId>, k: nat)
    requires Complete(ix) && Single(ix) && Collected(ix, cells, candidates, ids)
    requires forall c :: c in cells <==> g.dist(origin, c) <= k
    ensures |candidates| == |Within(ix, g, origin, k)|
    ensures forall d :: d in ids <==> d in Within(ix, g, origin, k)
  {
    ListedIsWithin(ix, g, origin, cells, k);
    DistinctSize(ids, Within(ix, g, origin, k));
  }
}
