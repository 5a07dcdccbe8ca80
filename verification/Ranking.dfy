/** internal/matching/ranking.go: candidates by ETA less a fairness discount, ties by driver ID. Scores are exact
    reals. */
module Ranking {
  import opened Sets
  import opened StoreSpec
  import opened CandidateSearch

  datatype RankConfig = RankConfig(fairnessWeight: real)

  datatype Ranked = Ranked(candidate: Candidate, eta: nat, score: real)

  /** What a ranking is computed from besides the candidates: the estimator, the rider, the weight and the clock. */
  datatype Setting = Setting(estimate: (Location, Location) -> Option<nat>, rider: Location, cfg: RankConfig, now: nat)

  const NANOS_PER_SECOND: real := 1000000000.0
  const NANOS_PER_MINUTE: real := 60000000000.0

  function IdleMinutes(c: Candidate, now: nat): (m: real)
    ensures m >= 0.0
  {
    match c.record.availableSince
    case None => 0.0
    case Some(since) => if now <= since then 0.0 else (now - since) as real / NANOS_PER_MINUTE
  }

  function Eta(c: Candidate, s: Setting): Option<nat> {
    s.estimate(c.record.at, s.rider)
  }

  function Score(c: Candidate, s: Setting): Ranked
    requires Eta(c, s).Some?
  {
    var eta := Eta(c, s).value;
    Ranked(c, eta, eta as real / NANOS_PER_SECOND - s.cfg.fairnessWeight * IdleMinutes(c, s.now))
  }

  predicate Estimable(cs: seq<Candidate>, s: Setting) {
    forall i :: 0 <= i < |cs| ==> Eta(cs[i], s).Some?
  }

  function Scores(cs: seq<Candidate>, s: Setting): (r: seq<Ranked>)
    requires Estimable(cs, s)
    ensures |r| == |cs| && forall i :: 0 <= i < |cs| ==> r[i] == Score(cs[i], s)
  {
    seq(|cs|, i requires 0 <= i < |cs| => Score(cs[i], s))
  }

  // ---- the order -----------------------------------------------------------

  /** Go's < on strings. */
  predicate Before(a: string, b: string) {
    if b == "" then false
    else if a == "" then true
    else a[0] < b[0] || (a[0] == b[0] && Before(a[1..], b[1..]))
  }

  lemma {:induction false} BeforeIsTotal(a: string, b: string)
    ensures a == b || Before(a, b) || Before(b, a)
    ensures !(Before(a, b) && Before(b, a)) && !Before(a, a)
  {
    if a != "" {
      BeforeIsTotal(a[1..], a[1..]);
    }
    if a != "" && b != "" {
      BeforeIsTotal(a[1..], b[1..]);
      assert a == [a[0]] + a[1..] && b == [b[0]] + b[1..];
    }
  }

  lemma {:induction false} BeforeIsTransitive(a: string, b: string, c: string)
    requires Before(a, b) && Before(b, c)
    ensures Before(a, c)
  {
    if a != "" {
      if a[0] == b[0] == c[0] {
        BeforeIsTransitive(a[1..], b[1..], c[1..]);
      }
    }
  }

  /** The comparison given to the sort. */
  predicate Less(a: Ranked, b: Ranked) {
    if a.score != b.score then a.score < b.score else Before(a.candidate.id, b.candidate.id)
  }

  predicate Sorted(r: seq<Ranked>) {
    forall i, j :: 0 <= i < j < |r| ==> !Less(r[j], r[i])
  }

  lemma LessIsTransitive(a: Ranked, b: Ranked, c: Ranked)
    requires Less(a, b) && Less(b, c)
    ensures Less(a, c)
  {
    if a.score == b.score == c.score {
      BeforeIsTransitive(a.candidate.id, b.candidate.id, c.candidate.id);
    }
  }

  lemma LessIsTotal(a: Ranked, b: Ranked)
    ensures a.candidate.id == b.candidate.id || Less(a, b) || Less(b, a)
    ensures !(Less(a, b) && Less(b, a)) && !Less(a, a)
  {
    BeforeIsTotal(a.candidate.id, b.candidate.id);
    BeforeIsTotal(a.candidate.id, a.candidate.id);
  }

  lemma NotLessIsTransitive(a: Ranked, b: Ranked, c: Ranked)
    requires !Less(b, a) && !Less(c, b)
    ensures !Less(c, a)
  {
    BeforeIsTotal(a.candidate.id, b.candidate.id);
    BeforeIsTotal(b.candidate.id, c.candidate.id);
    if Less(c, a) {
      if Less(a, b) {
        LessIsTransitive(c, a, b);
      } else if Less(b, c) {
        LessIsTransitive(b, c, a);
      }
    }
  }

  // ---- the algorithm -------------------------------------------------------

  /** r is a ranking of cs: a permutation of the scored candidates, in order. */
  ghost predicate IsRanking(r: seq<Ranked>, cs: seq<Candidate>, s: Setting) {
    Estimable(cs, s) && multiset(r) == multiset(Scores(cs, s)) && Sorted(r)
  }

  predicate Ties(a: Ranked, b: Ranked) {
    !Less(a, b) && !Less(b, a)
  }

  /** The elements of s that tie with x, in their order. */
  function Tied(s: seq<Ranked>, x: Ranked): seq<Ranked> {
    if s == [] then []
    else Tied(s[..|s| - 1], x) + if Ties(s[|s| - 1], x) then [s[|s| - 1]] else []
  }

  lemma {:induction false} TiedSplits(a: seq<Ranked>, b: seq<Ranked>, x: Ranked)
    ensures Tied(a + b, x) == Tied(a, x) + Tied(b, x)
  {
    if b == [] {
      assert a + b == a;
    } else {
      assert (a + b)[..|a + b| - 1] == a + b[..|b| - 1];
      TiedSplits(a, b[..|b| - 1], x);
    }
  }

  lemma {:induction false} TiedIsEmptyIff(s: seq<Ranked>, x: Ranked)
    ensures Tied(s, x) == [] <==> forall k :: 0 <= k < |s| ==> !Ties(s[k], x)
  {
    if s != [] {
      TiedIsEmptyIff(s[..|s| - 1], x);
      assert forall k :: 0 <= k < |s| - 1 ==> s[..|s| - 1][k] == s[k];
    }
  }

  lemma GreaterDoNotTie(s: seq<Ranked>, v: Ranked, x: Ranked)
    requires Ties(v, x) && forall k :: 0 <= k < |s| ==> Less(v, s[k])
    ensures Tied(s, x) == []
  {
    forall k | 0 <= k < |s|
      ensures !Ties(s[k], x)
    {
      if Ties(s[k], x) {
        NotLessIsTransitive(s[k], x, v);
      }
    }
    TiedIsEmptyIff(s, x);
  }

  /** Inserting v after all it ties with, and before only what is greater. */
  lemma InsertKeepsTies(low: seq<Ranked>, v: Ranked, high: seq<Ranked>, x: Ranked)
    requires forall k :: 0 <= k < |high| ==> Less(v, high[k])
    ensures Tied(low + [v] + high, x) == Tied(low + high, x) + if Ties(v, x) then [v] else []
  {
    TiedSplits(low, high, x);
    TiedSplits(low + [v], high, x);
    TiedSplits(low, [v], x);
    TiedOne(v, x);
    if Ties(v, x) {
      GreaterDoNotTie(high, v, x);
    }
    EitherIsEmpty(Tied(low, x), Tied([v], x), Tied(high, x));
  }

  lemma TiedOne(v: Ranked, x: Ranked)
    ensures Tied([v], x) == if Ties(v, x) then [v] else []
  {
    assert [v][..|[v]| - 1] == [];
  }

  lemma EitherIsEmpty<T>(a: seq<T>, b: seq<T>, c: seq<T>)
    requires b == [] || c == []
    ensures a + b + c == a + c + b
  {
  }

  lemma SameEnding(a: seq<Ranked>, b: seq<Ranked>, end: seq<Ranked>)
    requires a + end == b + end
    ensures a == b
  {
    assert |a| == |b|;
    assert a == (a + end)[..|a|];
    assert b == (b + end)[..|b|];
  }

  lemma InitsTieAlike(a: seq<Ranked>, b: seq<Ranked>, x: Ranked)
    requires a != [] && b != [] && a[|a| - 1] == b[|b| - 1] && Tied(a, x) == Tied(b, x)
    ensures Tied(a[..|a| - 1], x) == Tied(b[..|b| - 1], x)
  {
    var last := a[|a| - 1];
    SameEnding(Tied(a[..|a| - 1], x), Tied(b[..|b| - 1], x), if Ties(last, x) then [last] else []);
  }

  /** Order and the order of ties leave a stable sort no choice at all. */
  lemma {:induction false} StableSortIsUnique(a: seq<Ranked>, b: seq<Ranked>)
    requires Sorted(a) && Sorted(b) && forall x :: Tied(a, x) == Tied(b, x)
    ensures a == b
  {
    if a == [] || b == [] {
      NothingTiesWithNothing(a, b);
      NothingTiesWithNothing(b, a);
    } else {
      LastsAgree(a, b);
      var a', b' := a[..|a| - 1], b[..|b| - 1];
      forall x
        ensures Tied(a', x) == Tied(b', x)
      {
        assert Tied(a, x) == Tied(b, x);
        InitsTieAlike(a, b, x);
      }
      StableSortIsUnique(a', b');
      assert a == a' + [a[|a| - 1]] && b == b' + [b[|b| - 1]];
    }
  }

  lemma NothingTiesWithNothing(a: seq<Ranked>, b: seq<Ranked>)
    requires forall x :: Tied(a, x) == Tied(b, x)
    ensures a == [] ==> b == []
  {
    if b != [] {
      LastTies(b);
      assert Tied(a, b[|b| - 1]) == Tied(b, b[|b| - 1]);
    }
  }

  lemma LastsAgree(a: seq<Ranked>, b: seq<Ranked>)
    requires a != [] && b != [] && Sorted(a) && Sorted(b) && forall x :: Tied(a, x) == Tied(b, x)
    ensures a[|a| - 1] == b[|b| - 1]
  {
    var x, y := a[|a| - 1], b[|b| - 1];
    assert Tied(a, x) == Tied(b, x) && Tied(a, y) == Tied(b, y);
    LastIsNotLess(a, b);
    LastIsNotLess(b, a);
    LastTies(a);
    assert Tied(a, x)[|Tied(a, x)| - 1] == x && Tied(b, x)[|Tied(b, x)| - 1] == y;
  }

  lemma LastTies(s: seq<Ranked>)
    ensures s != [] ==> Ties(s[|s| - 1], s[|s| - 1]) && Tied(s, s[|s| - 1]) != []
  {
    if s != [] {
      LessIsTotal(s[|s| - 1], s[|s| - 1]);
    }
  }

  lemma LastIsNotLess(a: seq<Ranked>, b: seq<Ranked>)
    requires a != [] && b != [] && Sorted(a) && Tied(a, b[|b| - 1]) == Tied(b, b[|b| - 1])
    ensures !Less(a[|a| - 1], b[|b| - 1])
  {
    var x, y := a[|a| - 1], b[|b| - 1];
    LastTies(b);
    TiedIsEmptyIff(a, y);
    var k :| 0 <= k < |a| && Ties(a[k], y);
    LessIsTotal(x, x);
    assert !Less(x, a[k]);
    NotLessIsTransitive(y, a[k], x);
  }

  /** sort.SliceStable: in order, and ties in the order they came in. */
  method SortStable(s: seq<Ranked>) returns (r: seq<Ranked>)
    ensures multiset(r) == multiset(s) && Sorted(r)
    ensures forall x :: Tied(r, x) == Tied(s, x)
  {
    r := [];
    for i := 0 to |s|
      invariant multiset(r) == multiset(s[..i]) && Sorted(r)
      invariant forall x :: Tied(r, x) == Tied(s[..i], x)
    {
      var x := s[i];
      var j := |r|;
      while j > 0 && Less(x, r[j - 1])
        invariant 0 <= j <= |r|
        invariant forall k :: j <= k < |r| ==> Less(x, r[k])
      {
        j := j - 1;
      }
      ghost var before := r;
      r := r[..j] + [x] + r[j..];
      InsertKeepsSorted(before, x, j);
      InsertedElements(s, i, before, j, r);
      forall y
        ensures Tied(r, y) == Tied(s[..i + 1], y)
      {
        InsertedTies(s, i, before, j, r, y);
      }
    }
    assert s[..|s|] == s;
  }

  /** s[i] inserted before the j-th of those before it, where it belongs. */
  predicate InsertedAt(s: seq<Ranked>, i: nat, r: seq<Ranked>, j: nat, r': seq<Ranked>) {
    && i < |s| && j <= |r| && r' == r[..j] + [s[i]] + r[j..]
    && forall k :: j <= k < |r| ==> Less(s[i], r[k])
  }

  lemma InsertedTies(s: seq<Ranked>, i: nat, r: seq<Ranked>, j: nat, r': seq<Ranked>, x: Ranked)
    requires InsertedAt(s, i, r, j, r') && Tied(r, x) == Tied(s[..i], x)
    ensures Tied(r', x) == Tied(s[..i + 1], x)
  {
    assert r == r[..j] + r[j..];
    InsertKeepsTies(r[..j], s[i], r[j..], x);
    TiedNext(s, i, x);
  }

  lemma InsertedElements(s: seq<Ranked>, i: nat, r: seq<Ranked>, j: nat, r': seq<Ranked>)
    requires InsertedAt(s, i, r, j, r') && multiset(r) == multiset(s[..i])
    ensures multiset(r') == multiset(s[..i + 1])
  {
    assert r == r[..j] + r[j..] && s[..i + 1] == s[..i] + [s[i]];
  }

  lemma TiedNext(s: seq<Ranked>, i: nat, x: Ranked)
    requires i < |s|
    ensures Tied(s[..i + 1], x) == Tied(s[..i], x) + if Ties(s[i], x) then [s[i]] else []
  {
    assert s[..i + 1][..i] == s[..i];
  }

  lemma InsertKeepsSorted(r: seq<Ranked>, x: Ranked, j: nat)
    requires Sorted(r) && j <= |r|
    requires j > 0 ==> !Less(x, r[j - 1])
    requires forall k :: j <= k < |r| ==> Less(x, r[k])
    ensures Sorted(r[..j] + [x] + r[j..])
  {
    forall k | 0 <= k < j
      ensures !Less(x, r[k])
    {
      if k < j - 1 {
        NotLessIsTransitive(r[k], r[j - 1], x);
      }
    }
    forall k | j <= k < |r|
      ensures !Less(r[k], x)
    {
      LessIsTotal(x, r[k]);
    }
  }

  /** Rank: the only error is the estimator's. */
  method Rank(cs: seq<Candidate>, s: Setting) returns (ok: bool, ranked: seq<Ranked>)
    ensures ok <==> Estimable(cs, s)
    ensures ok ==> IsRanking(ranked, cs, s) && forall x :: Tied(ranked, x) == Tied(Scores(cs, s), x)
  {
    ranked := [];
    for i := 0 to |cs|
      invariant |ranked| == i
      invariant forall j :: 0 <= j < i ==> Eta(cs[j], s).Some? && ranked[j] == Score(cs[j], s)
    {
      var eta := s.estimate(cs[i].record.at, s.rider);
      if eta.None? {
        assert Eta(cs[i], s).None?;
        return false, [];
      }
      var idle := 0.0;
      if cs[i].record.availableSince.Some? {
        idle := (s.now - cs[i].record.availableSince.value) as real / NANOS_PER_MINUTE;
        if idle < 0.0 {
          idle := 0.0;
        }
      }
      var score := eta.value as real / NANOS_PER_SECOND - s.cfg.fairnessWeight * idle;
      ranked := ranked + [Ranked(cs[i], eta.value, score)];
    }
    assert ranked == Scores(cs, s);
    ranked := SortStable(ranked);
    ok := true;
  }

  // ---- one list for every input order --------------------------------------

  /** Drivers are listed once each. */
  predicate DistinctIds(cs: seq<Candidate>) {
    forall i, j :: 0 <= i < j < |cs| ==> cs[i].id != cs[j].id
  }

  predicate DistinctRanked(r: seq<Ranked>) {
    forall i, j :: 0 <= i < j < |r| ==> r[i].candidate.id != r[j].candidate.id
  }

  lemma {:induction false} OnceInMultiset(s: seq<Ranked>, x: Ranked)
    requires DistinctRanked(s)
    ensures multiset(s)[x] <= 1
  {
    if s != [] {
      var n := |s| - 1;
      assert s == s[..n] + [s[n]];
      OnceInMultiset(s[..n], x);
      if s[n] == x {
        assert x !in s[..n];
        assert x !in multiset(s[..n]);
      }
    }
  }

  lemma TwiceInMultiset(r: seq<Ranked>, i: nat, j: nat)
    requires i < j < |r| && r[i] == r[j]
    ensures multiset(r)[r[i]] >= 2
  {
    assert r == r[..j] + [r[j]] + r[j + 1..];
    assert r[i] in r[..j];
    assert multiset(r) == multiset(r[..j]) + multiset{r[j]} + multiset(r[j + 1..]);
  }

  lemma InRanking(r: seq<Ranked>, cs: seq<Candidate>, s: Setting, x: Ranked)
    requires IsRanking(r, cs, s)
    ensures x in r <==> exists i :: 0 <= i < |cs| && x == Score(cs[i], s)
  {
    assert x in r <==> x in multiset(r);
    assert x in Scores(cs, s) <==> x in multiset(Scores(cs, s));
  }

  /** A ranking of distinct drivers lists each once. */
  lemma RankingIsDistinct(r: seq<Ranked>, cs: seq<Candidate>, s: Setting)
    requires IsRanking(r, cs, s) && DistinctIds(cs)
    ensures DistinctRanked(r)
  {
    forall i, j | 0 <= i < j < |r|
      ensures r[i].candidate.id != r[j].candidate.id
    {
      InRanking(r, cs, s, r[i]);
      InRanking(r, cs, s, r[j]);
      if r[i] == r[j] {
        TwiceInMultiset(r, i, j);
        OnceInMultiset(Scores(cs, s), r[i]);
      }
    }
  }

  /** The same elements, distinct and in order, in only one list. */
  lemma {:induction false} SortedIsUnique(a: seq<Ranked>, b: seq<Ranked>)
    requires Sorted(a) && Sorted(b) && DistinctRanked(a) && DistinctRanked(b)
    requires forall x :: x in a <==> x in b
    ensures a == b
  {
    if a != [] {
      assert a[0] in b;
    }
    if b != [] {
      assert b[0] in a;
      LessIsTotal(a[0], b[0]);
      var a', b' := a[1..], b[1..];
      assert a == [a[0]] + a' && b == [b[0]] + b';
      forall x
        ensures x in a' <==> x in b'
      {
        assert x in a <==> x == a[0] || x in a';
        assert x in b <==> x == b[0] || x in b';
        assert a[0] !in a' && b[0] !in b';
      }
      SortedIsUnique(a', b');
    }
  }

  /** Whatever order a Redis set listed the drivers in, the ranking is the same list. */
  lemma RankingIgnoresInputOrder(
    a: seq<Candidate>, b: seq<Candidate>, s: Setting, r: seq<Ranked>, r': seq<Ranked>)
    requires DistinctIds(a) && DistinctIds(b) && forall c :: c in a <==> c in b
    requires IsRanking(r, a, s) && IsRanking(r', b, s)
    ensures r == r'
  {
    RankingIsDistinct(r, a, s);
    RankingIsDistinct(r', b, s);
    forall x
      ensures x in r <==> x in r'
    {
      InRanking(r, a, s, x);
      InRanking(r', b, s, x);
      assert forall i :: 0 <= i < |a| ==> a[i] in b;
      assert forall i :: 0 <= i < |b| ==> b[i] in a;
    }
    SortedIsUnique(r, r');
  }

  // ---- fairness ------------------------------------------------------------

  /** How long the driver has been AVAILABLE; nothing, if that is not known or lies ahead. */
  function IdleNanos(c: Candidate, now: nat): nat {
    var since := c.record.availableSince;
    if since.Some? && since.value < now then now - since.value else 0
  }

  /** The seconds by which a is farther from the rider than b fall short of what the minutes by which a has been idle
      longer are worth; or make up for it exactly, and a has the smaller ID. */
  predicate Leads(a: Candidate, b: Candidate, s: Setting)
    requires s.estimate(a.record.at, s.rider).Some? && s.estimate(b.record.at, s.rider).Some?
  {
    var etaA, etaB := s.estimate(a.record.at, s.rider).value, s.estimate(b.record.at, s.rider).value;
    var farther := (etaA - etaB) as real / 1000000000.0;
    var idler := (IdleNanos(a, s.now) - IdleNanos(b, s.now)) as real / 60000000000.0;
    farther < s.cfg.fairnessWeight * idler || (farther == s.cfg.fairnessWeight * idler && Before(a.id, b.id))
  }

  lemma LeadsIffLess(a: Candidate, b: Candidate, s: Setting)
    requires Eta(a, s).Some? && Eta(b, s).Some?
    ensures Leads(a, b, s) <==> Less(Score(a, s), Score(b, s))
  {
    var w, ia, ib := s.cfg.fairnessWeight, IdleMinutes(a, s.now), IdleMinutes(b, s.now);
    assert ia == IdleNanos(a, s.now) as real / 60000000000.0;
    assert ib == IdleNanos(b, s.now) as real / 60000000000.0;
    assert w * (ia - ib) == w * ia - w * ib;
  }

  /** Where two drivers of a ranking stand to each other is settled by their ETAs, their idle times and, if those
      balance, their IDs. */
  lemma PrecedesIff(r: seq<Ranked>, cs: seq<Candidate>, s: Setting, i: nat, j: nat)
    requires IsRanking(r, cs, s) && DistinctIds(cs)
    requires i < |r| && j < |r| && i != j
    ensures var (a, b) := (r[i].candidate, r[j].candidate);
            && a in cs && s.estimate(a.record.at, s.rider) == Some(r[i].eta)
            && b in cs && s.estimate(b.record.at, s.rider) == Some(r[j].eta)
            && (i < j <==> Leads(a, b, s))
  {
    RankingIsDistinct(r, cs, s);
    InRanking(r, cs, s, r[i]);
    InRanking(r, cs, s, r[j]);
    LeadsIffLess(r[i].candidate, r[j].candidate, s);
    LessIsTotal(r[i], r[j]);
  }

  /** Drivers who have been idle equally long come in the order of their ETAs. */
  lemma EquallyIdleComeByEta(r: seq<Ranked>, cs: seq<Candidate>, s: Setting, i: nat, j: nat)
    requires IsRanking(r, cs, s) && DistinctIds(cs) && i < |r| && j < |r| && i != j
    requires IdleNanos(r[i].candidate, s.now) == IdleNanos(r[j].candidate, s.now)
    ensures r[i].eta < r[j].eta ==> i < j
    ensures r[i].eta == r[j].eta ==> (i < j <==> Before(r[i].candidate.id, r[j].candidate.id))
  {
    PrecedesIff(r, cs, s, i, j);
    assert s.cfg.fairnessWeight * 0.0 == 0.0;
  }

  /** Before is dictionary order: a is an initial part of b, or has the smaller character where they first differ. */
  lemma {:induction false} BeforeIsLexicographic(a: string, b: string)
    ensures Before(a, b)
            <==> exists k: nat :: k <= |a| && k < |b| && a[..k] == b[..k] && (k == |a| || a[k] < b[k])
  {
    if a == "" {
      assert b != "" ==> a[..0] == b[..0];
    } else if b != "" {
      BeforeIsLexicographic(a[1..], b[1..]);
      if Before(a, b) {
        if a[0] < b[0] {
          assert a[..0] == b[..0];
        } else {
          var k: nat :| k <= |a[1..]| && k < |b[1..]| && a[1..][..k] == b[1..][..k]
                        && (k == |a[1..]| || a[1..][k] < b[1..][k]);
          assert a[..k + 1] == [a[0]] + a[1..][..k] && b[..k + 1] == [b[0]] + b[1..][..k];
        }
      }
      if k: nat :| k <= |a| && k < |b| && a[..k] == b[..k] && (k == |a| || a[k] < b[k]) {
        if k > 0 {
          assert a[0] == a[..k][0] && b[0] == b[..k][0];
          assert a[1..][..k - 1] == a[..k][1..] && b[1..][..k - 1] == b[..k][1..];
        }
      }
    }
  }

  /** b is a but for the record of candidate i. */
  predicate Amends(a: seq<Candidate>, b: seq<Candidate>, i: nat) {
    |a| == |b| && i < |a| && a[i].id == b[i].id && forall j :: 0 <= j < |a| && j != i ==> a[j] == b[j]
  }

  function Ids(r: seq<Ranked>): set<DriverId> {
    set i | 0 <= i < |r| :: r[i].candidate.id
  }

  lemma {:induction false} CountIds(r: seq<Ranked>)
    requires DistinctRanked(r)
    ensures |Ids(r)| == |r|
  {
    if r == [] {
      assert Ids(r) == {};
    } else {
      var n := |r| - 1;
      CountIds(r[..n]);
      assert Ids(r) == Ids(r[..n]) + {r[n].candidate.id};
      assert r[n].candidate.id !in Ids(r[..n]);
    }
  }

  /** A driver whose score falls moves towards the front, or stays. */
  lemma LowerScoreNeverMovesLater(
    a: seq<Candidate>, b: seq<Candidate>, i: nat, s: Setting, r: seq<Ranked>, r': seq<Ranked>, k: nat, k': nat)
    requires DistinctIds(a) && Amends(a, b, i)
    requires IsRanking(r, a, s) && IsRanking(r', b, s)
    requires Score(b[i], s).score <= Score(a[i], s).score
    requires k < |r| && r[k].candidate.id == a[i].id
    requires k' < |r'| && r'[k'].candidate.id == a[i].id
    ensures k' <= k
  {
    RankingIsDistinct(r, a, s);
    RankingIsDistinct(r', b, s);
    InRanking(r, a, s, r[k]);
    InRanking(r', b, s, r'[k']);
    forall m | 0 <= m < k'
      ensures r'[m].candidate.id in Ids(r[..k])
    {
      InRanking(r', b, s, r'[m]);
      InRanking(r, a, s, r'[m]);
      var j :| 0 <= j < |r| && r[j] == r'[m];
      LessIsTotal(r'[m], r'[k']);
      assert Less(r[j], r[k]);
      LessIsTotal(r[j], r[k]);
      assert j < k;
      assert r[..k][j].candidate.id in Ids(r[..k]);
    }
    CountIds(r[..k]);
    CountIds(r'[..k']);
    SubsetSize(Ids(r'[..k']), Ids(r[..k]));
  }

  /** Coming nearer never moves a driver down the list; with a non-negative weight, nor does idling longer. */
  lemma ImprovingNeverMovesLater(
    a: seq<Candidate>, b: seq<Candidate>, i: nat, s: Setting, r: seq<Ranked>, r': seq<Ranked>, k: nat, k': nat)
    requires DistinctIds(a) && Amends(a, b, i)
    requires IsRanking(r, a, s) && IsRanking(r', b, s)
    requires Eta(b[i], s).Some? && Eta(a[i], s).Some? && Eta(b[i], s).value <= Eta(a[i], s).value
    requires if s.cfg.fairnessWeight >= 0.0 then IdleNanos(b[i], s.now) >= IdleNanos(a[i], s.now)
             else IdleNanos(b[i], s.now) == IdleNanos(a[i], s.now)
    requires k < |r| && r[k].candidate.id == a[i].id
    requires k' < |r'| && r'[k'].candidate.id == a[i].id
    ensures k' <= k
  {
    ScoreFalls(a[i], b[i], s);
    LowerScoreNeverMovesLater(a, b, i, s, r, r', k, k');
  }

  lemma IdlesInMinutes(a: Candidate, b: Candidate, now: nat)
    ensures IdleNanos(a, now) <= IdleNanos(b, now) ==> IdleMinutes(a, now) <= IdleMinutes(b, now)
    ensures IdleNanos(a, now) == IdleNanos(b, now) ==> IdleMinutes(a, now) == IdleMinutes(b, now)
  {
    assert IdleMinutes(a, now) == IdleNanos(a, now) as real / 60000000000.0;
    assert IdleMinutes(b, now) == IdleNanos(b, now) as real / 60000000000.0;
  }

  lemma Outweighs(w: real, more: real)
    requires if w >= 0.0 then more >= 0.0 else more == 0.0
    ensures w * more >= 0.0
  {
  }

  lemma Distributes(w: real, a: real, b: real)
    ensures w * (b - a) == w * b - w * a
  {
  }

  lemma LowerBy(x: real, y: real, p: real, q: real)
    requires y <= x && q - p >= 0.0
    ensures y - q <= x - p
  {
  }

  lemma ScoreFalls(a: Candidate, b: Candidate, s: Setting)
    requires Eta(a, s).Some? && Eta(b, s).Some? && Eta(b, s).value <= Eta(a, s).value
    requires if s.cfg.fairnessWeight >= 0.0 then IdleNanos(b, s.now) >= IdleNanos(a, s.now)
             else IdleNanos(b, s.now) == IdleNanos(a, s.now)
    ensures Score(b, s).score <= Score(a, s).score
  {
    var w, ia, ib := s.cfg.fairnessWeight, IdleMinutes(a, s.now), IdleMinutes(b, s.now);
    IdlesInMinutes(a, b, s.now);
    Outweighs(w, ib - ia);
    Distributes(w, ia, ib);
    LowerBy(Eta(a, s).value as real / NANOS_PER_SECOND, Eta(b, s).value as real / NANOS_PER_SECOND, w * ia, w * ib);
  }

  /** And only then: with a negative weight, of two drivers alike but for their IDs the one who waits a minute drops. */
  lemma NegativeWeightPunishesWaiting(s: Setting, c: Candidate, d: Candidate, waited: Candidate)
    requires s.cfg.fairnessWeight < 0.0 && s.now as real >= NANOS_PER_MINUTE
    requires Eta(c, s).Some? && c.record == d.record && c.record.availableSince == Some(s.now) && Before(c.id, d.id)
    requires waited == c.(record := c.record.(availableSince := Some(s.now - 60000000000)))
    ensures Less(Score(c, s), Score(d, s)) && Less(Score(d, s), Score(waited, s))
    ensures Amends([c, d], [waited, d], 0) && IdleNanos(waited, s.now) > IdleNanos(c, s.now)
  {
    assert IdleMinutes(waited, s.now) == 1.0;
    assert IdleMinutes(c, s.now) == 0.0;
  }
}
