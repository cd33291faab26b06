/** The rating ledger: Plackett-Luce ratings kept per stratum, updated game by
    game. Ratings are reals here; the exponential is any positive function. */
module RatingLedgers {
  const DEFAULT_MU: real := 25.0
  const DEFAULT_SIGMA: real := 25.0 / 3.0
  const BETA: real := 25.0 / 6.0
  const LEARNING_RATE: real := 1.0
  const SIGMA_DECAY: real := 0.9975
  const MINIMUM_SIGMA: real := 1.0

  /** A seat of a finished game: its stratum's key, and whether it won. */
  datatype Seat = Seat(key: string, won: bool)

  datatype Report = Report(context: string, completed: bool, seats: seq<Seat>)

  datatype Stratum = Stratum(mu: real, sigma: real, rated: nat, matches: nat)

  datatype Ledger = Ledger(strata: map<string, Stratum>, games: nat, byContext: map<string, nat>, revision: nat)

  const FRESH := Stratum(DEFAULT_MU, DEFAULT_SIGMA, 0, 0)
  const EMPTY := Ledger(map[], 0, map[], 0)

  type Exponential = real -> real

  ghost predicate Positive(exp: Exponential)
  {
    forall x: real :: exp(x) > 0.0
  }

  // -------------------------------------------------------------------- scores

  function Clamp(x: real, low: real, high: real): real
  {
    if x < low then low else if x > high then high else x
  }

  function Total(s: seq<real>): real
  {
    if s == [] then 0.0 else Total(s[..|s| - 1]) + s[|s| - 1]
  }

  function Strengths(exp: Exponential, mus: seq<real>): (r: seq<real>)
    ensures |r| == |mus|
  {
    seq(|mus|, i requires 0 <= i < |mus| => exp(Clamp(mus[i] / BETA, -30.0, 30.0)))
  }

  function Expected(exp: Exponential, mus: seq<real>): (r: seq<real>)
    ensures |r| == |mus|
  {
    var strengths := Strengths(exp, mus);
    var total := Total(strengths);
    if total <= 0.0 then seq(|mus|, i requires 0 <= i < |mus| => 1.0 / |mus| as real)
    else seq(|mus|, i requires 0 <= i < |mus| => strengths[i] / total)
  }

  function Winners(seats: seq<Seat>): nat
  {
    if seats == [] then 0 else Winners(seats[..|seats| - 1]) + if seats[|seats| - 1].won then 1 else 0
  }

  function Actual(seats: seq<Seat>): (r: seq<real>)
    ensures |r| == |seats|
  {
    var winners := Winners(seats);
    if winners > 0 then seq(|seats|, i requires 0 <= i < |seats| => if seats[i].won then 1.0 / winners as real else 0.0)
    else seq(|seats|, i requires 0 <= i < |seats| => 1.0 / |seats| as real)
  }

  lemma {:induction false} TotalOfQuotients(s: seq<real>, q: seq<real>, t: real)
    requires t > 0.0 && |q| == |s| && forall i | 0 <= i < |s| :: q[i] == s[i] / t
    ensures Total(q) == Total(s) / t
  {
    if s != [] {
      TotalOfQuotients(s[..|s| - 1], q[..|s| - 1], t);
    }
  }

  lemma {:induction false} TotalOfEqualShares(s: seq<real>, share: real)
    requires forall i | 0 <= i < |s| :: s[i] == share
    ensures Total(s) == share * |s| as real
  {
    if s != [] {
      TotalOfEqualShares(s[..|s| - 1], share);
      assert share * |s| as real == share * (|s| - 1) as real + share;
    }
  }

  lemma {:induction false} TotalOfWinnersShares(seats: seq<Seat>, s: seq<real>, share: real)
    requires |s| == |seats| && forall i | 0 <= i < |s| :: s[i] == if seats[i].won then share else 0.0
    ensures Total(s) == share * Winners(seats) as real
  {
    if s != [] {
      var n := |s| - 1;
      TotalOfWinnersShares(seats[..n], s[..n], share);
      var before := Winners(seats[..n]);
      if seats[n].won {
        assert share * (before + 1) as real == share * before as real + share;
      }
    }
  }

  lemma {:induction false} TotalIsPositive(s: seq<real>)
    requires s != [] && forall i | 0 <= i < |s| :: s[i] > 0.0
    ensures Total(s) > 0.0 && (|s| > 1 ==> forall i | 0 <= i < |s| :: s[i] < Total(s))
  {
    var n := |s| - 1;
    if n > 0 {
      TotalIsPositive(s[..n]);
      forall i | 0 <= i < |s| ensures s[i] < Total(s) {
        if i < n {
          assert s[..n][i] == s[i];
          assert n > 1 ==> s[i] < Total(s[..n]);
          assert n == 1 ==> s[..n][..0] == [] && Total(s[..n]) == s[0];
        }
      }
    } else {
      assert s[..0] == [];
    }
  }

  lemma SelfQuotient(t: real)
    requires t > 0.0
    ensures t / t == 1.0 && 1.0 / t * t == 1.0
  {
  }

  lemma ExpectedSumToOne(exp: Exponential, mus: seq<real>)
    requires mus != [] && Positive(exp)
    ensures Total(Expected(exp, mus)) == 1.0
  {
    var strengths := Strengths(exp, mus);
    TotalIsPositive(strengths);
    TotalOfQuotients(strengths, Expected(exp, mus), Total(strengths));
    SelfQuotient(Total(strengths));
  }

  lemma ActualSumToOne(seats: seq<Seat>)
    requires seats != []
    ensures Total(Actual(seats)) == 1.0
  {
    var winners := Winners(seats);
    if winners > 0 {
      TotalOfWinnersShares(seats, Actual(seats), 1.0 / winners as real);
      SelfQuotient(winners as real);
    } else {
      TotalOfEqualShares(Actual(seats), 1.0 / |seats| as real);
      SelfQuotient(|seats| as real);
    }
  }

  // -------------------------------------------------------------------- deltas

  function Keys(seats: seq<Seat>): (r: seq<string>)
    ensures |r| == |seats| && forall i | 0 <= i < |r| :: r[i] == seats[i].key
  {
    seq(|seats|, i requires 0 <= i < |seats| => seats[i].key)
  }

  function Deltas(actual: seq<real>, expected: seq<real>): (r: seq<real>)
    requires |actual| == |expected|
    ensures |r| == |actual| && forall i | 0 <= i < |r| :: r[i] == LEARNING_RATE * (actual[i] - expected[i])
  {
    seq(|actual|, i requires 0 <= i < |actual| => LEARNING_RATE * (actual[i] - expected[i]))
  }

  lemma {:induction false} TotalOfDeltas(actual: seq<real>, expected: seq<real>)
    requires |actual| == |expected|
    ensures Total(Deltas(actual, expected)) == LEARNING_RATE * (Total(actual) - Total(expected))
  {
    if actual != [] {
      var n := |actual| - 1;
      TotalOfDeltas(actual[..n], expected[..n]);
      assert Deltas(actual, expected)[..n] == Deltas(actual[..n], expected[..n]);
    }
  }

  function Get(m: map<string, real>, key: string): real
  {
    if key in m then m[key] else 0.0
  }

  /** Seats that share a stratum add up their deltas. */
  function DeltaByKey(keys: seq<string>, deltas: seq<real>): (m: map<string, real>)
    requires |keys| == |deltas|
    ensures m.Keys == set k | k in keys
  {
    if keys == [] then map[]
    else
      var n := |keys| - 1;
      var before := DeltaByKey(keys[..n], deltas[..n]);
      assert keys == keys[..n] + [keys[n]];
      before[keys[n] := Get(before, keys[n]) + deltas[n]]
  }

  lemma NextKey(keys: seq<string>, deltas: seq<real>, i: nat)
    requires i < |keys| == |deltas|
    ensures var before := DeltaByKey(keys[..i], deltas[..i]);
            DeltaByKey(keys[..i + 1], deltas[..i + 1]) == before[keys[i] := Get(before, keys[i]) + deltas[i]]
  {
    assert keys[..i + 1][..i] == keys[..i] && deltas[..i + 1][..i] == deltas[..i];
  }

  // ---------------------------------------------------------- sums over a map

  ghost function Sum(m: map<string, real>): real
    decreases |m|
  {
    if m == map[] then 0.0
    else
      var k :| k in m;
      m[k] + Sum(m - {k})
  }

  lemma {:induction false} SumPicks(m: map<string, real>, k: string)
    requires k in m
    ensures Sum(m) == m[k] + Sum(m - {k})
    decreases |m|
  {
    var j :| j in m && Sum(m) == m[j] + Sum(m - {j});
    if j != k {
      SumPicks(m - {j}, k);
      SumPicks(m - {k}, j);
      assert m - {j} - {k} == m - {k} - {j};
    }
  }

  lemma SumSets(m: map<string, real>, k: string, v: real)
    ensures Sum(m[k := v]) == Sum(m) - Get(m, k) + v
  {
    SumPicks(m[k := v], k);
    if k in m {
      SumPicks(m, k);
      assert m[k := v] - {k} == m - {k};
    } else {
      assert m[k := v] - {k} == m;
    }
  }

  function Shifted(m: map<string, real>, shift: map<string, real>): map<string, real>
  {
    map k | k in m :: m[k] + Get(shift, k)
  }

  lemma ShiftedWithout(m: map<string, real>, shift: map<string, real>, k: string)
    requires k in m
    ensures Shifted(m, shift) - {k} == Shifted(m - {k}, shift - {k})
  {
  }

  lemma {:induction false} SumShifts(m: map<string, real>, shift: map<string, real>)
    requires shift.Keys <= m.Keys
    ensures Sum(Shifted(m, shift)) == Sum(m) + Sum(shift)
    decreases |m|
  {
    if m == map[] {
      assert shift == map[] && Shifted(m, shift) == map[];
    } else {
      var k :| k in m;
      SumPicks(m, k);
      SumPicks(Shifted(m, shift), k);
      SumShifts(m - {k}, shift - {k});
      ShiftedWithout(m, shift, k);
      if k in shift {
        SumPicks(shift, k);
      } else {
        assert shift - {k} == shift;
      }
    }
  }

  lemma {:induction false} SumOfDeltaByKey(keys: seq<string>, deltas: seq<real>)
    requires |keys| == |deltas|
    ensures Sum(DeltaByKey(keys, deltas)) == Total(deltas)
  {
    if keys != [] {
      var n := |keys| - 1;
      SumOfDeltaByKey(keys[..n], deltas[..n]);
      var before := DeltaByKey(keys[..n], deltas[..n]);
      SumSets(before, keys[n], Get(before, keys[n]) + deltas[n]);
    }
  }

  // ------------------------------------------------------------------ ingesting

  function Entered(strata: map<string, Stratum>, keys: seq<string>): (r: map<string, Stratum>)
    ensures r.Keys == strata.Keys + set k | k in keys
    ensures forall k | k in r :: r[k] == if k in strata then strata[k] else FRESH
  {
    if keys == [] then strata
    else
      var n := |keys| - 1;
      var before := Entered(strata, keys[..n]);
      assert keys == keys[..n] + [keys[n]];
      if keys[n] in before then before else before[keys[n] := FRESH]
  }

  function Decayed(sigma: real): real
  {
    var s := sigma * SIGMA_DECAY;
    if s < MINIMUM_SIGMA then MINIMUM_SIGMA else s
  }

  function Moved(s: Stratum, delta: real): Stratum
  {
    s.(mu := s.mu + delta, sigma := Decayed(s.sigma))
  }

  /** Each stratum of the game moves by its whole delta and decays once. */
  function Rated(strata: map<string, Stratum>, delta: map<string, real>): map<string, Stratum>
  {
    map k | k in strata :: if k in delta then Moved(strata[k], delta[k]) else strata[k]
  }

  function Occurrences(keys: seq<string>, key: string): nat
  {
    if keys == [] then 0 else Occurrences(keys[..|keys| - 1], key) + if keys[|keys| - 1] == key then 1 else 0
  }

  /** Counts a match, and a rated match, once for every seat. */
  function Counted(strata: map<string, Stratum>, keys: seq<string>, rated: bool): map<string, Stratum>
  {
    map k | k in strata ::
      strata[k].(rated := strata[k].rated + (if rated then Occurrences(keys, k) else 0),
                 matches := strata[k].matches + Occurrences(keys, k))
  }

  predicate IsRated(r: Report)
  {
    r.completed && |r.seats| > 1
  }

  function Mus(strata: map<string, Stratum>, keys: seq<string>): (r: seq<real>)
    requires forall k | k in keys :: k in strata
    ensures |r| == |keys|
  {
    seq(|keys|, i requires 0 <= i < |keys| => strata[keys[i]].mu)
  }

  function GameDeltas(exp: Exponential, strata: map<string, Stratum>, seats: seq<Seat>): (r: seq<real>)
    requires forall k | k in Keys(seats) :: k in strata
    ensures |r| == |seats|
  {
    Deltas(Actual(seats), Expected(exp, Mus(strata, Keys(seats))))
  }

  function AfterRating(exp: Exponential, strata: map<string, Stratum>, r: Report): map<string, Stratum>
    requires forall k | k in Keys(r.seats) :: k in strata
  {
    if IsRated(r) then Rated(strata, DeltaByKey(Keys(r.seats), GameDeltas(exp, strata, r.seats))) else strata
  }

  function StrataAfter(exp: Exponential, strata: map<string, Stratum>, r: Report): map<string, Stratum>
  {
    var keys := Keys(r.seats);
    Counted(AfterRating(exp, Entered(strata, keys), r), keys, IsRated(r))
  }

  function OneMore(byContext: map<string, nat>, context: string): map<string, nat>
  {
    byContext[context := (if context in byContext then byContext[context] else 0) + 1]
  }

  function Ingested(exp: Exponential, l: Ledger, r: Report): Ledger
  {
    if r.seats == [] then l
    else
      Ledger(StrataAfter(exp, l.strata, r), l.games + 1, OneMore(l.byContext, r.context), l.revision + 1)
  }

  class PersistedDeckAnalytics {
    var strata: map<string, Stratum>
    var recordedGames: nat
    var recordedGamesByContext: map<string, nat>
    var revision: nat

    function Contents(): Ledger
      reads this
    {
      Ledger(strata, recordedGames, recordedGamesByContext, revision)
    }

    constructor ()
      ensures Contents() == EMPTY
    {
      strata, recordedGames, recordedGamesByContext, revision := map[], 0, map[], 0;
    }

    method Ingest(exp: Exponential, report: Report)
      modifies this
      ensures Contents() == Ingested(exp, old(Contents()), report)
    {
      if report.seats == [] {
        return;
      }
      IngestStrata(exp, report);
      recordedGames := recordedGames + 1;
      var before := if report.context in recordedGamesByContext then recordedGamesByContext[report.context] else 0;
      recordedGamesByContext := recordedGamesByContext[report.context := before + 1];
      revision := revision + 1;
    }

    method IngestStrata(exp: Exponential, report: Report)
      modifies this`strata
      ensures strata == StrataAfter(exp, old(strata), report)
    {
      var keys := Keys(report.seats);
      EnterStrata(keys);
      if IsRated(report) {
        RateGame(exp, report.seats);
      }
      Count(keys, IsRated(report));
    }

    method RateGame(exp: Exponential, seats: seq<Seat>)
      requires forall k | k in Keys(seats) :: k in strata
      modifies this`strata
      ensures strata == Rated(old(strata), DeltaByKey(Keys(seats), GameDeltas(exp, old(strata), seats)))
    {
      var keys := Keys(seats);
      var deltas := Deltas(Actual(seats), Expected(exp, Mus(strata, keys)));
      var deltaByKey := SumByKey(keys, deltas);
      Move(deltaByKey);
    }

    method SumByKey(keys: seq<string>, deltas: seq<real>) returns (deltaByKey: map<string, real>)
      requires |keys| == |deltas|
      ensures deltaByKey == DeltaByKey(keys, deltas)
    {
      deltaByKey := map[];
      for i := 0 to |keys|
        invariant deltaByKey == DeltaByKey(keys[..i], deltas[..i])
      {
        NextKey(keys, deltas, i);
        deltaByKey := deltaByKey[keys[i] := Get(deltaByKey, keys[i]) + deltas[i]];
      }
      assert keys[..|keys|] == keys && deltas[..|keys|] == deltas;
    }

    method Count(keys: seq<string>, rated: bool)
      requires forall k | k in keys :: k in strata
      modifies this`strata
      ensures strata == Counted(old(strata), keys, rated)
    {
      if rated {
        CountRated(keys);
      }
      CountMatches(keys);
    }

    method EnterStrata(keys: seq<string>)
      modifies this`strata
      ensures strata == Entered(old(strata), keys)
    {
      for i := 0 to |keys|
        invariant strata == Entered(old(strata), keys[..i])
      {
        assert keys[..i + 1][..i] == keys[..i];
        if keys[i] !in strata {
          strata := strata[keys[i] := FRESH];
        }
      }
      assert keys[..|keys|] == keys;
    }

    /** Applies the deltas, one stratum after another. */
    method Move(delta: map<string, real>)
      requires delta.Keys <= strata.Keys
      modifies this`strata
      ensures strata == Rated(old(strata), delta)
    {
      var left := delta.Keys;
      while left != {}
        invariant left <= delta.Keys && strata.Keys == old(strata).Keys
        invariant forall k | k in strata ::
                    strata[k] == if k in delta && k !in left then Moved(old(strata)[k], delta[k]) else old(strata)[k]
        decreases |left|
      {
        var key :| key in left;
        strata := strata[key := Moved(strata[key], delta[key])];
        left := left - {key};
      }
    }

    method CountRated(keys: seq<string>)
      requires forall k | k in keys :: k in strata
      modifies this`strata
      ensures strata.Keys == old(strata).Keys
      ensures forall k | k in strata :: strata[k] == old(strata)[k].(rated :=
                                                                     old(strata)[k].rated + Occurrences(keys, k))
    {
      for i := 0 to |keys|
        invariant strata.Keys == old(strata).Keys
        invariant forall k | k in strata ::
                  strata[k] == old(strata)[k].(rated := old(strata)[k].rated + Occurrences(keys[..i], k))
      {
        assert keys[..i + 1][..i] == keys[..i];
        strata := strata[keys[i] := strata[keys[i]].(rated := strata[keys[i]].rated + 1)];
      }
      assert keys[..|keys|] == keys;
    }

    method CountMatches(keys: seq<string>)
      requires forall k | k in keys :: k in strata
      modifies this`strata
      ensures strata.Keys == old(strata).Keys
      ensures forall k | k in strata :: strata[k] == old(strata)[k].(matches :=
                                                                     old(strata)[k].matches + Occurrences(keys, k))
    {
      for i := 0 to |keys|
        invariant strata.Keys == old(strata).Keys
        invariant forall k | k in strata ::
                  strata[k] == old(strata)[k].(matches := old(strata)[k].matches + Occurrences(keys[..i], k))
      {
        assert keys[..i + 1][..i] == keys[..i];
        strata := strata[keys[i] := strata[keys[i]].(matches := strata[keys[i]].matches + 1)];
      }
      assert keys[..|keys|] == keys;
    }
  }

  // ---------------------------------------------------------------- conservation

  function Deviations(strata: map<string, Stratum>): map<string, real>
  {
    map k | k in strata :: strata[k].mu - DEFAULT_MU
  }

  function InReals(m: map<string, nat>): map<string, real>
  {
    map k | k in m :: m[k] as real
  }

  /** Points are only moved, never made; uncertainty stays in its range; every
      game is counted once everywhere. */
  ghost predicate Balanced(l: Ledger)
  {
    && Sum(Deviations(l.strata)) == 0.0
    && SigmasInRange(l.strata)
    && l.games == l.revision
    && Sum(InReals(l.byContext)) == l.games as real
  }

  lemma {:induction false} EnteringMovesNothing(strata: map<string, Stratum>, keys: seq<string>)
    ensures Sum(Deviations(Entered(strata, keys))) == Sum(Deviations(strata))
  {
    if keys != [] {
      var n := |keys| - 1;
      EnteringMovesNothing(strata, keys[..n]);
      var before := Entered(strata, keys[..n]);
      if keys[n] !in before {
        SumSets(Deviations(before), keys[n], 0.0);
        FreshDoesNotDeviate(before, keys[n]);
      }
    }
  }

  lemma FreshDoesNotDeviate(strata: map<string, Stratum>, key: string)
    ensures Deviations(strata[key := FRESH]) == Deviations(strata)[key := 0.0]
  {
  }

  lemma RatingShifts(strata: map<string, Stratum>, delta: map<string, real>)
    ensures Deviations(Rated(strata, delta)) == Shifted(Deviations(strata), delta)
  {
  }

  lemma RatingMovesByDelta(strata: map<string, Stratum>, delta: map<string, real>)
    requires delta.Keys <= strata.Keys
    ensures Sum(Deviations(Rated(strata, delta))) == Sum(Deviations(strata)) + Sum(delta)
  {
    SumShifts(Deviations(strata), delta);
    RatingShifts(strata, delta);
  }

  /** A game's deltas cancel out, even when seats share a stratum. */
  lemma DeltasCancel(exp: Exponential, strata: map<string, Stratum>, seats: seq<Seat>)
    requires Positive(exp) && seats != [] && forall k | k in Keys(seats) :: k in strata
    ensures Sum(DeltaByKey(Keys(seats), GameDeltas(exp, strata, seats))) == 0.0
  {
    var mus := Mus(strata, Keys(seats));
    SumOfDeltaByKey(Keys(seats), GameDeltas(exp, strata, seats));
    TotalOfDeltas(Actual(seats), Expected(exp, mus));
    ExpectedSumToOne(exp, mus);
    ActualSumToOne(seats);
  }

  lemma RatingKeepsPoints(exp: Exponential, strata: map<string, Stratum>, r: Report)
    requires Positive(exp) && forall k | k in Keys(r.seats) :: k in strata
    ensures Sum(Deviations(AfterRating(exp, strata, r))) == Sum(Deviations(strata))
  {
    if IsRated(r) {
      DeltasCancel(exp, strata, r.seats);
      RatingMovesByDelta(strata, DeltaByKey(Keys(r.seats), GameDeltas(exp, strata, r.seats)));
    }
  }

  lemma CountingKeepsPoints(strata: map<string, Stratum>, keys: seq<string>, rated: bool)
    ensures Deviations(Counted(strata, keys, rated)) == Deviations(strata)
  {
  }

  lemma ContextsCountGames(byContext: map<string, nat>, context: string)
    ensures Sum(InReals(OneMore(byContext, context))) == Sum(InReals(byContext)) + 1.0
  {
    var n := if context in byContext then byContext[context] else 0;
    SumSets(InReals(byContext), context, (n + 1) as real);
    assert InReals(byContext[context := n + 1]) == InReals(byContext)[context := (n + 1) as real];
  }

  lemma StrataKeepPoints(exp: Exponential, strata: map<string, Stratum>, r: Report)
    requires Positive(exp) && r.seats != []
    ensures Sum(Deviations(StrataAfter(exp, strata, r))) == Sum(Deviations(strata))
  {
    var keys := Keys(r.seats);
    var entered := Entered(strata, keys);
    EnteringMovesNothing(strata, keys);
    RatingKeepsPoints(exp, entered, r);
    CountingKeepsPoints(AfterRating(exp, entered, r), keys, IsRated(r));
  }

  ghost predicate SigmasInRange(strata: map<string, Stratum>)
  {
    forall k | k in strata :: MINIMUM_SIGMA <= strata[k].sigma <= DEFAULT_SIGMA
  }

  /** Uncertainty never grows, and strata never disappear. */
  lemma StrataKeepSigmas(exp: Exponential, strata: map<string, Stratum>, r: Report)
    requires SigmasInRange(strata)
    ensures var after := StrataAfter(exp, strata, r);
            SigmasInRange(after) && forall k | k in strata :: k in after && after[k].sigma <= strata[k].sigma
  {
  }

  /** Every report, rated or not, keeps the balance. */
  lemma IngestKeepsBalance(exp: Exponential, l: Ledger, r: Report)
    requires Positive(exp) && Balanced(l)
    ensures Balanced(Ingested(exp, l, r))
  {
    if r.seats != [] {
      StrataKeepPoints(exp, l.strata, r);
      StrataKeepSigmas(exp, l.strata, r);
      ContextsCountGames(l.byContext, r.context);
    }
  }

  /** Where every seat has its own stratum, a sole winner's rating rises and
      everybody else's falls. */
  lemma WinnerRisesOthersFall(exp: Exponential, l: Ledger, r: Report, i: nat)
    requires Positive(exp) && r.completed && |r.seats| > 1 && i < |r.seats|
    requires Winners(r.seats) == 1 && forall a, b | 0 <= a < b < |r.seats| :: r.seats[a].key != r.seats[b].key
    ensures var k := r.seats[i].key;
            var before := Entered(l.strata, Keys(r.seats))[k].mu;
            var after := Ingested(exp, l, r).strata[k].mu;
            if r.seats[i].won then after > before else after < before
  {
    var keys, k := Keys(r.seats), r.seats[i].key;
    var entered := Entered(l.strata, keys);
    var mus := Mus(entered, keys);
    var strengths := Strengths(exp, mus);
    TotalIsPositive(strengths);
    ShareIsProper(strengths[i], Total(strengths));
    var deltas := GameDeltas(exp, entered, r.seats);
    OwnDelta(keys, deltas, i);
    assert Ingested(exp, l, r).strata[k].mu == entered[k].mu + deltas[i];
  }

  lemma ShareIsProper(x: real, total: real)
    requires 0.0 < x < total
    ensures 0.0 < x / total < 1.0
  {
    ProductOrder(x / total, total, x);
  }

  lemma ProductOrder(q: real, t: real, product: real)
    requires t > 0.0 && product == q * t
    ensures (q <= 0.0 ==> product <= 0.0) && (q >= 1.0 ==> product >= t)
  {
    if q >= 1.0 {
      assert (q - 1.0) * t >= 0.0;
    }
  }

  lemma {:induction false} OwnDelta(keys: seq<string>, deltas: seq<real>, i: nat)
    requires |keys| == |deltas| && i < |keys| && forall a, b | 0 <= a < b < |keys| :: keys[a] != keys[b]
    ensures keys[i] in DeltaByKey(keys, deltas) && DeltaByKey(keys, deltas)[keys[i]] == deltas[i]
  {
    var n := |keys| - 1;
    if i < n {
      OwnDelta(keys[..n], deltas[..n], i);
    }
  }

  // ------------------------------------------------- what the ratings count for

  ghost predicate Increasing(exp: Exponential)
  {
    forall x: real, y: real | x < y :: exp(x) < exp(y)
  }

  lemma QuotientOrder(a: real, b: real, t: real)
    requires t > 0.0
    ensures a > b ==> a / t > b / t
    ensures a / t * b == b / t * a
  {
    if a > b {
      ProductOrder((a - b) / t, t, a - b);
      assert a / t - b / t == (a - b) / t;
    }
  }

  lemma ExpectedAre(exp: Exponential, mus: seq<real>, i: nat)
    requires Positive(exp) && i < |mus|
    ensures Total(Strengths(exp, mus)) > 0.0
    ensures Expected(exp, mus)[i] == Strengths(exp, mus)[i] / Total(Strengths(exp, mus))
  {
    TotalIsPositive(Strengths(exp, mus));
  }

  /** A rating taken for the nearest within thirty betas of zero. */
  function Nearest(mu: real): real
  {
    if mu < -125.0 then -125.0 else if mu > 125.0 then 125.0 else mu
  }

  /** Expected scores stand in the ratio of the exponentials of the ratings, over beta,
      within thirty betas of zero. */
  lemma ExpectedInRatio(exp: Exponential, mus: seq<real>, i: nat, j: nat)
    requires Positive(exp) && i < |mus| && j < |mus|
    ensures Expected(exp, mus)[i] * exp(Nearest(mus[j]) / (25.0 / 6.0))
            == Expected(exp, mus)[j] * exp(Nearest(mus[i]) / (25.0 / 6.0))
  {
    ExpectedFollowStrengths(exp, mus, i, j);
    NearestIsClamped(mus[i]);
    NearestIsClamped(mus[j]);
  }

  lemma NearestIsClamped(mu: real)
    ensures Clamp(mu / BETA, -30.0, 30.0) == Nearest(mu) / BETA
  {
  }

  /** So the higher rating has the higher expected score. */
  lemma ExpectedFollowRatings(exp: Exponential, mus: seq<real>, i: nat, j: nat)
    requires Positive(exp) && Increasing(exp) && i < |mus| && j < |mus|
    requires -125.0 <= mus[i] <= 125.0 && -125.0 <= mus[j] <= 125.0
    ensures Expected(exp, mus)[i] > Expected(exp, mus)[j] <==> mus[i] > mus[j]
  {
    ExpectedFollowStrengths(exp, mus, i, j);
    if mus[i] > mus[j] {
      assert mus[i] / BETA > mus[j] / BETA;
    } else if mus[i] < mus[j] {
      assert mus[i] / BETA < mus[j] / BETA;
    }
  }

  lemma ExpectedFollowStrengths(exp: Exponential, mus: seq<real>, i: nat, j: nat)
    requires Positive(exp) && i < |mus| && j < |mus|
    ensures var e, s := Expected(exp, mus), Strengths(exp, mus);
            e[i] * s[j] == e[j] * s[i] && (e[i] > e[j] <==> s[i] > s[j])
  {
    var s := Strengths(exp, mus);
    ExpectedAre(exp, mus, i);
    ExpectedAre(exp, mus, j);
    QuotientOrder(s[i], s[j], Total(s));
    QuotientOrder(s[j], s[i], Total(s));
  }

  /** Beyond, ratings are taken for the nearest within: no rating is worth less than
      a lower one. */
  lemma ExpectedNeverInvert(exp: Exponential, mus: seq<real>, i: nat, j: nat)
    requires Positive(exp) && Increasing(exp) && i < |mus| && j < |mus| && mus[i] >= mus[j]
    ensures Expected(exp, mus)[i] >= Expected(exp, mus)[j]
  {
    ExpectedFollowStrengths(exp, mus, i, j);
    ExpectedFollowStrengths(exp, mus, j, i);
    assert mus[i] / BETA >= mus[j] / BETA;
    assert Clamp(mus[i] / BETA, -30.0, 30.0) >= Clamp(mus[j] / BETA, -30.0, 30.0);
  }

  /** Winners share the point equally, and losers have none of it; without a winner
      everybody shares it. */
  lemma ActualAre(seats: seq<Seat>, i: nat, j: nat)
    requires i < |seats| && j < |seats|
    ensures seats[i].won == seats[j].won ==> Actual(seats)[i] == Actual(seats)[j]
    ensures seats[i].won && !seats[j].won ==> Actual(seats)[i] > 0.0 == Actual(seats)[j]
  {
    if seats[i].won {
      WinnerIsCounted(seats, i);
      QuotientOrder(1.0, 0.0, Winners(seats) as real);
    }
  }

  lemma {:induction false} WinnerIsCounted(seats: seq<Seat>, i: nat)
    requires i < |seats| && seats[i].won
    ensures Winners(seats) > 0
  {
    if i < |seats| - 1 {
      WinnerIsCounted(seats[..|seats| - 1], i);
    }
  }

  /** What the seats of one key add up to. */
  function OfKey(keys: seq<string>, deltas: seq<real>, key: string): real
    requires |keys| == |deltas|
  {
    if keys == [] then 0.0
    else
      var n := |keys| - 1;
      OfKey(keys[..n], deltas[..n], key) + if keys[n] == key then deltas[n] else 0.0
  }

  lemma {:induction false} DeltaIsOfKey(keys: seq<string>, deltas: seq<real>, key: string)
    requires |keys| == |deltas|
    ensures Get(DeltaByKey(keys, deltas), key) == OfKey(keys, deltas, key)
  {
    if keys != [] {
      DeltaIsOfKey(keys[..|keys| - 1], deltas[..|keys| - 1], key);
    }
  }

  /** What a report does to a stratum's rating, a new one starting at 25 and 25/3. If
      the report is completed and has more than one seat, a stratum that plays gains
      what its seats scored beyond expectation, and its sigma shrinks by a quarter of
      a percent, but not below 1. Otherwise, and to a stratum that does not play,
      nothing. */
  lemma ReportMovesRating(exp: Exponential, l: Ledger, r: Report, key: string)
    requires Positive(exp) && r.seats != [] && key in Ingested(exp, l, r).strata
    ensures var keys := Keys(r.seats);
            var mu := if key in l.strata then l.strata[key].mu else 25.0;
            var sigma := if key in l.strata then l.strata[key].sigma else 25.0 / 3.0;
            var after := Ingested(exp, l, r).strata[key];
            if r.completed && |r.seats| > 1 && key in keys
            then
              var expected := Expected(exp, Mus(Entered(l.strata, keys), keys));
              var beyond := seq(|keys|, i requires 0 <= i < |keys| => Actual(r.seats)[i] - expected[i]);
              && after.mu == mu + OfKey(keys, beyond, key)
              && after.sigma == (if sigma * 0.9975 < 1.0 then 1.0 else sigma * 0.9975)
            else after.mu == mu && after.sigma == sigma
  {
    var keys := Keys(r.seats);
    var entered := Entered(l.strata, keys);
    CountingKeepsRating(exp, l, r, key);
    if r.completed && |r.seats| > 1 && key in keys {
      DeltasAreBeyond(exp, entered, r.seats);
      DeltaIsOfKey(keys, GameDeltas(exp, entered, r.seats), key);
    }
  }

  lemma CountingKeepsRating(exp: Exponential, l: Ledger, r: Report, key: string)
    requires r.seats != [] && key in Ingested(exp, l, r).strata
    ensures var rated, after := AfterRating(exp, Entered(l.strata, Keys(r.seats)), r), Ingested(exp, l, r).strata[key];
            key in rated && after.mu == rated[key].mu && after.sigma == rated[key].sigma
  {
  }

  lemma DeltasAreBeyond(exp: Exponential, strata: map<string, Stratum>, seats: seq<Seat>)
    requires forall k | k in Keys(seats) :: k in strata
    ensures var keys := Keys(seats);
            var expected := Expected(exp, Mus(strata, keys));
            GameDeltas(exp, strata, seats)
              == seq(|keys|, i requires 0 <= i < |keys| => Actual(seats)[i] - expected[i])
  {
  }

  /** Every seat is a match of its stratum, and a rated one where the report rates. */
  lemma ReportCountsSeats(exp: Exponential, l: Ledger, r: Report, key: string)
    requires r.seats != [] && key in Ingested(exp, l, r).strata
    ensures var before := if key in l.strata then l.strata[key] else Stratum(25.0, 25.0 / 3.0, 0, 0);
            var after := Ingested(exp, l, r).strata[key];
            var held := |set i | 0 <= i < |r.seats| && r.seats[i].key == key|;
            && after.matches == before.matches + held
            && after.rated == before.rated + if r.completed && |r.seats| > 1 then held else 0
  {
    OccurrencesAre(Keys(r.seats), key);
    assert (set i | 0 <= i < |r.seats| && r.seats[i].key == key)
        == set i | 0 <= i < |Keys(r.seats)| && Keys(r.seats)[i] == key;
  }

  lemma {:induction false} OccurrencesAre(keys: seq<string>, key: string)
    ensures Occurrences(keys, key) == |set i | 0 <= i < |keys| && keys[i] == key|
  {
    if keys != [] {
      var n := |keys| - 1;
      OccurrencesAre(keys[..n], key);
      var before := set i | 0 <= i < n && keys[..n][i] == key;
      assert (set i | 0 <= i < |keys| && keys[i] == key) == before + if keys[n] == key then {n} else {};
    }
  }

  // ------------------------------------------------------------------ whole runs

  function IngestedAll(exp: Exponential, l: Ledger, reports: seq<Report>): Ledger
  {
    if reports == [] then l else Ingested(exp, IngestedAll(exp, l, reports[..|reports| - 1]), reports[|reports| - 1])
  }

  /** The seats a stratum has held in these reports. */
  function SeatsHeld(reports: seq<Report>, key: string): nat
  {
    if reports == [] then 0
    else SeatsHeld(reports[..|reports| - 1], key) + Occurrences(Keys(reports[|reports| - 1].seats), key)
  }

  function GamesIn(reports: seq<Report>): nat
  {
    if reports == [] then 0 else GamesIn(reports[..|reports| - 1]) + if reports[|reports| - 1].seats == [] then 0 else 1
  }

  /** After any reports, from the empty ledger: the ledger is balanced, it has
      counted every non-empty report, and a stratum's matches are its seats. */
  lemma {:induction false} EveryLedgerIsBalanced(exp: Exponential, reports: seq<Report>, key: string)
    requires Positive(exp)
    ensures var l := IngestedAll(exp, EMPTY, reports);
            && Balanced(l) && l.games == GamesIn(reports)
            && (key in l.strata <==> SeatsHeld(reports, key) > 0)
            && (key in l.strata ==>
                  l.strata[key].matches == SeatsHeld(reports, key) && l.strata[key].rated <= l.strata[key].matches)
  {
    if reports == [] {
      assert Deviations(EMPTY.strata) == map[] && InReals(EMPTY.byContext) == map[];
    } else {
      var before, r := reports[..|reports| - 1], reports[|reports| - 1];
      EveryLedgerIsBalanced(exp, before, key);
      IngestKeepsBalance(exp, IngestedAll(exp, EMPTY, before), r);
      OccursIff(Keys(r.seats), key);
    }
  }

  lemma {:induction false} OccursIff(keys: seq<string>, key: string)
    ensures Occurrences(keys, key) > 0 <==> key in keys
  {
    if keys != [] {
      OccursIff(keys[..|keys| - 1], key);
      assert keys == keys[..|keys| - 1] + [keys[|keys| - 1]];
    }
  }
}
