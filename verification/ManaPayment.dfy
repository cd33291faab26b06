/** Paying a mana cost: a backtracking search over the sources a player could
    tap, which stops collecting after 64 selections. */
module ManaPayment {
  import opened Wrappers
  import opened Numbers
  import opened Sequences

  const SYMBOLS: seq<string> := ["W", "U", "B", "R", "G", "C"]
  const MAXIMUM_SELECTIONS: nat := 64
  const MAXIMUM_OPTIONS: nat := 20

  /** Coloured requirements in the order of SYMBOLS, and the generic part, which
      a printed negative number can make negative. */
  datatype Cost = Cost(colored: seq<nat>, generic: int)

  /** A permanent that could be tapped for mana, with its alternatives. */
  datatype Source = Source(id: string, tapped: bool, creature: bool, summoningSick: bool, choices: seq<seq<string>>)

  predicate CostOk(cost: Cost)
  {
    |cost.colored| == |SYMBOLS|
  }

  function Count(symbols: seq<string>, s: string): nat
  {
    if symbols == [] then 0 else (if symbols[0] == s then 1 else 0) + Count(symbols[1..], s)
  }

  function Sum(ns: seq<nat>): nat
  {
    if ns == [] then 0 else ns[0] + Sum(ns[1..])
  }

  // ------------------------------------------------- paying from a pool

  /** Every coloured requirement is paid in its own symbol, and `spare[i]` more of
      each symbol together pay the generic part. */
  ghost predicate SplitPays(symbols: seq<string>, cost: Cost, spare: seq<nat>)
    requires CostOk(cost)
  {
    && |spare| == |SYMBOLS|
    && (forall i | 0 <= i < |SYMBOLS| :: cost.colored[i] + spare[i] <= Count(symbols, SYMBOLS[i]))
    && Sum(spare) == Max(cost.generic, 0)
  }

  ghost predicate CanBeSplit(symbols: seq<string>, cost: Cost)
    requires CostOk(cost)
  {
    exists spare :: SplitPays(symbols, cost, spare)
  }

  function Leftover(symbols: seq<string>, cost: Cost): seq<int>
    requires CostOk(cost)
  {
    seq(|SYMBOLS|, i requires 0 <= i < |SYMBOLS| => Count(symbols, SYMBOLS[i]) - cost.colored[i])
  }

  function Total(ns: seq<int>): int
  {
    if ns == [] then 0 else ns[0] + Total(ns[1..])
  }

  /** `symbols_can_pay` as a condition on counts. */
  predicate Pays(symbols: seq<string>, cost: Cost)
    requires CostOk(cost)
  {
    && (forall i | 0 <= i < |SYMBOLS| :: Leftover(symbols, cost)[i] >= 0)
    && Total(Leftover(symbols, cost)) >= cost.generic
  }

  /** Take `amount` in all, never more than `caps[i]` from place i. */
  function Draw(caps: seq<int>, amount: nat): (r: seq<nat>)
    requires forall i | 0 <= i < |caps| :: caps[i] >= 0
    requires amount <= Total(caps)
    ensures |r| == |caps| && Sum(r) == amount && forall i | 0 <= i < |caps| :: r[i] <= caps[i]
  {
    if caps == [] then []
    else
      var here := if amount <= caps[0] then amount else caps[0];
      if amount <= caps[0] then
        TotalNonNegative(caps[1..]);
        [here] + Draw(caps[1..], 0)
      else [here] + Draw(caps[1..], amount - here)
  }

  lemma {:induction false} TotalNonNegative(ns: seq<int>)
    requires forall i | 0 <= i < |ns| :: ns[i] >= 0
    ensures Total(ns) >= 0
  {
    if ns != [] {
      TotalNonNegative(ns[1..]);
    }
  }

  lemma {:induction false} SumBelow(spare: seq<nat>, caps: seq<int>)
    requires |spare| == |caps| && forall i | 0 <= i < |caps| :: spare[i] <= caps[i]
    ensures Sum(spare) <= Total(caps)
  {
    if caps != [] {
      SumBelow(spare[1..], caps[1..]);
    }
  }

  /** Counting decides exactly whether the pool can be split over the cost. */
  lemma PaysIffSplit(symbols: seq<string>, cost: Cost)
    requires CostOk(cost)
    ensures Pays(symbols, cost) <==> CanBeSplit(symbols, cost)
  {
    var caps := Leftover(symbols, cost);
    if Pays(symbols, cost) {
      TotalNonNegative(caps);
      var spare := Draw(caps, Max(cost.generic, 0));
      assert forall i | 0 <= i < |SYMBOLS| :: spare[i] <= caps[i];
      assert SplitPays(symbols, cost, spare);
    }
    if CanBeSplit(symbols, cost) {
      var spare :| SplitPays(symbols, cost, spare);
      assert forall i | 0 <= i < |SYMBOLS| :: spare[i] <= caps[i];
      SumBelow(spare, caps);
    }
  }

  /** Depletes a local pool symbol by symbol, then compares what is left. */
  method SymbolsCanPay(symbols: seq<string>, cost: Cost) returns (ok: bool)
    requires CostOk(cost)
    ensures ok <==> CanBeSplit(symbols, cost)
  {
    PaysIffSplit(symbols, cost);
    var pool: seq<int> := seq(|SYMBOLS|, i requires 0 <= i < |SYMBOLS| => Count(symbols, SYMBOLS[i]));
    for i := 0 to |SYMBOLS|
      invariant |pool| == |SYMBOLS|
      invariant forall j | 0 <= j < i :: pool[j] == Leftover(symbols, cost)[j] >= 0
      invariant forall j | i <= j < |SYMBOLS| :: pool[j] == Count(symbols, SYMBOLS[j])
    {
      if pool[i] < cost.colored[i] {
        assert Leftover(symbols, cost)[i] < 0;
        return false;
      }
      pool := pool[i := pool[i] - cost.colored[i]];
    }
    assert pool == Leftover(symbols, cost);
    ok := Total(pool) >= cost.generic;
  }

  // ------------------------------------------------------------ the search

  /** The search without its ceiling: all the selections it would collect. */
  function All(sources: seq<Source>, cost: Cost, index: nat, symbols: seq<string>, selected: seq<nat>): seq<seq<nat>>
    requires CostOk(cost)
    decreases |sources| - index, 0, 0
  {
    if Pays(symbols, cost) then [selected]
    else if index >= |sources| then []
    else All(sources, cost, index + 1, symbols, selected) + AllChoices(sources, cost, index, 0, symbols, selected)
  }

  function AllChoices(sources: seq<Source>, cost: Cost, index: nat, choice: nat, symbols: seq<string>,
                      selected: seq<nat>): seq<seq<nat>>
    requires CostOk(cost) && index < |sources| && choice <= |sources[index].choices|
    decreases |sources| - index - 1, 1, |sources[index].choices| - choice
  {
    if choice == |sources[index].choices| then []
    else All(sources, cost, index + 1, symbols + sources[index].choices[choice], selected + [index])
         + AllChoices(sources, cost, index, choice + 1, symbols, selected)
  }

  /** The search with its ceiling, adding to what has been collected so far. */
  function Collect(sources: seq<Source>, cost: Cost, index: nat, symbols: seq<string>, selected: seq<nat>,
                   selections: seq<seq<nat>>): seq<seq<nat>>
    requires CostOk(cost)
    decreases |sources| - index, 0, 0
  {
    if Pays(symbols, cost) then selections + [selected]
    else if index >= |sources| || |selections| >= MAXIMUM_SELECTIONS then selections
    else
      CollectChoices(sources, cost, index, 0, symbols, selected,
                     Collect(sources, cost, index + 1, symbols, selected, selections))
  }

  function CollectChoices(sources: seq<Source>, cost: Cost, index: nat, choice: nat, symbols: seq<string>,
                          selected: seq<nat>,
                          selections: seq<seq<nat>>): seq<seq<nat>>
    requires CostOk(cost) && index < |sources| && choice <= |sources[index].choices|
    decreases |sources| - index - 1, 1, |sources[index].choices| - choice
  {
    if choice == |sources[index].choices| then selections
    else
      CollectChoices(sources, cost, index, choice + 1, symbols, selected,
        Collect(sources, cost, index + 1, symbols + sources[index].choices[choice], selected + [index], selections))
  }

  /** The vectors that `visit` shares: it pushes, truncates and pops the first
      two and only ever appends to the third. */
  class PaymentSearch {
    const sources: seq<Source>
    const cost: Cost
    var symbols: seq<string>
    var selected: seq<nat>
    var selections: seq<seq<nat>>

    constructor (sources: seq<Source>, cost: Cost, symbols: seq<string>)
      ensures this.sources == sources && this.cost == cost && this.symbols == symbols && selected == []
              && selections == []
    {
      this.sources, this.cost, this.symbols, selected, selections := sources, cost, symbols, [], [];
    }

    method Visit(index: nat)
      requires CostOk(cost)
      modifies this
      ensures symbols == old(symbols) && selected == old(selected)
      ensures selections == Collect(sources, cost, index, symbols, selected, old(selections))
      decreases |sources| - index
    {
      PaysIffSplit(symbols, cost);
      var ok := SymbolsCanPay(symbols, cost);
      if ok {
        selections := selections + [selected];
        return;
      }
      if index >= |sources| || |selections| >= MAXIMUM_SELECTIONS {
        return;
      }
      ghost var symbols0, selected0, start := symbols, selected, selections;
      Visit(index + 1);
      var choices := sources[index].choices;
      for i := 0 to |choices|
        invariant symbols == symbols0 && selected == selected0
        invariant Collect(sources, cost, index, symbols0, selected0, start)
               == CollectChoices(sources, cost, index, i, symbols0, selected0, selections)
      {
        var symbolCount := |symbols|;
        symbols := symbols + choices[i];
        selected := selected + [index];
        Visit(index + 1);
        selected := selected[..|selected| - 1];
        symbols := symbols[..symbolCount];
        assert symbols == symbols0 && selected == selected0;
      }
    }
  }

  // ------------------------------------------------------------ the ceiling

  function First(selections: seq<seq<nat>>): seq<seq<nat>>
  {
    if |selections| <= MAXIMUM_SELECTIONS then selections else selections[..MAXIMUM_SELECTIONS]
  }

  lemma FirstAppend(a: seq<seq<nat>>, b: seq<seq<nat>>, c: seq<seq<nat>>)
    requires First(a) == First(b)
    ensures First(a + c) == First(b + c)
  {
    if |a| < MAXIMUM_SELECTIONS {
      assert a == b;
    } else {
      assert (a + c)[..MAXIMUM_SELECTIONS] == a[..MAXIMUM_SELECTIONS];
      assert (b + c)[..MAXIMUM_SELECTIONS] == b[..MAXIMUM_SELECTIONS];
    }
  }

  lemma FirstOfFull(a: seq<seq<nat>>, b: seq<seq<nat>>)
    requires |a| >= MAXIMUM_SELECTIONS
    ensures First(a + b) == First(a)
  {
    assert (a + b)[..MAXIMUM_SELECTIONS] == a[..MAXIMUM_SELECTIONS];
  }

  /** The ceiling changes nothing among the first 64 selections: up to there the
      search finds what it would have found without a ceiling, in that order. */
  lemma {:induction false} CeilingKeepsFirst(sources: seq<Source>, cost: Cost, index: nat, symbols: seq<string>,
                                             selected: seq<nat>, selections: seq<seq<nat>>)
    requires CostOk(cost)
    ensures First(Collect(sources, cost, index, symbols, selected, selections))
         == First(selections + All(sources, cost, index, symbols, selected))
    ensures |Collect(sources, cost, index, symbols, selected, selections)|
            <= |selections| + |All(sources, cost, index, symbols, selected)|
    decreases |sources| - index, 0, 0
  {
    if !Pays(symbols, cost) && index < |sources| {
      var skip := All(sources, cost, index + 1, symbols, selected);
      var rest := AllChoices(sources, cost, index, 0, symbols, selected);
      if |selections| >= MAXIMUM_SELECTIONS {
        FirstOfFull(selections, skip + rest);
      } else {
        var skipped := Collect(sources, cost, index + 1, symbols, selected, selections);
        CeilingKeepsFirst(sources, cost, index + 1, symbols, selected, selections);
        CeilingKeepsFirstChoices(sources, cost, index, 0, symbols, selected, skipped);
        FirstAppend(skipped, selections + skip, rest);
        Assoc(selections, skip, rest);
      }
    } else if !Pays(symbols, cost) {
      assert selections + [] == selections;
    }
  }

  lemma {:induction false} CeilingKeepsFirstChoices(sources: seq<Source>, cost: Cost, index: nat, choice: nat,
                                                    symbols: seq<string>,
                                                    selected: seq<nat>, selections: seq<seq<nat>>)
    requires CostOk(cost) && index < |sources| && choice <= |sources[index].choices|
    ensures First(CollectChoices(sources, cost, index, choice, symbols, selected, selections))
         == First(selections + AllChoices(sources, cost, index, choice, symbols, selected))
    ensures |CollectChoices(sources, cost, index, choice, symbols, selected, selections)|
         <= |selections| + |AllChoices(sources, cost, index, choice, symbols, selected)|
    decreases |sources| - index - 1, 1, |sources[index].choices| - choice
  {
    if choice == |sources[index].choices| {
      assert selections + [] == selections;
    } else {
      var symbols', selected' := symbols + sources[index].choices[choice], selected + [index];
      var here := All(sources, cost, index + 1, symbols', selected');
      var rest := AllChoices(sources, cost, index, choice + 1, symbols, selected);
      var collected := Collect(sources, cost, index + 1, symbols', selected', selections);
      CeilingKeepsFirst(sources, cost, index + 1, symbols', selected', selections);
      CeilingKeepsFirstChoices(sources, cost, index, choice + 1, symbols, selected, collected);
      FirstAppend(collected, selections + here, rest);
      Assoc(selections, here, rest);
    }
  }

  // --------------------------------------------- soundness and completeness

  /** For each source from `index` on: left alone, or tapped for one alternative. */
  predicate ValidPlan(sources: seq<Source>, index: nat, plan: seq<Option<nat>>)
  {
    && index <= |sources| && |plan| == |sources| - index
    && forall i | 0 <= i < |plan| :: plan[i].Some? ==> plan[i].value < |sources[index + i].choices|
  }

  function Produced(sources: seq<Source>, index: nat, plan: seq<Option<nat>>): seq<string>
    requires ValidPlan(sources, index, plan)
    decreases plan
  {
    if plan == [] then []
    else
      var rest := Produced(sources, index + 1, plan[1..]);
      if plan[0].Some? then sources[index].choices[plan[0].value] + rest else rest
  }

  /** The sources a plan taps, by position. */
  function Taps(index: nat, plan: seq<Option<nat>>): seq<nat>
    decreases plan
  {
    if plan == [] then [] else if plan[0].Some? then [index] + Taps(index + 1, plan[1..])
        else Taps(index + 1, plan[1..])
  }

  /** With the pool, what the plan's tapping produces covers the cost. */
  ghost predicate PlanPays(sources: seq<Source>, cost: Cost, pool: seq<string>, plan: seq<Option<nat>>)
    requires CostOk(cost)
  {
    ValidPlan(sources, 0, plan) && CanBeSplit(pool + Produced(sources, 0, plan), cost)
  }

  /** Some tapping of the usable sources, with the pool, covers the cost. */
  ghost predicate Feasible(sources: seq<Source>, cost: Cost, pool: seq<string>)
    requires CostOk(cost)
  {
    exists plan :: PlanPays(sources, cost, pool, plan)
  }

  function Idle(n: nat): seq<Option<nat>>
  {
    seq(n, _ => None)
  }

  lemma {:induction false} IdleProducesNothing(sources: seq<Source>, index: nat)
    requires index <= |sources|
    ensures ValidPlan(sources, index, Idle(|sources| - index))
    ensures Produced(sources, index, Idle(|sources| - index)) == [] && Taps(index, Idle(|sources| - index)) == []
    decreases |sources| - index
  {
    if index < |sources| {
      assert Idle(|sources| - index)[1..] == Idle(|sources| - index - 1);
      IdleProducesNothing(sources, index + 1);
    }
  }

  lemma Extend(sources: seq<Source>, index: nat, first: Option<nat>, rest: seq<Option<nat>>)
    requires index < |sources| && ValidPlan(sources, index + 1, rest)
             && (first.Some? ==> first.value < |sources[index].choices|)
    ensures var plan := [first] + rest;
            && ValidPlan(sources, index, plan)
            && Produced(sources, index, plan) == (if first.Some? then sources[index].choices[first.value] else [])
                + Produced(sources, index + 1, rest)
            && Taps(index, plan) == (if first.Some? then [index] else []) + Taps(index + 1, rest)
  {
    var plan := [first] + rest;
    assert plan[1..] == rest;
    assert forall i | 0 < i < |plan| :: plan[i] == rest[i - 1];
  }

  /** Soundness: every selection found comes from a plan that pays. */
  lemma {:induction false} FoundIsPlan(sources: seq<Source>, cost: Cost, index: nat, symbols: seq<string>,
                                       selected: seq<nat>, x: seq<nat>)
    returns (plan: seq<Option<nat>>)
    requires CostOk(cost) && index <= |sources| && x in All(sources, cost, index, symbols, selected)
    ensures ValidPlan(sources, index, plan) && Pays(symbols + Produced(sources, index, plan), cost)
            && x == selected + Taps(index, plan)
    decreases |sources| - index, 0, 0
  {
    if Pays(symbols, cost) {
      plan := Idle(|sources| - index);
      IdleProducesNothing(sources, index);
      assert symbols + [] == symbols && selected + [] == selected;
    } else if x in All(sources, cost, index + 1, symbols, selected) {
      var rest := FoundIsPlan(sources, cost, index + 1, symbols, selected, x);
      Extend(sources, index, None, rest);
      plan := [None] + rest;
      assert [] + Produced(sources, index + 1, rest) == Produced(sources, index + 1, rest);
      assert [] + Taps(index + 1, rest) == Taps(index + 1, rest);
    } else {
      plan := FoundChoiceIsPlan(sources, cost, index, 0, symbols, selected, x);
    }
  }

  lemma {:induction false} FoundChoiceIsPlan(sources: seq<Source>, cost: Cost, index: nat, choice: nat,
                                             symbols: seq<string>,
                                             selected: seq<nat>, x: seq<nat>)
    returns (plan: seq<Option<nat>>)
    requires CostOk(cost) && index < |sources| && choice <= |sources[index].choices|
    requires x in AllChoices(sources, cost, index, choice, symbols, selected)
    ensures ValidPlan(sources, index, plan) && Pays(symbols + Produced(sources, index, plan), cost)
            && x == selected + Taps(index, plan)
    decreases |sources| - index - 1, 1, |sources[index].choices| - choice
  {
    var mana := sources[index].choices[choice];
    if x in All(sources, cost, index + 1, symbols + mana, selected + [index]) {
      var rest := FoundIsPlan(sources, cost, index + 1, symbols + mana, selected + [index], x);
      Extend(sources, index, Some(choice), rest);
      plan := [Some(choice)] + rest;
      assert symbols + mana + Produced(sources, index + 1, rest)
             == symbols + (mana + Produced(sources, index + 1, rest));
      assert selected + [index] + Taps(index + 1, rest) == selected + ([index] + Taps(index + 1, rest));
    } else {
      plan := FoundChoiceIsPlan(sources, cost, index, choice + 1, symbols, selected, x);
    }
  }

  /** Completeness: for every plan that pays, a selection with no more sources is
      found, although the search stops at the first payment on each path. */
  lemma {:induction false} PlanIsFound(sources: seq<Source>, cost: Cost, index: nat, symbols: seq<string>,
                                       selected: seq<nat>, plan: seq<Option<nat>>)
    returns (x: seq<nat>)
    requires CostOk(cost) && ValidPlan(sources, index, plan) && Pays(symbols + Produced(sources, index, plan), cost)
    ensures x in All(sources, cost, index, symbols, selected) && |x| <= |selected| + |Taps(index, plan)|
    decreases plan
  {
    assert symbols + [] == symbols;
    if Pays(symbols, cost) {
      return selected;
    }
    var rest := plan[1..];
    assert ValidPlan(sources, index + 1, rest);
    if plan[0].Some? {
      var choice := plan[0].value;
      var mana := sources[index].choices[choice];
      assert symbols + (mana + Produced(sources, index + 1, rest))
             == symbols + mana + Produced(sources, index + 1, rest);
      x := PlanIsFound(sources, cost, index + 1, symbols + mana, selected + [index], rest);
      ChoiceIsAmongAll(sources, cost, index, 0, choice, symbols, selected, x);
    } else {
      x := PlanIsFound(sources, cost, index + 1, symbols, selected, rest);
    }
  }

  lemma {:induction false} ChoiceIsAmongAll(sources: seq<Source>, cost: Cost, index: nat, from: nat, choice: nat,
                                            symbols: seq<string>,
                                            selected: seq<nat>, x: seq<nat>)
    requires CostOk(cost) && index < |sources| && from <= choice < |sources[index].choices|
    requires x in All(sources, cost, index + 1, symbols + sources[index].choices[choice], selected + [index])
    ensures x in AllChoices(sources, cost, index, from, symbols, selected)
    decreases choice - from
  {
    if from < choice {
      ChoiceIsAmongAll(sources, cost, index, from + 1, choice, symbols, selected, x);
    }
  }

  /** The search finds something exactly when the cost can be paid, ceiling or not. */
  lemma CollectsIffFeasible(sources: seq<Source>, cost: Cost, pool: seq<string>)
    requires CostOk(cost)
    ensures Collect(sources, cost, 0, pool, [], []) != [] <==> Feasible(sources, cost, pool)
  {
    var all, found := All(sources, cost, 0, pool, []), Collect(sources, cost, 0, pool, [], []);
    CeilingKeepsFirst(sources, cost, 0, pool, [], []);
    assert [] + all == all;
    if found != [] {
      var plan := FoundIsPlan(sources, cost, 0, pool, [], all[0]);
      PaysIffSplit(pool + Produced(sources, 0, plan), cost);
      assert PlanPays(sources, cost, pool, plan);
    }
    if Feasible(sources, cost, pool) {
      var plan :| PlanPays(sources, cost, pool, plan);
      PaysIffSplit(pool + Produced(sources, 0, plan), cost);
      var x := PlanIsFound(sources, cost, 0, pool, [], plan);
    }
  }

  // ------------------------------------------------------- payment options

  function Shortest(selections: seq<seq<nat>>): (n: nat)
    requires selections != []
    ensures (exists x | x in selections :: |x| == n) && forall x | x in selections :: n <= |x|
  {
    if |selections| == 1 then |selections[0]|
    else
      var rest := Shortest(selections[1..]);
      assert selections == [selections[0]] + selections[1..];
      if |selections[0]| <= rest then assert selections[0] in selections; |selections[0]| else rest
  }

  /** The ids of the tapped cards; sorting them compares them as a multiset. */
  function Ids(sources: seq<Source>, selection: seq<nat>): multiset<string>
  {
    if selection == [] then multiset{}
    else
      var first := if selection[0] < |sources| then multiset{sources[selection[0]].id} else multiset{};
      first + Ids(sources, selection[1..])
  }

  /** Keep selections of one size, each set of cards once. */
  function Deduplicated(sources: seq<Source>, selections: seq<seq<nat>>, size: nat,
                        seen: set<multiset<string>>): seq<seq<nat>>
    decreases selections
  {
    if selections == [] then []
    else if |selections[0]| != size || Ids(sources, selections[0]) in seen
        then Deduplicated(sources, selections[1..], size, seen)
    else [selections[0]] + Deduplicated(sources, selections[1..], size, seen + {Ids(sources, selections[0])})
  }

  lemma {:induction false} DeduplicatedSelects(sources: seq<Source>, selections: seq<seq<nat>>, size: nat,
                                               seen: set<multiset<string>>, x: seq<nat>)
    requires x in Deduplicated(sources, selections, size, seen)
    ensures x in selections && |x| == size && Ids(sources, x) !in seen
    decreases selections
  {
    var head, ids := selections[0], Ids(sources, selections[0]);
    if |head| != size || ids in seen {
      DeduplicatedSelects(sources, selections[1..], size, seen, x);
    } else if x != head {
      DeduplicatedSelects(sources, selections[1..], size, seen + {ids}, x);
    }
  }

  predicate DistinctIds(sources: seq<Source>, kept: seq<seq<nat>>)
  {
    forall i, j | 0 <= i < j < |kept| :: Ids(sources, kept[i]) != Ids(sources, kept[j])
  }

  lemma {:induction false} DeduplicatedDiffer(sources: seq<Source>, selections: seq<seq<nat>>, size: nat,
                                              seen: set<multiset<string>>)
    ensures DistinctIds(sources, Deduplicated(sources, selections, size, seen))
    decreases selections
  {
    if selections != [] {
      var head, ids := selections[0], Ids(sources, selections[0]);
      if |head| != size || ids in seen {
        DeduplicatedDiffer(sources, selections[1..], size, seen);
      } else {
        var rest := Deduplicated(sources, selections[1..], size, seen + {ids});
        DeduplicatedDiffer(sources, selections[1..], size, seen + {ids});
        forall j | 0 <= j < |rest|
          ensures Ids(sources, rest[j]) != ids
        {
          DeduplicatedSelects(sources, selections[1..], size, seen + {ids}, rest[j]);
        }
      }
    }
  }

  ghost predicate Offered(sources: seq<Source>, kept: seq<seq<nat>>, ids: multiset<string>)
  {
    exists i | 0 <= i < |kept| :: Ids(sources, kept[i]) == ids
  }

  lemma OfferedByAll(sources: seq<Source>, head: seq<nat>, rest: seq<seq<nat>>, ids: multiset<string>)
    ensures Offered(sources, [head] + rest, Ids(sources, head))
    ensures Offered(sources, rest, ids) ==> Offered(sources, [head] + rest, ids)
  {
    var kept := [head] + rest;
    assert kept[0] == head;
    if Offered(sources, rest, ids) {
      var i :| 0 <= i < |rest| && Ids(sources, rest[i]) == ids;
      assert kept[i + 1] == rest[i];
    }
  }

  lemma {:induction false} DeduplicatedOffers(sources: seq<Source>, selections: seq<seq<nat>>, size: nat,
                                              seen: set<multiset<string>>, x: seq<nat>)
    requires x in selections && |x| == size
    ensures Ids(sources, x) in seen || Offered(sources, Deduplicated(sources, selections, size, seen), Ids(sources, x))
    decreases selections
  {
    var head, ids := selections[0], Ids(sources, selections[0]);
    if |head| != size || ids in seen {
      if x != head {
        DeduplicatedOffers(sources, selections[1..], size, seen, x);
      }
    } else {
      OfferedByAll(sources, head, Deduplicated(sources, selections[1..], size, seen + {ids}), Ids(sources, x));
      if Ids(sources, x) != ids {
        DeduplicatedOffers(sources, selections[1..], size, seen + {ids}, x);
      }
    }
  }

  predicate Usable(s: Source)
  {
    !(s.tapped || (s.creature && s.summoningSick)) && s.choices != []
  }

  function UsableSources(permanents: seq<Source>): seq<Source>
  {
    if permanents == [] then []
    else if Usable(permanents[0]) then [permanents[0]] + UsableSources(permanents[1..])
    else UsableSources(permanents[1..])
  }

  predicate HasRequirement(cost: Cost)
  {
    cost.generic > 0 || exists i | 0 <= i < |cost.colored| :: cost.colored[i] > 0
  }

  /** The selections to offer, as positions among the usable sources: those that tap
      the fewest sources among the selections collected, each set of cards once, up to
      20 of them. When the fewest collected are the fewest possible is a matter of
      `OptionsAreMinimalIff`. */
  method OfferedSelections(sources: seq<Source>, cost: Cost, pool: seq<string>) returns (kept: seq<seq<nat>>)
    requires CostOk(cost)
    ensures var found := Collect(sources, cost, 0, pool, [], []);
            if found == [] then kept == []
            else
              && kept != [] && |kept| <= MAXIMUM_OPTIONS
              && (forall x | x in kept :: x in found && |x| == Shortest(found))
              && DistinctIds(sources, kept)
              && (|kept| < MAXIMUM_OPTIONS ==> forall x | x in found && |x| == Shortest(found) ::
                  Offered(sources, kept, Ids(sources, x)))
  {
    var search := new PaymentSearch(sources, cost, pool);
    search.Visit(0);
    if search.selections == [] {
      return [];
    }
    var size := Shortest(search.selections);
    var all := Deduplicated(sources, search.selections, size, {});
    kept := if |all| <= MAXIMUM_OPTIONS then all else all[..MAXIMUM_OPTIONS];
    OptionsAreGood(sources, search.selections, all, kept);
  }

  lemma KeptIsGood(sources: seq<Source>, found: seq<seq<nat>>, size: nat, kept: seq<seq<nat>>)
    requires kept == Deduplicated(sources, found, size, {})
    ensures forall x | x in kept :: x in found && |x| == size
    ensures forall x | x in found && |x| == size :: Offered(sources, kept, Ids(sources, x))
  {
    forall x | x in kept
      ensures x in found && |x| == size
    {
      DeduplicatedSelects(sources, found, size, {}, x);
    }
    forall x | x in found && |x| == size
      ensures Offered(sources, kept, Ids(sources, x))
    {
      DeduplicatedOffers(sources, found, size, {}, x);
    }
  }

  lemma OptionsAreGood(sources: seq<Source>, found: seq<seq<nat>>, kept: seq<seq<nat>>, options: seq<seq<nat>>)
    requires found != [] && kept == Deduplicated(sources, found, Shortest(found), {})
    requires options == if |kept| <= MAXIMUM_OPTIONS then kept else kept[..MAXIMUM_OPTIONS]
    ensures options != [] && DistinctIds(sources, options)
    ensures forall x | x in options :: x in found && |x| == Shortest(found)
    ensures |options| < MAXIMUM_OPTIONS ==> forall x | x in found && |x| == Shortest(found) ::
            Offered(sources, options, Ids(sources, x))
  {
    var size := Shortest(found);
    DeduplicatedDiffer(sources, found, size, {});
    KeptIsGood(sources, found, size, kept);
    var shortest :| shortest in found && |shortest| == size;
    assert Offered(sources, kept, Ids(sources, shortest));
  }

  // --------------------------------------------- said of the permanents themselves

  /** The permanents a plan taps, in order. */
  function Tapped(sources: seq<Source>, index: nat, plan: seq<Option<nat>>): seq<Source>
    requires ValidPlan(sources, index, plan)
    decreases plan
  {
    if plan == [] then []
    else (if plan[0].Some? then [sources[index]] else []) + Tapped(sources, index + 1, plan[1..])
  }

  /** The plan pays, and taps nothing that is tapped already and no creature with
      summoning sickness. */
  ghost predicate PaysWith(permanents: seq<Source>, cost: Cost, pool: seq<string>, plan: seq<Option<nat>>)
    requires CostOk(cost)
  {
    && PlanPays(permanents, cost, pool, plan)
    && forall i | 0 <= i < |plan| && plan[i].Some? ::
         !permanents[i].tapped && !(permanents[i].creature && permanents[i].summoningSick)
  }

  /** Positions from `index` on are positions in the rest of the list. */
  lemma {:induction false} PlanOfRest(sources: seq<Source>, index: nat, plan: seq<Option<nat>>)
    requires ValidPlan(sources, index, plan)
    ensures ValidPlan(sources[index..], 0, plan)
    ensures Produced(sources[index..], 0, plan) == Produced(sources, index, plan)
    ensures Tapped(sources[index..], 0, plan) == Tapped(sources, index, plan)
    decreases plan
  {
    if plan != [] {
      PlanOfRest(sources, index + 1, plan[1..]);
      assert sources[index..][1..] == sources[index + 1..];
      PlanOfRest(sources[index..], 1, plan[1..]);
    }
  }

  lemma FirstOfPlan(sources: seq<Source>, first: Option<nat>, rest: seq<Option<nat>>)
    requires sources != [] && ValidPlan(sources[1..], 0, rest)
    requires first.Some? ==> first.value < |sources[0].choices|
    ensures var plan := [first] + rest;
            && ValidPlan(sources, 0, plan)
            && Produced(sources, 0, plan) == (if first.Some? then sources[0].choices[first.value] else [])
                + Produced(sources[1..], 0, rest)
            && Tapped(sources, 0, plan) == (if first.Some? then [sources[0]] else []) + Tapped(sources[1..], 0, rest)
  {
    var plan := [first] + rest;
    assert plan[1..] == rest && forall i | 0 <= i < |rest| :: plan[i + 1] == rest[i];
    assert ValidPlan(sources, 1, rest) by {
      assert forall i | 0 <= i < |rest| :: sources[1..][i] == sources[1 + i];
    }
    PlanOfRest(sources, 1, rest);
  }

  /** A plan for the usable sources is one for all permanents that leaves the others
      alone. */
  lemma {:induction false} Widen(permanents: seq<Source>, narrow: seq<Option<nat>>) returns (plan: seq<Option<nat>>)
    requires ValidPlan(UsableSources(permanents), 0, narrow)
    ensures ValidPlan(permanents, 0, plan)
    ensures Produced(permanents, 0, plan) == Produced(UsableSources(permanents), 0, narrow)
    ensures Tapped(permanents, 0, plan) == Tapped(UsableSources(permanents), 0, narrow)
    ensures forall i | 0 <= i < |plan| && plan[i].Some? :: Usable(permanents[i])
    decreases permanents
  {
    if permanents == [] {
      plan := [];
    } else {
      var usable, rest := UsableSources(permanents), permanents[1..];
      if Usable(permanents[0]) {
        assert usable[1..] == UsableSources(rest) && narrow == [narrow[0]] + narrow[1..];
        assert ValidPlan(usable[1..], 0, narrow[1..]);
        var later := Widen(rest, narrow[1..]);
        FirstOfPlan(usable, narrow[0], narrow[1..]);
        FirstOfPlan(permanents, narrow[0], later);
        plan := [narrow[0]] + later;
      } else {
        var later := Widen(rest, narrow);
        FirstOfPlan(permanents, None, later);
        plan := [None] + later;
      }
    }
  }

  lemma {:induction false} Narrow(permanents: seq<Source>, plan: seq<Option<nat>>) returns (narrow: seq<Option<nat>>)
    requires ValidPlan(permanents, 0, plan) && forall i | 0 <= i < |plan| && plan[i].Some? :: Usable(permanents[i])
    ensures ValidPlan(UsableSources(permanents), 0, narrow)
    ensures Produced(UsableSources(permanents), 0, narrow) == Produced(permanents, 0, plan)
    ensures Tapped(UsableSources(permanents), 0, narrow) == Tapped(permanents, 0, plan)
    decreases permanents
  {
    if permanents == [] {
      narrow := [];
    } else {
      var usable, rest := UsableSources(permanents), permanents[1..];
      assert plan == [plan[0]] + plan[1..] && ValidPlan(rest, 0, plan[1..]);
      var later := Narrow(rest, plan[1..]);
      FirstOfPlan(permanents, plan[0], plan[1..]);
      if Usable(permanents[0]) {
        assert usable[1..] == UsableSources(rest);
        FirstOfPlan(usable, plan[0], later);
        narrow := [plan[0]] + later;
      } else {
        narrow := later;
      }
    }
  }

  /** The usable sources are all that payments need, and nothing they may not use. */
  lemma UsableSourcesSuffice(permanents: seq<Source>, cost: Cost, pool: seq<string>)
    requires CostOk(cost)
    ensures Feasible(UsableSources(permanents), cost, pool) <==> exists plan :: PaysWith(permanents, cost, pool, plan)
  {
    if Feasible(UsableSources(permanents), cost, pool) {
      var narrow :| PlanPays(UsableSources(permanents), cost, pool, narrow);
      var plan := Widen(permanents, narrow);
      assert PaysWith(permanents, cost, pool, plan);
    }
    if exists plan :: PaysWith(permanents, cost, pool, plan) {
      var plan: seq<Option<nat>> :| PaysWith(permanents, cost, pool, plan);
      forall i | 0 <= i < |plan| && plan[i].Some?
        ensures Usable(permanents[i])
      {
        assert plan[i].value < |permanents[0 + i].choices|;
      }
      var narrow := Narrow(permanents, plan);
      assert PlanPays(UsableSources(permanents), cost, pool, narrow);
    }
  }

  predicate PositionsIn(sources: seq<Source>, x: seq<nat>)
  {
    forall k | 0 <= k < |x| :: x[k] < |sources|
  }

  function CardsAt(sources: seq<Source>, x: seq<nat>): seq<Source>
    requires PositionsIn(sources, x)
  {
    seq(|x|, k requires 0 <= k < |x| => sources[x[k]])
  }

  /** The ids of some cards, however they are ordered. */
  function IdsOf(cards: seq<Source>): multiset<string>
  {
    multiset(seq(|cards|, k requires 0 <= k < |cards| => cards[k].id))
  }

  lemma {:induction false} IdsAreOfCards(sources: seq<Source>, x: seq<nat>)
    requires PositionsIn(sources, x)
    ensures Ids(sources, x) == IdsOf(CardsAt(sources, x))
  {
    if x != [] {
      IdsAreOfCards(sources, x[1..]);
      var ids := seq(|x|, k requires 0 <= k < |x| => CardsAt(sources, x)[k].id);
      var rest := seq(|x| - 1, k requires 0 <= k < |x| - 1 => CardsAt(sources, x[1..])[k].id);
      assert ids == [sources[x[0]].id] + rest;
      assert multiset(ids) == multiset{sources[x[0]].id} + multiset(rest);
    }
  }

  lemma {:induction false} TapsAreTapped(sources: seq<Source>, index: nat, plan: seq<Option<nat>>)
    requires ValidPlan(sources, index, plan)
    ensures PositionsIn(sources, Taps(index, plan))
    ensures CardsAt(sources, Taps(index, plan)) == Tapped(sources, index, plan)
    decreases plan
  {
    if plan != [] {
      var rest := Taps(index + 1, plan[1..]);
      TapsAreTapped(sources, index + 1, plan[1..]);
      if plan[0].Some? {
        assert CardsAt(sources, [index] + rest) == [sources[index]] + CardsAt(sources, rest);
      } else {
        assert [] + Tapped(sources, index + 1, plan[1..]) == Tapped(sources, index + 1, plan[1..]);
      }
    }
  }

  /** What is collected is what some permissible tapping of the permanents taps. */
  lemma CollectedTaps(permanents: seq<Source>, cost: Cost, pool: seq<string>, x: seq<nat>)
    requires CostOk(cost) && x in Collect(UsableSources(permanents), cost, 0, pool, [], [])
    ensures PositionsIn(UsableSources(permanents), x)
    ensures exists plan :: PaysWith(permanents, cost, pool, plan)
                           && Tapped(permanents, 0, plan) == CardsAt(UsableSources(permanents), x)
  {
    var sources := UsableSources(permanents);
    var narrow := CollectedIsInTime(sources, cost, 0, pool, [], 0, [], x);
    assert x == Taps(0, narrow);
    TapsAreTapped(sources, 0, narrow);
    PaysIffSplit(pool + Produced(sources, 0, narrow), cost);
    var plan := Widen(permanents, narrow);
    assert PaysWith(permanents, cost, pool, plan);
  }

  /** Some option has these ids. */
  ghost predicate Lists(options: seq<seq<Source>>, ids: multiset<string>)
  {
    exists o | 0 <= o < |options| :: IdsOf(options[o]) == ids
  }

  /** `payment_options_for_card`, the cards of each option. A free cost has none, and
      any other exactly if it can be paid. An option is what some permissible tapping
      that pays taps; options tap the fewest sources collected, differ in their cards,
      and every such set of cards is offered unless 20 are. */
  method PaymentOptions(permanents: seq<Source>, cost: Cost, pool: seq<string>) returns (options: seq<seq<Source>>)
    requires CostOk(cost)
    ensures options != [] <==>
            && (cost.generic > 0 || exists i | 0 <= i < |cost.colored| :: cost.colored[i] > 0)
            && exists plan :: PaysWith(permanents, cost, pool, plan)
    ensures |options| <= MAXIMUM_OPTIONS
    ensures forall o | 0 <= o < |options| ::
              exists plan :: PaysWith(permanents, cost, pool, plan) && Tapped(permanents, 0, plan) == options[o]
    ensures forall o, q | 0 <= o < q < |options| :: IdsOf(options[o]) != IdsOf(options[q])
    ensures options != [] ==>
              var sources := UsableSources(permanents);
              var found := Collect(sources, cost, 0, pool, [], []);
              && found != [] && (forall o | 0 <= o < |options| :: |options[o]| == Shortest(found))
              && (|options| < MAXIMUM_OPTIONS ==> forall x | x in found && |x| == Shortest(found) ::
                  PositionsIn(sources, x) && Lists(options, IdsOf(CardsAt(sources, x))))
  {
    if !HasRequirement(cost) {
      return [];
    }
    var sources := UsableSources(permanents);
    var kept := OfferedSelections(sources, cost, pool);
    CollectsIffFeasible(sources, cost, pool);
    UsableSourcesSuffice(permanents, cost, pool);
    SelectionsAreCards(permanents, cost, pool, kept);
    options := seq(|kept|, o requires 0 <= o < |kept| && PositionsIn(sources, kept[o]) => CardsAt(sources, kept[o]));
    if options != [] {
      OptionsCover(sources, Collect(sources, cost, 0, pool, [], []), kept, options);
    }
  }

  lemma SelectionsAreCards(permanents: seq<Source>, cost: Cost, pool: seq<string>, kept: seq<seq<nat>>)
    requires CostOk(cost) && forall x | x in kept :: x in Collect(UsableSources(permanents), cost, 0, pool, [], [])
    ensures forall x | x in Collect(UsableSources(permanents), cost, 0, pool, [], []) ::
              PositionsIn(UsableSources(permanents), x)
    ensures forall o | 0 <= o < |kept| ::
              && PositionsIn(UsableSources(permanents), kept[o])
              && exists plan :: PaysWith(permanents, cost, pool, plan)
                                && Tapped(permanents, 0, plan) == CardsAt(UsableSources(permanents), kept[o])
  {
    forall x | x in Collect(UsableSources(permanents), cost, 0, pool, [], [])
      ensures && PositionsIn(UsableSources(permanents), x)
              && exists plan :: PaysWith(permanents, cost, pool, plan)
                                && Tapped(permanents, 0, plan) == CardsAt(UsableSources(permanents), x)
    {
      CollectedTaps(permanents, cost, pool, x);
    }
  }

  /** What is said of ids of selections is said of the cards offered. */
  lemma OptionsCover(sources: seq<Source>, found: seq<seq<nat>>, kept: seq<seq<nat>>, options: seq<seq<Source>>)
    requires found != [] && DistinctIds(sources, kept) && (forall x | x in found :: PositionsIn(sources, x))
    requires |options| == |kept| && forall o | 0 <= o < |kept| ::
               PositionsIn(sources, kept[o]) && options[o] == CardsAt(sources, kept[o])
    requires |kept| < MAXIMUM_OPTIONS ==>
               forall x | x in found && |x| == Shortest(found) :: Offered(sources, kept, Ids(sources, x))
    ensures forall o, q | 0 <= o < q < |options| :: IdsOf(options[o]) != IdsOf(options[q])
    ensures |options| < MAXIMUM_OPTIONS ==>
              forall x | x in found && |x| == Shortest(found) :: Lists(options, IdsOf(CardsAt(sources, x)))
  {
    forall o | 0 <= o < |kept|
      ensures IdsOf(options[o]) == Ids(sources, kept[o])
    {
      IdsAreOfCards(sources, kept[o]);
    }
    if |options| < MAXIMUM_OPTIONS {
      forall x | x in found && |x| == Shortest(found)
        ensures Lists(options, IdsOf(CardsAt(sources, x)))
      {
        IdsAreOfCards(sources, x);
        var o :| 0 <= o < |kept| && Ids(sources, kept[o]) == Ids(sources, x);
        assert IdsOf(options[o]) == Ids(sources, kept[o]);
      }
    }
  }

  /** `can_pay` holds exactly when some tapping of the permanents pays with the pool:
      one alternative each, of permanents that are untapped and, if creatures, not
      summoning-sick. */
  method CanPay(permanents: seq<Source>, cost: Cost, pool: seq<string>) returns (ok: bool)
    requires CostOk(cost)
    ensures ok <==> exists plan :: PaysWith(permanents, cost, pool, plan)
  {
    var options := PaymentOptions(permanents, cost, pool);
    ok := !HasRequirement(cost) || options != [];
    UsableSourcesSuffice(permanents, cost, pool);
    if !HasRequirement(cost) {
      FreeIsFeasible(UsableSources(permanents), cost, pool);
    }
  }

  lemma FreeIsFeasible(sources: seq<Source>, cost: Cost, pool: seq<string>)
    requires CostOk(cost) && !HasRequirement(cost)
    ensures Feasible(sources, cost, pool)
  {
    IdleProducesNothing(sources, 0);
    assert pool + [] == pool;
    var spare := [0, 0, 0, 0, 0, 0];
    assert Sum(spare) == 0 by {
      assert spare[1..] == [0, 0, 0, 0, 0] && Sum([0, 0, 0, 0, 0]) == 0;
    }
    assert SplitPays(pool, cost, spare);
    assert PlanPays(sources, cost, pool, Idle(|sources|));
  }

  // ----------------------------------------------- when the options are minimal

  /** The selections that the search without its ceiling has found below a source,
      before it taps the source for this choice. */
  function FoundBefore(sources: seq<Source>, cost: Cost, index: nat, choice: nat, symbols: seq<string>,
                       selected: seq<nat>): seq<seq<nat>>
    requires CostOk(cost) && index < |sources| && choice <= |sources[index].choices|
    decreases choice
  {
    if choice == 0 then All(sources, cost, index + 1, symbols, selected)
    else FoundBefore(sources, cost, index, choice - 1, symbols, selected)
         + All(sources, cost, index + 1, symbols + sources[index].choices[choice - 1], selected + [index])
  }

  /** Walking down the plan, fewer than 64 selections have been found at each source
      before the walk gets there, until what it has tapped pays. */
  predicate InTime(sources: seq<Source>, cost: Cost, index: nat, symbols: seq<string>, selected: seq<nat>,
                   plan: seq<Option<nat>>, found: nat)
    requires CostOk(cost) && ValidPlan(sources, index, plan)
    decreases plan
  {
    || Pays(symbols, cost)
    || (&& found < MAXIMUM_SELECTIONS && plan != []
        && ValidPlan(sources, index + 1, plan[1..])
        && if plan[0].None? then InTime(sources, cost, index + 1, symbols, selected, plan[1..], found)
           else
             var before := FoundBefore(sources, cost, index, plan[0].value, symbols, selected);
             InTime(sources, cost, index + 1, symbols + sources[index].choices[plan[0].value], selected + [index],
                    plan[1..], found + |before|))
  }

  /** Two counts that say the same about the ceiling. */
  predicate Agree(m: nat, n: nat)
  {
    m == n || (m >= MAXIMUM_SELECTIONS && n >= MAXIMUM_SELECTIONS)
  }

  lemma CollectAgrees(sources: seq<Source>, cost: Cost, index: nat, symbols: seq<string>, selected: seq<nat>,
                      selections: seq<seq<nat>>, found: nat)
    requires CostOk(cost) && Agree(|selections|, found)
    ensures Agree(|Collect(sources, cost, index, symbols, selected, selections)|,
                  found + |All(sources, cost, index, symbols, selected)|)
  {
    CeilingKeepsFirst(sources, cost, index, symbols, selected, selections);
    var a := Collect(sources, cost, index, symbols, selected, selections);
    assert |First(a)| == |First(selections + All(sources, cost, index, symbols, selected))|;
  }

  /** What was collected stays collected. */
  lemma {:induction false} CollectKeeps(sources: seq<Source>, cost: Cost, index: nat, symbols: seq<string>,
                                        selected: seq<nat>, selections: seq<seq<nat>>, x: seq<nat>)
    requires CostOk(cost) && x in selections
    ensures x in Collect(sources, cost, index, symbols, selected, selections)
    decreases |sources| - index, 0, 0
  {
    if !Pays(symbols, cost) && index < |sources| && |selections| < MAXIMUM_SELECTIONS {
      CollectKeeps(sources, cost, index + 1, symbols, selected, selections, x);
      var skipped := Collect(sources, cost, index + 1, symbols, selected, selections);
      CollectChoicesKeep(sources, cost, index, 0, symbols, selected, skipped, x);
    }
  }

  lemma {:induction false} CollectChoicesKeep(sources: seq<Source>, cost: Cost, index: nat, choice: nat,
                                              symbols: seq<string>, selected: seq<nat>, selections: seq<seq<nat>>,
                                              x: seq<nat>)
    requires CostOk(cost) && index < |sources| && choice <= |sources[index].choices| && x in selections
    ensures x in CollectChoices(sources, cost, index, choice, symbols, selected, selections)
    decreases |sources| - index - 1, 1, |sources[index].choices| - choice
  {
    if choice < |sources[index].choices| {
      var symbols', selected' := symbols + sources[index].choices[choice], selected + [index];
      CollectKeeps(sources, cost, index + 1, symbols', selected', selections, x);
      CollectChoicesKeep(sources, cost, index, choice + 1, symbols, selected,
                         Collect(sources, cost, index + 1, symbols', selected', selections), x);
    }
  }

  /** A plan walked in time is collected, with no more sources than it taps. */
  lemma {:induction false} InTimeIsCollected(sources: seq<Source>, cost: Cost, index: nat, symbols: seq<string>,
                                             selected: seq<nat>, plan: seq<Option<nat>>, found: nat,
                                             selections: seq<seq<nat>>)
    returns (x: seq<nat>)
    requires CostOk(cost) && ValidPlan(sources, index, plan) && Agree(|selections|, found)
    requires InTime(sources, cost, index, symbols, selected, plan, found)
    ensures x in Collect(sources, cost, index, symbols, selected, selections)
            && |x| <= |selected| + |Taps(index, plan)|
    decreases plan, 0, 0
  {
    if Pays(symbols, cost) {
      return selected;
    }
    var skipped := Collect(sources, cost, index + 1, symbols, selected, selections);
    if plan[0].None? {
      x := InTimeIsCollected(sources, cost, index + 1, symbols, selected, plan[1..], found, selections);
      CollectChoicesKeep(sources, cost, index, 0, symbols, selected, skipped, x);
    } else {
      CollectAgrees(sources, cost, index + 1, symbols, selected, selections, found);
      x := InTimeChoiceIsCollected(sources, cost, index, 0, symbols, selected, plan, found, skipped);
    }
  }

  /** The loop over a source's choices, up to the one the plan taps. */
  lemma {:induction false} InTimeChoiceIsCollected(sources: seq<Source>, cost: Cost, index: nat, choice: nat,
                                                   symbols: seq<string>, selected: seq<nat>, plan: seq<Option<nat>>,
                                                   found: nat, selections: seq<seq<nat>>)
    returns (x: seq<nat>)
    requires CostOk(cost) && ValidPlan(sources, index, plan) && plan != [] && plan[0].Some?
    requires choice <= plan[0].value && ValidPlan(sources, index + 1, plan[1..])
    requires Agree(|selections|, found + |FoundBefore(sources, cost, index, choice, symbols, selected)|)
    requires InTime(sources, cost, index + 1, symbols + sources[index].choices[plan[0].value], selected + [index],
                    plan[1..], found + |FoundBefore(sources, cost, index, plan[0].value, symbols, selected)|)
    ensures x in CollectChoices(sources, cost, index, choice, symbols, selected, selections)
            && |x| <= |selected| + |Taps(index, plan)|
    decreases plan[1..], 1, plan[0].value - choice
  {
    var symbols', selected' := symbols + sources[index].choices[choice], selected + [index];
    var before := found + |FoundBefore(sources, cost, index, choice, symbols, selected)|;
    var collected := Collect(sources, cost, index + 1, symbols', selected', selections);
    if choice == plan[0].value {
      x := InTimeIsCollected(sources, cost, index + 1, symbols', selected', plan[1..], before, selections);
      CollectChoicesKeep(sources, cost, index, choice + 1, symbols, selected, collected, x);
    } else {
      CollectAgrees(sources, cost, index + 1, symbols', selected', selections, before);
      x := InTimeChoiceIsCollected(sources, cost, index, choice + 1, symbols, selected, plan, found, collected);
    }
  }

  /** What is collected comes from a plan that pays and was walked in time. */
  lemma {:induction false} CollectedIsInTime(sources: seq<Source>, cost: Cost, index: nat, symbols: seq<string>,
                                             selected: seq<nat>, found: nat, selections: seq<seq<nat>>, x: seq<nat>)
    returns (plan: seq<Option<nat>>)
    requires CostOk(cost) && index <= |sources| && Agree(|selections|, found)
    requires x in Collect(sources, cost, index, symbols, selected, selections) && x !in selections
    ensures ValidPlan(sources, index, plan) && Pays(symbols + Produced(sources, index, plan), cost)
            && x == selected + Taps(index, plan) && InTime(sources, cost, index, symbols, selected, plan, found)
    decreases |sources| - index, 0, 0
  {
    if Pays(symbols, cost) {
      plan := Idle(|sources| - index);
      IdleProducesNothing(sources, index);
      assert symbols + [] == symbols && selected + [] == selected;
      return;
    }
    var skipped := Collect(sources, cost, index + 1, symbols, selected, selections);
    if x in skipped {
      var rest := CollectedIsInTime(sources, cost, index + 1, symbols, selected, found, selections, x);
      Extend(sources, index, None, rest);
      plan := [None] + rest;
      assert plan[1..] == rest;
      assert [] + Produced(sources, index + 1, rest) == Produced(sources, index + 1, rest);
      assert [] + Taps(index + 1, rest) == Taps(index + 1, rest);
    } else {
      CollectAgrees(sources, cost, index + 1, symbols, selected, selections, found);
      plan := CollectedChoiceIsInTime(sources, cost, index, 0, symbols, selected, found, skipped, x);
    }
  }

  lemma {:induction false} CollectedChoiceIsInTime(sources: seq<Source>, cost: Cost, index: nat, choice: nat,
                                                   symbols: seq<string>, selected: seq<nat>, found: nat,
                                                   selections: seq<seq<nat>>, x: seq<nat>)
    returns (plan: seq<Option<nat>>)
    requires CostOk(cost) && index < |sources| && choice <= |sources[index].choices|
    requires found < MAXIMUM_SELECTIONS
             && Agree(|selections|, found + |FoundBefore(sources, cost, index, choice, symbols, selected)|)
    requires x in CollectChoices(sources, cost, index, choice, symbols, selected, selections) && x !in selections
    ensures ValidPlan(sources, index, plan) && Pays(symbols + Produced(sources, index, plan), cost)
            && x == selected + Taps(index, plan) && InTime(sources, cost, index, symbols, selected, plan, found)
    decreases |sources| - index - 1, 1, |sources[index].choices| - choice
  {
    var mana := sources[index].choices[choice];
    var before := found + |FoundBefore(sources, cost, index, choice, symbols, selected)|;
    var collected := Collect(sources, cost, index + 1, symbols + mana, selected + [index], selections);
    if x in collected {
      var rest := CollectedIsInTime(sources, cost, index + 1, symbols + mana, selected + [index], before, selections,
                                    x);
      Extend(sources, index, Some(choice), rest);
      plan := [Some(choice)] + rest;
      assert plan[1..] == rest;
      assert symbols + mana + Produced(sources, index + 1, rest)
             == symbols + (mana + Produced(sources, index + 1, rest));
      assert selected + [index] + Taps(index + 1, rest) == selected + ([index] + Taps(index + 1, rest));
    } else {
      CollectAgrees(sources, cost, index + 1, symbols + mana, selected + [index], selections, before);
      plan := CollectedChoiceIsInTime(sources, cost, index, choice + 1, symbols, selected, found, collected, x);
    }
  }

  /** No plan that pays taps fewer sources. */
  ghost predicate Fewest(sources: seq<Source>, cost: Cost, pool: seq<string>, plan: seq<Option<nat>>)
    requires CostOk(cost)
  {
    && PlanPays(sources, cost, pool, plan)
    && forall other | PlanPays(sources, cost, pool, other) :: |Taps(0, plan)| <= |Taps(0, other)|
  }

  ghost predicate FewestInTime(sources: seq<Source>, cost: Cost, pool: seq<string>)
    requires CostOk(cost)
  {
    exists plan :: Fewest(sources, cost, pool, plan) && InTime(sources, cost, 0, pool, [], plan, 0)
  }

  /** The fewest sources collected are always those of some payment. */
  lemma ShortestIsInTime(sources: seq<Source>, cost: Cost, pool: seq<string>) returns (plan: seq<Option<nat>>)
    requires CostOk(cost) && Collect(sources, cost, 0, pool, [], []) != []
    ensures PlanPays(sources, cost, pool, plan) && InTime(sources, cost, 0, pool, [], plan, 0)
            && |Taps(0, plan)| == Shortest(Collect(sources, cost, 0, pool, [], []))
  {
    var found := Collect(sources, cost, 0, pool, [], []);
    var size := Shortest(found);
    var x :| x in found && |x| == size;
    plan := CollectedIsInTime(sources, cost, 0, pool, [], 0, [], x);
    PaysIffSplit(pool + Produced(sources, 0, plan), cost);
    assert [] + Taps(0, plan) == Taps(0, plan);
  }

  /** The fewest sources collected are the fewest any payment can use exactly when
      the search comes to some payment of the fewest sources in time. */
  lemma OptionsAreMinimalIff(sources: seq<Source>, cost: Cost, pool: seq<string>)
    requires CostOk(cost) && Feasible(sources, cost, pool)
    ensures var found := Collect(sources, cost, 0, pool, [], []);
            && found != []
            && (exists plan :: PlanPays(sources, cost, pool, plan) && |Taps(0, plan)| == Shortest(found))
            && ((forall plan | PlanPays(sources, cost, pool, plan) :: Shortest(found) <= |Taps(0, plan)|)
                <==> FewestInTime(sources, cost, pool))
  {
    CollectsIffFeasible(sources, cost, pool);
    var found := Collect(sources, cost, 0, pool, [], []);
    var plan := ShortestIsInTime(sources, cost, pool);
    if forall other | PlanPays(sources, cost, pool, other) :: Shortest(found) <= |Taps(0, other)| {
      assert Fewest(sources, cost, pool, plan);
    }
    if FewestInTime(sources, cost, pool) {
      var least :| Fewest(sources, cost, pool, least) && InTime(sources, cost, 0, pool, [], least, 0);
      var x := InTimeIsCollected(sources, cost, 0, pool, [], least, 0, []);
      assert Shortest(found) <= |Taps(0, least)|;
    }
  }

  /** In particular when there are no more than 64 selections in all. */
  lemma OptionsAreMinimal(sources: seq<Source>, cost: Cost, pool: seq<string>)
    requires CostOk(cost) && Feasible(sources, cost, pool) && |All(sources, cost, 0, pool, [])| <= MAXIMUM_SELECTIONS
    ensures var found := Collect(sources, cost, 0, pool, [], []);
            && found == All(sources, cost, 0, pool, []) && found != [] && FewestInTime(sources, cost, pool)
            && forall plan | PlanPays(sources, cost, pool, plan) :: Shortest(found) <= |Taps(0, plan)|
  {
    var all, found := All(sources, cost, 0, pool, []), Collect(sources, cost, 0, pool, [], []);
    OptionsAreMinimalIff(sources, cost, pool);
    CeilingKeepsFirst(sources, cost, 0, pool, [], []);
    assert [] + all == all;
    assert found == all;
    forall plan | PlanPays(sources, cost, pool, plan)
      ensures Shortest(found) <= |Taps(0, plan)|
    {
      PaysIffSplit(pool + Produced(sources, 0, plan), cost);
      var x := PlanIsFound(sources, cost, 0, pool, [], plan);
    }
  }

  // -------------------------------------------- what the ceiling can hide

  function Generic(n: nat): Cost
  {
    Cost([0, 0, 0, 0, 0, 0], n)
  }

  predicate KnownSymbols(symbols: seq<string>)
  {
    forall i | 0 <= i < |symbols| :: symbols[i] in SYMBOLS
  }

  function Counts(symbols: seq<string>): seq<int>
  {
    seq(|SYMBOLS|, i requires 0 <= i < |SYMBOLS| => Count(symbols, SYMBOLS[i]))
  }

  lemma TotalFrom(ns: seq<int>, i: nat)
    requires i < |ns|
    ensures Total(ns[i..]) == ns[i] + if i + 1 < |ns| then Total(ns[i + 1..]) else 0
  {
    assert ns[i..][1..] == ns[i + 1..];
  }

  lemma TotalOfSix(ns: seq<int>)
    requires |ns| == 6
    ensures Total(ns) == ns[0] + ns[1] + ns[2] + ns[3] + ns[4] + ns[5]
  {
    TotalFrom(ns, 0);
    TotalFrom(ns, 1);
    TotalFrom(ns, 2);
    TotalFrom(ns, 3);
    TotalFrom(ns, 4);
    TotalFrom(ns, 5);
    assert ns[0..] == ns;
  }

  lemma {:induction false} EverySymbolCounts(symbols: seq<string>)
    requires KnownSymbols(symbols)
    ensures Total(Counts(symbols)) == |symbols|
  {
    TotalOfSix(Counts(symbols));
    if symbols != [] {
      EverySymbolCounts(symbols[1..]);
      TotalOfSix(Counts(symbols[1..]));
    }
  }

  /** Any mana pays a generic cost. */
  lemma GenericPaysIff(symbols: seq<string>, n: nat)
    requires KnownSymbols(symbols)
    ensures Pays(symbols, Generic(n)) <==> |symbols| >= n
  {
    EverySymbolCounts(symbols);
    assert Leftover(symbols, Generic(n)) == Counts(symbols);
  }

  /** From `index` on: sources of one mana each, of any of k colours. */
  ghost predicate OneManaEach(sources: seq<Source>, index: nat, k: nat)
  {
    forall i | index <= i < |sources| ::
      && |sources[i].choices| == k
      && forall c | 0 <= c < k :: |sources[i].choices[c]| == 1 && sources[i].choices[c][0] in SYMBOLS
  }

  function Power(k: nat, n: nat): nat
  {
    if n == 0 then 1 else Repeated(k, Power(k, n - 1))
  }

  function Repeated(times: nat, n: nat): nat
  {
    if times == 0 then 0 else n + Repeated(times - 1, n)
  }

  /** So many selections, each of so many sources; none at all if `short`. */
  ghost predicate Fills(all: seq<seq<nat>>, short: bool, count: nat, size: nat)
  {
    |all| == (if short then 0 else count) && forall i | 0 <= i < |all| :: |all[i]| == size
  }

  /** Where every source left is needed, each choice of their colours is a selection
      of its own, and all of them tap every source. */
  lemma {:induction false} EverySourceNeeded(sources: seq<Source>, n: nat, index: nat, symbols: seq<string>,
                                             selected: seq<nat>, k: nat)
    requires index <= |sources| && OneManaEach(sources, index, k) && KnownSymbols(symbols)
    requires |symbols| + |sources| - index <= n
    ensures var left := |sources| - index;
            Fills(All(sources, Generic(n), index, symbols, selected), |symbols| + left < n, Power(k, left),
                  |selected| + left)
    decreases |sources| - index, 0, 0
  {
    GenericPaysIff(symbols, n);
    if index < |sources| {
      EverySourceNeeded(sources, n, index + 1, symbols, selected, k);
      EveryColourCounts(sources, n, index, 0, symbols, selected, k);
    }
  }

  lemma {:induction false} EveryColourCounts(sources: seq<Source>, n: nat, index: nat, choice: nat,
                                             symbols: seq<string>,
                                             selected: seq<nat>, k: nat)
    requires index < |sources| && OneManaEach(sources, index, k) && KnownSymbols(symbols) && choice <= k
    requires |sources[index].choices| == k && |symbols| + |sources| - index <= n
    ensures var left := |sources| - index;
            Fills(AllChoices(sources, Generic(n), index, choice, symbols, selected), |symbols| + left < n,
                  Repeated(k - choice, Power(k, left - 1)), |selected| + left)
    decreases |sources| - index - 1, 1, k - choice
  {
    if choice < k {
      var colour, left := sources[index].choices[choice], |sources| - index;
      assert |colour| == 1 && colour[0] in SYMBOLS;
      EverySourceNeeded(sources, n, index + 1, symbols + colour, selected + [index], k);
      EveryColourCounts(sources, n, index, choice + 1, symbols, selected, k);
    }
  }

  lemma {:induction false} RepeatedIsProduct(times: nat, n: nat)
    ensures Repeated(times, n) == times * n
  {
    if times > 0 {
      RepeatedIsProduct(times - 1, n);
      assert times * n == (times - 1) * n + n;
    }
  }

  /** Whatever is collected is a selection of the search without its ceiling. */
  lemma {:induction false} CollectedIsFound(sources: seq<Source>, cost: Cost, index: nat, symbols: seq<string>,
                                            selected: seq<nat>,
                                            selections: seq<seq<nat>>, x: seq<nat>)
    requires CostOk(cost) && x in Collect(sources, cost, index, symbols, selected, selections)
    ensures x in selections || x in All(sources, cost, index, symbols, selected)
    decreases |sources| - index, 0, 0
  {
    if !Pays(symbols, cost) && index < |sources| && |selections| < MAXIMUM_SELECTIONS {
      var skipped := Collect(sources, cost, index + 1, symbols, selected, selections);
      CollectedChoiceIsFound(sources, cost, index, 0, symbols, selected, skipped, x);
      if x in skipped {
        CollectedIsFound(sources, cost, index + 1, symbols, selected, selections, x);
      }
    }
  }

  lemma {:induction false} CollectedChoiceIsFound(sources: seq<Source>, cost: Cost, index: nat, choice: nat,
                                                  symbols: seq<string>,
                                                  selected: seq<nat>, selections: seq<seq<nat>>, x: seq<nat>)
    requires CostOk(cost) && index < |sources| && choice <= |sources[index].choices|
    requires x in CollectChoices(sources, cost, index, choice, symbols, selected, selections)
    ensures x in selections || x in AllChoices(sources, cost, index, choice, symbols, selected)
    decreases |sources| - index - 1, 1, |sources[index].choices| - choice
  {
    if choice < |sources[index].choices| {
      var symbols', selected' := symbols + sources[index].choices[choice], selected + [index];
      var collected := Collect(sources, cost, index + 1, symbols', selected', selections);
      CollectedChoiceIsFound(sources, cost, index, choice + 1, symbols, selected, collected, x);
      if x in collected {
        CollectedIsFound(sources, cost, index + 1, symbols', selected', selections, x);
      }
    }
  }

  // A source of two colourless mana and three of one mana of any colour, to pay 3.
  const FIVE: seq<seq<string>> := [["W"], ["U"], ["B"], ["R"], ["G"]]
  const TABLE: seq<Source> := [
    Source("double", false, false, false, [["C", "C"]]), Source("first", false, false, false, FIVE),
    Source("second", false, false, false, FIVE), Source("third", false, false, false, FIVE)]

  /** Selections of all three single sources fill the search before it comes to tap
      the double one. */
  lemma SinglesFillTheSearch(sources: seq<Source>, cost: Cost, found: seq<seq<nat>>)
    requires |sources| == 4 && OneManaEach(sources, 1, 5) && cost == Generic(3)
    requires found == Collect(sources, cost, 1, [], [], [])
    ensures |found| >= MAXIMUM_SELECTIONS && forall x | x in found :: |x| == 3
  {
    var all := All(sources, cost, 1, [], []);
    EverySourceNeeded(sources, 3, 1, [], [], 5);
    CeilingKeepsFirst(sources, cost, 1, [], [], []);
    assert [] + all == all;
    forall x | x in found
      ensures |x| == 3
    {
      CollectedIsFound(sources, cost, 1, [], [], [], x);
    }
  }

  lemma DoubleIsSkipped(sources: seq<Source>, cost: Cost, singles: seq<seq<nat>>)
    requires |sources| > 0 && sources[0].choices == [["C", "C"]] && cost == Generic(3)
    requires singles == Collect(sources, cost, 1, [], [], []) && |singles| >= MAXIMUM_SELECTIONS
    ensures Collect(sources, cost, 0, [], [], []) == singles
  {
    GenericPaysIff([], 3);
    GenericPaysIff([] + ["C", "C"], 3);
    assert Collect(sources, cost, 1, [] + ["C", "C"], [] + [0], singles) == singles;
    assert CollectChoices(sources, cost, 0, 1, [], [], singles) == singles;
  }

  /** When the ceiling fires, the fewest sources collected need not be the fewest
      possible: here two sources pay, and every option taps three. */
  lemma CeilingCanHideTheMinimum()
    ensures var found := Collect(TABLE, Generic(3), 0, [], [], []);
            && found != [] && Shortest(found) == 3
            && (exists plan :: PlanPays(TABLE, Generic(3), [], plan) && |Taps(0, plan)| == 2)
            && !FewestInTime(TABLE, Generic(3), [])
  {
    var singles := Collect(TABLE, Generic(3), 1, [], [], []);
    assert OneManaEach(TABLE, 1, 5);
    SinglesFillTheSearch(TABLE, Generic(3), singles);
    DoubleIsSkipped(TABLE, Generic(3), singles);
    PlanOfTwo();
    OptionsAreMinimalIff(TABLE, Generic(3), []);
  }

  lemma PlanOfTwo()
    ensures exists plan :: PlanPays(TABLE, Generic(3), [], plan) && |Taps(0, plan)| == 2
  {
    IdleProducesNothing(TABLE, 2);
    var idle := Idle(|TABLE| - 2);
    Extend(TABLE, 1, Some(0), idle);
    Extend(TABLE, 0, Some(0), [Some(0)] + idle);
    var plan := [Some(0)] + ([Some(0)] + idle);
    assert [] + Produced(TABLE, 0, plan) == ["C", "C", "W"];
    GenericPaysIff(["C", "C", "W"], 3);
    PaysIffSplit(["C", "C", "W"], Generic(3));
    assert PlanPays(TABLE, Generic(3), [], plan) && |Taps(0, plan)| == 2;
  }
}
