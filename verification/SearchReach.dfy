/** Where a search gets to: what can make it fail, and how deep it has been. */
module SearchReach {
  import opened Wrappers
  import opened EngineTree
  import opened ReplayProviders
  import opened TreeSearch
  import opened SearchProofs
  import opened SearchWitness
  import opened SearchCounts

  /** What a search says of a run that ends here, if that is an error. A run must not
      end in the signal that is to mark a decision. */
  function ErrorAt(t: Tree): Option<string>
  {
    match t
    case Leaf(_, _, _) => None
    case Crash(message) =>
      Some(if message == "punching-bag-search-branch" then "branch signal had no pending decision" else message)
    case Decision(p, _) => if p.request == NumberRange(None) then Some("decision is not a number selection") else None
  }

  ghost predicate CanFailWith(t: Tree, e: string)
  {
    exists path :: Follow(t, path).Some? && ErrorAt(Follow(t, path).value) == Some(e)
  }

  lemma FailsBelow(t: Tree, i: nat, e: string)
    requires t.Decision? && i < |t.edges| && CanFailWith(t.edges[i].next, e)
    ensures CanFailWith(t, e)
  {
    var path :| Follow(t.edges[i].next, path).Some? && ErrorAt(Follow(t.edges[i].next, path).value) == Some(e);
    assert Follow(t, [i] + path) == Follow(t.edges[i].next, path) by {
      assert ([i] + path)[1..] == path;
    }
  }

  /** A search fails only with the error of some run through the tree. */
  lemma {:induction false} FailureIsOfARun(cfg: Config, s: Search, t: Tree, events: seq<string>,
                                           branch: seq<ScriptedChoice>)
    requires Shaped(t) && Explore(cfg, s, t, events, branch).Failure?
    ensures CanFailWith(t, Explore(cfg, s, t, events, branch).error)
    decreases t, if t.Decision? then |t.edges| + 1 else 0
  {
    var e := Explore(cfg, s, t, events, branch).error;
    if ErrorAt(t) == Some(e) {
      assert Follow(t, []) == Some(t);
    } else {
      var s1 := AtRoot(AfterReplay(s, |branch|), t.point, events, branch);
      FailureFromIsOfARun(cfg, Expanding(s1, t.point), t, events, branch, 0, NO_LEAVES, e);
    }
  }

  lemma {:induction false} FailureFromIsOfARun(cfg: Config, s: Search, t: Tree, events: seq<string>,
                                               branch: seq<ScriptedChoice>, i: nat, totals: TreeCounts, e: string)
    requires Shaped(t) && t.Decision? && i <= |t.edges|
    requires ExploreFrom(cfg, s, t, events, branch, i, totals) == Failure(e)
    ensures CanFailWith(t, e)
    decreases t, |t.edges| - i
  {
    var choice := Choices(t.point)[i];
    var r := Explore(cfg, s, t.edges[i].next, events + t.edges[i].emitted, branch + [choice]);
    if r.Failure? {
      FailureIsOfARun(cfg, s, t.edges[i].next, events + t.edges[i].emitted, branch + [choice]);
      FailsBelow(t, i, e);
    } else {
      FailureFromIsOfARun(cfg, Reported(r.value.0, branch, choice, r.value.1), t, events, branch, i + 1,
                          totals.Merge(r.value.1), e);
    }
  }

  // ---------------------------------------------------------------------- depth

  /** No path through the tree has more than n choices. */
  ghost predicate NotDeeper(t: Tree, n: int)
  {
    forall path | Follow(t, path).Some? :: |path| <= n
  }

  /** From the i-th edge on, none leads more than n - 1 choices further. */
  ghost predicate EdgesNotDeeper(t: Tree, n: int, i: nat)
    requires t.Decision?
  {
    forall j | i <= j < |t.edges| :: NotDeeper(t.edges[j].next, n - 1)
  }

  lemma OneMoreNotDeeper(t: Tree, n: int, m: int, i: nat)
    requires t.Decision? && i < |t.edges| && n <= m
    requires NotDeeper(t.edges[i].next, n - 1) && EdgesNotDeeper(t, m, i + 1)
    ensures EdgesNotDeeper(t, m, i)
  {
  }

  lemma DecisionNotDeeper(t: Tree, n: int)
    requires 0 <= n && (t.Decision? ==> EdgesNotDeeper(t, n, 0))
    ensures NotDeeper(t, n)
  {
    forall path | Follow(t, path).Some?
      ensures |path| <= n
    {
      if path != [] {
        assert Follow(t.edges[path[0]].next, path[1..]).Some?;
      }
    }
  }

  /** Some path of n choices leads on. */
  ghost predicate HasPath(t: Tree, n: nat)
  {
    exists path :: |path| == n && Follow(t, path).Some?
  }

  lemma PathBelow(t: Tree, i: nat, n: nat)
    requires t.Decision? && i < |t.edges| && HasPath(t.edges[i].next, n)
    ensures HasPath(t, n + 1)
  {
    var path :| |path| == n && Follow(t.edges[i].next, path).Some?;
    assert ([i] + path)[1..] == path;
    assert Follow(t, [i] + path).Some?;
  }

  /** The depth a search has observed is one it was told of or one it has been at, and
      no less than either. */
  ghost predicate Deepened(before: nat, after: nat, depth: nat, t: Tree)
  {
    before <= after && depth <= after && (after == before || HasPath(t, after - depth))
  }

  lemma {:induction false} DepthIsReached(cfg: Config, s: Search, t: Tree, events: seq<string>,
                                          branch: seq<ScriptedChoice>)
    requires Shaped(t) && Explore(cfg, s, t, events, branch).Success?
    ensures Deepened(s.maximumObservedDepth, Explore(cfg, s, t, events, branch).value.0.maximumObservedDepth,
                     |branch|, t)
    decreases t, if t.Decision? then 2 * |t.edges| + 2 else 0
  {
    assert HasPath(t, 0) by {
      var here: seq<nat> := [];
      assert |here| == 0 && Follow(t, here).Some?;
    }
    if t.Decision? {
      var s1 := AtRoot(AfterReplay(s, |branch|), t.point, events, branch);
      if !OverBudget(cfg, s1, t.point, branch) && NodeKey(cfg, t.point, |branch|) !in s1.memo {
        var r := ExploreFrom(cfg, Expanding(s1, t.point), t, events, branch, 0, NO_LEAVES).value;
        DepthFromIsReached(cfg, Expanding(s1, t.point), t, events, branch, 0, NO_LEAVES, r);
      }
    }
  }

  lemma {:induction false} DepthFromIsReached(cfg: Config, s: Search, t: Tree, events: seq<string>,
                                              branch: seq<ScriptedChoice>, i: nat, totals: TreeCounts,
                                              r: (Search, TreeCounts))
    requires Shaped(t) && t.Decision? && i <= |t.edges| && |branch| <= s.maximumObservedDepth
    requires ExploreFrom(cfg, s, t, events, branch, i, totals) == Success(r)
    ensures Deepened(s.maximumObservedDepth, r.0.maximumObservedDepth, |branch|, t)
    decreases t, 2 * (|t.edges| - i) + 1
  {
    if i == |t.edges| {
      NoEdgeLeft(cfg, s, t, events, branch, totals, NO_LEAVES, r);
    } else {
      DepthFromNextIsReached(cfg, s, t, events, branch, i, totals, r);
    }
  }

  lemma {:induction false} DepthFromNextIsReached(cfg: Config, s: Search, t: Tree, events: seq<string>,
                                                  branch: seq<ScriptedChoice>, i: nat, totals: TreeCounts,
                                                  r: (Search, TreeCounts))
    requires Shaped(t) && t.Decision? && i < |t.edges| && |branch| <= s.maximumObservedDepth
    requires ExploreFrom(cfg, s, t, events, branch, i, totals) == Success(r)
    ensures Deepened(s.maximumObservedDepth, r.0.maximumObservedDepth, |branch|, t)
    decreases t, 2 * (|t.edges| - i)
  {
    var s2, sum := DepthAfterEdge(cfg, s, t, events, branch, i, totals, r);
    DepthFromIsReached(cfg, s2, t, events, branch, i + 1, sum, r);
  }

  lemma {:induction false} DepthAfterEdge(cfg: Config, s: Search, t: Tree, events: seq<string>,
                                          branch: seq<ScriptedChoice>, i: nat, totals: TreeCounts,
                                          r: (Search, TreeCounts))
    returns (s2: Search, sum: TreeCounts)
    requires Shaped(t) && t.Decision? && i < |t.edges| && |branch| <= s.maximumObservedDepth
    requires ExploreFrom(cfg, s, t, events, branch, i, totals) == Success(r)
    ensures ExploreFrom(cfg, s2, t, events, branch, i + 1, sum) == Success(r)
    ensures Deepened(s.maximumObservedDepth, s2.maximumObservedDepth, |branch|, t)
    decreases t, 2 * (|t.edges| - i) - 1
  {
    var choice := Choices(t.point)[i];
    OneEdgeFurther(cfg, s, t, events, branch, i, totals);
    DepthIsReached(cfg, s, t.edges[i].next, events + t.edges[i].emitted, branch + [choice]);
    var (s1, c) := Explore(cfg, s, t.edges[i].next, events + t.edges[i].emitted, branch + [choice]).value;
    s2, sum := Reported(s1, branch, choice, c), totals.Merge(c);
    if s1.maximumObservedDepth != s.maximumObservedDepth {
      PathBelow(t, i, s1.maximumObservedDepth - |branch| - 1);
    }
  }

  /** What is stored for a branch without a search limit has been searched to its
      depths. */
  ghost predicate StoredDeep(cfg: Config, root: Tree, rootEvents: seq<string>, memo: map<int, TreeCounts>,
                             depth: nat, b: seq<ScriptedChoice>)
    requires Shaped(root)
  {
    var key := KeyAt(cfg, root, rootEvents, b);
    key.Some? && key.value in memo && memo[key.value].searchLimit == 0 ==>
      NotDeeper(FutureAt(root, rootEvents, b), depth - |b|)
  }

  ghost predicate MemoDeep(cfg: Config, root: Tree, rootEvents: seq<string>, memo: map<int, TreeCounts>, depth: nat)
    requires Shaped(root)
  {
    forall b :: StoredDeep(cfg, root, rootEvents, memo, depth, b)
  }

  lemma MemoDeepMore(cfg: Config, root: Tree, rootEvents: seq<string>, memo: map<int, TreeCounts>, depth: nat,
                     more: nat)
    requires Shaped(root) && MemoDeep(cfg, root, rootEvents, memo, depth) && depth <= more
    ensures MemoDeep(cfg, root, rootEvents, memo, more)
  {
    forall b
      ensures StoredDeep(cfg, root, rootEvents, memo, more, b)
    {
      assert StoredDeep(cfg, root, rootEvents, memo, depth, b);
    }
  }

  lemma StoreKeepsMemoDeep(cfg: Config, root: Tree, rootEvents: seq<string>, memo: map<int, TreeCounts>, depth: nat,
                           branch: seq<ScriptedChoice>, c: TreeCounts)
    requires Shaped(root) && KeysFixPlace(cfg, root, rootEvents) && MemoDeep(cfg, root, rootEvents, memo, depth)
    requires KeyAt(cfg, root, rootEvents, branch).Some?
    requires c.searchLimit == 0 ==> NotDeeper(FutureAt(root, rootEvents, branch), depth - |branch|)
    ensures MemoDeep(cfg, root, rootEvents, memo[KeyAt(cfg, root, rootEvents, branch).value := c], depth)
  {
    var after := memo[KeyAt(cfg, root, rootEvents, branch).value := c];
    forall b
      ensures StoredDeep(cfg, root, rootEvents, after, depth, b)
    {
      assert StoredDeep(cfg, root, rootEvents, memo, depth, b) && OnePlace(cfg, root, rootEvents, branch, b);
    }
  }

  lemma {:induction false} DepthCovers(cfg: Config, root: Tree, rootEvents: seq<string>, s: Search, t: Tree,
                                       events: seq<string>, branch: seq<ScriptedChoice>)
    requires Shaped(t) && Shaped(root) && RepeatsAgree(root) && KeysFixPlace(cfg, root, rootEvents)
    requires MemoDeep(cfg, root, rootEvents, s.memo, s.maximumObservedDepth)
    requires Descend(root, rootEvents, branch) == Some((t, events)) && Explore(cfg, s, t, events, branch).Success?
    ensures var (s', c) := Explore(cfg, s, t, events, branch).value;
            && s.maximumObservedDepth <= s'.maximumObservedDepth
            && MemoDeep(cfg, root, rootEvents, s'.memo, s'.maximumObservedDepth)
            && (c.searchLimit == 0 ==> NotDeeper(t, s'.maximumObservedDepth - |branch|))
    decreases t, if t.Decision? then 2 * |t.edges| + 2 else 0
  {
    var s0 := AfterReplay(s, |branch|);
    MemoDeepMore(cfg, root, rootEvents, s.memo, s.maximumObservedDepth, s0.maximumObservedDepth);
    if t.Decision? {
      var s1, key := AtRoot(s0, t.point, events, branch), NodeKey(cfg, t.point, |branch|);
      assert KeyAt(cfg, root, rootEvents, branch) == Some(key);
      assert StoredDeep(cfg, root, rootEvents, s0.memo, s0.maximumObservedDepth, branch);
      if !OverBudget(cfg, s1, t.point, branch) && key !in s1.memo {
        var (s2, c) := ExploreFrom(cfg, Expanding(s1, t.point), t, events, branch, 0, NO_LEAVES).value;
        DepthFromCovers(cfg, root, rootEvents, Expanding(s1, t.point), t, events, branch, 0, NO_LEAVES, (s2, c));
        if c.searchLimit == 0 {
          DecisionNotDeeper(t, s2.maximumObservedDepth - |branch|);
        }
        StoreKeepsMemoDeep(cfg, root, rootEvents, s2.memo, s2.maximumObservedDepth, branch, c);
      }
    } else {
      DecisionNotDeeper(t, s0.maximumObservedDepth - |branch|);
    }
  }

  /** From the i-th edge on; `r` is what the search makes of it. */
  lemma {:induction false} DepthFromCovers(cfg: Config, root: Tree, rootEvents: seq<string>, s: Search, t: Tree,
                                           events: seq<string>, branch: seq<ScriptedChoice>, i: nat,
                                           totals: TreeCounts, r: (Search, TreeCounts))
    requires Shaped(t) && Shaped(root) && RepeatsAgree(root) && KeysFixPlace(cfg, root, rootEvents)
    requires MemoDeep(cfg, root, rootEvents, s.memo, s.maximumObservedDepth)
    requires Descend(root, rootEvents, branch) == Some((t, events)) && |branch| <= s.maximumObservedDepth
    requires t.Decision? && i <= |t.edges| && ExploreFrom(cfg, s, t, events, branch, i, totals) == Success(r)
    ensures s.maximumObservedDepth <= r.0.maximumObservedDepth
    ensures MemoDeep(cfg, root, rootEvents, r.0.memo, r.0.maximumObservedDepth)
    ensures r.1.searchLimit == 0 ==>
              totals.searchLimit == 0 && EdgesNotDeeper(t, r.0.maximumObservedDepth - |branch|, i)
    decreases t, 2 * (|t.edges| - i) + 1
  {
    if i == |t.edges| {
      NoEdgeLeft(cfg, s, t, events, branch, totals, NO_LEAVES, r);
    } else {
      DepthFromNextCovers(cfg, root, rootEvents, s, t, events, branch, i, totals, r);
    }
  }

  lemma {:induction false} DepthFromNextCovers(cfg: Config, root: Tree, rootEvents: seq<string>, s: Search, t: Tree,
                                               events: seq<string>, branch: seq<ScriptedChoice>, i: nat,
                                               totals: TreeCounts, r: (Search, TreeCounts))
    requires Shaped(t) && Shaped(root) && RepeatsAgree(root) && KeysFixPlace(cfg, root, rootEvents)
    requires MemoDeep(cfg, root, rootEvents, s.memo, s.maximumObservedDepth)
    requires Descend(root, rootEvents, branch) == Some((t, events)) && |branch| <= s.maximumObservedDepth
    requires t.Decision? && i < |t.edges| && ExploreFrom(cfg, s, t, events, branch, i, totals) == Success(r)
    ensures s.maximumObservedDepth <= r.0.maximumObservedDepth
    ensures MemoDeep(cfg, root, rootEvents, r.0.memo, r.0.maximumObservedDepth)
    ensures r.1.searchLimit == 0 ==>
              totals.searchLimit == 0 && EdgesNotDeeper(t, r.0.maximumObservedDepth - |branch|, i)
    decreases t, 2 * (|t.edges| - i)
  {
    var s2, sum := DepthOfEdge(cfg, root, rootEvents, s, t, events, branch, i, totals, r);
    DepthFromCovers(cfg, root, rootEvents, s2, t, events, branch, i + 1, sum, r);
    if r.1.searchLimit == 0 {
      OneMoreNotDeeper(t, s2.maximumObservedDepth - |branch|, r.0.maximumObservedDepth - |branch|, i);
    }
  }

  lemma {:induction false} DepthOfEdge(cfg: Config, root: Tree, rootEvents: seq<string>, s: Search, t: Tree,
                                       events: seq<string>, branch: seq<ScriptedChoice>, i: nat, totals: TreeCounts,
                                       r: (Search, TreeCounts))
    returns (s2: Search, sum: TreeCounts)
    requires Shaped(t) && Shaped(root) && RepeatsAgree(root) && KeysFixPlace(cfg, root, rootEvents)
    requires MemoDeep(cfg, root, rootEvents, s.memo, s.maximumObservedDepth)
    requires Descend(root, rootEvents, branch) == Some((t, events)) && |branch| <= s.maximumObservedDepth
    requires t.Decision? && i < |t.edges| && ExploreFrom(cfg, s, t, events, branch, i, totals) == Success(r)
    ensures ExploreFrom(cfg, s2, t, events, branch, i + 1, sum) == Success(r)
    ensures s.maximumObservedDepth <= s2.maximumObservedDepth
    ensures MemoDeep(cfg, root, rootEvents, s2.memo, s2.maximumObservedDepth)
    ensures sum.searchLimit == 0 ==>
              totals.searchLimit == 0 && NotDeeper(t.edges[i].next, s2.maximumObservedDepth - |branch| - 1)
    decreases t, 2 * (|t.edges| - i) - 1
  {
    var choice := Choices(t.point)[i];
    ChildBranch(root, rootEvents, t, events, branch, i);
    OneEdgeFurther(cfg, s, t, events, branch, i, totals);
    DepthCovers(cfg, root, rootEvents, s, t.edges[i].next, events + t.edges[i].emitted, branch + [choice]);
    var (s1, c) := Explore(cfg, s, t.edges[i].next, events + t.edges[i].emitted, branch + [choice]).value;
    s2, sum := Reported(s1, branch, choice, c), totals.Merge(c);
    MergedLimits(totals, c);
  }

  /** A search that met no search limit has observed exactly the height of the tree:
      the length of its longest path, memo hits or not. */
  lemma ObservedDepthIsHeight(cfg: Config, root: Tree, rootEvents: seq<string>)
    requires Shaped(root) && RepeatsAgree(root) && KeysFixPlace(cfg, root, rootEvents)
    requires Explore(cfg, FRESH_SEARCH, root, rootEvents, []).Success?
    requires Explore(cfg, FRESH_SEARCH, root, rootEvents, []).value.1.searchLimit == 0
    ensures var depth := Explore(cfg, FRESH_SEARCH, root, rootEvents, []).value.0.maximumObservedDepth;
            && (exists path :: |path| == depth && Follow(root, path).Some?)
            && (forall path | Follow(root, path).Some? :: |path| <= depth)
  {
    var depth := Explore(cfg, FRESH_SEARCH, root, rootEvents, []).value.0.maximumObservedDepth;
    DepthIsReached(cfg, FRESH_SEARCH, root, rootEvents, []);
    var here: seq<nat> := [];
    assert |here| == 0 && Follow(root, here).Some?;
    DepthCovers(cfg, root, rootEvents, FRESH_SEARCH, root, rootEvents, []);
  }
}
