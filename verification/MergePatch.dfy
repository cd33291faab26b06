/** Observation deltas: a difference of two JSON values, and its application,
    which follows section 2 of RFC 7396. */
module MergePatch {
  /** JSON values; the order of an object's members carries no meaning. */
  datatype Json =
    | Null
    | Bool(b: bool)
    | Number(n: int)
    | Text(s: string)
    | Array(items: seq<Json>)
    | Object(members: map<string, Json>)

  const EMPTY_OBJECT := Object(map[])

  predicate Changed(before: map<string, Json>, after: map<string, Json>, key: string)
  {
    !(key in before && key in after && before[key] == after[key])
  }

  /** The difference the sender computes. */
  function Diff(previous: Json, current: Json): Json
    decreases previous
  {
    if previous == current then EMPTY_OBJECT
    else if previous.Object? && current.Object? then
      var before, after := previous.members, current.members;
      Object(map key | key in before.Keys + after.Keys && Changed(before, after, key) ::
               if key !in after then Null
               else if key in before then Diff(before[key], after[key])
               else after[key])
    else current
  }

  function Members(v: Json): map<string, Json>
  {
    if v.Object? then v.members else map[]
  }

  function Entry(m: map<string, Json>, key: string): Json
  {
    if key in m then m[key] else Null
  }

  /** MergePatch(Target, Patch) of RFC 7396, section 2, on whole values: a null
      member removes, any other member is patched in turn. */
  function Patched(target: Json, patch: Json): Json
    decreases patch
  {
    if !patch.Object? then patch
    else
      var m, changes := Members(target), patch.members;
      Object(map key | key in m.Keys + changes.Keys && !(key in changes && changes[key].Null?) ::
               if key in changes then Patched(Entry(m, key), changes[key]) else m[key])
  }

  // -------------------------------------------------------- the algorithms

  /** `merge_patch`: fills a map with the removed keys, then with the changed ones. */
  method ComputeMergePatch(previous: Json, current: Json) returns (patch: Json)
    ensures patch == Diff(previous, current)
    decreases previous
  {
    if previous == current {
      return EMPTY_OBJECT;
    }
    if !previous.Object? || !current.Object? {
      return current;
    }
    var before, after := previous.members, current.members;
    var changes: map<string, Json> := map[];
    var keys := before.Keys;
    while keys != {}
      invariant keys <= before.Keys
      invariant changes == map key | key in before.Keys - keys && key !in after :: Null
      decreases keys
    {
      var key :| key in keys;
      if key !in after {
        changes := changes[key := Null];
      }
      keys := keys - {key};
    }
    keys := after.Keys;
    while keys != {}
      invariant keys <= after.Keys
      invariant changes.Keys == (before.Keys - after.Keys) + set key | key in after.Keys - keys
                && Changed(before, after, key)
      invariant forall key | key in changes ::
                  changes[key] == if key !in after then Null
                                  else if key in before then Diff(before[key], after[key]) else after[key]
      decreases keys
    {
      var key :| key in keys;
      if key !in before {
        changes := changes[key := after[key]];
      } else if before[key] != after[key] {
        var inner := ComputeMergePatch(before[key], after[key]);
        changes := changes[key := inner];
      }
      keys := keys - {key};
    }
    patch := Object(changes);
    assert changes.Keys == set key | key in before.Keys + after.Keys && Changed(before, after, key);
  }

  /** A place that holds a JSON value and can be written through. */
  class Slot {
    var value: Json

    constructor (value: Json)
      ensures this.value == value
    {
      this.value := value;
    }
  }

  /** `apply_merge_patch`: rewrites the target in place, member by member. */
  method ApplyMergePatch(target: Slot, patch: Json)
    modifies target
    ensures target.value == Patched(old(target.value), patch)
    decreases patch
  {
    if !patch.Object? {
      target.value := patch;
      return;
    }
    if !target.value.Object? {
      target.value := EMPTY_OBJECT;
    }
    ghost var m := target.value.members;
    assert m == Members(old(target.value));
    var changes := patch.members;
    var keys := changes.Keys;
    while keys != {}
      invariant keys <= changes.Keys && target.value.Object?
      invariant target.value.members.Keys == (m.Keys - (changes.Keys - keys)) + set key | key in changes.Keys - keys
                && !changes[key].Null?
      invariant forall key | key in target.value.members ::
                  target.value.members[key] == if key in changes.Keys - keys then Patched(Entry(m, key), changes[key])
                      else m[key]
      decreases keys
    {
      var key :| key in keys;
      if changes[key].Null? {
        target.value := Object(target.value.members - {key});
      } else {
        var entry := new Slot(Entry(target.value.members, key));
        ApplyMergePatch(entry, changes[key]);
        target.value := Object(target.value.members[key := entry.value]);
      }
      keys := keys - {key};
    }
    assert target.value.members == Patched(old(target.value), patch).members;
  }

  // --------------------------------------------------- exact reconstruction

  /** No object outside an array has a null member. */
  predicate NullFree(v: Json)
  {
    v.Object? ==> forall key | key in v.members :: !v.members[key].Null? && NullFree(v.members[key])
  }

  /** When a difference can carry the change: no member turns null or appears
      with a null inside, and a repeated root is an object. */
  predicate Recoverable(previous: Json, current: Json)
    decreases previous
  {
    if previous == current then previous.Object?
    else if previous.Object? && current.Object? then
      var before, after := previous.members, current.members;
      forall key | key in after && Changed(before, after, key) ::
        && !after[key].Null?
        && (if key in before then Recoverable(before[key], after[key]) else NullFree(after[key]))
    else NullFree(current)
  }

  lemma {:induction false} PatchOnNothing(target: Json, v: Json)
    requires !target.Object? || target == EMPTY_OBJECT
    ensures Patched(target, v) == v <==> NullFree(v)
    decreases v
  {
    if v.Object? {
      forall key | key in v.members
        ensures Patched(Null, v.members[key]) == v.members[key] <==> NullFree(v.members[key])
      {
        PatchOnNothing(Null, v.members[key]);
      }
      var r := Patched(target, v).members;
      assert r.Keys == set key | key in v.members && !v.members[key].Null?;
      assert Patched(target, v) == v <==> r == v.members;
      if NullFree(v) {
        assert r == v.members;
      }
    }
  }

  /** The difference rebuilds the current value from the previous one exactly
      when the change is recoverable. */
  lemma {:induction false} RebuildsIffRecoverable(previous: Json, current: Json)
    ensures Patched(previous, Diff(previous, current)) == current <==> Recoverable(previous, current)
    decreases previous, 1
  {
    if previous == current {
      PatchedByNothing(previous);
    } else if previous.Object? && current.Object? {
      RebuildsMembers(previous, current);
    } else if current.Object? {
      PatchOnNothing(previous, current);
    }
  }

  lemma PatchedByNothing(v: Json)
    ensures Patched(v, EMPTY_OBJECT) == Object(Members(v))
  {
  }

  /** Member by member: what an application of the difference leaves under a key. */
  lemma RebuiltMember(previous: Json, current: Json, key: string)
    requires previous.Object? && current.Object? && previous != current
    ensures var before, after := previous.members, current.members;
            var rebuilt := Patched(previous, Diff(previous, current)).members;
            && (key in rebuilt <==> key in after && (Changed(before, after, key) ==> !after[key].Null?))
            && (key in rebuilt && !Changed(before, after, key) ==> rebuilt[key] == after[key])
            && (key in rebuilt && Changed(before, after, key) ==>
                  rebuilt[key] == if key in before then Patched(before[key], Diff(before[key], after[key]))
                                  else Patched(Null, after[key]))
  {
  }

  lemma {:induction false} RebuildsMembers(previous: Json, current: Json)
    requires previous.Object? && current.Object? && previous != current
    ensures Patched(previous, Diff(previous, current)) == current <==> Recoverable(previous, current)
    decreases previous, 0
  {
    var before, after := previous.members, current.members;
    var rebuilt := Patched(previous, Diff(previous, current)).members;
    forall key
      ensures key in rebuilt ==> key in after
      ensures key in after && !Changed(before, after, key) ==> key in rebuilt && rebuilt[key] == after[key]
      ensures key in after && Changed(before, after, key) ==>
                (key in rebuilt && rebuilt[key] == after[key] <==>
                 !after[key].Null? && if key in before then Recoverable(before[key], after[key])
                     else NullFree(after[key]))
    {
      RebuiltMember(previous, current, key);
      if key in after && Changed(before, after, key) {
        if key in before {
          RebuildsIffRecoverable(before[key], after[key]);
        } else {
          PatchOnNothing(Null, after[key]);
        }
      }
    }
    if Recoverable(previous, current) {
      assert rebuilt == after;
    }
  }

  lemma {:induction false} NullFreeIsRecoverable(previous: Json, current: Json)
    requires NullFree(current) && (previous.Object? || previous != current)
    ensures Recoverable(previous, current)
    decreases previous
  {
    if previous != current && previous.Object? && current.Object? {
      forall key | key in current.members && key in previous.members && previous.members[key] != current.members[key]
        ensures Recoverable(previous.members[key], current.members[key])
      {
        NullFreeIsRecoverable(previous.members[key], current.members[key]);
      }
    }
  }

  /** The round trip that deltas are for: between object roots, a value
      without null members is rebuilt exactly. */
  lemma RoundTrip(previous: Json, current: Json)
    requires previous.Object? && current.Object? && NullFree(current)
    ensures Patched(previous, Diff(previous, current)) == current
  {
    NullFreeIsRecoverable(previous, current);
    RebuildsIffRecoverable(previous, current);
  }

  /** Between objects a difference names just the members that differ, and a removed
      one as null. */
  lemma DiffNamesChanges(before: map<string, Json>, after: map<string, Json>, key: string)
    ensures var d := Diff(Object(before), Object(after));
            && d.Object?
            && (key in d.members <==>
                  if key in before && key in after then before[key] != after[key] else key in before || key in after)
            && (key in before && key !in after ==> d.members[key] == Null)
            && (key in after && key !in before ==> d.members[key] == after[key])
  {
  }

  /** Outside objects a difference cannot say "unchanged": the delta between two
      equal numbers turns the receiver's copy into an empty object. */
  lemma EqualScalarsAreLost(v: Json)
    requires !v.Object?
    ensures Patched(v, Diff(v, v)) == EMPTY_OBJECT != v
  {
    PatchedByNothing(v);
  }

  // ------------------------------------------------- up to null members

  /** The value without the null members of its objects (arrays are left alone). */
  function Strip(v: Json): Json
  {
    if v.Object? then Object(map key | key in v.members && !v.members[key].Null? :: Strip(v.members[key])) else v
  }

  predicate Same(a: Json, b: Json)
  {
    Strip(a) == Strip(b)
  }

  lemma {:induction false} PatchOnNothingSame(target: Json, v: Json)
    requires !target.Object? || target == EMPTY_OBJECT
    ensures Same(Patched(target, v), v)
    decreases v
  {
    if v.Object? {
      forall key | key in v.members && !v.members[key].Null?
        ensures Same(Patched(Null, v.members[key]), v.members[key]) && !Patched(Null, v.members[key]).Null?
      {
        PatchOnNothingSame(Null, v.members[key]);
      }
      assert Strip(Patched(target, v)).members == Strip(v).members;
    }
  }

  /** Equal up to null members: every non-null member of one has its like in the other. */
  lemma SameMembers(a: Json, b: Json)
    requires a.Object? && b.Object?
    ensures Same(a, b) <==>
            && (forall key | key in a.members && !a.members[key].Null? ::
                key in b.members && Same(a.members[key], b.members[key]))
            && (forall key | key in b.members && !b.members[key].Null? ::
                key in a.members && Same(a.members[key], b.members[key]))
  {
    var x, y := Strip(a).members, Strip(b).members;
    if Same(a, b) {
      forall key | key in a.members && !a.members[key].Null?
        ensures key in b.members && Same(a.members[key], b.members[key])
      {
        assert key in x;
        assert key in y;
      }
      forall key | key in b.members && !b.members[key].Null?
        ensures key in a.members && Same(a.members[key], b.members[key])
      {
        assert key in y;
        assert key in x;
      }
    }
    if && (forall key | key in a.members && !a.members[key].Null? ::
           key in b.members && Same(a.members[key], b.members[key]))
       && (forall key | key in b.members && !b.members[key].Null? ::
           key in a.members && Same(a.members[key], b.members[key])) {
      assert x == y;
    }
  }

  /** The inductive step of a delta stream: a receiver that holds the previous
      value up to null members holds the current one up to null members after the
      delta, for every pair except two equal non-objects. */
  lemma {:induction false} DeltaKeepsSame(held: Json, previous: Json, current: Json)
    requires Same(held, previous) && (previous.Object? || previous != current)
    ensures Same(Patched(held, Diff(previous, current)), current)
    decreases previous, 1
  {
    if previous == current {
      PatchedByNothing(held);
    } else if previous.Object? && current.Object? {
      DeltaKeepsMembers(held, previous, current);
    } else if current.Object? {
      PatchOnNothingSame(held, current);
    }
  }

  lemma DeltaMember(held: Json, previous: Json, current: Json, key: string)
    requires held.Object? && previous.Object? && current.Object? && previous != current
    ensures var before, after := previous.members, current.members;
            var result := Patched(held, Diff(previous, current)).members;
            && (key in after && Changed(before, after, key) && !after[key].Null? ==>
                  key in result && result[key] == Patched(Entry(held.members, key),
                                                          if key in before then Diff(before[key], after[key])
                                                              else after[key]))
            && (key in after && !Changed(before, after, key) ==> (key in result <==> key in held.members))
            && (key in result && key in after && !Changed(before, after, key) ==> result[key] == held.members[key])
            && (key in result && (key !in after || (Changed(before, after, key) && after[key].Null?)) ==>
                  key !in before && key in held.members && result[key] == held.members[key])
  {
  }

  lemma {:induction false} DeltaKeepsMembers(held: Json, previous: Json, current: Json)
    requires Same(held, previous) && previous.Object? && current.Object? && previous != current
    ensures Same(Patched(held, Diff(previous, current)), current)
    decreases previous, 0
  {
    var before, after := previous.members, current.members;
    var patch := Diff(previous, current);
    var result := Patched(held, patch);
    assert held.Object?;
    SameMembers(held, previous);
    forall key
      ensures key in after && !after[key].Null? ==> key in result.members && Same(result.members[key], after[key])
      ensures key in result.members && !result.members[key].Null? ==>
              key in after && Same(result.members[key], after[key])
    {
      DeltaMember(held, previous, current, key);
      if key in after && Changed(before, after, key) && !after[key].Null? {
        var own := Entry(held.members, key);
        if key in before && !before[key].Null? {
          DeltaKeepsSame(own, before[key], after[key]);
        } else {
          assert own.Null?;
          PatchOnNothingSame(own, after[key]);
        }
      }
    }
    SameMembers(result, current);
  }
}
