/**
 * The field-name to field-id table of a columnar index (`CKVIndexSchema`
 * in ikv/src/index/schema_store.rs). The primary key always has id 0,
 * new names take the next value of a counter, deletions never lower the
 * counter, and compaction renumbers the surviving names densely.
 * Saving to and loading from the schema file is not modelled; `Reopen`
 * takes the saved contents as parameters.
 */
module SchemaStore {
  import opened Wrappers

  /** Field ids are `u64` in the schema store; the counter never nears 2^64 in the model. */
  type FieldId = nat

  /** No two names share an id. */
  ghost predicate Injective(t: map<string, FieldId>)
  {
    forall a, b :: a in t && b in t && a != b ==> t[a] != t[b]
  }

  /** Every id is below `counter`, i.e. `counter` is still free. */
  ghost predicate Below(t: map<string, FieldId>, counter: nat)
  {
    forall a :: a in t ==> t[a] < counter
  }

  // ------------------------------------------------------------ upsert_schema

  /**
   * The table and counter after `upsert_schema` has visited `names` in
   * order: an unknown name takes the counter, which then moves up by one.
   */
  function Assign(t: map<string, FieldId>, counter: nat, names: seq<string>): (r: (map<string, FieldId>, nat))
    ensures r.1 >= counter
    decreases |names|
  {
    if names == [] then (t, counter)
    else
      var prev := Assign(t, counter, names[..|names| - 1]);
      var name := names[|names| - 1];
      if name in prev.0 then prev
      else (prev.0[name := prev.1], prev.1 + 1)
  }

  /**
   * What `upsert_schema` promises: known names keep their ids, every
   * visited name ends up in the table and nothing else is added, and each
   * new name gets an id between the old and the new counter.
   */
  lemma {:induction false} AssignSpec(t: map<string, FieldId>, counter: nat, names: seq<string>)
    ensures Assign(t, counter, names).0.Keys == t.Keys + set n | n in names
    ensures forall a :: a in t ==> Assign(t, counter, names).0[a] == t[a]
    ensures forall a :: a in Assign(t, counter, names).0 && a !in t ==>
      counter <= Assign(t, counter, names).0[a] < Assign(t, counter, names).1
    decreases |names|
  {
    if names != [] {
      var init := names[..|names| - 1];
      AssignSpec(t, counter, init);
      assert names == init + [names[|names| - 1]];
      assert (set n | n in names) == (set n | n in init) + {names[|names| - 1]};
    }
  }

  /** The counter moves up by exactly the number of names added. */
  lemma {:induction false} AssignCount(t: map<string, FieldId>, counter: nat, names: seq<string>)
    ensures |Assign(t, counter, names).0| == |t| + (Assign(t, counter, names).1 - counter)
    decreases |names|
  {
    if names != [] {
      AssignCount(t, counter, names[..|names| - 1]);
    }
  }

  /** Assigning ids keeps them distinct and below the counter. */
  lemma {:induction false} AssignKeepsIdsDistinct(t: map<string, FieldId>, counter: nat, names: seq<string>)
    requires Injective(t) && Below(t, counter)
    ensures Injective(Assign(t, counter, names).0) && Below(Assign(t, counter, names).0, Assign(t, counter, names).1)
    decreases |names|
  {
    if names != [] {
      AssignKeepsIdsDistinct(t, counter, names[..|names| - 1]);
    }
  }

  // ------------------------------------------------------- soft_delete_fields

  function StartsWith(s: string, prefix: string): bool
  {
    |prefix| <= |s| && s[..|prefix|] == prefix
  }

  /** Whether `name` starts with one of `prefixes`. */
  function MatchesAny(name: string, prefixes: seq<string>): (r: bool)
    ensures r <==> exists i :: 0 <= i < |prefixes| && StartsWith(name, prefixes[i])
    decreases |prefixes|
  {
    if prefixes == [] then false
    else MatchesAny(name, prefixes[..|prefixes| - 1]) || StartsWith(name, prefixes[|prefixes| - 1])
  }

  /** The table `soft_delete_fields` leaves: the primary key and every name neither listed nor prefixed. */
  function Remaining(t: map<string, FieldId>, pk: string, names: seq<string>, prefixes: seq<string>): map<string, FieldId>
  {
    map k | k in t && (k == pk || !(k in names || MatchesAny(k, prefixes))) :: t[k]
  }

  // ------------------------------------------------------------------ compact

  ghost predicate Increasing(s: seq<nat>)
  {
    forall i, j :: 0 <= i < j < |s| ==> s[i] < s[j]
  }

  ghost predicate NoDup(s: seq<nat>)
  {
    forall i, j :: 0 <= i < j < |s| ==> s[i] != s[j]
  }

  /** Inserting into an increasing sequence a value it does not hold. */
  function Insert(s: seq<nat>, x: nat): (r: seq<nat>)
    requires Increasing(s) && x !in s
    ensures Increasing(r) && |r| == |s| + 1
    ensures forall y :: y in r <==> y in s || y == x
    decreases |s|
  {
    if s == [] || x < s[0] then [x] + s
    else
      var rest := Insert(s[1..], x);
      assert s == [s[0]] + s[1..];
      LessThanTail(s);
      ConsIncreasing(s[0], rest);
      [s[0]] + rest
  }

  lemma LessThanTail(s: seq<nat>)
    requires Increasing(s) && s != []
    ensures forall y :: y in s[1..] ==> s[0] < y
  {
    forall y | y in s[1..]
      ensures s[0] < y
    {
      var i :| 0 <= i < |s[1..]| && s[1..][i] == y;
      assert s[i + 1] == y;
    }
  }

  lemma ConsIncreasing(a: nat, rest: seq<nat>)
    requires Increasing(rest) && forall y :: y in rest ==> a < y
    ensures Increasing([a] + rest)
  {
    var r := [a] + rest;
    forall i, j | 0 <= i < j < |r|
      ensures r[i] < r[j]
    {
      assert r[j] == rest[j - 1] && rest[j - 1] in rest;
      if i > 0 {
        assert r[i] == rest[i - 1];
      }
    }
  }

  /** `Vec::sort` on distinct ids, as an insertion sort. */
  function SortIds(xs: seq<nat>): (r: seq<nat>)
    requires NoDup(xs)
    ensures Increasing(r) && |r| == |xs|
    ensures forall y :: y in r <==> y in xs
    decreases |xs|
  {
    if xs == [] then []
    else
      var init := xs[..|xs| - 1];
      assert xs == init + [xs[|xs| - 1]];
      Insert(SortIds(init), xs[|xs| - 1])
  }

  /** In an increasing sequence of naturals, only the first element can be 0. */
  lemma ZeroIsFirst(s: seq<nat>)
    requires Increasing(s)
    ensures forall k :: 0 < k < |s| ==> s[k] > 0
  {
    forall k | 0 < k < |s|
      ensures s[k] > 0
    {
      assert s[0] < s[k];
    }
  }

  /** On reopen, a saved counter of 0 falls back to the number of saved names. */
  function ReopenCounter(savedCounter: nat, savedNames: nat): (r: nat)
    ensures savedCounter != 0 ==> r == savedCounter
    ensures savedCounter == 0 ==> r == savedNames
  {
    if savedCounter != 0 then savedCounter else savedNames
  }

  class IndexSchema {
    var primaryKey: string
    var fieldNameToId: map<string, FieldId>
    var fieldIdCounter: nat

    ghost predicate Valid()
      reads this
    {
      && primaryKey in fieldNameToId && fieldNameToId[primaryKey] == 0
      && Injective(fieldNameToId)
      && Below(fieldNameToId, fieldIdCounter)
    }

    /** `new`: only the primary key, with id 0, and the counter at 1. */
    constructor Create(pk: string)
      ensures Valid()
      ensures primaryKey == pk && fieldNameToId == map[pk := 0] && fieldIdCounter == 1
    {
      primaryKey := pk;
      fieldNameToId := map[pk := 0];
      fieldIdCounter := 1;
    }

    /** `open_or_create` on an existing schema file with the given saved contents. */
    constructor Reopen(savedPk: string, savedIds: map<string, FieldId>, savedCounter: nat)
      ensures primaryKey == savedPk && fieldNameToId == savedIds
      ensures fieldIdCounter == ReopenCounter(savedCounter, |savedIds|)
    {
      primaryKey := savedPk;
      fieldNameToId := savedIds;
      fieldIdCounter := ReopenCounter(savedCounter, |savedIds|);
    }

    /** `fetch_id_by_name`. */
    function FetchIdByName(name: string): (r: Option<FieldId>)
      reads this
      ensures r.Some? <==> name in fieldNameToId
      ensures r.Some? ==> r.value == fieldNameToId[name]
    {
      if name in fieldNameToId then Some(fieldNameToId[name]) else None
    }

    /** `extract_primary_key_value`: the document's value under the primary-key name. */
    function ExtractPrimaryKeyValue<V>(document: map<string, V>): (r: Option<V>)
      reads this
      ensures r.Some? <==> primaryKey in document
      ensures r.Some? ==> r.value == document[primaryKey]
    {
      if primaryKey in document then Some(document[primaryKey]) else None
    }

    /**
     * `upsert_schema`: `names` are the document's field names in the
     * order the map yields them.
     */
    method UpsertSchema(names: seq<string>)
      requires Valid()
      modifies this
      ensures Valid() && primaryKey == old(primaryKey)
      ensures (fieldNameToId, fieldIdCounter) == Assign(old(fieldNameToId), old(fieldIdCounter), names)
    {
      ghost var t0, c0 := fieldNameToId, fieldIdCounter;
      var table := fieldNameToId;
      var counter := fieldIdCounter;
      var i := 0;
      while i < |names|
        invariant i <= |names|
        invariant (table, counter) == Assign(t0, c0, names[..i])
      {
        assert names[..i + 1][..i] == names[..i];
        var name := names[i];
        if name !in table {
          var fid := counter;
          counter := counter + 1;
          table := table[name := fid];
        }
        i := i + 1;
      }
      assert names[..i] == names;
      AssignSpec(t0, c0, names);
      AssignKeepsIdsDistinct(t0, c0, names);
      fieldNameToId := table;
      fieldIdCounter := counter;
    }

    /** `soft_delete_fields`: drops exact names and prefixed names, never the primary key. */
    method SoftDeleteFields(names: seq<string>, prefixes: seq<string>)
      requires Valid()
      modifies this
      ensures Valid() && primaryKey == old(primaryKey) && fieldIdCounter == old(fieldIdCounter)
      ensures fieldNameToId == Remaining(old(fieldNameToId), primaryKey, names, prefixes)
    {
      ghost var t0 := fieldNameToId;
      var toDelete := names;
      for i := 0 to |prefixes|
        invariant forall k :: k in toDelete <==> k in names || (k in t0 && MatchesAny(k, prefixes[..i]))
      {
        assert prefixes[..i + 1][..i] == prefixes[..i];
        var rest := fieldNameToId.Keys;
        while rest != {}
          invariant rest <= t0.Keys
          invariant forall k :: k in toDelete <==>
            k in names || (k in t0 && (MatchesAny(k, prefixes[..i]) || (k !in rest && StartsWith(k, prefixes[i]))))
        {
          var name :| name in rest;
          if StartsWith(name, prefixes[i]) {
            toDelete := toDelete + [name];
          }
          rest := rest - {name};
        }
      }
      assert prefixes[..|prefixes|] == prefixes;
      if toDelete == [] {
        assert Remaining(t0, primaryKey, names, prefixes) == t0;
        return;
      }
      var table := fieldNameToId;
      for j := 0 to |toDelete|
        invariant table == map k | k in t0 && (k == primaryKey || k !in toDelete[..j]) :: t0[k]
      {
        assert toDelete[..j + 1] == toDelete[..j] + [toDelete[j]];
        var name := toDelete[j];
        if name != primaryKey {
          table := table - {name};
        }
      }
      assert toDelete[..|toDelete|] == toDelete;
      fieldNameToId := table;
    }

    /** `hard_delete_all_fields`: back to the state of a fresh schema. */
    method HardDeleteAllFields()
      requires Valid()
      modifies this
      ensures Valid() && primaryKey == old(primaryKey)
      ensures fieldNameToId == map[primaryKey := 0] && fieldIdCounter == 1
    {
      fieldIdCounter := 1;
      fieldNameToId := map[primaryKey := 0];
    }

    /**
     * `compact`: renumbers the names 0..n-1 in the order of their old ids
     * and returns the sorted old ids, i.e. the new-id to old-id vector.
     */
    method Compact() returns (newToOld: seq<FieldId>)
      requires Valid()
      modifies this
      ensures Valid() && primaryKey == old(primaryKey)
      ensures fieldNameToId.Keys == old(fieldNameToId).Keys
      ensures Increasing(newToOld) && |newToOld| == |fieldNameToId| == fieldIdCounter
      ensures forall n :: n in fieldNameToId ==>
        fieldNameToId[n] < |newToOld| && newToOld[fieldNameToId[n]] == old(fieldNameToId)[n]
    {
      var t0 := fieldNameToId;
      var ids, oldToName := CollectIds(t0);
      newToOld := SortIds(ids);
      var table := Renumber(t0, newToOld, oldToName);
      CompactResult(t0, primaryKey, newToOld, oldToName, table);
      fieldNameToId := table;
      fieldIdCounter := |table|;
    }
  }

  /**
   * The first loop of `compact`: every id of the table, in the map's
   * iteration order, and the id-to-name inverse.
   */
  method CollectIds(t0: map<string, FieldId>) returns (ids: seq<FieldId>, oldToName: map<FieldId, string>)
    requires Injective(t0)
    ensures NoDup(ids) && |ids| == |t0|
    ensures forall n :: n in t0 ==> t0[n] in ids && t0[n] in oldToName && oldToName[t0[n]] == n
    ensures forall x :: x in oldToName ==> oldToName[x] in t0 && t0[oldToName[x]] == x
    ensures forall x :: x in ids ==> x in oldToName
  {
    ids := [];
    oldToName := map[];
    var rest := t0.Keys;
    while rest != {}
      invariant rest <= t0.Keys
      invariant forall n :: n in t0 && n !in rest ==> t0[n] in oldToName && oldToName[t0[n]] == n
      invariant forall x :: x in oldToName ==> oldToName[x] in t0 && oldToName[x] !in rest && t0[oldToName[x]] == x
      invariant forall x :: x in ids <==> x in oldToName
      invariant NoDup(ids) && |ids| + |rest| == |t0|
    {
      var name :| name in rest;
      assert t0[name] !in oldToName;
      ids := ids + [t0[name]];
      oldToName := oldToName[t0[name] := name];
      rest := rest - {name};
    }
  }

  /** The second loop of `compact`: the name of the `i`-th smallest old id gets id `i`. */
  method Renumber(t0: map<string, FieldId>, newToOld: seq<FieldId>, oldToName: map<FieldId, string>)
    returns (table: map<string, FieldId>)
    requires Increasing(newToOld)
    requires forall j :: 0 <= j < |newToOld| ==> newToOld[j] in oldToName
    requires forall x :: x in oldToName ==> oldToName[x] in t0 && t0[oldToName[x]] == x
    ensures forall n :: n in table ==> n in t0 && table[n] < |newToOld| && newToOld[table[n]] == t0[n]
    ensures forall j :: 0 <= j < |newToOld| ==> oldToName[newToOld[j]] in table && table[oldToName[newToOld[j]]] == j
  {
    table := map[];
    for i := 0 to |newToOld|
      invariant forall n :: n in table ==> n in t0 && table[n] < i && newToOld[table[n]] == t0[n]
      invariant forall j :: 0 <= j < i ==> oldToName[newToOld[j]] in table && table[oldToName[newToOld[j]]] == j
    {
      var oldId := newToOld[i];
      var name := oldToName[oldId];
      table := table[name := i];
    }
  }

  /** The table `compact` builds has the old names, dense distinct ids and the primary key at 0. */
  lemma CompactResult(t0: map<string, FieldId>, pk: string, newToOld: seq<FieldId>,
                      oldToName: map<FieldId, string>, table: map<string, FieldId>)
    requires pk in t0 && t0[pk] == 0
    requires Increasing(newToOld) && |newToOld| == |t0|
    requires forall n :: n in t0 ==> t0[n] in newToOld && t0[n] in oldToName && oldToName[t0[n]] == n
    requires forall n :: n in table ==> n in t0 && table[n] < |newToOld| && newToOld[table[n]] == t0[n]
    requires forall j :: 0 <= j < |newToOld| ==>
      newToOld[j] in oldToName && oldToName[newToOld[j]] in table && table[oldToName[newToOld[j]]] == j
    ensures table.Keys == t0.Keys && |table| == |t0|
    ensures table[pk] == 0 && Injective(table) && Below(table, |table|)
  {
    forall n | n in t0
      ensures n in table
    {
      var j :| 0 <= j < |newToOld| && newToOld[j] == t0[n];
      assert oldToName[newToOld[j]] == n;
    }
    assert table.Keys == t0.Keys;
    ZeroIsFirst(newToOld);
  }

  /** After `compact`, the new ids keep the order of the old ones. */
  lemma CompactKeepsOrder(oldIds: map<string, FieldId>, newIds: map<string, FieldId>, newToOld: seq<FieldId>, a: string, b: string)
    requires Increasing(newToOld) && a in newIds && b in newIds && a in oldIds && b in oldIds
    requires forall n :: n in newIds ==> newIds[n] < |newToOld|
    requires forall n :: n in newIds && n in oldIds ==> newToOld[newIds[n]] == oldIds[n]
    ensures oldIds[a] < oldIds[b] <==> newIds[a] < newIds[b]
  {
    if newIds[a] < newIds[b] {
      assert newToOld[newIds[a]] < newToOld[newIds[b]];
    } else if newIds[b] < newIds[a] {
      assert newToOld[newIds[b]] < newToOld[newIds[a]];
    }
  }

  /** A schema that was valid when saved reopens with the counter it saved. */
  lemma ReopenKeepsSavedCounter(savedIds: map<string, FieldId>, pk: string, savedCounter: nat)
    requires pk in savedIds && Below(savedIds, savedCounter)
    ensures ReopenCounter(savedCounter, |savedIds|) == savedCounter
  {
    assert savedIds[pk] < savedCounter;
  }

  /** Upserting known names only changes nothing; every new name gets an id at or above the old counter. */
  lemma UpsertKnownNamesIsNoOp(t: map<string, FieldId>, counter: nat, names: seq<string>)
    requires forall i :: 0 <= i < |names| ==> names[i] in t
    ensures Assign(t, counter, names) == (t, counter)
  {
    AssignSpec(t, counter, names);
    AssignCount(t, counter, names);
    var r := Assign(t, counter, names);
    assert r.0.Keys == t.Keys;
    assert |r.0| == |t|;
  }
}
