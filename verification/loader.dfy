/**
 * The schema loader's two table builders: a stable sort of the fields by id
 * (for the id-indexed table) and a map from name to field in which a later
 * field replaces an earlier one of the same name.
 */
module SchemaLoader {
  import opened SchemaField

  /** A loaded field: the loader's fields carry their name beside the descriptor. */
  datatype NamedField = NamedField(name: string, field: Field)

  function IdOf(f: NamedField): U16 { f.field.id }

  /** Ascending field ids. */
  predicate SortedById(s: seq<NamedField>)
  {
    forall i, j :: 0 <= i < j < |s| ==> IdOf(s[i]) <= IdOf(s[j])
  }

  /** The fields of `s` with id `id`, in their order in `s`. */
  function WithId(s: seq<NamedField>, id: U16): (r: seq<NamedField>)
    ensures |r| <= |s|
    decreases |s|
  {
    if s == [] then []
    else (if IdOf(s[0]) == id then [s[0]] else []) + WithId(s[1..], id)
  }

  /** `x` placed before the first field of larger id, so after every field of equal id. */
  function InsertById(x: NamedField, s: seq<NamedField>): (r: seq<NamedField>)
    ensures multiset(r) == multiset(s) + multiset{x}
    ensures |r| == |s| + 1
    decreases |s|
  {
    if s == [] then [x]
    else if IdOf(s[0]) > IdOf(x) then [x] + s
    else
      assert s == [s[0]] + s[1..];
      [s[0]] + InsertById(x, s[1..])
  }

  /**
   * The order `sort_by` on the id leaves: each field, in input order,
   * inserted after all the fields of equal id already placed.
   */
  function StableSortById(s: seq<NamedField>): (r: seq<NamedField>)
    ensures multiset(r) == multiset(s) && |r| == |s|
    decreases |s|
  {
    if s == [] then []
    else
      assert s == s[..|s| - 1] + [s[|s| - 1]];
      InsertById(s[|s| - 1], StableSortById(s[..|s| - 1]))
  }

  lemma {:induction false} InsertKeepsSorted(x: NamedField, s: seq<NamedField>)
    requires SortedById(s)
    ensures SortedById(InsertById(x, s))
    decreases |s|
  {
    if s != [] && IdOf(s[0]) <= IdOf(x) {
      InsertKeepsSorted(x, s[1..]);
      var r := InsertById(x, s[1..]);
      assert multiset(r) == multiset(s[1..]) + multiset{x};
      forall j | 0 <= j < |r|
        ensures IdOf(s[0]) <= IdOf(r[j])
      {
        assert r[j] in multiset(r);
        if r[j] != x {
          assert r[j] in multiset(s[1..]);
          var k :| 0 <= k < |s[1..]| && s[1..][k] == r[j];
          assert s[k + 1] == r[j];
        }
      }
    }
  }

  /** `sort_by_field_id` leaves ascending ids. */
  lemma {:induction false} StableSortIsSorted(s: seq<NamedField>)
    ensures SortedById(StableSortById(s))
    decreases |s|
  {
    if s != [] {
      StableSortIsSorted(s[..|s| - 1]);
      InsertKeepsSorted(s[|s| - 1], StableSortById(s[..|s| - 1]));
    }
  }

  /** Every field of `s` has an id above `id`, so none is selected. */
  lemma {:induction false} WithIdAbove(s: seq<NamedField>, id: U16)
    requires forall k :: 0 <= k < |s| ==> IdOf(s[k]) > id
    ensures WithId(s, id) == []
    decreases |s|
  {
    if s != [] {
      WithIdAbove(s[1..], id);
    }
  }

  lemma {:induction false} WithIdAppend(a: seq<NamedField>, b: seq<NamedField>, id: U16)
    ensures WithId(a + b, id) == WithId(a, id) + WithId(b, id)
    decreases |a|
  {
    if a != [] {
      assert (a + b)[1..] == a[1..] + b;
      WithIdAppend(a[1..], b, id);
    } else {
      assert a + b == b;
    }
  }

  /** Inserting into a sorted sequence puts `x` last among the fields of its id. */
  lemma {:induction false} WithIdInsert(x: NamedField, s: seq<NamedField>, id: U16)
    requires SortedById(s)
    ensures WithId(InsertById(x, s), id) == WithId(s, id) + WithId([x], id)
    decreases |s|
  {
    if s == [] {
    } else if IdOf(s[0]) > IdOf(x) {
      WithIdInsertFront(x, s, id);
    } else {
      WithIdInsert(x, s[1..], id);
      var r := InsertById(x, s);
      assert r[0] == s[0] && r[1..] == InsertById(x, s[1..]);
      var head := if IdOf(s[0]) == id then [s[0]] else [];
      assert WithId(r, id) == head + WithId(r[1..], id);
      assert WithId(s, id) == head + WithId(s[1..], id);
    }
  }

  /** `x` goes in front of a sorted sequence whose ids all exceed its own. */
  lemma WithIdInsertFront(x: NamedField, s: seq<NamedField>, id: U16)
    requires SortedById(s) && s != [] && IdOf(s[0]) > IdOf(x)
    ensures WithId(InsertById(x, s), id) == WithId(s, id) + WithId([x], id)
  {
    assert InsertById(x, s) == [x] + s;
    WithIdAppend([x], s, id);
    if IdOf(x) == id {
      WithIdAbove(s, id);
    } else {
      assert WithId([x], id) == [];
    }
  }

  /** The sort is stable: the fields of each id keep their input order. */
  lemma {:induction false} StableSortIsStable(s: seq<NamedField>, id: U16)
    ensures WithId(StableSortById(s), id) == WithId(s, id)
    decreases |s|
  {
    if s != [] {
      var init, last := s[..|s| - 1], s[|s| - 1];
      assert s == init + [last];
      calc {
        WithId(StableSortById(s), id);
        WithId(InsertById(last, StableSortById(init)), id);
        { StableSortIsSorted(init); WithIdInsert(last, StableSortById(init), id); }
        WithId(StableSortById(init), id) + WithId([last], id);
        { StableSortIsStable(init, id); }
        WithId(init, id) + WithId([last], id);
        { WithIdAppend(init, [last], id); }
        WithId(s, id);
      }
    }
  }

  /**
   * `sort_by_field_id`: the slice is rearranged in place into the order of
   * the library's stable sort on the id, so it ends sorted, a permutation of
   * what it held, with fields of equal id in their old order.
   */
  method SortByFieldId(fields: array<NamedField>)
    modifies fields
    ensures fields[..] == StableSortById(old(fields[..]))
    ensures SortedById(fields[..]) && multiset(fields[..]) == multiset(old(fields[..]))
    ensures forall id: U16 :: WithId(fields[..], id) == WithId(old(fields[..]), id)
  {
    var sorted := StableSortById(fields[..]);
    forall i | 0 <= i < fields.Length {
      fields[i] := sorted[i];
    }
    assert fields[..] == sorted;
    StableSortIsSorted(old(fields[..]));
    forall id: U16
      ensures WithId(fields[..], id) == WithId(old(fields[..]), id)
    {
      StableSortIsStable(old(fields[..]), id);
    }
  }

  /** The map `to_map` builds from `fields`: each insert replaces the entry of that name. */
  function MapOf(fields: seq<NamedField>): map<string, NamedField>
    decreases |fields|
  {
    if fields == [] then map[]
    else MapOf(fields[..|fields| - 1])[fields[|fields| - 1].name := fields[|fields| - 1]]
  }

  /** `fields[i]` is the last field named `name`. */
  predicate LastNamed(fields: seq<NamedField>, name: string, i: int)
  {
    0 <= i < |fields| && fields[i].name == name && forall j :: i < j < |fields| ==> fields[j].name != name
  }

  /**
   * One entry per distinct name, holding the last field of that name: the
   * keys are exactly the names, and every entry is the last field so named.
   */
  lemma {:induction false} MapOfLastWins(fields: seq<NamedField>)
    ensures MapOf(fields).Keys == set f | f in fields :: f.name
    ensures forall n :: n in MapOf(fields) ==> exists i :: LastNamed(fields, n, i) && MapOf(fields)[n] == fields[i]
    decreases |fields|
  {
    if fields != [] {
      var init := fields[..|fields| - 1];
      var last := fields[|fields| - 1];
      MapOfLastWins(init);
      assert fields == init + [last];
      forall n | n in MapOf(fields)
        ensures exists i :: LastNamed(fields, n, i) && MapOf(fields)[n] == fields[i]
      {
        if n == last.name {
          assert LastNamed(fields, n, |fields| - 1);
        } else {
          var i :| LastNamed(init, n, i) && MapOf(init)[n] == init[i];
          assert LastNamed(fields, n, i);
        }
      }
    }
  }

  /**
   * `to_map`: inserting every field under its name, in order, so a later
   * field replaces an earlier one of the same name.
   */
  method ToMap(fields: seq<NamedField>) returns (result: map<string, NamedField>)
    ensures result == MapOf(fields)
    ensures result.Keys == set f | f in fields :: f.name
    ensures forall n :: n in result ==> exists i :: LastNamed(fields, n, i) && result[n] == fields[i]
  {
    result := map[];
    for i := 0 to |fields|
      invariant result == MapOf(fields[..i])
    {
      assert fields[..i + 1][..i] == fields[..i];
      result := result[fields[i].name := fields[i]];
    }
    assert fields[..|fields|] == fields;
    MapOfLastWins(fields);
  }
}
