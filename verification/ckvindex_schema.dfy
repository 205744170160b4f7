/**
 * The prototype index schema: a table from field name to field descriptor
 * that new names join lazily, one conversion at a time.
 *
 * The field-schema message and its conversion to a descriptor are not part
 * of this model; `name` and `convert` stand for them.
 */
module CkvIndexSchema {
  import opened Wrappers
  import opened SchemaField

  /**
   * What `update` leaves behind when it processes `fields` in order from
   * `table`: the final table, and the conversion error that stopped it, if any.
   */
  function UpdateFrom<S, E>(table: map<string, Field>, fields: seq<S>, name: S -> string,
                            convert: S -> Result<Field, E>): (map<string, Field>, Option<E>)
    decreases |fields|
  {
    if fields == [] then (table, None)
    else if name(fields[0]) in table then UpdateFrom(table, fields[1..], name, convert)
    else
      match convert(fields[0])
      case Err(e) => (table, Some(e))
      case Ok(f) => UpdateFrom(table[name(fields[0]) := f], fields[1..], name, convert)
  }

  /** Entries present before the update are still there, unchanged. */
  lemma {:induction false} UpdateKeepsExisting<S, E>(table: map<string, Field>, fields: seq<S>, name: S -> string,
                                                     convert: S -> Result<Field, E>)
    ensures var r := UpdateFrom(table, fields, name, convert).0;
      forall k :: k in table ==> k in r && r[k] == table[k]
    decreases |fields|
  {
    if fields != [] {
      var n := name(fields[0]);
      if n in table {
        UpdateKeepsExisting(table, fields[1..], name, convert);
      } else if convert(fields[0]).Ok? {
        UpdateKeepsExisting(table[n := convert(fields[0]).value], fields[1..], name, convert);
      }
    }
  }

  /**
   * Every name the update adds comes from the list and holds that field's
   * converted descriptor.
   */
  lemma {:induction false} UpdateAddsOnlyListed<S, E>(table: map<string, Field>, fields: seq<S>, name: S -> string,
                                                      convert: S -> Result<Field, E>)
    ensures var r := UpdateFrom(table, fields, name, convert).0;
      forall k :: k in r && k !in table ==>
        exists i :: 0 <= i < |fields| && name(fields[i]) == k && convert(fields[i]) == Ok(r[k])
    decreases |fields|
  {
    if fields != [] {
      var n := name(fields[0]);
      var r := UpdateFrom(table, fields, name, convert).0;
      if n in table {
        UpdateAddsOnlyListed(table, fields[1..], name, convert);
        forall k | k in r && k !in table
          ensures exists i :: 0 <= i < |fields| && name(fields[i]) == k && convert(fields[i]) == Ok(r[k])
        {
          var i :| 0 <= i < |fields[1..]| && name(fields[1..][i]) == k && convert(fields[1..][i]) == Ok(r[k]);
          assert fields[1..][i] == fields[i + 1];
        }
      } else if convert(fields[0]).Ok? {
        var t' := table[n := convert(fields[0]).value];
        UpdateAddsOnlyListed(t', fields[1..], name, convert);
        UpdateKeepsExisting(t', fields[1..], name, convert);
        forall k | k in r && k !in table
          ensures exists i :: 0 <= i < |fields| && name(fields[i]) == k && convert(fields[i]) == Ok(r[k])
        {
          if k == n {
            assert name(fields[0]) == k && convert(fields[0]) == Ok(r[k]);
          } else {
            var i :| 0 <= i < |fields[1..]| && name(fields[1..][i]) == k && convert(fields[1..][i]) == Ok(r[k]);
            assert fields[1..][i] == fields[i + 1];
          }
        }
      }
    }
  }

  /**
   * Success means every listed name is now known. Failure names the first
   * field whose conversion failed: it is a new name, it is not added, and
   * every field before it is known, the ones inserted earlier included.
   */
  lemma {:induction false} UpdateOutcome<S, E>(table: map<string, Field>, fields: seq<S>, name: S -> string,
                                               convert: S -> Result<Field, E>)
    ensures var (r, err) := UpdateFrom(table, fields, name, convert);
      && (err.None? ==> forall i :: 0 <= i < |fields| ==> name(fields[i]) in r)
      && (err.Some? ==> exists i :: StoppedAt(fields, name, convert, r, err.value, i))
    decreases |fields|
  {
    if fields != [] {
      var n := name(fields[0]);
      var (r, err) := UpdateFrom(table, fields, name, convert);
      if n in table {
        UpdateOutcome(table, fields[1..], name, convert);
        UpdateKeepsExisting(table, fields[1..], name, convert);
        OutcomeShift(fields, name, convert, r, err);
      } else if convert(fields[0]).Ok? {
        var t' := table[n := convert(fields[0]).value];
        UpdateOutcome(t', fields[1..], name, convert);
        UpdateKeepsExisting(t', fields[1..], name, convert);
        OutcomeShift(fields, name, convert, r, err);
      } else {
        assert StoppedAt(fields, name, convert, r, err.value, 0);
      }
    }
  }

  /** Lifts the outcome over `fields[1..]` to `fields` when the first name ends up known. */
  lemma OutcomeShift<S, E>(fields: seq<S>, name: S -> string, convert: S -> Result<Field, E>,
                           r: map<string, Field>, err: Option<E>)
    requires fields != [] && name(fields[0]) in r
    requires err.None? ==> forall i :: 0 <= i < |fields[1..]| ==> name(fields[1..][i]) in r
    requires err.Some? ==> exists i :: StoppedAt(fields[1..], name, convert, r, err.value, i)
    ensures err.None? ==> forall i :: 0 <= i < |fields| ==> name(fields[i]) in r
    ensures err.Some? ==> exists i :: StoppedAt(fields, name, convert, r, err.value, i)
  {
    if err.None? {
      forall i | 0 <= i < |fields|
        ensures name(fields[i]) in r
      {
        if i > 0 {
          assert fields[i] == fields[1..][i - 1];
        }
      }
    } else {
      var i :| StoppedAt(fields[1..], name, convert, r, err.value, i);
      assert fields[i + 1] == fields[1..][i];
      forall j | 0 <= j < i + 1
        ensures name(fields[j]) in r
      {
        if j > 0 {
          assert fields[j] == fields[1..][j - 1];
        }
      }
      assert StoppedAt(fields, name, convert, r, err.value, i + 1);
    }
  }

  /**
   * The update stopped at `fields[i]`: its conversion failed with `e`, its
   * name is not in `r`, and every name before it is.
   */
  ghost predicate StoppedAt<S, E>(fields: seq<S>, name: S -> string, convert: S -> Result<Field, E>,
                            r: map<string, Field>, e: E, i: int)
  {
    && 0 <= i < |fields|
    && convert(fields[i]) == Err(e)
    && name(fields[i]) !in r
    && forall j :: 0 <= j < i ==> name(fields[j]) in r
  }

  /** When every listed name is already known the update changes nothing and succeeds. */
  lemma {:induction false} UpdateAllKnown<S, E>(table: map<string, Field>, fields: seq<S>, name: S -> string,
                                                convert: S -> Result<Field, E>)
    requires forall i :: 0 <= i < |fields| ==> name(fields[i]) in table
    ensures UpdateFrom(table, fields, name, convert) == (table, None)
    decreases |fields|
  {
    if fields != [] {
      assert forall i :: 0 <= i < |fields[1..]| ==> fields[1..][i] == fields[i + 1];
      UpdateAllKnown(table, fields[1..], name, convert);
    }
  }

  /** `CKVIndexSchema`: field name to field descriptor. */
  class IndexSchema {
    var fieldTable: map<string, Field>

    /** `new`: the table is exactly the initial one. */
    constructor New(initialFields: map<string, Field>)
      ensures fieldTable == initialFields
    {
      fieldTable := initialFields;
    }

    /** `fetch_field_by_name`: the stored descriptor, or None for an unknown name. */
    function FetchFieldByName(fieldName: string): (r: Option<Field>)
      reads this
      ensures r.Some? <==> fieldName in fieldTable
      ensures r.Some? ==> r.value == fieldTable[fieldName]
    {
      if fieldName in fieldTable then Some(fieldTable[fieldName]) else None
    }

    /**
     * `update`: in order, each name not yet known is converted and inserted;
     * the first failed conversion returns its error, keeping what was inserted.
     */
    method Update<S, E>(fields: seq<S>, name: S -> string, convert: S -> Result<Field, E>)
      returns (r: Result<(), E>)
      modifies this
      ensures (fieldTable, if r.Err? then Some(r.error) else None) == UpdateFrom(old(fieldTable), fields, name, convert)
    {
      var i := 0;
      while i < |fields|
        invariant i <= |fields|
        invariant UpdateFrom(fieldTable, fields[i..], name, convert) == UpdateFrom(old(fieldTable), fields, name, convert)
      {
        assert fields[i..][0] == fields[i] && fields[i..][1..] == fields[i + 1..];
        var n := name(fields[i]);
        if n !in fieldTable {
          var field := convert(fields[i]);
          if field.Err? {
            return Err(field.error);
          }
          fieldTable := fieldTable[n := field.value];
        }
        i := i + 1;
      }
      return Ok(());
    }
  }
}
