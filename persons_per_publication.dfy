/**
 * The name and identifiers of one person in Ricgraph, read from the fields
 * of its neighbouring nodes.
 */
module PersonsPerPublication {
  import opened Common

  /** One node field: its `name` (the node category) and `value`. */
  datatype Field = Field(name: string, value: string)

  const FULL_NAME := "FULL_NAME"
  const ORCID := "ORCID"
  const OPENALEX := "OPENALEX"
  const PURE_UUID_PERS := "PURE_UUID_PERS"

  /** The field names that go into the identifier map. */
  predicate IsIdName(name: string)
  {
    name == ORCID || name == OPENALEX || name == PURE_UUID_PERS
  }

  /** The value of the last field with the name, searching from the end. */
  function LastValue(fields: seq<Field>, name: string): (r: Option<string>)
    ensures r.Some? ==> exists i :: (0 <= i < |fields| && fields[i] == Field(name, r.value) &&
      forall j :: i < j < |fields| ==> fields[j].name != name)
    ensures r.None? ==> forall i :: 0 <= i < |fields| ==> fields[i].name != name
    decreases |fields|
  {
    if |fields| == 0 then None
    else if Last(fields).name == name then Some(Last(fields).value)
    else
      var r := LastValue(fields[..|fields| - 1], name);
      assert forall i :: 0 <= i < |fields| - 1 ==> fields[..|fields| - 1][i] == fields[i];
      r
  }

  /** The identifier map the loop builds, one assignment per identifier field. */
  function IdsOf(fields: seq<Field>): Dict<string, string>
    decreases |fields|
  {
    if |fields| == 0 then []
    else
      var ids := IdsOf(fields[..|fields| - 1]);
      if IsIdName(Last(fields).name) then Put(ids, Last(fields).name, Last(fields).value) else ids
  }

  /** The full name the loop ends with. */
  function FullNameOf(fields: seq<Field>): string
    decreases |fields|
  {
    if |fields| == 0 then ""
    else if Last(fields).name == FULL_NAME then Last(fields).value
    else FullNameOf(fields[..|fields| - 1])
  }

  /** get_idsandname. */
  method GetIdsAndName(personfields: seq<Field>) returns (ids: Dict<string, string>, fullName: string)
    ensures ids == IdsOf(personfields) && fullName == FullNameOf(personfields)
  {
    ids := [];
    fullName := "";
    var i := 0;
    while i < |personfields|
      invariant 0 <= i <= |personfields|
      invariant ids == IdsOf(personfields[..i]) && fullName == FullNameOf(personfields[..i])
    {
      assert personfields[..i + 1][..i] == personfields[..i] && Last(personfields[..i + 1]) == personfields[i];
      var fields := personfields[i];
      if fields.name == FULL_NAME {
        fullName := fields.value;
      }
      if fields.name == ORCID {
        ids := Put(ids, ORCID, fields.value);
      }
      if fields.name == OPENALEX {
        ids := Put(ids, OPENALEX, fields.value);
      }
      if fields.name == PURE_UUID_PERS {
        ids := Put(ids, PURE_UUID_PERS, fields.value);
      }
      i := i + 1;
    }
    assert personfields[..i] == personfields;
  }

  /** The full name is the value of the last FULL_NAME field, or '' when there is none. */
  lemma {:induction false} FullNameIsLast(fields: seq<Field>)
    ensures FullNameOf(fields) == LastValue(fields, FULL_NAME).GetOr("")
    decreases |fields|
  {
    if |fields| > 0 {
      FullNameIsLast(fields[..|fields| - 1]);
    }
  }

  /**
   * The map holds only ORCID, OPENALEX and PURE_UUID_PERS, each once, each
   * exactly when such a field occurs, with the value of its last field.
   */
  lemma {:induction false} IdsAreLast(fields: seq<Field>, name: string)
    ensures Get(IdsOf(fields), name) == if IsIdName(name) then LastValue(fields, name) else None
    ensures forall k :: k in Keys(IdsOf(fields)) ==> IsIdName(k)
    ensures DistinctKeys(IdsOf(fields))
    decreases |fields|
  {
    if |fields| > 0 {
      var front := fields[..|fields| - 1];
      IdsAreLast(front, name);
      var f := Last(fields);
      if IsIdName(f.name) {
        PutGet(IdsOf(front), f.name, f.value, name);
        PutDistinct(IdsOf(front), f.name, f.value);
      }
    }
  }

  /** A field of any other name changes neither result. */
  lemma OtherFieldIgnored(fields: seq<Field>, f: Field)
    requires !IsIdName(f.name) && f.name != FULL_NAME
    ensures IdsOf(fields + [f]) == IdsOf(fields) && FullNameOf(fields + [f]) == FullNameOf(fields)
  {
    assert (fields + [f])[..|fields|] == fields;
  }
}
