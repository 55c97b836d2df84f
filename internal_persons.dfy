/**
 * Enrichment of internal Pure persons with the identifiers Ricgraph knows
 * (enrich_internal_persons_with_ids.py): a row of the pivoted person table is
 * compared with the person's Pure record, missing identifier types are
 * appended, a missing ORCID is filled in, and the record is written back.
 * The rule throughout: an existing identifier is never removed or overwritten.
 */
module InternalPersons {
  import opened Common
  import opened Identifiers

  /** A cell of the pivoted person table: absent values are NaN (or None). */
  datatype Cell = Null | NaN | Str(s: string)

  /** `is_nan`: true exactly for None and a float NaN. */
  function IsNan(v: Cell): (r: bool)
    ensures r <==> !v.Str?
  {
    v.Null? || v.NaN?
  }

  /** `row.items()` in column order; one column per Ricgraph identifier name. */
  type PersonRow = seq<(string, Cell)>

  /** The fields of a Pure person record this script reads or writes. */
  datatype PersonRecord = PersonRecord(
    uuid: Option<string>,
    orcid: Option<string>,
    identifiers: Option<seq<Identifier>>,
    others: seq<(string, string)>)

  /** An identifier to add: its value and its type uri. */
  datatype NewId = NewId(id: string, uri: string)

  /** A row value that differs from the identifier Pure already has for that type. */
  datatype Conflict = Conflict(id: string, uri: string, existing: Option<string>)

  /** `data.get('identifiers', [])` */
  function Existing(d: PersonRecord): seq<Identifier>
  {
    d.identifiers.GetOr([])
  }

  /** The columns check_new_ids looks at: a key of ID_URI with a value that is not NaN. */
  predicate Considered(kv: (string, Cell), idUri: map<string, string>)
  {
    kv.0 in idUri && !IsNan(kv.1)
  }

  // ---------------------------------------------------------------------
  // Specification of check_new_ids

  /** The conflicts recorded for one value: every entry of that type whose id differs. */
  function ConflictsWith(ids: seq<Identifier>, value: string, uri: string): seq<Conflict>
    decreases |ids|
  {
    if |ids| == 0 then []
    else
      var e := Last(ids);
      ConflictsWith(ids[..|ids| - 1], value, uri)
      + (if TypeUri(e) == Some(uri) && IdOrValue(e) != Some(value)
         then [Conflict(value, uri, IdOrValue(e))] else [])
  }

  /** The new identifiers of a row: one per considered column whose type Pure does not have. */
  function NewIdsOf(row: PersonRow, ids: seq<Identifier>, idUri: map<string, string>): seq<NewId>
    decreases |row|
  {
    if |row| == 0 then []
    else
      var kv := Last(row);
      NewIdsOf(row[..|row| - 1], ids, idUri)
      + (if Considered(kv, idUri) && !HasTypeUri(ids, idUri[kv.0])
         then [NewId(kv.1.s, idUri[kv.0])] else [])
  }

  function ConflictsOf(row: PersonRow, ids: seq<Identifier>, idUri: map<string, string>): seq<Conflict>
    decreases |row|
  {
    if |row| == 0 then []
    else
      var kv := Last(row);
      ConflictsOf(row[..|row| - 1], ids, idUri)
      + (if Considered(kv, idUri) then ConflictsWith(ids, kv.1.s, idUri[kv.0]) else [])
  }

  /** The value of the row's `ORCID` column, or the empty string when there is none. */
  function OrcidOf(row: PersonRow): Cell
    decreases |row|
  {
    if |row| == 0 then Str("")
    else if Last(row).0 == "ORCID" then Last(row).1
    else OrcidOf(row[..|row| - 1])
  }

  /** The record gets the row's ORCID when it has none and the row's value is a non-empty string. */
  predicate OrcidChanges(data: PersonRecord, orcid: Cell)
  {
    data.orcid.None? && orcid.Str? && orcid.s != ""
  }

  function WithOrcid(data: PersonRecord, orcid: Cell): PersonRecord
  {
    if OrcidChanges(data, orcid) then data.(orcid := Some(orcid.s)) else data
  }

  /** check_new_ids: the loop over the row's columns and, per column, over the existing identifiers. */
  method CheckNewIds(row: PersonRow, data: PersonRecord, idUri: map<string, string>)
    returns (newIds: seq<NewId>, conflicts: seq<Conflict>, updated: PersonRecord, orcidChange: bool, orcid: Cell)
    ensures newIds == NewIdsOf(row, Existing(data), idUri)
    ensures conflicts == ConflictsOf(row, Existing(data), idUri)
    ensures orcid == OrcidOf(row)
    ensures orcidChange <==> OrcidChanges(data, orcid)
    ensures updated == WithOrcid(data, orcid)
  {
    var identifiers := Existing(data);
    newIds, conflicts := [], [];
    orcid := Str("");
    var i := 0;
    while i < |row|
      invariant 0 <= i <= |row|
      invariant newIds == NewIdsOf(row[..i], identifiers, idUri)
      invariant conflicts == ConflictsOf(row[..i], identifiers, idUri)
      invariant orcid == OrcidOf(row[..i])
    {
      var (key, value) := row[i];
      assert row[..i + 1][..i] == row[..i] && Last(row[..i + 1]) == row[i];
      if key == "ORCID" {
        orcid := value;
      }
      if key in idUri && !IsNan(value) {
        var uri := idUri[key];
        var found, added := ScanIdentifiers(identifiers, value.s, uri);
        conflicts := conflicts + added;
        if !found {
          newIds := newIds + [NewId(value.s, uri)];
        }
      }
      i := i + 1;
    }
    assert row[..i] == row;
    orcidChange := data.orcid.None? && orcid.Str? && orcid.s != "";
    updated := if orcidChange then data.(orcid := Some(orcid.s)) else data;
  }

  /** The inner loop of check_new_ids: whether Pure has the type, and the conflicting entries of that type. */
  method ScanIdentifiers(identifiers: seq<Identifier>, value: string, uri: string)
    returns (found: bool, conflicts: seq<Conflict>)
    ensures found <==> HasTypeUri(identifiers, uri)
    ensures conflicts == ConflictsWith(identifiers, value, uri)
  {
    found, conflicts := false, [];
    var j := 0;
    while j < |identifiers|
      invariant 0 <= j <= |identifiers|
      invariant found <==> HasTypeUri(identifiers[..j], uri)
      invariant conflicts == ConflictsWith(identifiers[..j], value, uri)
    {
      var entry := identifiers[j];
      ScanStep(identifiers, j, value, uri);
      if TypeUri(entry) == Some(uri) {
        found := true;
        if IdOrValue(entry) != Some(value) {
          conflicts := conflicts + [Conflict(value, uri, IdOrValue(entry))];
        }
      }
      j := j + 1;
    }
    assert identifiers[..j] == identifiers;
  }

  /** What one more entry adds to the inner loop's two results. */
  lemma ScanStep(identifiers: seq<Identifier>, j: nat, value: string, uri: string)
    requires j < |identifiers|
    ensures HasTypeUri(identifiers[..j + 1], uri) <==> HasTypeUri(identifiers[..j], uri) || TypeUri(identifiers[j]) == Some(uri)
    ensures ConflictsWith(identifiers[..j + 1], value, uri) == ConflictsWith(identifiers[..j], value, uri)
      + (if TypeUri(identifiers[j]) == Some(uri) && IdOrValue(identifiers[j]) != Some(value)
         then [Conflict(value, uri, IdOrValue(identifiers[j]))] else [])
  {
    assert identifiers[..j + 1][..j] == identifiers[..j] && Last(identifiers[..j + 1]) == identifiers[j];
    assert identifiers[..j + 1] == identifiers[..j] + [identifiers[j]];
    HasTypeUriSnoc(identifiers[..j], identifiers[j], uri);
  }

  /** Every new identifier comes from a considered column whose type Pure lacks, and conversely. */
  lemma {:induction false} NewIdsCharacterized(row: PersonRow, ids: seq<Identifier>, idUri: map<string, string>, n: NewId)
    ensures n in NewIdsOf(row, ids, idUri) <==>
      exists k :: 0 <= k < |row| && Considered(row[k], idUri) && !HasTypeUri(ids, idUri[row[k].0])
                  && n == NewId(row[k].1.s, idUri[row[k].0])
    decreases |row|
  {
    if |row| > 0 {
      var front := row[..|row| - 1];
      NewIdsCharacterized(front, ids, idUri, n);
      forall k | 0 <= k < |front| ensures front[k] == row[k] { }
      if n in NewIdsOf(row, ids, idUri) && n !in NewIdsOf(front, ids, idUri) {
        assert Considered(row[|row| - 1], idUri);
      }
    }
  }

  /**
   * A new identifier never has a type Pure already knows, and every conflict is
   * about a type Pure knows with a different id; so no type is both added and in conflict.
   */
  lemma {:induction false} ConflictsAreKnownTypes(row: PersonRow, ids: seq<Identifier>, idUri: map<string, string>)
    ensures forall c :: c in ConflictsOf(row, ids, idUri) ==>
      exists e :: e in ids && TypeUri(e) == Some(c.uri) && IdOrValue(e) == c.existing && c.existing != Some(c.id)
    ensures forall n :: n in NewIdsOf(row, ids, idUri) ==> !HasTypeUri(ids, n.uri)
    decreases |row|
  {
    if |row| > 0 {
      var front := row[..|row| - 1];
      ConflictsAreKnownTypes(front, ids, idUri);
      var kv := Last(row);
      if Considered(kv, idUri) {
        ConflictsWithSound(ids, kv.1.s, idUri[kv.0]);
      }
    }
  }

  lemma {:induction false} ConflictsWithSound(ids: seq<Identifier>, value: string, uri: string)
    ensures forall c :: c in ConflictsWith(ids, value, uri) ==>
      c.uri == uri && c.id == value && exists e :: e in ids && TypeUri(e) == Some(uri) && IdOrValue(e) == c.existing && c.existing != Some(value)
    decreases |ids|
  {
    if |ids| > 0 {
      ConflictsWithSound(ids[..|ids| - 1], value, uri);
      forall e | e in ids[..|ids| - 1] ensures e in ids { }
      assert Last(ids) in ids;
    }
  }

  // ---------------------------------------------------------------------
  // update_person

  /** The identifier objects update_person builds from new ids, in order. */
  function AsIdentifiers(newIds: seq<NewId>): (r: seq<Identifier>)
    ensures |r| == |newIds|
  {
    seq(|newIds|, i requires 0 <= i < |newIds| => ClassifiedId(newIds[i].id, newIds[i].uri, None))
  }

  /** The record after the new identifiers are appended; without new ids it is unchanged. */
  function WithNewIds(newIds: seq<NewId>, data: PersonRecord): PersonRecord
  {
    if |newIds| == 0 then data
    else data.(identifiers := Some(Existing(data) + AsIdentifiers(newIds)))
  }

  /** update_person: the loop appending one ClassifiedId per new id; returns the record it PUTs. */
  method UpdatePerson(newIds: seq<NewId>, data: PersonRecord) returns (sent: PersonRecord)
    ensures sent == WithNewIds(newIds, data)
    ensures Existing(sent)[..|Existing(data)|] == Existing(data)
  {
    var identifiers := data.identifiers;
    var i := 0;
    while i < |newIds|
      invariant 0 <= i <= |newIds|
      invariant identifiers == if i == 0 then data.identifiers else Some(Existing(data) + AsIdentifiers(newIds[..i]))
    {
      var n := newIds[i];
      var entry := ClassifiedId(n.id, n.uri, None);
      assert AsIdentifiers(newIds[..i + 1]) == AsIdentifiers(newIds[..i]) + [entry];
      ghost var want := Existing(data) + AsIdentifiers(newIds[..i + 1]);
      assert want == Existing(data) + AsIdentifiers(newIds[..i]) + [entry];
      if identifiers.Some? {
        assert identifiers.value == Existing(data) + AsIdentifiers(newIds[..i]) by {
          if i == 0 {
            assert AsIdentifiers(newIds[..i]) == [];
          }
        }
        identifiers := Some(identifiers.value + [entry]);
      } else {
        assert AsIdentifiers(newIds[..i]) == [] && Existing(data) == [];
        assert want == [entry];
        identifiers := Some([entry]);
      }
      i := i + 1;
    }
    assert newIds[..i] == newIds;
    sent := data.(identifiers := identifiers);
  }

  /** A row all of whose considered columns have a type Pure knows yields no new ids. */
  lemma {:induction false} AllKnownNoNewIds(row: PersonRow, ids: seq<Identifier>, idUri: map<string, string>)
    requires forall k :: 0 <= k < |row| && Considered(row[k], idUri) ==> HasTypeUri(ids, idUri[row[k].0])
    ensures NewIdsOf(row, ids, idUri) == []
    decreases |row|
  {
    if |row| > 0 {
      var front := row[..|row| - 1];
      forall k | 0 <= k < |front| && Considered(front[k], idUri)
        ensures HasTypeUri(ids, idUri[front[k].0])
      {
        assert front[k] == row[k];
      }
      AllKnownNoNewIds(front, ids, idUri);
      assert Last(row) == row[|row| - 1];
    }
  }

  /** Once the new ids are appended, checking the same row again finds none. */
  lemma RecheckFindsNothing(row: PersonRow, data: PersonRecord, idUri: map<string, string>)
    ensures NewIdsOf(row, Existing(WithNewIds(NewIdsOf(row, Existing(data), idUri), data)), idUri) == []
  {
    var ids := Existing(data);
    var added := NewIdsOf(row, ids, idUri);
    var after := Existing(WithNewIds(added, data));
    assert after == ids + AsIdentifiers(added);
    forall k | 0 <= k < |row| && Considered(row[k], idUri)
      ensures HasTypeUri(after, idUri[row[k].0])
    {
      var uri := idUri[row[k].0];
      if HasTypeUri(ids, uri) {
        var e :| e in ids && TypeUri(e) == Some(uri);
        assert e in after;
      } else {
        var n := NewId(row[k].1.s, uri);
        NewIdsCharacterized(row, ids, idUri, n);
        var m :| 0 <= m < |added| && added[m] == n;
        assert after[|ids| + m] == AsIdentifiers(added)[m];
        assert after[|ids| + m] in after;
      }
    }
    AllKnownNoNewIds(row, after, idUri);
  }

  // ---------------------------------------------------------------------
  // find_item_by_uuid, update_persons, fetch_person_data

  /** `find_item_by_uuid`: the first record whose uuid equals the target; a missing target matches nothing. */
  function FindItemByUuid(records: seq<PersonRecord>, target: Option<string>): (r: Option<nat>)
    ensures r.Some? ==> target.Some? && r.value < |records| && records[r.value].uuid == target
                        && forall j :: 0 <= j < r.value ==> records[j].uuid != target
    ensures r.None? ==> target.None? || forall j :: 0 <= j < |records| ==> records[j].uuid != target
  {
    if target.None? then None else FindFirst(records, (p: PersonRecord) => p.uuid == target)
  }

  /** `row['PURE_UUID_PERS']`, None when the column is missing or NaN. */
  function RowUuid(row: PersonRow): Option<string>
  {
    match FindFirst(row, (kv: (string, Cell)) => kv.0 == "PURE_UUID_PERS")
    case None => None
    case Some(k) => if row[k].1.Str? then Some(row[k].1.s) else None
  }

  /** State of the update_persons loop: the in-memory records, the counters and the PUTs issued. */
  datatype PersonsRun = PersonsRun(records: seq<PersonRecord>, count: nat, succes: nat, puts: seq<(string, PersonRecord)>)

  /** One iteration of update_persons. */
  function PersonStep(st: PersonsRun, row: PersonRow, idUri: map<string, string>, test: string): PersonsRun
  {
    var target := RowUuid(row);
    match FindItemByUuid(st.records, target)
    case None => st.(count := st.count + 1)
    case Some(i) =>
      var data := st.records[i];
      var newIds := NewIdsOf(row, Existing(data), idUri);
      var data1 := WithOrcid(data, OrcidOf(row));
      if |newIds| > 0 || OrcidChanges(data, OrcidOf(row)) then
        if test == "no" then
          var sent := WithNewIds(newIds, data1);
          PersonsRun(st.records[i := sent], st.count + 1, st.succes + 1, st.puts + [(target.value, sent)])
        else
          PersonsRun(st.records[i := data1], st.count + 1, st.succes + 1, st.puts)
      else
        st.(count := st.count + 1)
  }

  function PersonsRunOf(st: PersonsRun, rows: seq<PersonRow>, idUri: map<string, string>, test: string): PersonsRun
    decreases |rows|
  {
    if |rows| == 0 then st
    else PersonStep(PersonsRunOf(st, rows[..|rows| - 1], idUri, test), Last(rows), idUri, test)
  }

  /** One iteration of the update_persons loop, on the loop's state. */
  method ProcessRow(st: PersonsRun, row: PersonRow, idUri: map<string, string>, test: string) returns (next: PersonsRun)
    ensures next == PersonStep(st, row, idUri, test)
  {
    next := st.(count := st.count + 1);
    var target := RowUuid(row);
    var found := FindItemByUuid(st.records, target);
    if found.Some? {
      var k := found.value;
      var newIds, conflicts, data, orcidChange, orcid := CheckNewIds(row, st.records[k], idUri);
      if |newIds| > 0 || orcidChange {
        next := next.(succes := st.succes + 1, records := st.records[k := data]);
        if test == "no" {
          var sent := UpdatePerson(newIds, data);
          next := next.(records := st.records[k := sent], puts := st.puts + [(target.value, sent)]);
        }
      }
    }
  }

  /** The person records Pure holds in memory during one run of the script. */
  class PersonStore {
    var records: seq<PersonRecord>

    constructor (fetched: seq<PersonRecord>)
      ensures records == fetched
    {
      records := fetched;
    }

    /**
     * update_persons: for each row, find the record, check it, count it when
     * something is new and PUT it back only when test_choice is "no".
     */
    method UpdatePersons(rows: seq<PersonRow>, idUri: map<string, string>, test: string)
      returns (count: nat, succes: nat, puts: seq<(string, PersonRecord)>)
      modifies this
      ensures PersonsRun(records, count, succes, puts) == PersonsRunOf(PersonsRun(old(records), 0, 0, []), rows, idUri, test)
    {
      var st := PersonsRun(records, 0, 0, []);
      var i := 0;
      while i < |rows|
        invariant 0 <= i <= |rows|
        invariant st == PersonsRunOf(PersonsRun(old(records), 0, 0, []), rows[..i], idUri, test)
      {
        assert rows[..i + 1][..i] == rows[..i] && Last(rows[..i + 1]) == rows[i];
        st := ProcessRow(st, rows[i], idUri, test);
        i := i + 1;
      }
      assert rows[..i] == rows;
      records, count, succes, puts := st.records, st.count, st.succes, st.puts;
    }
  }

  /** The run keeps every record in place and only adds to it: identifiers extend, an ORCID stays. */
  predicate Extends(before: seq<PersonRecord>, after: seq<PersonRecord>)
  {
    |after| == |before|
    && forall i :: 0 <= i < |before| ==>
         after[i].uuid == before[i].uuid
         && |Existing(before[i])| <= |Existing(after[i])|
         && Existing(after[i])[..|Existing(before[i])|] == Existing(before[i])
         && (before[i].orcid.Some? ==> after[i].orcid == before[i].orcid)
  }

  lemma ExtendsTrans(a: seq<PersonRecord>, b: seq<PersonRecord>, c: seq<PersonRecord>)
    requires Extends(a, b) && Extends(b, c)
    ensures Extends(a, c)
  {
    forall i | 0 <= i < |a|
      ensures Existing(c[i])[..|Existing(a[i])|] == Existing(a[i])
    {
      assert Existing(c[i])[..|Existing(a[i])|] == Existing(c[i])[..|Existing(b[i])|][..|Existing(a[i])|];
    }
  }

  lemma StepExtends(st: PersonsRun, row: PersonRow, idUri: map<string, string>, test: string)
    ensures Extends(st.records, PersonStep(st, row, idUri, test).records)
  {
  }

  /**
   * Over a whole run: each row is counted once, at most one success per row,
   * and no record loses an identifier or an ORCID or moves.
   */
  lemma {:induction false} RunNeverRemoves(st: PersonsRun, rows: seq<PersonRow>, idUri: map<string, string>, test: string)
    ensures var r := PersonsRunOf(st, rows, idUri, test);
      Extends(st.records, r.records)
      && r.count == st.count + |rows|
      && st.succes <= r.succes <= st.succes + |rows|
    decreases |rows|
  {
    if |rows| > 0 {
      var mid := PersonsRunOf(st, rows[..|rows| - 1], idUri, test);
      RunNeverRemoves(st, rows[..|rows| - 1], idUri, test);
      StepExtends(mid, Last(rows), idUri, test);
      ExtendsTrans(st.records, mid.records, PersonStep(mid, Last(rows), idUri, test).records);
    }
  }

  /** In test mode nothing is sent; otherwise exactly one PUT per counted success. */
  lemma {:induction false} RunPuts(st: PersonsRun, rows: seq<PersonRow>, idUri: map<string, string>, test: string)
    ensures var r := PersonsRunOf(st, rows, idUri, test);
      (test != "no" ==> r.puts == st.puts)
      && (test == "no" ==> |r.puts| - |st.puts| == r.succes - st.succes)
    decreases |rows|
  {
    if |rows| > 0 {
      RunPuts(st, rows[..|rows| - 1], idUri, test);
      RunNeverRemoves(st, rows[..|rows| - 1], idUri, test);
    }
  }

  /** Enriching a person a second time with the same row changes nothing and sends nothing. */
  lemma RepeatedRowIsNoop(st: PersonsRun, row: PersonRow, idUri: map<string, string>)
    ensures var st1 := PersonStep(st, row, idUri, "no");
      var st2 := PersonStep(st1, row, idUri, "no");
      st2.records == st1.records && st2.succes == st1.succes && st2.puts == st1.puts
  {
    var st1 := PersonStep(st, row, idUri, "no");
    var target := RowUuid(row);
    var found := FindItemByUuid(st.records, target);
    StepExtends(st, row, idUri, "no");
    if found.Some? {
      var i := found.value;
      var data := st.records[i];
      var newIds := NewIdsOf(row, Existing(data), idUri);
      var orcid := OrcidOf(row);
      var data1 := WithOrcid(data, orcid);
      var found1 := FindItemByUuid(st1.records, target);
      assert found1 == Some(i);
      if |newIds| > 0 || OrcidChanges(data, orcid) {
        var sent := WithNewIds(newIds, data1);
        assert st1.records[i] == sent;
        assert Existing(data1) == Existing(data);
        RecheckFindsNothing(row, data, idUri);
        assert Existing(WithNewIds(newIds, data1)) == Existing(WithNewIds(newIds, data));
        assert !OrcidChanges(sent, orcid);
      } else {
        assert st1.records == st.records;
      }
    } else {
      assert st1.records == st.records;
    }
  }

  /**
   * In a test run the ORCID is still written into the in-memory record, so a
   * repeated row changes no record and sends nothing, and it counts as a
   * success again exactly when it proposes identifier types the record lacks.
   */
  lemma RepeatedRowInTestRun(st: PersonsRun, row: PersonRow, idUri: map<string, string>, test: string)
    requires test != "no"
    ensures var st1 := PersonStep(st, row, idUri, test);
      var st2 := PersonStep(st1, row, idUri, test);
      var found := FindItemByUuid(st.records, RowUuid(row));
      st2.records == st1.records && st1.puts == st.puts && st2.puts == st.puts &&
      st2.succes == st1.succes + (if found.Some? && |NewIdsOf(row, Existing(st.records[found.value]), idUri)| > 0 then 1 else 0)
  {
    var st1 := PersonStep(st, row, idUri, test);
    var target := RowUuid(row);
    var found := FindItemByUuid(st.records, target);
    StepExtends(st, row, idUri, test);
    if found.Some? {
      var i := found.value;
      var data := st.records[i];
      var orcid := OrcidOf(row);
      var data1 := WithOrcid(data, orcid);
      assert st1.records[i] == data1;
      assert FindItemByUuid(st1.records, target) == Some(i);
      assert Existing(data1) == Existing(data);
      assert !OrcidChanges(data1, orcid) && WithOrcid(data1, orcid) == data1;
    } else {
      assert st1.records == st.records;
    }
  }

  /** The successful batches' items, in batch order (the `datatotal.extend` loop). */
  function Fetched(batches: seq<seq<Option<string>>>, search: seq<Option<string>> -> Option<seq<PersonRecord>>): seq<PersonRecord>
    decreases |batches|
  {
    if |batches| == 0 then []
    else Fetched(batches[..|batches| - 1], search) + search(Last(batches)).GetOr([])
  }

  /**
   * fetch_person_data: the uuid column in batches of batchSize, each batch one
   * search; a failed request contributes nothing.
   */
  method FetchPersonData(ids: seq<Option<string>>, batchSize: nat, search: seq<Option<string>> -> Option<seq<PersonRecord>>)
    returns (datatotal: seq<PersonRecord>)
    requires batchSize > 0
    ensures datatotal == Fetched(Chunks(ids, batchSize), search)
    ensures forall p :: p in datatotal ==>
      exists b :: b in Chunks(ids, batchSize) && search(b).Some? && p in search(b).value
  {
    var batches := SplitIntoBatches(ids, batchSize);
    datatotal := [];
    var i := 0;
    while i < |batches|
      invariant 0 <= i <= |batches|
      invariant datatotal == Fetched(batches[..i], search)
      invariant forall p :: p in datatotal ==> exists b :: b in batches && search(b).Some? && p in search(b).value
    {
      assert batches[..i + 1][..i] == batches[..i] && Last(batches[..i + 1]) == batches[i];
      var response := search(batches[i]);
      if response.Some? {
        datatotal := datatotal + response.value;
      }
      i := i + 1;
    }
    assert batches[..i] == batches;
  }
}
