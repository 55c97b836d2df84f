/**
 * The apply pass: a review table (one CSV file) lists the changes earlier
 * scripts staged. Rows whose `to_be_updated` cell holds the marker are sent
 * to Pure; a row whose change went through gets `updated` set to the marker
 * and `to_be_updated` cleared, so running the pass again does not send it
 * again. The saved table has its `updated` column moved to second place.
 */
module ApplyUpdates {
  import opened Common
  import opened Identifiers
  import opened InternalPersons

  /**
   * One row of a review table: the two marker cells and the cells the passes
   * read. `key` is the column a pass looks records up by
   * (`PURE_UUID_PERS`, `Pure_UUID`, `uuid` or `doi`).
   */
  datatype Row = Row(
    toBeUpdated: string,
    updated: string,
    key: string,
    newId: string,
    newValue: string,
    uri: Option<string>)

  /** The marker of the enrichment passes. */
  const UPPER_MARK: string := "X"
  /** The marker of the import passes (research outputs and datasets). */
  const LOWER_MARK: string := "x"
  const UPDATED: string := "updated"
  const STATUS_OK: int := 200

  /** A row whose change went through. */
  function Done(row: Row, mark: string): (r: Row)
    ensures r.updated == mark && r.toBeUpdated == ""
    ensures r.key == row.key && r.newId == row.newId && r.newValue == row.newValue && r.uri == row.uri
  {
    row.(updated := mark, toBeUpdated := "")
  }

  // ---------------------------------------------------------------------
  // The column reorder

  /** Index of the first occurrence of x. */
  function IndexOf(cols: seq<string>, x: string): (i: nat)
    requires x in cols
    ensures i < |cols| && cols[i] == x && x !in cols[..i]
  {
    if cols[0] == x then 0 else
      var i := 1 + IndexOf(cols[1..], x);
      assert cols[..i] == [cols[0]] + cols[1..][..i - 1];
      i
  }

  /** `cols.insert(1, cols.pop(cols.index(name)))` */
  function ReorderColumns(cols: seq<string>, name: string): (r: seq<string>)
    requires name in cols
  {
    var i := IndexOf(cols, name);
    var rest := cols[..i] + cols[i + 1..];
    if |rest| == 0 then [name] else rest[..1] + [name] + rest[1..]
  }

  /**
   * The reorder puts the column second (first when it is the only one) and
   * keeps every other column, in its relative order.
   */
  lemma ReorderColumnsMoves(cols: seq<string>, name: string)
    requires name in cols
    ensures var r := ReorderColumns(cols, name);
      var i := IndexOf(cols, name);
      |r| == |cols| &&
      multiset(r) == multiset(cols) &&
      (|cols| == 1 ==> r == cols) &&
      (|cols| >= 2 ==> r[1] == name && r[..1] + r[2..] == cols[..i] + cols[i + 1..])
  {
    var i := IndexOf(cols, name);
    var rest := cols[..i] + cols[i + 1..];
    RemoveAtMultiset(cols, i);
    if |rest| > 0 {
      InsertSecond(rest, name);
    }
  }

  /** Taking out position i keeps the other elements. */
  lemma RemoveAtMultiset<T>(s: seq<T>, i: nat)
    requires i < |s|
    ensures multiset(s[..i] + s[i + 1..]) + multiset{s[i]} == multiset(s)
  {
    assert s == s[..i] + [s[i]] + s[i + 1..];
  }

  /** Putting x second keeps the other elements in order around it. */
  lemma InsertSecond<T>(rest: seq<T>, x: T)
    requires |rest| > 0
    ensures var r := rest[..1] + [x] + rest[1..];
      |r| == |rest| + 1 && r[1] == x && r[..1] + r[2..] == rest && multiset(r) == multiset(rest) + multiset{x}
  {
    var r := rest[..1] + [x] + rest[1..];
    assert rest == rest[..1] + rest[1..];
    assert r[..1] == rest[..1] && r[2..] == rest[1..];
  }

  // ---------------------------------------------------------------------
  // Internal persons: one PUT per person, several rows per person

  function PendingKey(row: Row): Option<string>
  {
    if row.toBeUpdated == UPPER_MARK then Some(row.key) else None
  }

  /** The groups of `filtered_csv.groupby('PURE_UUID_PERS')`: each pending person once. */
  function PendingKeys(rows: seq<Row>): seq<string>
  {
    Dedupe(FilterMap(rows, PendingKey))
  }

  function InGroup(k: string): Row -> Option<Row>
  {
    (row: Row) => if row.toBeUpdated == UPPER_MARK && row.key == k then Some(row) else None
  }

  /** The rows of group k, in table order. */
  function Group(rows: seq<Row>, k: string): seq<Row>
  {
    FilterMap(rows, InGroup(k))
  }

  /**
   * The identifier a row adds: `{'typeDiscriminator': 'ClassifiedId', 'id': new_value, 'type': {'uri': row.get('uri', '')}}`;
   * an empty `uri` cell is taken as ''.
   */
  function NewIdentifier(row: Row): Identifier
  {
    ClassifiedId(row.newValue, row.uri.GetOr(""), None)
  }

  /** One row applied to the person's record: an ORCID is set, anything else appended. */
  function ApplyRow(entry: PersonRecord, row: Row): PersonRecord
  {
    if row.newId == "orcid" then entry.(orcid := Some(row.newValue))
    else entry.(identifiers := Some(entry.identifiers.GetOr([]) + [NewIdentifier(row)]))
  }

  function ApplyGroup(entry: PersonRecord, group: seq<Row>): PersonRecord
    decreases |group|
  {
    if |group| == 0 then entry else ApplyRow(ApplyGroup(entry, group[..|group| - 1]), Last(group))
  }

  /** The loop over the group's rows, changing the record in place. */
  method UpdateEntry(entry: PersonRecord, group: seq<Row>) returns (e: PersonRecord)
    ensures e == ApplyGroup(entry, group)
  {
    e := entry;
    var i := 0;
    while i < |group|
      invariant 0 <= i <= |group|
      invariant e == ApplyGroup(entry, group[..i])
    {
      assert group[..i + 1][..i] == group[..i] && Last(group[..i + 1]) == group[i];
      var row := group[i];
      if row.newId == "orcid" {
        e := e.(orcid := Some(row.newValue));
      } else {
        var newIdentifier := NewIdentifier(row);
        if e.identifiers.Some? {
          e := e.(identifiers := Some(e.identifiers.value + [newIdentifier]));
        } else {
          assert [] + [newIdentifier] == [newIdentifier];
          e := e.(identifiers := Some([newIdentifier]));
        }
      }
      i := i + 1;
    }
    assert group[..i] == group;
  }

  function IdentifierRow(row: Row): Option<Identifier>
  {
    if row.newId != "orcid" then Some(NewIdentifier(row)) else None
  }

  function OrcidRow(row: Row): Option<string>
  {
    if row.newId == "orcid" then Some(row.newValue) else None
  }

  /**
   * The record sent for a person: every non-ORCID row's identifier appended
   * to the existing ones in row order, the ORCID of the last ORCID row (the
   * old one when there is none), and nothing else touched.
   */
  lemma {:induction false} ApplyGroupEffect(entry: PersonRecord, group: seq<Row>)
    ensures var e := ApplyGroup(entry, group);
      var added := FilterMap(group, IdentifierRow);
      var orcids := FilterMap(group, OrcidRow);
      e.uuid == entry.uuid && e.others == entry.others &&
      e.identifiers == (if entry.identifiers.None? && |added| == 0 then None else Some(entry.identifiers.GetOr([]) + added)) &&
      e.orcid == (if |orcids| == 0 then entry.orcid else Some(Last(orcids)))
    decreases |group|
  {
    if |group| > 0 {
      var front := group[..|group| - 1];
      ApplyGroupEffect(entry, front);
      var row := Last(group);
      var added := FilterMap(front, IdentifierRow);
      var prev := ApplyGroup(entry, front);
      assert prev.identifiers.GetOr([]) == entry.identifiers.GetOr([]) + added by {
        if prev.identifiers.None? {
          assert entry.identifiers.GetOr([]) + added == [] + [];
        }
      }
      assert group[..|group| - 1] == front;
      assert ApplyGroup(entry, group) == ApplyRow(prev, row);
      assert prev.identifiers == (if entry.identifiers.None? && |added| == 0 then None else Some(entry.identifiers.GetOr([]) + added));
      if row.newId != "orcid" {
        assert FilterMap(group, IdentifierRow) == added + [NewIdentifier(row)];
        assert FilterMap(group, OrcidRow) == FilterMap(front, OrcidRow) + [] == FilterMap(front, OrcidRow);
        assert entry.identifiers.GetOr([]) + added + [NewIdentifier(row)] ==
          entry.identifiers.GetOr([]) + (added + [NewIdentifier(row)]);
      } else {
        assert FilterMap(group, IdentifierRow) == added + [] == added;
        assert FilterMap(group, OrcidRow) == FilterMap(front, OrcidRow) + [row.newValue];
      }
    } else {
      assert entry.identifiers.GetOr([]) + [] == entry.identifiers.GetOr([]);
    }
  }

  /** `csv_file.loc[group.index, ...]` after a successful PUT. */
  function MarkGroup(rows: seq<Row>, k: string): (r: seq<Row>)
    ensures |r| == |rows|
  {
    seq(|rows|, i requires 0 <= i < |rows| =>
      if rows[i].toBeUpdated == UPPER_MARK && rows[i].key == k then Done(rows[i], UPPER_MARK) else rows[i])
  }

  /** The table and the PUTs sent (person uuid and record) so far. */
  datatype InternalRun = InternalRun(rows: seq<Row>, puts: seq<(string, PersonRecord)>)

  /**
   * The record sent for person k, if Pure's list has one. Every group reads
   * its own record (the first with that uuid), so in-place changes made for
   * one person never reach another.
   */
  function SentFor(rows0: seq<Row>, records: seq<PersonRecord>, k: string): Option<PersonRecord>
  {
    match FindItemByUuid(records, Some(k))
    case None => None
    case Some(j) => Some(ApplyGroup(records[j], Group(rows0, k)))
  }

  /** The PUT for person k went through (status 200). */
  predicate Succeeds(rows0: seq<Row>, records: seq<PersonRecord>, k: string, put: (string, PersonRecord) -> int)
  {
    var sent := SentFor(rows0, records, k);
    sent.Some? && put(k, sent.value) == STATUS_OK
  }

  function InternalStep(rows0: seq<Row>, records: seq<PersonRecord>, st: InternalRun, k: string,
                        put: (string, PersonRecord) -> int): InternalRun
  {
    var sent := SentFor(rows0, records, k);
    if sent.None? then st
    else InternalRun(if put(k, sent.value) == STATUS_OK then MarkGroup(st.rows, k) else st.rows,
                     st.puts + [(k, sent.value)])
  }

  function InternalRunOf(rows0: seq<Row>, records: seq<PersonRecord>, keys: seq<string>,
                         put: (string, PersonRecord) -> int): InternalRun
    decreases |keys|
  {
    if |keys| == 0 then InternalRun(rows0, [])
    else InternalStep(rows0, records, InternalRunOf(rows0, records, keys[..|keys| - 1], put), Last(keys), put)
  }

  function SentPair(rows0: seq<Row>, records: seq<PersonRecord>): string -> Option<(string, PersonRecord)>
  {
    (k: string) => var s := SentFor(rows0, records, k); if s.Some? then Some((k, s.value)) else None
  }

  /**
   * After the groups in keys: a row is marked done exactly when it was
   * pending and the PUT for its person succeeded; every other row is as it
   * was; one PUT was sent per group whose person Pure's list holds.
   */
  lemma {:induction false} InternalOutcome(rows0: seq<Row>, records: seq<PersonRecord>, keys: seq<string>,
                                           put: (string, PersonRecord) -> int)
    ensures var run := InternalRunOf(rows0, records, keys, put);
      |run.rows| == |rows0| &&
      (forall i :: 0 <= i < |rows0| ==>
        run.rows[i] == if rows0[i].toBeUpdated == UPPER_MARK && rows0[i].key in keys && Succeeds(rows0, records, rows0[i].key, put)
                       then Done(rows0[i], UPPER_MARK) else rows0[i]) &&
      run.puts == FilterMap(keys, SentPair(rows0, records))
    decreases |keys|
  {
    if |keys| > 0 {
      var front := keys[..|keys| - 1];
      var k := Last(keys);
      InternalOutcome(rows0, records, front, put);
      assert keys == front + [k];
      var st := InternalRunOf(rows0, records, front, put);
      forall i | 0 <= i < |rows0|
        ensures InternalRunOf(rows0, records, keys, put).rows[i] ==
          if rows0[i].toBeUpdated == UPPER_MARK && rows0[i].key in keys && Succeeds(rows0, records, rows0[i].key, put)
          then Done(rows0[i], UPPER_MARK) else rows0[i]
      {
        if SentFor(rows0, records, k).Some? && put(k, SentFor(rows0, records, k).value) == STATUS_OK {
          assert MarkGroup(st.rows, k)[i] ==
            if st.rows[i].toBeUpdated == UPPER_MARK && st.rows[i].key == k then Done(st.rows[i], UPPER_MARK) else st.rows[i];
        }
      }
    }
  }

  /** A pending person is sent at most once: the PUTs name distinct persons. */
  lemma OnePutPerPerson(rows0: seq<Row>, records: seq<PersonRecord>, put: (string, PersonRecord) -> int)
    ensures var puts := InternalRunOf(rows0, records, PendingKeys(rows0), put).puts;
      forall a, b :: 0 <= a < b < |puts| ==> puts[a].0 != puts[b].0
  {
    var keys := PendingKeys(rows0);
    var f := SentPair(rows0, records);
    InternalOutcome(rows0, records, keys, put);
    FilterMapSpec(keys, f);
    var puts := FilterMap(keys, f);
    var idx := FilterIndices(keys, f);
    forall a, b | 0 <= a < b < |puts|
      ensures puts[a].0 != puts[b].0
    {
      assert f(keys[idx[a]]) == Some(puts[a]) && f(keys[idx[b]]) == Some(puts[b]);
      assert idx[a] < idx[b];
    }
  }

  lemma PendingKeysMember(rows: seq<Row>, k: string)
    ensures k in PendingKeys(rows) <==> exists i :: 0 <= i < |rows| && rows[i].toBeUpdated == UPPER_MARK && rows[i].key == k
  {
    var ks := FilterMap(rows, PendingKey);
    var idx := FilterIndices(rows, PendingKey);
    FilterMapSpec(rows, PendingKey);
    if k in ks {
      var m :| 0 <= m < |ks| && ks[m] == k;
      assert PendingKey(rows[idx[m]]) == Some(k);
    }
    forall i | 0 <= i < |rows| && rows[i].toBeUpdated == UPPER_MARK && rows[i].key == k
      ensures k in ks
    {
      assert PendingKey(rows[i]).Some?;
      var m :| 0 <= m < |idx| && idx[m] == i;
      assert ks[m] == k;
    }
  }

  /**
   * Re-running the pass: rows that went through are left alone, and the only
   * persons sent again are ones whose first PUT failed or who had no record.
   */
  lemma SecondRunResendsOnlyFailures(rows0: seq<Row>, records: seq<PersonRecord>,
                                     put1: (string, PersonRecord) -> int, put2: (string, PersonRecord) -> int, k: string)
    ensures var rows1 := InternalRunOf(rows0, records, PendingKeys(rows0), put1).rows;
      |rows1| == |rows0| &&
      (k in PendingKeys(rows1) ==> k in PendingKeys(rows0) && !Succeeds(rows0, records, k, put1)) &&
      |InternalRunOf(rows1, records, PendingKeys(rows1), put2).rows| == |rows1| &&
      (forall i :: 0 <= i < |rows0| && rows1[i] != rows0[i] ==>
        InternalRunOf(rows1, records, PendingKeys(rows1), put2).rows[i] == rows1[i])
  {
    var keys0 := PendingKeys(rows0);
    InternalOutcome(rows0, records, keys0, put1);
    var rows1 := InternalRunOf(rows0, records, keys0, put1).rows;
    var keys1 := PendingKeys(rows1);
    InternalOutcome(rows1, records, keys1, put2);
    PendingKeysMember(rows1, k);
    PendingKeysMember(rows0, k);
    forall i | 0 <= i < |rows0| && rows0[i].toBeUpdated == UPPER_MARK
      ensures rows0[i].key in keys0
    {
      PendingKeysMember(rows0, rows0[i].key);
    }
  }

  // ---------------------------------------------------------------------
  // Looking records up

  /** A record of Pure's downloaded list: its `UUID` and `uuid` keys and the rest. */
  datatype PureRecord = PureRecord(upperUuid: Option<string>, uuid: Option<string>, others: seq<(string, string)>)

  function MatchesUuid(target: string): PureRecord -> bool
  {
    (r: PureRecord) => r.upperUuid == Some(target) || r.uuid == Some(target)
  }

  /** `find_json_by_uuid`: the loop returning the first record whose `UUID` or `uuid` is the target. */
  method FindJsonByUuid(pureUuid: string, jsonData: seq<PureRecord>) returns (r: Option<PureRecord>)
    ensures r.Some? <==> exists j :: 0 <= j < |jsonData| && MatchesUuid(pureUuid)(jsonData[j])
    ensures r.Some? ==> exists j :: (0 <= j < |jsonData| && jsonData[j] == r.value && MatchesUuid(pureUuid)(jsonData[j]) &&
      forall m :: 0 <= m < j ==> !MatchesUuid(pureUuid)(jsonData[m]))
    ensures r == (match FindFirst(jsonData, MatchesUuid(pureUuid)) case None => None case Some(j) => Some(jsonData[j]))
  {
    var i := 0;
    while i < |jsonData|
      invariant 0 <= i <= |jsonData|
      invariant forall m :: 0 <= m < i ==> !MatchesUuid(pureUuid)(jsonData[m])
    {
      var record := jsonData[i];
      if record.upperUuid == Some(pureUuid) {
        FindFirstAt(jsonData, MatchesUuid(pureUuid), i);
        return Some(record);
      }
      if record.uuid == Some(pureUuid) {
        FindFirstAt(jsonData, MatchesUuid(pureUuid), i);
        return Some(record);
      }
      i := i + 1;
    }
    return None;
  }

  /** The first match is at i when i matches and nothing before it does. */
  lemma {:induction false} FindFirstAt<T>(s: seq<T>, p: T -> bool, i: nat)
    requires i < |s| && p(s[i]) && forall m :: 0 <= m < i ==> !p(s[m])
    ensures FindFirst(s, p) == Some(i)
  {
  }

  // ---------------------------------------------------------------------
  // External persons and external organisations: one PUT per row

  /** What the PUT gave: a status code, or None when it raised. */
  function ExternalSent(records: seq<PureRecord>): Row -> Option<(string, PureRecord)>
  {
    (row: Row) =>
      if row.toBeUpdated != UPPER_MARK then None
      else match FindFirst(records, MatchesUuid(row.key))
        case None => None
        case Some(j) => Some((row.key, records[j]))
  }

  /** A row after the pass. */
  function ExternalOutcome(row: Row, records: seq<PureRecord>, put: (string, PureRecord) -> Option<int>): Row
  {
    var sent := ExternalSent(records)(row);
    if sent.Some? && put(sent.value.0, sent.value.1) == Some(STATUS_OK) then Done(row, UPPER_MARK) else row
  }

  /**
   * A row is marked done exactly when it was pending, Pure's list has its
   * record and the PUT answered 200.
   */
  lemma ExternalOutcomeCases(row: Row, records: seq<PureRecord>, put: (string, PureRecord) -> Option<int>)
    ensures ExternalOutcome(row, records, put) != row <==>
      row.toBeUpdated == UPPER_MARK &&
      (exists j :: 0 <= j < |records| && MatchesUuid(row.key)(records[j]) &&
        put(row.key, records[FindFirst(records, MatchesUuid(row.key)).value]) == Some(STATUS_OK))
    ensures ExternalOutcome(row, records, put) != row ==> ExternalOutcome(row, records, put) == Done(row, UPPER_MARK)
    ensures ExternalOutcome(ExternalOutcome(row, records, put), records, put) == ExternalOutcome(row, records, put)
  {
    var f := FindFirst(records, MatchesUuid(row.key));
    if row.toBeUpdated == UPPER_MARK && f.Some? && put(row.key, records[f.value]) == Some(STATUS_OK) {
      assert Done(row, UPPER_MARK) != row;
    }
  }

  // ---------------------------------------------------------------------
  // Research outputs and datasets: created whenever the item is found

  /** A research-output item: the `doi` of each of its `electronicVersions` (None when missing). */
  datatype OutputItem = OutputItem(versionDois: seq<Option<string>>, others: seq<(string, string)>)

  function DoiEnding(doi: string): OutputItem -> bool
  {
    (item: OutputItem) => exists v :: v in item.versionDois && EndsWith(v.GetOr(""), doi)
  }

  /** `doi_item`: the first item with a version whose doi ends with the row's doi. */
  function DoiItem(items: seq<OutputItem>, doi: string): Option<OutputItem>
  {
    match FindFirst(items, DoiEnding(doi))
    case None => None
    case Some(j) => Some(items[j])
  }

  /** A dataset prepared for import; `doi` is its `doi.doi`. */
  datatype DatasetItem = DatasetItem(doi: Option<string>, others: seq<(string, string)>)

  /** `doi_to_dataset`: one entry per doi, the last dataset with it winning. */
  function DoiToDataset(datasets: seq<DatasetItem>): Dict<Option<string>, DatasetItem>
    decreases |datasets|
  {
    if |datasets| == 0 then []
    else Put(DoiToDataset(datasets[..|datasets| - 1]), Last(datasets).doi, Last(datasets))
  }

  /** The map finds a doi exactly when some dataset has it, and then the last such dataset. */
  lemma {:induction false} DoiToDatasetLastWins(datasets: seq<DatasetItem>, doi: Option<string>)
    ensures var found := Get(DoiToDataset(datasets), doi);
      (found.Some? <==> exists j :: 0 <= j < |datasets| && datasets[j].doi == doi) &&
      (found.Some? ==> exists j :: (0 <= j < |datasets| && datasets[j] == found.value && datasets[j].doi == doi &&
        forall m :: j < m < |datasets| ==> datasets[m].doi != doi))
    decreases |datasets|
  {
    if |datasets| > 0 {
      var front := datasets[..|datasets| - 1];
      var last := Last(datasets);
      DoiToDatasetLastWins(front, doi);
      assert datasets == front + [last];
      DoiToDatasetStep(front, last, doi);
    }
  }

  lemma DoiToDatasetStep(front: seq<DatasetItem>, last: DatasetItem, doi: Option<string>)
    requires var found := Get(DoiToDataset(front), doi);
      (found.Some? <==> exists j :: 0 <= j < |front| && front[j].doi == doi) &&
      (found.Some? ==> exists j :: (0 <= j < |front| && front[j] == found.value && front[j].doi == doi &&
        forall m :: j < m < |front| ==> front[m].doi != doi))
    ensures var ds := front + [last];
      var found := Get(DoiToDataset(ds), doi);
      (found.Some? <==> exists j :: 0 <= j < |ds| && ds[j].doi == doi) &&
      (found.Some? ==> exists j :: (0 <= j < |ds| && ds[j] == found.value && ds[j].doi == doi &&
        forall m :: j < m < |ds| ==> ds[m].doi != doi))
  {
    var ds := front + [last];
    assert ds[..|ds| - 1] == front && Last(ds) == last;
    PutGet(DoiToDataset(front), last.doi, last, doi);
    if last.doi == doi {
      assert ds[|front|] == last;
    } else {
      forall j | 0 <= j < |ds| && ds[j].doi == doi
        ensures j < |front| && front[j].doi == doi
      {
      }
      if Get(DoiToDataset(front), doi).Some? {
        var j :| 0 <= j < |front| && front[j] == Get(DoiToDataset(front), doi).value && front[j].doi == doi &&
          forall m :: j < m < |front| ==> front[m].doi != doi;
        assert ds[j] == front[j];
      }
    }
  }

  /** The row outcome of the import passes: done whenever the item is found, whatever the create call gives. */
  function ImportOutcome(row: Row, found: Option<string> -> bool): Row
  {
    if row.toBeUpdated == LOWER_MARK && found(Some(row.key)) then Done(row, LOWER_MARK) else row
  }

  /**
   * An import pass marks a row exactly when it was pending with the lower
   * case marker and its item was found; a second run changes nothing.
   */
  lemma ImportOutcomeCases(row: Row, found: Option<string> -> bool)
    ensures ImportOutcome(row, found) != row <==> row.toBeUpdated == LOWER_MARK && found(Some(row.key))
    ensures ImportOutcome(row, found) != row ==> ImportOutcome(row, found) == Done(row, LOWER_MARK)
    ensures ImportOutcome(ImportOutcome(row, found), found) == ImportOutcome(row, found)
  {
    if row.toBeUpdated == LOWER_MARK && found(Some(row.key)) {
      assert Done(row, LOWER_MARK).toBeUpdated != row.toBeUpdated;
    }
  }

  /** A research output is found for a doi exactly when some version's doi ends with it; the first such item is taken. */
  lemma OutputFoundFirst(items: seq<OutputItem>, doi: string)
    ensures DoiItem(items, doi).Some? <==>
      exists j, v :: 0 <= j < |items| && v in items[j].versionDois && EndsWith(v.GetOr(""), doi)
    ensures DoiItem(items, doi).Some? ==> exists j :: (0 <= j < |items| && items[j] == DoiItem(items, doi).value &&
      DoiEnding(doi)(items[j]) && forall m :: 0 <= m < j ==> !DoiEnding(doi)(items[m]))
  {
    var f := FindFirst(items, DoiEnding(doi));
    if f.None? {
      forall j, v | 0 <= j < |items| && v in items[j].versionDois
        ensures !EndsWith(v.GetOr(""), doi)
      {
        assert !DoiEnding(doi)(items[j]);
      }
    } else {
      assert DoiEnding(doi)(items[f.value]);
    }
  }

  /** The item handed to the create call for a row, if any. */
  function OutputCreated(items: seq<OutputItem>): Row -> Option<OutputItem>
  {
    (row: Row) => if row.toBeUpdated == LOWER_MARK then DoiItem(items, row.key) else None
  }

  function DatasetCreated(datasets: seq<DatasetItem>): Row -> Option<DatasetItem>
  {
    (row: Row) => if row.toBeUpdated == LOWER_MARK then Get(DoiToDataset(datasets), Some(row.key)) else None
  }

  function OutputFound(items: seq<OutputItem>): Option<string> -> bool
  {
    (doi: Option<string>) => doi.Some? && DoiItem(items, doi.value).Some?
  }

  function DatasetFound(datasets: seq<DatasetItem>): Option<string> -> bool
  {
    (doi: Option<string>) => Get(DoiToDataset(datasets), doi).Some?
  }

  // ---------------------------------------------------------------------
  // The review table

  class ReviewTable {
    var columns: seq<string>
    var rows: seq<Row>

    constructor (columns: seq<string>, rows: seq<Row>)
      ensures this.columns == columns && this.rows == rows
    {
      this.columns := columns;
      this.rows := rows;
    }

    /** `csv_file.loc[group.index, ...]` for one successful group. */
    method MarkGroupRows(k: string)
      modifies this
      ensures rows == MarkGroup(old(rows), k) && columns == old(columns)
    {
      var i := 0;
      while i < |rows|
        invariant 0 <= i <= |rows| && |rows| == |old(rows)|
        invariant forall j :: 0 <= j < i ==> rows[j] == MarkGroup(old(rows), k)[j]
        invariant forall j :: i <= j < |rows| ==> rows[j] == old(rows)[j]
        invariant columns == old(columns)
      {
        if rows[i].toBeUpdated == UPPER_MARK && rows[i].key == k {
          rows := rows[i := Done(rows[i], UPPER_MARK)];
        }
        i := i + 1;
      }
    }

    /** One group of `process_internal_persons`. */
    method ProcessGroup(rows0: seq<Row>, records: seq<PersonRecord>, k: string,
                        put: (string, PersonRecord) -> int, puts: seq<(string, PersonRecord)>)
      returns (puts': seq<(string, PersonRecord)>)
      modifies this
      ensures InternalRun(rows, puts') == InternalStep(rows0, records, InternalRun(old(rows), puts), k, put)
      ensures columns == old(columns)
    {
      puts' := puts;
      var found := FindItemByUuid(records, Some(k));
      if found.Some? {
        var entry := UpdateEntry(records[found.value], Group(rows0, k));
        puts' := puts + [(k, entry)];
        if put(k, entry) == STATUS_OK {
          MarkGroupRows(k);
        }
      }
    }

    /** `process_internal_persons` */
    method ProcessInternalPersons(records: seq<PersonRecord>, put: (string, PersonRecord) -> int)
      returns (puts: seq<(string, PersonRecord)>)
      requires UPDATED in columns
      modifies this
      ensures InternalRun(rows, puts) == InternalRunOf(old(rows), records, PendingKeys(old(rows)), put)
      ensures columns == ReorderColumns(old(columns), UPDATED)
    {
      var rows0 := rows;
      var keys := PendingKeys(rows0);
      puts := [];
      var g := 0;
      while g < |keys|
        invariant 0 <= g <= |keys| && columns == old(columns)
        invariant InternalRun(rows, puts) == InternalRunOf(rows0, records, keys[..g], put)
      {
        assert keys[..g + 1][..g] == keys[..g] && Last(keys[..g + 1]) == keys[g];
        puts := ProcessGroup(rows0, records, keys[g], put, puts);
        g := g + 1;
      }
      assert keys[..g] == keys;
      columns := ReorderColumns(columns, UPDATED);
    }

    /** The body of the loop over the filtered rows, for row i. */
    method ExternalRow(i: nat, records: seq<PureRecord>, put: (string, PureRecord) -> Option<int>,
                       puts: seq<(string, PureRecord)>)
      returns (puts': seq<(string, PureRecord)>)
      requires i < |rows|
      modifies this
      ensures rows == old(rows)[i := ExternalOutcome(old(rows)[i], records, put)] && columns == old(columns)
      ensures var sent := ExternalSent(records)(old(rows)[i]);
        puts' == puts + (if sent.Some? then [sent.value] else [])
    {
      puts' := puts;
      var row := rows[i];
      if row.toBeUpdated == UPPER_MARK {
        var matched := FindJsonByUuid(row.key, records);
        if matched.Some? {
          puts' := puts + [(row.key, matched.value)];
          var status := put(row.key, matched.value);
          if status == Some(STATUS_OK) {
            rows := rows[i := Done(row, UPPER_MARK)];
          }
        }
      }
    }

    /**
     * `process_external_persons` and `process_external_orgs`: each pending
     * row's record is PUT on its own; `put` gives the status code or None
     * when the request raised.
     */
    method ProcessExternalRecords(records: seq<PureRecord>, put: (string, PureRecord) -> Option<int>)
      returns (puts: seq<(string, PureRecord)>)
      requires UPDATED in columns
      modifies this
      ensures |rows| == |old(rows)| && forall i :: 0 <= i < |rows| ==> rows[i] == ExternalOutcome(old(rows)[i], records, put)
      ensures puts == FilterMap(old(rows), ExternalSent(records))
      ensures columns == ReorderColumns(old(columns), UPDATED)
    {
      puts := [];
      var i := 0;
      while i < |rows|
        invariant 0 <= i <= |rows| && |rows| == |old(rows)| && columns == old(columns)
        invariant forall j :: 0 <= j < i ==> rows[j] == ExternalOutcome(old(rows)[j], records, put)
        invariant forall j :: i <= j < |rows| ==> rows[j] == old(rows)[j]
        invariant puts == FilterMap(old(rows)[..i], ExternalSent(records))
      {
        FilterMapSnoc(old(rows), i, ExternalSent(records));
        puts := ExternalRow(i, records, put, puts);
        i := i + 1;
      }
      assert old(rows)[..i] == old(rows);
      columns := ReorderColumns(columns, UPDATED);
    }

    /** The body of the research-output loop, for row i. */
    method OutputRow(i: nat, items: seq<OutputItem>, created: seq<OutputItem>) returns (created': seq<OutputItem>)
      requires i < |rows|
      modifies this
      ensures rows == old(rows)[i := ImportOutcome(old(rows)[i], OutputFound(items))] && columns == old(columns)
      ensures var c := OutputCreated(items)(old(rows)[i]);
        created' == created + (if c.Some? then [c.value] else [])
      ensures forall c :: c in created' ==> c in created || c in items
    {
      created' := created;
      var row := rows[i];
      if row.toBeUpdated == LOWER_MARK {
        var doiItem := DoiItem(items, row.key);
        if doiItem.Some? {
          created' := created + [doiItem.value];
          rows := rows[i := Done(row, LOWER_MARK)];
        }
      }
    }

    /** `process_research_output`: `created` lists the items handed to the create call. */
    method ProcessResearchOutput(items: seq<OutputItem>) returns (created: seq<OutputItem>)
      requires UPDATED in columns
      modifies this
      ensures |rows| == |old(rows)| && forall i :: 0 <= i < |rows| ==> rows[i] == ImportOutcome(old(rows)[i], OutputFound(items))
      ensures created == FilterMap(old(rows), OutputCreated(items))
      ensures |created| <= |old(rows)|
      ensures forall c :: c in created ==> c in items
      ensures columns == ReorderColumns(old(columns), UPDATED)
    {
      created := [];
      var i := 0;
      while i < |rows|
        invariant 0 <= i <= |rows| && |rows| == |old(rows)| && columns == old(columns)
        invariant forall j :: 0 <= j < i ==> rows[j] == ImportOutcome(old(rows)[j], OutputFound(items))
        invariant forall j :: i <= j < |rows| ==> rows[j] == old(rows)[j]
        invariant |created| <= i && forall c :: c in created ==> c in items
        invariant created == FilterMap(old(rows)[..i], OutputCreated(items))
      {
        FilterMapSnoc(old(rows), i, OutputCreated(items));
        created := OutputRow(i, items, created);
        i := i + 1;
      }
      assert old(rows)[..i] == old(rows);
      columns := ReorderColumns(columns, UPDATED);
    }

    /** The body of the dataset loop, for row i, with the map built before the loop. */
    method DatasetRow(i: nat, datasets: seq<DatasetItem>, doiToDataset: Dict<Option<string>, DatasetItem>,
                      created: seq<DatasetItem>) returns (created': seq<DatasetItem>)
      requires i < |rows| && doiToDataset == DoiToDataset(datasets)
      modifies this
      ensures rows == old(rows)[i := ImportOutcome(old(rows)[i], DatasetFound(datasets))] && columns == old(columns)
      ensures var c := DatasetCreated(datasets)(old(rows)[i]);
        created' == created + (if c.Some? then [c.value] else [])
      ensures forall c :: c in created' ==> c in created || c in datasets
    {
      created' := created;
      var row := rows[i];
      if row.toBeUpdated == LOWER_MARK {
        var dataset := Get(doiToDataset, Some(row.key));
        if dataset.Some? {
          DoiToDatasetLastWins(datasets, Some(row.key));
          created' := created + [dataset.value];
          rows := rows[i := Done(row, LOWER_MARK)];
        }
      }
    }

    /** `process_datasets`: `created` lists the datasets handed to the create call. */
    method ProcessDatasets(datasets: seq<DatasetItem>) returns (created: seq<DatasetItem>)
      requires UPDATED in columns
      modifies this
      ensures |rows| == |old(rows)| && forall i :: 0 <= i < |rows| ==> rows[i] == ImportOutcome(old(rows)[i], DatasetFound(datasets))
      ensures created == FilterMap(old(rows), DatasetCreated(datasets))
      ensures |created| <= |old(rows)|
      ensures forall c :: c in created ==> c in datasets
      ensures columns == ReorderColumns(old(columns), UPDATED)
    {
      var doiToDataset := DoiToDataset(datasets);
      created := [];
      var i := 0;
      while i < |rows|
        invariant 0 <= i <= |rows| && |rows| == |old(rows)| && columns == old(columns)
        invariant forall j :: 0 <= j < i ==> rows[j] == ImportOutcome(old(rows)[j], DatasetFound(datasets))
        invariant forall j :: i <= j < |rows| ==> rows[j] == old(rows)[j]
        invariant |created| <= i && forall c :: c in created ==> c in datasets
        invariant created == FilterMap(old(rows)[..i], DatasetCreated(datasets))
      {
        FilterMapSnoc(old(rows), i, DatasetCreated(datasets));
        created := DatasetRow(i, datasets, doiToDataset, created);
        i := i + 1;
      }
      assert old(rows)[..i] == old(rows);
      columns := ReorderColumns(columns, UPDATED);
    }
  }
}
