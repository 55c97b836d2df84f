/**
 * Finding external organisations in Pure that share one ROR: read RORs from a
 * CSV file, look them up in batches, pair every organisation uuid with each
 * of its ROR identifiers, group the uuids per ROR and keep the RORs that more
 * than one organisation carries (the candidates for merging).
 */
module MergeOrgs {
  import opened Common

  // ---------------------------------------------------------------------
  // Records returned by the external-organisation search

  /** `identifier['type']['term']`, reduced to its English text (`.get('en_GB')`). */
  datatype IdType = IdType(termEn: Option<string>)

  /** One classified identifier; `kind` is `identifier.get('type')`. */
  datatype OrgIdentifier = OrgIdentifier(id: string, kind: Option<IdType>)

  datatype OrgEntry = OrgEntry(uuid: Option<string>, identifiers: seq<OrgIdentifier>)

  /** One row of the extracted result: `{"uuid": uuid, "ror": ror_id}`. */
  datatype Pair = Pair(uuid: string, ror: string)

  const ROR_TERM: string := "ROR ID"
  const BATCH_SIZE: nat := 20

  // ---------------------------------------------------------------------
  // Reading the CSV file

  /** The second column of a row that has one. */
  function SecondColumn(row: seq<string>): Option<string>
  {
    if |row| > 1 then Some(row[1]) else None
  }

  /** The loop collecting `row[1]` of every row with more than one column. */
  method ReadRors(rows: seq<seq<string>>) returns (rors: seq<string>)
    ensures rors == FilterMap(rows, SecondColumn)
  {
    rors := [];
    var i := 0;
    while i < |rows|
      invariant 0 <= i <= |rows|
      invariant rors == FilterMap(rows[..i], SecondColumn)
    {
      FilterMapSnoc(rows, i, SecondColumn);
      if |rows[i]| > 1 {
        rors := rors + [rows[i][1]];
      }
      i := i + 1;
    }
    assert rows[..i] == rows;
  }

  /**
   * The RORs read are the second cells of exactly the rows with at least two
   * cells, in file order.
   */
  lemma ReadRorsExact(rows: seq<seq<string>>)
    ensures var rors := FilterMap(rows, SecondColumn);
      var idx := FilterIndices(rows, SecondColumn);
      |rors| == |idx| &&
      (forall k :: 0 <= k < |idx| ==> 0 <= idx[k] < |rows| && |rows[idx[k]]| > 1 && rors[k] == rows[idx[k]][1]) &&
      (forall k, l :: 0 <= k < l < |idx| ==> idx[k] < idx[l]) &&
      (forall i :: 0 <= i < |rows| ==> (|rows[i]| > 1 <==> i in idx))
  {
    FilterMapSpec(rows, SecondColumn);
  }

  // ---------------------------------------------------------------------
  // Fetching in batches

  /**
   * The search for one batch: the RORs joined by "|" as the search string.
   * `None` is a failed request (a RequestException), which the loop logs and
   * skips; `Some(items)` is the response's `items`.
   */
  function BatchQuery(search: string -> Option<seq<OrgEntry>>): seq<string> -> Option<seq<OrgEntry>>
  {
    (batch: seq<string>) => search(Join(batch, "|"))
  }

  /** What `fetch_org_data` returns: the items of every answered batch, in batch order. */
  function Fetched(rors: seq<string>, batchSize: nat, search: string -> Option<seq<OrgEntry>>): seq<OrgEntry>
    requires batchSize > 0
  {
    Flatten(FilterMap(Chunks(rors, batchSize), BatchQuery(search)))
  }

  method FetchOrgData(rors: seq<string>, batchSize: nat, search: string -> Option<seq<OrgEntry>>)
    returns (datatotal: seq<OrgEntry>)
    requires batchSize > 0
    ensures datatotal == Fetched(rors, batchSize, search)
  {
    datatotal := [];
    ghost var done: seq<seq<string>> := [];
    var offset := 0;
    while offset < |rors|
      invariant offset <= |rors|
      invariant done + Chunks(rors[offset..], batchSize) == Chunks(rors, batchSize)
      invariant datatotal == Flatten(FilterMap(done, BatchQuery(search)))
      decreases |rors| - offset
    {
      var end := if offset + batchSize < |rors| then offset + batchSize else |rors|;
      var batch := rors[offset..end];
      ChunksFrom(rors, offset, batchSize);
      datatotal := FetchBatch(datatotal, done, batch, search);
      assert (done + [batch]) + Chunks(rors[end..], batchSize) == done + ([batch] + Chunks(rors[end..], batchSize));
      done := done + [batch];
      offset := end;
    }
    assert Chunks(rors[offset..], batchSize) == [];
    assert done == Chunks(rors, batchSize);
  }

  /** One turn of the loop: the batch's request, and its items added when it was answered. */
  method FetchBatch(datatotal: seq<OrgEntry>, ghost done: seq<seq<string>>, batch: seq<string>,
                    search: string -> Option<seq<OrgEntry>>) returns (datatotal': seq<OrgEntry>)
    requires datatotal == Flatten(FilterMap(done, BatchQuery(search)))
    ensures datatotal' == Flatten(FilterMap(done + [batch], BatchQuery(search)))
  {
    FetchedSnoc(done, batch, search);
    datatotal' := datatotal;
    var answer := search(Join(batch, "|"));
    if answer.Some? {
      datatotal' := datatotal + answer.value;
    }
  }

  /** One more batch adds its answer's items, or nothing when its request failed. */
  lemma FetchedSnoc(done: seq<seq<string>>, batch: seq<string>, search: string -> Option<seq<OrgEntry>>)
    ensures var answer := search(Join(batch, "|"));
      Flatten(FilterMap(done + [batch], BatchQuery(search))) ==
      Flatten(FilterMap(done, BatchQuery(search))) + (if answer.Some? then answer.value else [])
  {
    var answer := search(Join(batch, "|"));
    var tail := if answer.Some? then [answer.value] else [];
    assert (done + [batch])[..|done|] == done;
    assert FilterMap(done + [batch], BatchQuery(search)) == FilterMap(done, BatchQuery(search)) + tail;
    FlattenAppend(FilterMap(done, BatchQuery(search)), tail);
    if answer.Some? {
      assert Flatten(tail) == answer.value + Flatten(tail[1..]);
    }
  }

  /**
   * Batch k is the slice of the RORs starting at offset k * batchSize, and an
   * entry is fetched exactly when some answered batch returned it.
   */
  lemma FetchedFrom(rors: seq<string>, batchSize: nat, search: string -> Option<seq<OrgEntry>>, x: OrgEntry)
    requires batchSize > 0
    ensures forall k :: 0 <= k < |Chunks(rors, batchSize)| ==>
      k * batchSize < |rors| &&
      Chunks(rors, batchSize)[k] == rors[k * batchSize .. if k * batchSize + batchSize < |rors| then k * batchSize + batchSize else |rors|]
    ensures x in Fetched(rors, batchSize, search) <==>
      exists k :: 0 <= k < |Chunks(rors, batchSize)| &&
        var answer := search(Join(Chunks(rors, batchSize)[k], "|"));
        answer.Some? && x in answer.value
  {
    FetchedBatches(rors, batchSize);
    FetchedMember(rors, batchSize, search, x);
  }

  lemma FetchedBatches(rors: seq<string>, batchSize: nat)
    requires batchSize > 0
    ensures forall k :: 0 <= k < |Chunks(rors, batchSize)| ==>
      k * batchSize < |rors| &&
      Chunks(rors, batchSize)[k] == rors[k * batchSize .. if k * batchSize + batchSize < |rors| then k * batchSize + batchSize else |rors|]
  {
    forall k | 0 <= k < |Chunks(rors, batchSize)|
      ensures k * batchSize < |rors| &&
        Chunks(rors, batchSize)[k] == rors[k * batchSize .. if k * batchSize + batchSize < |rors| then k * batchSize + batchSize else |rors|]
    {
      ChunksAt(rors, batchSize, k);
    }
  }

  /** The batch's request was answered and its items hold the entry. */
  predicate AnsweredWith(batch: seq<string>, search: string -> Option<seq<OrgEntry>>, x: OrgEntry)
  {
    var answer := search(Join(batch, "|"));
    answer.Some? && x in answer.value
  }

  lemma FetchedMember(rors: seq<string>, batchSize: nat, search: string -> Option<seq<OrgEntry>>, x: OrgEntry)
    requires batchSize > 0
    ensures x in Fetched(rors, batchSize, search) ==>
      exists k :: 0 <= k < |Chunks(rors, batchSize)| && AnsweredWith(Chunks(rors, batchSize)[k], search, x)
    ensures (exists k :: 0 <= k < |Chunks(rors, batchSize)| && AnsweredWith(Chunks(rors, batchSize)[k], search, x)) ==>
      x in Fetched(rors, batchSize, search)
  {
    var batches := Chunks(rors, batchSize);
    assert Fetched(rors, batchSize, search) == Flatten(FilterMap(batches, BatchQuery(search)));
    if x in Fetched(rors, batchSize, search) {
      var k := FetchedFromBatch(batches, search, x);
      assert 0 <= k < |batches| && AnsweredWith(batches[k], search, x);
    }
    forall k | 0 <= k < |batches| && AnsweredWith(batches[k], search, x)
      ensures x in Fetched(rors, batchSize, search)
    {
      BatchIsFetched(batches, search, x, k);
    }
  }

  lemma FetchedFromBatch(batches: seq<seq<string>>, search: string -> Option<seq<OrgEntry>>, x: OrgEntry) returns (k: nat)
    requires x in Flatten(FilterMap(batches, BatchQuery(search)))
    ensures k < |batches| && AnsweredWith(batches[k], search, x)
  {
    var f := BatchQuery(search);
    var answers := FilterMap(batches, f);
    FilterMapSpec(batches, f);
    FlattenMember(answers, x);
    var i :| 0 <= i < |answers| && x in answers[i];
    k := FilterIndices(batches, f)[i];
    assert f(batches[k]) == Some(answers[i]);
  }

  lemma BatchIsFetched(batches: seq<seq<string>>, search: string -> Option<seq<OrgEntry>>, x: OrgEntry, k: nat)
    requires k < |batches| && AnsweredWith(batches[k], search, x)
    ensures x in Flatten(FilterMap(batches, BatchQuery(search)))
  {
    var f := BatchQuery(search);
    var answers := FilterMap(batches, f);
    FilterMapSpec(batches, f);
    var idx := FilterIndices(batches, f);
    assert f(batches[k]).Some?;
    var i :| 0 <= i < |idx| && idx[i] == k;
    assert answers[i] == search(Join(batches[k], "|")).value;
    FlattenMember(answers, x);
  }

  // ---------------------------------------------------------------------
  // Pairing uuids with RORs

  predicate IsRorIdentifier(i: OrgIdentifier)
  {
    i.kind.Some? && i.kind.value.termEn == Some(ROR_TERM)
  }

  function RorIdOf(i: OrgIdentifier): Option<string>
  {
    if IsRorIdentifier(i) then Some(i.id) else None
  }

  /** `ror_ids`: the ids of an entry's ROR identifiers, in order. */
  function RorIds(e: OrgEntry): seq<string>
  {
    FilterMap(e.identifiers, RorIdOf)
  }

  /** The pairs one entry contributes: none unless it has a uuid. */
  function EntryPairs(e: OrgEntry): seq<Pair>
  {
    if Truthy(e.uuid) then seq(|RorIds(e)|, k requires 0 <= k < |RorIds(e)| => Pair(e.uuid.value, RorIds(e)[k]))
    else []
  }

  function Pairs(entries: seq<OrgEntry>): seq<Pair>
    decreases |entries|
  {
    if |entries| == 0 then []
    else Pairs(entries[..|entries| - 1]) + EntryPairs(Last(entries))
  }

  lemma RorIdsMember(e: OrgEntry, r: string)
    ensures r in RorIds(e) <==> exists j :: 0 <= j < |e.identifiers| && IsRorIdentifier(e.identifiers[j]) && e.identifiers[j].id == r
  {
    var ids := e.identifiers;
    FilterMapSpec(ids, RorIdOf);
    var idx := FilterIndices(ids, RorIdOf);
    if r in RorIds(e) {
      var k :| 0 <= k < |RorIds(e)| && RorIds(e)[k] == r;
      assert RorIdOf(ids[idx[k]]) == Some(r);
    }
    forall j | 0 <= j < |ids| && IsRorIdentifier(ids[j]) && ids[j].id == r
      ensures r in RorIds(e)
    {
      assert RorIdOf(ids[j]).Some?;
      var k :| 0 <= k < |idx| && idx[k] == j;
      assert RorIds(e)[k] == r;
    }
  }

  /**
   * A pair is extracted exactly when some entry has that (non-empty) uuid and
   * an identifier typed "ROR ID" with that id.
   */
  lemma {:induction false} PairsMember(entries: seq<OrgEntry>, u: string, r: string)
    ensures Pair(u, r) in Pairs(entries) <==>
      exists k :: 0 <= k < |entries| && entries[k].uuid == Some(u) && u != "" && r in RorIds(entries[k])
    decreases |entries|
  {
    if |entries| > 0 {
      var front := entries[..|entries| - 1];
      var e := Last(entries);
      PairsMember(front, u, r);
      assert Pair(u, r) in EntryPairs(e) <==> e.uuid == Some(u) && u != "" && r in RorIds(e) by {
        if Pair(u, r) in EntryPairs(e) {
          var k :| 0 <= k < |EntryPairs(e)| && EntryPairs(e)[k] == Pair(u, r);
        }
        if e.uuid == Some(u) && u != "" && r in RorIds(e) {
          var k :| 0 <= k < |RorIds(e)| && RorIds(e)[k] == r;
          assert EntryPairs(e)[k] == Pair(u, r);
        }
      }
      assert forall k :: 0 <= k < |front| ==> front[k] == entries[k];
    }
  }

  /** The loop over `datatotal` building `result`. */
  method ExtractPairs(datatotal: seq<OrgEntry>) returns (result: seq<Pair>)
    ensures result == Pairs(datatotal)
  {
    result := [];
    var i := 0;
    while i < |datatotal|
      invariant 0 <= i <= |datatotal|
      invariant result == Pairs(datatotal[..i])
    {
      var entry := datatotal[i];
      var rorIds := RorIds(entry);
      assert datatotal[..i + 1][..i] == datatotal[..i] && Last(datatotal[..i + 1]) == entry;
      if Truthy(entry.uuid) && |rorIds| > 0 {
        var uuid := entry.uuid.value;
        var j := 0;
        ghost var base := result;
        while j < |rorIds|
          invariant 0 <= j <= |rorIds|
          invariant result == base + EntryPairs(entry)[..j]
        {
          assert EntryPairs(entry)[..j + 1] == EntryPairs(entry)[..j] + [Pair(uuid, rorIds[j])];
          result := result + [Pair(uuid, rorIds[j])];
          j := j + 1;
        }
        assert EntryPairs(entry)[..j] == EntryPairs(entry);
      }
      i := i + 1;
    }
    assert datatotal[..i] == datatotal;
  }

  // ---------------------------------------------------------------------
  // Clustering uuids by ROR

  /** The RORs of the pairs, in order. */
  function RorsOf(pairs: seq<Pair>): (r: seq<string>)
    ensures |r| == |pairs| && forall i :: 0 <= i < |pairs| ==> r[i] == pairs[i].ror
  {
    seq(|pairs|, i requires 0 <= i < |pairs| => pairs[i].ror)
  }

  /** The uuid of a pair with ROR r. */
  function UuidIfRor(r: string): Pair -> Option<string>
  {
    (p: Pair) => if p.ror == r then Some(p.uuid) else None
  }

  /** Every uuid paired with r, repeats included. */
  function UuidsFor(pairs: seq<Pair>, r: string): seq<string>
  {
    FilterMap(pairs, UuidIfRor(r))
  }

  /** One iteration: make sure the ROR has a set, then add the uuid to it. */
  function AddPair(d: Dict<string, seq<string>>, p: Pair): Dict<string, seq<string>>
  {
    var cur := Get(d, p.ror).GetOr([]);
    Put(d, p.ror, if p.uuid in cur then cur else cur + [p.uuid])
  }

  lemma AddPairKeys(d: Dict<string, seq<string>>, p: Pair)
    ensures Keys(AddPair(d, p)) == if p.ror in Keys(d) then Keys(d) else Keys(d) + [p.ror]
  {
  }

  lemma AddPairDistinct(d: Dict<string, seq<string>>, p: Pair)
    requires DistinctKeys(d)
    ensures DistinctKeys(AddPair(d, p))
  {
    var cur := Get(d, p.ror).GetOr([]);
    PutDistinct(d, p.ror, if p.uuid in cur then cur else cur + [p.uuid]);
  }

  lemma AddPairGet(d: Dict<string, seq<string>>, p: Pair, r: string)
    ensures Get(AddPair(d, p), r) ==
      if r == p.ror then
        var cur := Get(d, r).GetOr([]);
        Some(if p.uuid in cur then cur else cur + [p.uuid])
      else Get(d, r)
  {
    var cur := Get(d, p.ror).GetOr([]);
    PutGet(d, p.ror, if p.uuid in cur then cur else cur + [p.uuid], r);
  }

  /** `clustered_result` after the loop over the pairs. */
  function Cluster(pairs: seq<Pair>): Dict<string, seq<string>>
    decreases |pairs|
  {
    if |pairs| == 0 then [] else AddPair(Cluster(pairs[..|pairs| - 1]), Last(pairs))
  }

  /** The body of the loop: `setdefault(ror, set())`, then `add(uuid)`. */
  method AddPairTo(clustered: Dict<string, seq<string>>, p: Pair) returns (r: Dict<string, seq<string>>)
    ensures r == AddPair(clustered, p)
  {
    var ror := p.ror;
    var uuid := p.uuid;
    r := clustered;
    if ror !in Keys(r) {
      r := Put(r, ror, []);
      PutGet(clustered, ror, [], ror);
    }
    var cur := Get(r, ror).value;
    assert cur == Get(clustered, ror).GetOr([]);
    var next := if uuid in cur then cur else cur + [uuid];
    if ror !in Keys(clustered) {
      PutPut(clustered, ror, [], next);
    }
    r := Put(r, ror, next);
  }

  method ClusterByRor(result: seq<Pair>) returns (clustered: Dict<string, seq<string>>)
    ensures clustered == Cluster(result)
  {
    clustered := [];
    var i := 0;
    while i < |result|
      invariant 0 <= i <= |result|
      invariant clustered == Cluster(result[..i])
    {
      assert result[..i + 1][..i] == result[..i] && Last(result[..i + 1]) == result[i];
      clustered := AddPairTo(clustered, result[i]);
      i := i + 1;
    }
    assert result[..i] == result;
  }

  lemma UuidsForMember(pairs: seq<Pair>, r: string, u: string)
    ensures u in UuidsFor(pairs, r) <==> Pair(u, r) in pairs
  {
    var f := UuidIfRor(r);
    FilterMapSpec(pairs, f);
    var idx := FilterIndices(pairs, f);
    if u in UuidsFor(pairs, r) {
      var k :| 0 <= k < |idx| && UuidsFor(pairs, r)[k] == u;
      assert f(pairs[idx[k]]) == Some(u);
      assert pairs[idx[k]] == Pair(u, r);
    }
    if Pair(u, r) in pairs {
      var i :| 0 <= i < |pairs| && pairs[i] == Pair(u, r);
      assert f(pairs[i]).Some?;
      var k :| 0 <= k < |idx| && idx[k] == i;
      assert UuidsFor(pairs, r)[k] == u;
    }
  }

  /** The clustered dict has one key per distinct ROR, in order of first appearance. */
  lemma {:induction false} ClusterKeys(pairs: seq<Pair>)
    ensures Keys(Cluster(pairs)) == Dedupe(RorsOf(pairs))
    decreases |pairs|
  {
    if |pairs| > 0 {
      var front := pairs[..|pairs| - 1];
      var p := Last(pairs);
      ClusterKeys(front);
      assert Cluster(pairs) == AddPair(Cluster(front), p);
      RorsOfSnoc(pairs);
      ClusterKeysStep(Cluster(front), RorsOf(front), p);
    }
  }

  lemma RorsOfSnoc(pairs: seq<Pair>)
    requires |pairs| > 0
    ensures RorsOf(pairs) == RorsOf(pairs[..|pairs| - 1]) + [Last(pairs).ror]
  {
  }

  lemma ClusterKeysStep(d: Dict<string, seq<string>>, rors: seq<string>, p: Pair)
    requires Keys(d) == Dedupe(rors)
    ensures Keys(AddPair(d, p)) == Dedupe(rors + [p.ror])
  {
    AddPairKeys(d, p);
    DedupeSnoc(rors, p.ror);
  }

  lemma {:induction false} ClusterDistinct(pairs: seq<Pair>)
    ensures DistinctKeys(Cluster(pairs))
    decreases |pairs|
  {
    if |pairs| > 0 {
      var front := pairs[..|pairs| - 1];
      ClusterDistinct(front);
      AddPairDistinct(Cluster(front), Last(pairs));
    }
  }

  lemma UuidsForSnoc(pairs: seq<Pair>, r: string)
    requires |pairs| > 0
    ensures UuidsFor(pairs, r) ==
      UuidsFor(pairs[..|pairs| - 1], r) + (if Last(pairs).ror == r then [Last(pairs).uuid] else [])
  {
  }

  lemma ClusterGetStep(d: Dict<string, seq<string>>, us: seq<string>, p: Pair, r: string)
    requires Get(d, r) == if |us| == 0 then None else Some(Dedupe(us))
    ensures var us' := us + (if p.ror == r then [p.uuid] else []);
      Get(AddPair(d, p), r) == if |us'| == 0 then None else Some(Dedupe(us'))
  {
    AddPairGet(d, p, r);
    if p.ror == r {
      DedupeSnoc(us, p.uuid);
    } else {
      assert us + [] == us;
    }
  }

  /**
   * The set under each ROR holds exactly the distinct uuids paired with it
   * (in order of first appearance); a ROR no pair mentions has no set.
   */
  lemma {:induction false} ClusterGet(pairs: seq<Pair>, r: string)
    ensures Get(Cluster(pairs), r) ==
      if |UuidsFor(pairs, r)| == 0 then None else Some(Dedupe(UuidsFor(pairs, r)))
    decreases |pairs|
  {
    if |pairs| > 0 {
      var front := pairs[..|pairs| - 1];
      var p := Last(pairs);
      ClusterGet(front, r);
      assert Cluster(pairs) == AddPair(Cluster(front), p);
      UuidsForSnoc(pairs, r);
      ClusterGetStep(Cluster(front), UuidsFor(front, r), p, r);
    }
  }

  // ---------------------------------------------------------------------
  // Keeping the shared RORs

  function SharedEntry(e: (string, seq<string>)): Option<(string, seq<string>)>
  {
    if |e.1| > 1 then Some(e) else None
  }

  /** `{ror: list(uuids) for ror, uuids in clustered_result.items() if len(uuids) > 1}` */
  function KeepShared(clustered: Dict<string, seq<string>>): Dict<string, seq<string>>
  {
    FilterMap(clustered, SharedEntry)
  }

  /** The filter keeps a ROR's set exactly when it has more than one uuid, and drops nothing else. */
  lemma {:induction false} KeepSharedGet(clustered: Dict<string, seq<string>>, r: string)
    requires DistinctKeys(clustered)
    ensures Get(KeepShared(clustered), r) ==
      if Get(clustered, r).Some? && |Get(clustered, r).value| > 1 then Get(clustered, r) else None
    decreases |clustered|
  {
    if |clustered| > 0 {
      var front := clustered[..|clustered| - 1];
      var e := Last(clustered);
      assert clustered == front + [e];
      assert DistinctKeys(front) by {
        forall i, j | 0 <= i < j < |front|
          ensures front[i].0 != front[j].0
        {
          assert front[i] == clustered[i] && front[j] == clustered[j];
        }
      }
      forall i | 0 <= i < |front|
        ensures Keys(front)[i] != e.0
      {
        assert front[i] == clustered[i];
      }
      KeepSharedGet(front, r);
      KeepSharedStep(front, e, r);
    }
  }

  lemma KeepSharedStep(front: Dict<string, seq<string>>, e: (string, seq<string>), r: string)
    requires e.0 !in Keys(front)
    requires Get(KeepShared(front), r) ==
      if Get(front, r).Some? && |Get(front, r).value| > 1 then Get(front, r) else None
    ensures var c := front + [e];
      Get(KeepShared(c), r) == if Get(c, r).Some? && |Get(c, r).value| > 1 then Get(c, r) else None
  {
    var c := front + [e];
    assert c[..|c| - 1] == front && Last(c) == e;
    var kept := KeepShared(front);
    assert KeepShared(c) == kept + (if |e.1| > 1 then [e] else []);
    KeepSharedKeys(front);
    GetSnoc(front, e.0, e.1, r);
    if |e.1| > 1 {
      GetSnoc(kept, e.0, e.1, r);
    } else {
      assert kept + [] == kept;
    }
  }

  lemma KeepSharedKeys(clustered: Dict<string, seq<string>>)
    ensures forall k :: k in Keys(KeepShared(clustered)) ==> k in Keys(clustered)
  {
    var f := SharedEntry;
    FilterMapSpec(clustered, f);
    var kept := KeepShared(clustered);
    var idx := FilterIndices(clustered, f);
    forall k | k in Keys(kept)
      ensures k in Keys(clustered)
    {
      var i :| 0 <= i < |kept| && Keys(kept)[i] == k;
      assert f(clustered[idx[i]]) == Some(kept[i]);
      assert Keys(clustered)[idx[i]] == k;
    }
  }

  /**
   * The saved result: a ROR appears exactly when two different organisations
   * carry it, and then with every organisation that carries it.
   */
  lemma SharedRors(entries: seq<OrgEntry>, r: string)
    ensures var result := KeepShared(Cluster(Pairs(entries)));
      (Get(result, r).Some? <==>
        exists u1, u2 :: Pair(u1, r) in Pairs(entries) && Pair(u2, r) in Pairs(entries) && u1 != u2) &&
      (Get(result, r).Some? ==>
        forall u :: u in Get(result, r).value <==> Pair(u, r) in Pairs(entries))
  {
    var pairs := Pairs(entries);
    ClusterDistinct(pairs);
    KeepSharedGet(Cluster(pairs), r);
    ClusterGet(pairs, r);
    var us := UuidsFor(pairs, r);
    DedupeTwo(us);
    forall u
      ensures u in us <==> Pair(u, r) in pairs
    {
      UuidsForMember(pairs, r, u);
    }
  }

  /** A pair seen before changes nothing: each organisation counts once per ROR. */
  lemma RepeatedPairIgnored(pairs: seq<Pair>, p: Pair)
    requires p in pairs
    ensures Cluster(pairs + [p]) == Cluster(pairs)
  {
    var ps := pairs + [p];
    assert ps[..|ps| - 1] == pairs && Last(ps) == p;
    var d := Cluster(pairs);
    ClusterGet(pairs, p.ror);
    UuidsForMember(pairs, p.ror, p.uuid);
    PutSame(d, p.ror, Dedupe(UuidsFor(pairs, p.ror)));
  }

  // ---------------------------------------------------------------------
  // The whole script

  method MergeExternalOrgs(rows: seq<seq<string>>, search: string -> Option<seq<OrgEntry>>)
    returns (finalResult: Dict<string, seq<string>>)
    ensures finalResult == KeepShared(Cluster(Pairs(Fetched(FilterMap(rows, SecondColumn), BATCH_SIZE, search))))
    ensures DistinctKeys(finalResult)
  {
    var rors := ReadRors(rows);
    var datatotal := FetchOrgData(rors, BATCH_SIZE, search);
    var result := ExtractPairs(datatotal);
    var clustered := ClusterByRor(result);
    finalResult := KeepShared(clustered);
    ClusterDistinct(result);
    KeepSharedDistinct(clustered);
  }

  lemma {:induction false} KeepSharedDistinct(clustered: Dict<string, seq<string>>)
    requires DistinctKeys(clustered)
    ensures DistinctKeys(KeepShared(clustered))
  {
    var f := SharedEntry;
    FilterMapSpec(clustered, f);
    var kept := KeepShared(clustered);
    var idx := FilterIndices(clustered, f);
    forall i, j | 0 <= i < j < |kept|
      ensures kept[i].0 != kept[j].0
    {
      assert f(clustered[idx[i]]) == Some(kept[i]) && f(clustered[idx[j]]) == Some(kept[j]);
      assert idx[i] < idx[j];
    }
  }
}
