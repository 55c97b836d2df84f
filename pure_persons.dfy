/**
 * Looking up persons in Pure: building a person's details from a fetched
 * record (the organisation associations active on a reference date), the
 * search cascade for an internal person, the search for an external person
 * or organisation, and the payload that creates a new external person.
 * Dates are already-parsed integers of the form YYYYMMDD.
 */
module PurePersons {
  import opened Common
  import opened Identifiers

  type Date = int

  /** '9999-12-31', the end date assumed when a period has no `endDate` key. */
  const MAX_DATE: Date := 99991231

  const KNOWNAS_URI := "/dk/atira/pure/person/names/knownas"
  const OPENALEX_PREFIX := "https://openalex.org/"

  /** A date value read with `.get`: key absent, null or empty, or a date. */
  datatype DateField = Absent | Null | At(date: Date)

  /** `staffOrganizationAssociations` entry: the organisation uuid and the period. */
  datatype StaffAssoc = StaffAssoc(orgUuid: Option<string>, start: DateField, end: DateField)

  /** An entry of a person's `names`: its type uri and the names (defaulting to "N/A"). */
  datatype NameEntry = NameEntry(typeUri: string, firstName: string, lastName: string)

  /** A person record as Pure returns it. */
  datatype PurePerson = PurePerson(
    uuid: Option<string>,
    firstName: Option<string>,
    lastName: Option<string>,
    staffAssocs: seq<StaffAssoc>,
    names: seq<NameEntry>)

  /** An entry of `associationsUUIDs`. */
  datatype Association = Association(uuid: Option<string>, startDate: Option<Date>, endDate: Option<Date>)

  /** The dict construct_person_detail returns; `kind` is its optional `type` key. */
  datatype PersonDetail = PersonDetail(
    uuid: Option<string>,
    firstName: Option<string>,
    lastName: Option<string>,
    associations: seq<Association>,
    kind: Option<string>)

  /** A value, or the exception Python raises instead. */
  datatype Result<T> = Ok(value: T) | Raised(error: string)

  /** `orcid_full_url.split('/')[-1]` */
  function ExtractOrcid(s: string): (r: string)
    ensures EndsWith(s, r) && !Contains(r, "/")
    ensures !Contains(s, "/") ==> r == s
  {
    AfterLast(s, "/")
  }

  lemma ExtractOrcidOfUrl(v: string)
    requires !Contains(v, "/")
    ensures ExtractOrcid("https://orcid.org/" + v) == v
  {
    assert "https://orcid.org/" + v == "https://orcid.org" + ['/'] + v;
    AfterLastOfTail("https://orcid.org", '/', v);
  }

  // ---------------------------------------------------------------------
  // construct_person_detail

  function StartOf(a: StaffAssoc): Option<Date>
  {
    if a.start.At? then Some(a.start.date) else None
  }

  function EndOf(a: StaffAssoc): Option<Date>
  {
    match a.end
    case Absent => Some(MAX_DATE)
    case Null => None
    case At(d) => Some(d)
  }

  function ToAssociation(a: StaffAssoc): Association
  {
    Association(a.orgUuid, StartOf(a), EndOf(a))
  }

  /**
   * `start <= ref <= end` raises TypeError when the start is missing, or when
   * the start is not after the reference date and the end is missing.
   */
  predicate RaisesOn(a: StaffAssoc, ref: Date)
  {
    StartOf(a).None? || (StartOf(a).value <= ref && EndOf(a).None?)
  }

  predicate ActiveOn(a: StaffAssoc, ref: Date)
  {
    StartOf(a).Some? && EndOf(a).Some? && StartOf(a).value <= ref <= EndOf(a).value
  }

  /** The association as kept when it is active on the date, otherwise nothing. */
  function ActivePart(a: StaffAssoc, ref: Date): seq<Association>
  {
    if ActiveOn(a, ref) then [ToAssociation(a)] else []
  }

  /** One turn of the loop of construct_person_detail. */
  function SelectStep(prev: Result<seq<Association>>, a: StaffAssoc, ref: Option<Date>): Result<seq<Association>>
  {
    if prev.Raised? then prev
    else if ref.None? then Ok(prev.value + [ToAssociation(a)])
    else if RaisesOn(a, ref.value) then Raised("TypeError")
    else Ok(prev.value + ActivePart(a, ref.value))
  }

  /** The associations kept by the loop of construct_person_detail, in source order. */
  function SelectedAssocs(assocs: seq<StaffAssoc>, ref: Option<Date>): Result<seq<Association>>
    decreases |assocs|
  {
    if |assocs| == 0 then Ok([])
    else SelectStep(SelectedAssocs(assocs[..|assocs| - 1], ref), Last(assocs), ref)
  }

  /** Once the loop has raised, the later associations do not matter. */
  lemma {:induction false} SelectedRaisedStays(assocs: seq<StaffAssoc>, k: nat, ref: Option<Date>)
    requires k <= |assocs| && SelectedAssocs(assocs[..k], ref).Raised?
    ensures SelectedAssocs(assocs, ref) == SelectedAssocs(assocs[..k], ref)
    decreases |assocs|
  {
    if k < |assocs| {
      var front := assocs[..|assocs| - 1];
      assert front[..k] == assocs[..k];
      SelectedRaisedStays(front, k, ref);
    } else {
      assert assocs[..k] == assocs;
    }
  }

  function PersonDetailOf(data: PurePerson, ref: Option<Date>): Result<PersonDetail>
  {
    match SelectedAssocs(data.staffAssocs, ref)
    case Raised(e) => Raised(e)
    case Ok(assocs) => Ok(PersonDetail(data.uuid, data.firstName, data.lastName, assocs, None))
  }

  /**
   * construct_person_detail: with a reference date only the associations
   * active on it, otherwise all of them.
   */
  method ConstructPersonDetail(data: PurePerson, ref: Option<Date>) returns (r: Result<PersonDetail>)
    ensures r == PersonDetailOf(data, ref)
  {
    var assocs := data.staffAssocs;
    var selected: seq<Association> := [];
    var i := 0;
    while i < |assocs|
      invariant 0 <= i <= |assocs|
      invariant SelectedAssocs(assocs[..i], ref) == Ok(selected)
    {
      assert assocs[..i + 1][..i] == assocs[..i] && Last(assocs[..i + 1]) == assocs[i];
      var a := assocs[i];
      assert SelectedAssocs(assocs[..i + 1], ref) == SelectStep(Ok(selected), a, ref);
      var start := StartOf(a);
      var end := EndOf(a);
      if ref.Some? {
        if start.None? || (start.value <= ref.value && end.None?) {
          SelectedRaisedStays(assocs, i + 1, ref);
          return Raised("TypeError");
        }
        assert !RaisesOn(a, ref.value);
        assert ActiveOn(a, ref.value) <==> start.value <= ref.value <= end.value;
        if start.value <= ref.value <= end.value {
          assert ActivePart(a, ref.value) == [ToAssociation(a)];
          selected := selected + [ToAssociation(a)];
        } else {
          assert ActivePart(a, ref.value) == [];
          assert selected + [] == selected;
        }
      } else {
        selected := selected + [ToAssociation(a)];
      }
      i := i + 1;
    }
    assert assocs[..i] == assocs;
    r := Ok(PersonDetail(data.uuid, data.firstName, data.lastName, selected, None));
  }

  /** The same selection written front to back, as the filter it is meant to be. */
  function ActiveFrom(assocs: seq<StaffAssoc>, ref: Date): seq<Association>
    decreases |assocs|
  {
    if |assocs| == 0 then []
    else ActivePart(assocs[0], ref) + ActiveFrom(assocs[1..], ref)
  }

  lemma {:induction false} ActiveFromSnoc(assocs: seq<StaffAssoc>, a: StaffAssoc, ref: Date)
    ensures ActiveFrom(assocs + [a], ref) == ActiveFrom(assocs, ref) + ActivePart(a, ref)
    decreases |assocs|
  {
    var tail := ActivePart(a, ref);
    if |assocs| == 0 {
      assert [a][1..] == [];
      assert ActiveFrom([a], ref) == tail + ActiveFrom([], ref);
    } else {
      var head := ActivePart(assocs[0], ref);
      assert (assocs + [a])[0] == assocs[0];
      assert (assocs + [a])[1..] == assocs[1..] + [a];
      ActiveFromSnoc(assocs[1..], a, ref);
      calc {
        ActiveFrom(assocs + [a], ref);
        head + ActiveFrom(assocs[1..] + [a], ref);
        head + (ActiveFrom(assocs[1..], ref) + tail);
        (head + ActiveFrom(assocs[1..], ref)) + tail;
        ActiveFrom(assocs, ref) + tail;
      }
    }
  }

  /** Without a reference date every association is kept, in order. */
  lemma {:induction false} NoRefKeepsAll(assocs: seq<StaffAssoc>)
    ensures SelectedAssocs(assocs, None).Ok?
    ensures |SelectedAssocs(assocs, None).value| == |assocs|
    ensures forall i :: 0 <= i < |assocs| ==> SelectedAssocs(assocs, None).value[i] == ToAssociation(assocs[i])
    decreases |assocs|
  {
    if |assocs| > 0 {
      var front := assocs[..|assocs| - 1];
      NoRefKeepsAll(front);
      var prev := SelectedAssocs(front, None).value;
      assert SelectedAssocs(assocs, None).value == prev + [ToAssociation(assocs[|assocs| - 1])];
      assert forall i :: 0 <= i < |front| ==> front[i] == assocs[i];
    }
  }

  /**
   * With a reference date the result is exactly the associations active on
   * it, in source order, unless some association makes the comparison raise.
   */
  lemma {:induction false} RefKeepsActive(assocs: seq<StaffAssoc>, ref: Date)
    ensures (forall i :: 0 <= i < |assocs| ==> !RaisesOn(assocs[i], ref))
            ==> SelectedAssocs(assocs, Some(ref)) == Ok(ActiveFrom(assocs, ref))
    ensures (exists i :: 0 <= i < |assocs| && RaisesOn(assocs[i], ref))
            ==> SelectedAssocs(assocs, Some(ref)).Raised?
    decreases |assocs|
  {
    if |assocs| > 0 {
      var front := assocs[..|assocs| - 1];
      RefKeepsActive(front, ref);
      ActiveFromSnoc(front, Last(assocs), ref);
      assert front + [Last(assocs)] == assocs;
      if exists i :: 0 <= i < |assocs| && RaisesOn(assocs[i], ref) {
        var i :| 0 <= i < |assocs| && RaisesOn(assocs[i], ref);
        if i < |front| {
          assert front[i] == assocs[i];
        }
      }
      if forall i :: 0 <= i < |assocs| ==> !RaisesOn(assocs[i], ref) {
        assert forall i :: 0 <= i < |front| ==> front[i] == assocs[i];
        assert !RaisesOn(assocs[|assocs| - 1], ref);
        var a := Last(assocs);
        assert a == assocs[|assocs| - 1] && !RaisesOn(a, ref);
        var tail := ActivePart(a, ref);
        assert SelectedAssocs(front, Some(ref)) == Ok(ActiveFrom(front, ref));
        assert SelectedAssocs(assocs, Some(ref)) == Ok(ActiveFrom(front, ref) + tail);
        assert ActiveFrom(front + [a], ref) == ActiveFrom(front, ref) + tail;
      }
    }
  }

  // ---------------------------------------------------------------------
  // get_active_associations

  predicate IsActive(a: Association, ref: Date)
  {
    a.startDate.Some? && a.endDate.Some? && a.startDate.value <= ref <= a.endDate.value
  }

  function KeepActive(assocs: seq<Association>, ref: Date): seq<Association>
    decreases |assocs|
  {
    if |assocs| == 0 then []
    else KeepActive(assocs[..|assocs| - 1], ref) + (if IsActive(Last(assocs), ref) then [Last(assocs)] else [])
  }

  /**
   * get_active_associations: no details or no date gives None; otherwise the
   * associations are replaced by those having both dates around the reference
   * date.
   */
  method GetActiveAssociations(details: Option<PersonDetail>, ref: Option<Date>) returns (r: Option<PersonDetail>)
    ensures details.None? || ref.None? ==> r.None?
    ensures details.Some? && ref.Some? ==>
      r == Some(details.value.(associations := KeepActive(details.value.associations, ref.value)))
  {
    if details.None? || ref.None? {
      return None;
    }
    var assocs := details.value.associations;
    var active: seq<Association> := [];
    var i := 0;
    while i < |assocs|
      invariant 0 <= i <= |assocs|
      invariant active == KeepActive(assocs[..i], ref.value)
    {
      assert assocs[..i + 1][..i] == assocs[..i] && Last(assocs[..i + 1]) == assocs[i];
      var a := assocs[i];
      if a.startDate.Some? && a.endDate.Some? && a.startDate.value <= ref.value <= a.endDate.value {
        active := active + [a];
      }
      i := i + 1;
    }
    assert assocs[..i] == assocs;
    r := Some(details.value.(associations := active));
  }

  /** The kept associations are exactly the active ones. */
  lemma {:induction false} KeepActiveExact(assocs: seq<Association>, ref: Date)
    ensures forall a :: a in KeepActive(assocs, ref) <==> a in assocs && IsActive(a, ref)
    ensures |KeepActive(assocs, ref)| <= |assocs|
    decreases |assocs|
  {
    if |assocs| > 0 {
      var front := assocs[..|assocs| - 1];
      KeepActiveExact(front, ref);
      assert assocs == front + [Last(assocs)];
    }
  }

  /** A list of active associations is kept whole. */
  lemma {:induction false} KeepActiveOfActive(assocs: seq<Association>, ref: Date)
    requires forall i :: 0 <= i < |assocs| ==> IsActive(assocs[i], ref)
    ensures KeepActive(assocs, ref) == assocs
    decreases |assocs|
  {
    if |assocs| > 0 {
      var front := assocs[..|assocs| - 1];
      assert forall i :: 0 <= i < |front| ==> front[i] == assocs[i];
      KeepActiveOfActive(front, ref);
      assert IsActive(assocs[|assocs| - 1], ref);
      assert assocs == front + [Last(assocs)];
    }
  }

  /** Filtering a second time on the same date changes nothing. */
  lemma KeepActiveIdempotent(assocs: seq<Association>, ref: Date)
    ensures KeepActive(KeepActive(assocs, ref), ref) == KeepActive(assocs, ref)
  {
    var k := KeepActive(assocs, ref);
    KeepActiveExact(assocs, ref);
    assert forall i :: 0 <= i < |k| ==> k[i] in k;
    KeepActiveOfActive(k, ref);
  }

  // ---------------------------------------------------------------------
  // find_person

  /** The contributor fields find_person reads: `name`, `first_name`, `last_name`. */
  datatype Contributor = Contributor(name: Option<string>, firstName: string, lastName: string)

  /** The value searched for an identifier: an ORCID URL is cut to its last part. */
  function IdSearchValue(kv: (string, string)): string
  {
    if Lower(kv.0) == "orcid" then ExtractOrcid(kv.1) else kv.1
  }

  /** Exactly one item came back. */
  predicate UniqueHit<T>(items: Option<seq<T>>)
  {
    items.Some? && |items.value| == 1
  }

  /** `person_detail['type'] = type` on a successfully built detail. */
  function WithKind(d: Result<PersonDetail>, kind: Option<string>): Result<Option<PersonDetail>>
  {
    match d
    case Raised(e) => Raised(e)
    case Ok(p) => Ok(Some(p.(kind := kind)))
  }

  function Found(d: Result<PersonDetail>): Result<Option<PersonDetail>>
  {
    match d
    case Raised(e) => Raised(e)
    case Ok(p) => Ok(Some(p))
  }

  /** Some `names` entry of the item is a "known as" name equal to the contributor's. */
  predicate KnownAsMatches(item: PurePerson, c: Contributor)
  {
    exists e :: e in item.names && e.typeUri == KNOWNAS_URI && e.firstName == c.firstName && e.lastName == c.lastName
  }

  /** The several-hits loop: every matching item overwrites the detail, so the last one wins. */
  function KnownAsPick(items: seq<PurePerson>, c: Contributor, ref: Option<Date>): Result<Option<PersonDetail>>
    decreases |items|
  {
    if |items| == 0 then Ok(None)
    else
      match KnownAsPick(items[..|items| - 1], c, ref)
      case Raised(e) => Raised(e)
      case Ok(acc) =>
        if KnownAsMatches(Last(items), c) then Found(PersonDetailOf(Last(items), ref)) else Ok(acc)
  }

  lemma {:induction false} KnownAsRaisedStays(items: seq<PurePerson>, k: nat, c: Contributor, ref: Option<Date>)
    requires k <= |items| && KnownAsPick(items[..k], c, ref).Raised?
    ensures KnownAsPick(items, c, ref) == KnownAsPick(items[..k], c, ref)
    decreases |items|
  {
    if k < |items| {
      var front := items[..|items| - 1];
      assert front[..k] == items[..k];
      KnownAsRaisedStays(front, k, c, ref);
    } else {
      assert items[..k] == items;
    }
  }

  /** Step 3 and 4 of the cascade: the name search. */
  function ViaName(c: Contributor, ref: Option<Date>, kind: Option<string>, search: string -> Option<seq<PurePerson>>): Result<Option<PersonDetail>>
  {
    if c.name.None? then Ok(None)
    else
      var items := search(c.name.value);
      if items.None? || |items.value| == 0 then Ok(None)
      else if |items.value| == 1 then WithKind(PersonDetailOf(items.value[0], ref), kind)
      else KnownAsPick(items.value, c, ref)
  }

  /** Step 2: the identifier searches in dict order, stopping at the first with exactly one hit. */
  function ViaIds(ids: Dict<string, string>, c: Contributor, ref: Option<Date>, kind: Option<string>,
                  search: string -> Option<seq<PurePerson>>): Result<Option<PersonDetail>>
    decreases |ids|
  {
    if |ids| == 0 then ViaName(c, ref, kind, search)
    else
      var items := search(IdSearchValue(ids[0]));
      if UniqueHit(items) then WithKind(PersonDetailOf(items.value[0], ref), kind)
      else ViaIds(ids[1..], c, ref, kind, search)
  }

  /** The direct fetch by the `uuid` identifier, when there is one. */
  function DirectFetch(ids: Dict<string, string>, fetch: string -> Option<PurePerson>): Option<PurePerson>
  {
    match Get(ids, "uuid")
    case None => None
    case Some(u) => fetch(u)
  }

  function FindPersonOf(c: Contributor, ids: Dict<string, string>, ref: Option<Date>, kind: Option<string>,
                        fetch: string -> Option<PurePerson>, search: string -> Option<seq<PurePerson>>): Result<Option<PersonDetail>>
  {
    match DirectFetch(ids, fetch)
    case Some(data) => Found(PersonDetailOf(data, ref))
    case None => ViaIds(ids, c, ref, kind, search)
  }

  /**
   * find_person over two lookups: `fetch` is the GET by uuid and `search` the
   * person search (None for a failed request).
   */
  method FindPerson(c: Contributor, ids: Dict<string, string>, ref: Option<Date>, kind: Option<string>,
                    fetch: string -> Option<PurePerson>, search: string -> Option<seq<PurePerson>>)
    returns (r: Result<Option<PersonDetail>>)
    ensures r == FindPersonOf(c, ids, ref, kind, fetch, search)
  {
    var direct := DirectFetch(ids, fetch);
    if direct.Some? {
      var d := ConstructPersonDetail(direct.value, ref);
      return Found(d);
    }
    var k := 0;
    while k < |ids|
      invariant 0 <= k <= |ids|
      invariant ViaIds(ids, c, ref, kind, search) == ViaIds(ids[k..], c, ref, kind, search)
    {
      var items := search(IdSearchValue(ids[k]));
      if items.Some? && |items.value| == 1 {
        var d := ConstructPersonDetail(items.value[0], ref);
        assert ids[k..][0] == ids[k];
        return WithKind(d, kind);
      }
      assert ids[k..][1..] == ids[k + 1..];
      k := k + 1;
    }
    r := FindByName(c, ref, kind, search);
  }

  /** The name search that follows the identifier searches. */
  method FindByName(c: Contributor, ref: Option<Date>, kind: Option<string>, search: string -> Option<seq<PurePerson>>)
    returns (r: Result<Option<PersonDetail>>)
    ensures r == ViaName(c, ref, kind, search)
  {
    if c.name.None? {
      return Ok(None);
    }
    var found := search(c.name.value);
    if found.None? || |found.value| == 0 {
      return Ok(None);
    }
    var items := found.value;
    if |items| == 1 {
      var d := ConstructPersonDetail(items[0], ref);
      return WithKind(d, kind);
    }
    r := FindKnownAs(items, c, ref);
  }

  /** The loop over several hits, each item's "known as" names compared with the contributor's. */
  method FindKnownAs(items: seq<PurePerson>, c: Contributor, ref: Option<Date>) returns (r: Result<Option<PersonDetail>>)
    ensures r == KnownAsPick(items, c, ref)
  {
    var detail: Option<PersonDetail> := None;
    var i := 0;
    while i < |items|
      invariant 0 <= i <= |items|
      invariant KnownAsPick(items[..i], c, ref) == Ok(detail)
    {
      assert items[..i + 1][..i] == items[..i] && Last(items[..i + 1]) == items[i];
      var step := KnownAsItem(items[i], c, ref, detail);
      if step.Raised? {
        KnownAsRaisedStays(items, i + 1, c, ref);
        return step;
      }
      detail := step.value;
      i := i + 1;
    }
    assert items[..i] == items;
    r := Ok(detail);
  }

  /** The inner loop over one item's names: a matching name overwrites the detail. */
  method KnownAsItem(item: PurePerson, c: Contributor, ref: Option<Date>, detail: Option<PersonDetail>)
    returns (r: Result<Option<PersonDetail>>)
    ensures r == if KnownAsMatches(item, c) then Found(PersonDetailOf(item, ref)) else Ok(detail)
  {
    var names := item.names;
    var current := detail;
    var j := 0;
    while j < |names|
      invariant 0 <= j <= |names|
      invariant !(exists e :: e in names[..j] && e.typeUri == KNOWNAS_URI && e.firstName == c.firstName && e.lastName == c.lastName)
                ==> current == detail
      invariant (exists e :: e in names[..j] && e.typeUri == KNOWNAS_URI && e.firstName == c.firstName && e.lastName == c.lastName)
                ==> PersonDetailOf(item, ref).Ok? && current == Some(PersonDetailOf(item, ref).value)
    {
      var e := names[j];
      assert names[..j + 1] == names[..j] + [e];
      if e.typeUri == KNOWNAS_URI && e.firstName == c.firstName && e.lastName == c.lastName {
        var d := ConstructPersonDetail(item, ref);
        if d.Raised? {
          assert e in item.names && KnownAsMatches(item, c);
          return Raised(d.error);
        }
        current := Some(d.value);
      }
      j := j + 1;
    }
    assert names[..j] == names;
    r := Ok(current);
  }

  /** The index of the first identifier whose search gives exactly one hit. */
  function FirstUniqueId(ids: Dict<string, string>, search: string -> Option<seq<PurePerson>>): Option<nat>
  {
    FindFirst(ids, (kv: (string, string)) => UniqueHit(search(IdSearchValue(kv))))
  }

  lemma {:induction false} ViaIdsFirstUnique(ids: Dict<string, string>, c: Contributor, ref: Option<Date>, kind: Option<string>,
                                             search: string -> Option<seq<PurePerson>>)
    ensures FirstUniqueId(ids, search).Some? ==>
      ViaIds(ids, c, ref, kind, search) == WithKind(PersonDetailOf(search(IdSearchValue(ids[FirstUniqueId(ids, search).value])).value[0], ref), kind)
    ensures FirstUniqueId(ids, search).None? ==> ViaIds(ids, c, ref, kind, search) == ViaName(c, ref, kind, search)
    decreases |ids|
  {
    if |ids| > 0 {
      ViaIdsFirstUnique(ids[1..], c, ref, kind, search);
      var p := (kv: (string, string)) => UniqueHit(search(IdSearchValue(kv)));
      if !p(ids[0]) {
        assert forall j :: 0 <= j < |ids[1..]| ==> ids[1..][j] == ids[j + 1];
        var f, g := FindFirst(ids, p), FindFirst(ids[1..], p);
        assert f.Some? ==> g == Some(f.value - 1);
        assert f.None? ==> g.None?;
      }
    }
  }

  /**
   * The cascade's order: a successful uuid fetch decides; otherwise the first
   * identifier search with exactly one hit decides; only then the name search.
   * The `type` is set on the identifier and single-name paths, not on the
   * uuid fetch.
   */
  lemma FindPersonCascade(c: Contributor, ids: Dict<string, string>, ref: Option<Date>, kind: Option<string>,
                          fetch: string -> Option<PurePerson>, search: string -> Option<seq<PurePerson>>)
    ensures DirectFetch(ids, fetch).Some? ==>
      FindPersonOf(c, ids, ref, kind, fetch, search) == Found(PersonDetailOf(DirectFetch(ids, fetch).value, ref))
    ensures DirectFetch(ids, fetch).None? && FirstUniqueId(ids, search).Some? ==>
      FindPersonOf(c, ids, ref, kind, fetch, search)
      == WithKind(PersonDetailOf(search(IdSearchValue(ids[FirstUniqueId(ids, search).value])).value[0], ref), kind)
    ensures DirectFetch(ids, fetch).None? && FirstUniqueId(ids, search).None? ==>
      FindPersonOf(c, ids, ref, kind, fetch, search) == ViaName(c, ref, kind, search)
  {
    ViaIdsFirstUnique(ids, c, ref, kind, search);
  }

  /** The last item with a matching "known as" name. */
  function LastKnownAs(items: seq<PurePerson>, c: Contributor): Option<nat>
    decreases |items|
  {
    if |items| == 0 then None
    else if KnownAsMatches(Last(items), c) then Some(|items| - 1)
    else LastKnownAs(items[..|items| - 1], c)
  }

  /**
   * When several persons carry the name, the one chosen is the last whose
   * "known as" name equals the contributor's first and last name.
   */
  lemma {:induction false} KnownAsLastWins(items: seq<PurePerson>, c: Contributor, ref: Option<Date>)
    requires forall i :: 0 <= i < |items| ==> PersonDetailOf(items[i], ref).Ok?
    ensures LastKnownAs(items, c).None? ==> KnownAsPick(items, c, ref) == Ok(None)
    ensures LastKnownAs(items, c).Some? ==>
      (LastKnownAs(items, c).value < |items|
       && KnownAsMatches(items[LastKnownAs(items, c).value], c)
       && KnownAsPick(items, c, ref) == Ok(Some(PersonDetailOf(items[LastKnownAs(items, c).value], ref).value)))
    decreases |items|
  {
    if |items| > 0 {
      var front := items[..|items| - 1];
      assert forall i :: 0 <= i < |front| ==> front[i] == items[i];
      KnownAsLastWins(front, c, ref);
    }
  }

  // ---------------------------------------------------------------------
  // find_external_person, create_external_person, find_extenal_orgs

  /** The value searched for an identifier of an external person. */
  function ExtIdValue(kv: (string, string)): string
  {
    if Lower(kv.0) == "orcid" then ExtractOrcid(kv.1)
    else if Lower(kv.0) == "openalex" then RemoveAll(kv.1, OPENALEX_PREFIX)
    else kv.1
  }

  datatype ExternalLookup = ExternalLookup(uuid: Option<string>, orcid: Option<string>, openalex: Option<string>)

  function ExternalLookupOf(ids: Dict<string, string>, search: string -> Option<seq<string>>): ExternalLookup
    decreases |ids|
  {
    if |ids| == 0 then ExternalLookup(None, None, None)
    else
      var prev := ExternalLookupOf(ids[..|ids| - 1], search);
      var kv := Last(ids);
      var v := ExtIdValue(kv);
      var items := search(v);
      ExternalLookup(
        if UniqueHit(items) then Some(items.value[0]) else prev.uuid,
        if Lower(kv.0) == "orcid" then Some(v) else prev.orcid,
        if Lower(kv.0) == "openalex" then Some(v) else prev.openalex)
  }

  /**
   * find_external_person: every identifier is searched; the uuid kept is the
   * one from the last search with exactly one hit.
   */
  method FindExternalPerson(ids: Dict<string, string>, search: string -> Option<seq<string>>) returns (r: ExternalLookup)
    ensures r == ExternalLookupOf(ids, search)
  {
    var firstUuid: Option<string> := None;
    var orcid: Option<string> := None;
    var openalex: Option<string> := None;
    var i := 0;
    while i < |ids|
      invariant 0 <= i <= |ids|
      invariant ExternalLookup(firstUuid, orcid, openalex) == ExternalLookupOf(ids[..i], search)
    {
      assert ids[..i + 1][..i] == ids[..i] && Last(ids[..i + 1]) == ids[i];
      var (idType, idValue) := ids[i];
      if Lower(idType) == "orcid" {
        idValue := ExtractOrcid(idValue);
        orcid := Some(idValue);
      }
      if Lower(idType) == "openalex" {
        idValue := RemoveAll(idValue, OPENALEX_PREFIX);
        openalex := Some(idValue);
      }
      var items := search(idValue);
      if items.Some? && |items.value| == 1 {
        firstUuid := Some(items.value[0]);
      }
      i := i + 1;
    }
    assert ids[..i] == ids;
    r := ExternalLookup(firstUuid, orcid, openalex);
  }

  /**
   * The uuid found is the single hit of some identifier search with no later
   * single hit; None when no search had exactly one hit. The ORCID and the
   * OpenAlex id returned are the normalised values of the last identifier of
   * each kind.
   */
  lemma ExternalLookupLastWins(ids: Dict<string, string>, search: string -> Option<seq<string>>)
    ensures var r := ExternalLookupOf(ids, search);
      (r.uuid.None? <==> forall i :: 0 <= i < |ids| ==> !HitAt(ids, search, i))
      && (r.uuid.Some? ==> exists i :: 0 <= i < |ids| && HitAt(ids, search, i)
                             && r.uuid == Some(search(ExtIdValue(ids[i])).value[0])
                             && forall j :: i < j < |ids| ==> !HitAt(ids, search, j))
      && (r.orcid.Some? ==> exists i :: 0 <= i < |ids| && Lower(ids[i].0) == "orcid" && r.orcid == Some(ExtractOrcid(ids[i].1))
                              && forall j :: i < j < |ids| ==> Lower(ids[j].0) != "orcid")
      && (r.orcid.None? ==> forall i :: 0 <= i < |ids| ==> Lower(ids[i].0) != "orcid")
      && (r.openalex.Some? ==> exists i :: 0 <= i < |ids| && Lower(ids[i].0) == "openalex"
                                 && r.openalex == Some(RemoveAll(ids[i].1, OPENALEX_PREFIX))
                                 && forall j :: i < j < |ids| ==> Lower(ids[j].0) != "openalex")
      && (r.openalex.None? ==> forall i :: 0 <= i < |ids| ==> Lower(ids[i].0) != "openalex")
  {
    ExternalUuidLastWins(ids, search);
    ExternalOrcidLastWins(ids, search);
    ExternalOpenalexLastWins(ids, search);
  }

  /** The search for the i-th identifier has exactly one hit. */
  predicate HitAt(ids: Dict<string, string>, search: string -> Option<seq<string>>, i: int)
    requires 0 <= i < |ids|
  {
    UniqueHit(search(ExtIdValue(ids[i])))
  }

  lemma HitAtFront(ids: Dict<string, string>, search: string -> Option<seq<string>>)
    requires |ids| > 0
    ensures forall i :: 0 <= i < |ids| - 1 ==> HitAt(ids[..|ids| - 1], search, i) == HitAt(ids, search, i)
  {
  }

  /** The index of the last identifier whose search had exactly one hit. */
  function LastHit(ids: Dict<string, string>, search: string -> Option<seq<string>>): (r: Option<nat>)
    ensures r.Some? ==> (r.value < |ids| && HitAt(ids, search, r.value) &&
                         forall j :: r.value < j < |ids| ==> !HitAt(ids, search, j))
    ensures r.None? ==> forall i :: 0 <= i < |ids| ==> !HitAt(ids, search, i)
    decreases |ids|
  {
    if |ids| == 0 then None
    else if HitAt(ids, search, |ids| - 1) then Some(|ids| - 1)
    else
      var r := LastHit(ids[..|ids| - 1], search);
      HitAtFront(ids, search);
      r
  }

  /** The uuid kept is the single hit of the last identifier search that had one. */
  lemma {:induction false} ExternalUuidLastWins(ids: Dict<string, string>, search: string -> Option<seq<string>>)
    ensures ExternalLookupOf(ids, search).uuid ==
      match LastHit(ids, search)
      case None => None
      case Some(i) => Some(search(ExtIdValue(ids[i])).value[0])
    decreases |ids|
  {
    if |ids| > 0 {
      var front := ids[..|ids| - 1];
      ExternalUuidLastWins(front, search);
      var h := LastHit(front, search);
      if h.Some? {
        assert front[h.value] == ids[h.value];
      }
    }
  }

  lemma {:induction false} ExternalOrcidLastWins(ids: Dict<string, string>, search: string -> Option<seq<string>>)
    ensures var r := ExternalLookupOf(ids, search);
      (r.orcid.Some? ==> exists i :: 0 <= i < |ids| && Lower(ids[i].0) == "orcid" && r.orcid == Some(ExtractOrcid(ids[i].1))
                              && forall j :: i < j < |ids| ==> Lower(ids[j].0) != "orcid")
      && (r.orcid.None? ==> forall i :: 0 <= i < |ids| ==> Lower(ids[i].0) != "orcid")
    decreases |ids|
  {
    if |ids| > 0 {
      var n := |ids| - 1;
      var front := ids[..n];
      var prev := ExternalLookupOf(front, search);
      var r := ExternalLookupOf(ids, search);
      ExternalOrcidLastWins(front, search);
      assert forall i :: 0 <= i < |front| ==> front[i] == ids[i];
      assert r.orcid == if Lower(ids[n].0) == "orcid" then Some(ExtIdValue(ids[n])) else prev.orcid;
      if Lower(ids[n].0) != "orcid" && prev.orcid.Some? {
        var i :| 0 <= i < |front| && Lower(front[i].0) == "orcid" && prev.orcid == Some(ExtractOrcid(front[i].1))
                 && forall j :: i < j < |front| ==> Lower(front[j].0) != "orcid";
        assert forall j :: i < j < |ids| ==> Lower(ids[j].0) != "orcid";
      }
    }
  }

  lemma {:induction false} ExternalOpenalexLastWins(ids: Dict<string, string>, search: string -> Option<seq<string>>)
    ensures var r := ExternalLookupOf(ids, search);
      (r.openalex.Some? ==> exists i :: 0 <= i < |ids| && Lower(ids[i].0) == "openalex"
                                 && r.openalex == Some(RemoveAll(ids[i].1, OPENALEX_PREFIX))
                                 && forall j :: i < j < |ids| ==> Lower(ids[j].0) != "openalex")
      && (r.openalex.None? ==> forall i :: 0 <= i < |ids| ==> Lower(ids[i].0) != "openalex")
    decreases |ids|
  {
    if |ids| > 0 {
      var n := |ids| - 1;
      var front := ids[..n];
      var prev := ExternalLookupOf(front, search);
      var r := ExternalLookupOf(ids, search);
      ExternalOpenalexLastWins(front, search);
      assert forall i :: 0 <= i < |front| ==> front[i] == ids[i];
      assert r.openalex == if Lower(ids[n].0) == "openalex" then Some(ExtIdValue(ids[n])) else prev.openalex;
      if Lower(ids[n].0) != "openalex" && prev.openalex.Some? {
        var i :| 0 <= i < |front| && Lower(front[i].0) == "openalex"
                 && prev.openalex == Some(RemoveAll(front[i].1, OPENALEX_PREFIX))
                 && forall j :: i < j < |front| ==> Lower(front[j].0) != "openalex";
        assert forall j :: i < j < |ids| ==> Lower(ids[j].0) != "openalex";
      }
    }
  }

  /** The body of the PUT that creates an external person. */
  datatype ExtPersonPayload = ExtPersonPayload(firstName: Option<string>, lastName: Option<string>, identifiers: Option<seq<Identifier>>)

  /**
   * create_external_person's payload: `identifiers` is present only when there
   * is an ORCID or an OpenAlex id, the ORCID object first.
   */
  function ExternalPersonPayload(first: Option<string>, last: Option<string>, orcid: Option<string>, openalex: Option<string>,
                                 orcidUri: string, openalexUri: string): (r: ExtPersonPayload)
    ensures r.firstName == first && r.lastName == last
    ensures r.identifiers.Some? <==> Truthy(orcid) || Truthy(openalex)
    ensures r.identifiers.Some? ==>
      |r.identifiers.value| == (if Truthy(orcid) then 1 else 0) + (if Truthy(openalex) then 1 else 0)
      && (Truthy(orcid) ==> r.identifiers.value[0] == OrcidObject(orcid.value, orcidUri))
      && (Truthy(openalex) ==> Last(r.identifiers.value) == OpenalexObject(openalex.value, openalexUri))
  {
    if Truthy(orcid) || Truthy(openalex) then
      var ids := (if Truthy(orcid) then [OrcidObject(orcid.value, orcidUri)] else [])
                 + (if Truthy(openalex) then [OpenalexObject(openalex.value, openalexUri)] else []);
      ExtPersonPayload(first, last, Some(ids))
    else
      ExtPersonPayload(first, last, None)
  }

  /** find_extenal_orgs: a uuid only when the ROR is given and its search returns exactly one item. */
  function FindExternalOrg(ror: Option<string>, search: string -> Option<seq<string>>): (r: Option<string>)
    ensures r.Some? <==> Truthy(ror) && UniqueHit(search(ror.value))
    ensures r.Some? ==> search(ror.value) == Some([r.value])
  {
    if Truthy(ror) && UniqueHit(search(ror.value)) then
      var items := search(ror.value).value;
      assert items == [items[0]];
      Some(items[0])
    else None
  }
  // ---------------------------------------------------------------------
  // De-duplicating a person's associations (the first loop of
  // format_contributors, for research outputs and datasets alike)

  function AssocUuids(assocs: seq<Association>): (r: seq<Option<string>>)
    ensures |r| == |assocs| && forall i :: 0 <= i < |assocs| ==> r[i] == assocs[i].uuid
  {
    seq(|assocs|, i requires 0 <= i < |assocs| => assocs[i].uuid)
  }

  /** The associations kept: the first one for every organisation uuid. */
  function UniqueByUuid(assocs: seq<Association>): seq<Association>
    decreases |assocs|
  {
    if |assocs| == 0 then []
    else
      var prev := UniqueByUuid(assocs[..|assocs| - 1]);
      if Last(assocs).uuid in AssocUuids(prev) then prev else prev + [Last(assocs)]
  }

  /** Index i holds the first association with its organisation uuid. */
  predicate FirstWithUuid(assocs: seq<Association>, i: int)
  {
    0 <= i < |assocs| && assocs[i].uuid !in AssocUuids(assocs[..i])
  }

  /** The de-duplicated list has the distinct uuids, in order of first occurrence. */
  lemma {:induction false} UniqueByUuidUuids(assocs: seq<Association>)
    ensures AssocUuids(UniqueByUuid(assocs)) == Dedupe(AssocUuids(assocs))
    decreases |assocs|
  {
    if |assocs| > 0 {
      var front := assocs[..|assocs| - 1];
      var a := assocs[|assocs| - 1];
      UniqueByUuidUuids(front);
      var prev := UniqueByUuid(front);
      assert AssocUuids(assocs) == AssocUuids(front) + [a.uuid];
      DedupeSnoc(AssocUuids(front), a.uuid);
      assert AssocUuids(prev + [a]) == AssocUuids(prev) + [a.uuid];
    }
  }

  /** Each kept association is the first one with its uuid. */
  lemma {:induction false} UniqueByUuidKeepsFirst(assocs: seq<Association>)
    ensures forall k :: 0 <= k < |UniqueByUuid(assocs)| ==>
      exists i :: FirstWithUuid(assocs, i) && UniqueByUuid(assocs)[k] == assocs[i]
    decreases |assocs|
  {
    if |assocs| > 0 {
      var front := assocs[..|assocs| - 1];
      var a := assocs[|assocs| - 1];
      UniqueByUuidKeepsFirst(front);
      UniqueByUuidUuids(front);
      var prev := UniqueByUuid(front);
      forall k | 0 <= k < |prev|
        ensures exists i :: FirstWithUuid(assocs, i) && prev[k] == assocs[i]
      {
        var i :| FirstWithUuid(front, i) && prev[k] == front[i];
        assert front[..i] == assocs[..i];
        assert FirstWithUuid(assocs, i);
      }
      if a.uuid !in AssocUuids(prev) {
        assert a.uuid !in AssocUuids(front);
        assert assocs[..|assocs| - 1] == front;
        assert FirstWithUuid(assocs, |assocs| - 1);
        var r := UniqueByUuid(assocs);
        assert r == prev + [a];
        forall k | 0 <= k < |r|
          ensures exists i :: FirstWithUuid(assocs, i) && r[k] == assocs[i]
        {
          if k == |prev| {
            assert r[k] == assocs[|assocs| - 1];
          } else {
            assert r[k] == prev[k];
          }
        }
      } else {
        var r := UniqueByUuid(assocs);
        assert r == prev;
        forall k | 0 <= k < |r|
          ensures exists i :: FirstWithUuid(assocs, i) && r[k] == assocs[i]
        {
          assert r[k] == prev[k];
        }
      }
    } else {
      assert UniqueByUuid(assocs) == [];
    }
  }

  /** format_contributors' in-place de-duplication of `associationsUUIDs`. */
  method DedupeAssociations(assocs: seq<Association>) returns (unique: seq<Association>)
    ensures unique == UniqueByUuid(assocs)
  {
    var seen: set<Option<string>> := {};
    unique := [];
    var i := 0;
    while i < |assocs|
      invariant 0 <= i <= |assocs|
      invariant unique == UniqueByUuid(assocs[..i])
      invariant forall u :: u in seen <==> u in AssocUuids(unique)
    {
      assert assocs[..i + 1][..i] == assocs[..i] && Last(assocs[..i + 1]) == assocs[i];
      var a := assocs[i];
      if a.uuid !in seen {
        seen := seen + {a.uuid};
        assert AssocUuids(unique + [a]) == AssocUuids(unique) + [a.uuid];
        unique := unique + [a];
      }
      i := i + 1;
    }
    assert assocs[..i] == assocs;
  }
}
