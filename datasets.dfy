/**
 * Building a Pure dataset from a DataCite or Yoda record: name and DOI
 * clean-up, finding an existing dataset, resolving the persons to internal or
 * external persons (placeholders when creation fails), the contributor and
 * organisation lists with their defaults, the publisher, and the record.
 */
module Datasets {
  import opened Common
  import opened Identifiers
  import opened PurePersons
  import ExternalPersons

  // ---------------------------------------------------------------------
  // split_name, format_doi

  /** Index of the first space. */
  function FirstSpace(s: string): (r: Option<nat>)
    ensures r.None? ==> ' ' !in s
    ensures r.Some? ==> r.value < |s| && s[r.value] == ' ' && ' ' !in s[..r.value]
  {
    var r := FindFirst(s, (c: char) => c == ' ');
    if r.None? then
      assert forall j :: 0 <= j < |s| ==> s[j] != ' ';
      r
    else
      assert forall j :: 0 <= j < r.value ==> s[..r.value][j] == s[j];
      r
  }

  /** A string is the text before position k, the space at k, and the text after it. */
  lemma CutAtSpace(s: string, k: nat)
    requires k < |s| && s[k] == ' '
    ensures s[..k] + " " + s[k + 1..] == s
  {
  }

  /**
   * split_name: no name or an empty one gives (None, None); otherwise the
   * trimmed name is cut at its first space, a single token giving (token, '').
   */
  function SplitName(name: Option<string>): (r: (Option<string>, Option<string>))
    ensures r.0.None? <==> !Truthy(name)
    ensures r.1.None? <==> !Truthy(name)
    ensures Truthy(name) && ' ' !in Strip(name.value) ==> r == (Some(Strip(name.value)), Some(""))
    ensures Truthy(name) && ' ' in Strip(name.value) ==>
      ' ' !in r.0.value && r.0.value + " " + r.1.value == Strip(name.value)
  {
    if !Truthy(name) then (None, None)
    else
      var s := Strip(name.value);
      match FirstSpace(s)
      case None => (Some(s), Some(""))
      case Some(k) =>
        CutAtSpace(s, k);
        (Some(s[..k]), Some(s[k + 1..]))
  }

  lemma SplitNameExamples()
    ensures SplitName(None) == (None, None) && SplitName(Some("")) == (None, None)
    ensures SplitName(Some("Ada")) == (Some("Ada"), Some(""))
  {
    assert Strip("Ada") == "Ada" by {
      assert !IsSpace('A') && !IsSpace('a');
    }
    assert ' ' !in "Ada";
  }

  const HTTPS_DOI := "https://doi.org/"
  const BARE_DOI := "doi.org/"

  /**
   * format_doi: a string mentioning 'doi' (in any case) loses every
   * 'https://doi.org/' when it starts with one, and then every 'doi.org/' when
   * it starts with that. Other strings are returned as they are.
   */
  function FormatDoi(doi: Option<string>): (r: Option<string>)
    ensures doi.None? <==> r.None?
    ensures doi.Some? && !Contains(Lower(doi.value), "doi") ==> r == doi
  {
    if doi.None? then None
    else if !Contains(Lower(doi.value), "doi") then doi
    else
      var d1 := if StartsWith(doi.value, HTTPS_DOI) then RemoveAll(doi.value, HTTPS_DOI) else doi.value;
      Some(if StartsWith(d1, BARE_DOI) then RemoveAll(d1, BARE_DOI) else d1)
  }

  /** A DOI URL mentions 'doi' (lower-cased) at a fixed position. */
  lemma MentionsDoi(s: string, at: nat)
    requires at + 3 <= |s| && s[at] == 'd' && s[at + 1] == 'o' && s[at + 2] == 'i'
    ensures Contains(Lower(s), "doi")
  {
    var l := Lower(s);
    assert l[at..at + 3] == "doi";
    ContainsAt(l, at, "doi");
  }

  /** The suffix of a DOI without 'doi.org/' holds neither prefix. */
  lemma SuffixFree(x: string)
    requires !Contains(x, BARE_DOI)
    ensures !Contains(x, HTTPS_DOI) && !StartsWith(x, BARE_DOI)
  {
    if Contains(x, HTTPS_DOI) {
      assert HTTPS_DOI == "https://" + BARE_DOI;
      ContainsTail(x, "https://", BARE_DOI);
    }
  }

  /** A 'https://doi.org/' URL whose suffix does not repeat 'doi.org/' is cut to the suffix. */
  lemma FormatDoiHttps(x: string)
    requires !Contains(x, BARE_DOI)
    ensures FormatDoi(Some(HTTPS_DOI + x)) == Some(x)
  {
    var s := HTTPS_DOI + x;
    SuffixFree(x);
    MentionsDoi(s, 8);
    assert StartsWith(s, HTTPS_DOI);
    RemoveAllPrefix(HTTPS_DOI, x);
    RemoveAllAbsent(x, HTTPS_DOI);
  }

  /** A 'doi.org/' URL whose suffix does not repeat 'doi.org/' is cut to the suffix. */
  lemma FormatDoiBare(x: string)
    requires !Contains(x, BARE_DOI)
    ensures FormatDoi(Some(BARE_DOI + x)) == Some(x)
  {
    var s := BARE_DOI + x;
    SuffixFree(x);
    MentionsDoi(s, 0);
    assert !StartsWith(s, HTTPS_DOI);
    assert StartsWith(s, BARE_DOI);
    RemoveAllPrefix(BARE_DOI, x);
    RemoveAllAbsent(x, BARE_DOI);
  }

  // ---------------------------------------------------------------------
  // find_dataset

  /**
   * find_dataset over the fetch by uuid (None when it fails) and the search,
   * which gets the DOI-formatted string and answers the items' `uuid` (None
   * for an item without one); a failed search answers no items.
   */
  function FindDataset(uuid: Option<string>, searchString: Option<string>,
                       fetch: string -> Option<string>, search: string -> seq<Option<string>>): (r: Option<seq<string>>)
    ensures Truthy(uuid) && fetch(uuid.value).Some? ==> r == Some([fetch(uuid.value).value])
    ensures Truthy(uuid) && fetch(uuid.value).None? ==> r.None?
    ensures !Truthy(uuid) && !Truthy(searchString) ==> r.None?
    ensures !Truthy(uuid) && Truthy(searchString) ==>
      (r.Some? && forall u :: u in r.value <==> Some(u) in search(FormatDoi(searchString).value))
  {
    if Truthy(uuid) && fetch(uuid.value).Some? then Some([fetch(uuid.value).value])
    else if !Truthy(uuid) && Truthy(searchString) then
      Some(Uuids(search(FormatDoi(searchString).value)))
    else None
  }

  /** `[item['uuid'] for item in items if 'uuid' in item]` */
  function Uuids(items: seq<Option<string>>): (r: seq<string>)
    ensures forall u :: u in r <==> Some(u) in items
    decreases |items|
  {
    if |items| == 0 then []
    else
      var rest := Uuids(items[1..]);
      assert forall u :: Some(u) in items <==> Some(u) == items[0] || Some(u) in items[1..];
      if items[0].Some? then [items[0].value] + rest else rest
  }

  // ---------------------------------------------------------------------
  // create_external_person (datasets: ORCID only)

  /** The payload of the dataset variant: identifiers only for a given ORCID, normalised. */
  function DatasetPersonPayload(first: string, last: string, orcid: Option<string>, orcidUri: string): (r: ExtPersonPayload)
    ensures r.firstName == Some(first) && r.lastName == Some(last)
    ensures r.identifiers.Some? <==> Truthy(orcid)
    ensures Truthy(orcid) ==> r.identifiers == Some([OrcidObject(ExternalPersons.ExtractOrcidId(orcid), orcidUri)])
  {
    if Truthy(orcid) then
      ExtPersonPayload(Some(first), Some(last), Some([OrcidObject(ExternalPersons.ExtractOrcidId(orcid), orcidUri)]))
    else ExtPersonPayload(Some(first), Some(last), None)
  }

  // ---------------------------------------------------------------------
  // get_contributors_details

  /** A person of the dataset record: names, `person_ids` and `type`. */
  datatype DsContributor = DsContributor(firstName: string, lastName: string, personIds: Dict<string, string>, kind: string)

  /**
   * An entry of the persons table: an internal person (whose `type` is set),
   * or an external person carrying the contributor's type.
   */
  datatype DsDetail =
    | Internal(person: PersonDetail)
    | External(extOrg: Option<string>, extUuid: string, firstName: string, lastName: string, kind: string)

  type DsPersons = Dict<string, Option<DsDetail>>

  /** The Pure calls: person fetch and search, external-person search, and the PUT creating one. */
  datatype DsLookups = DsLookups(
    fetch: string -> Option<PurePerson>,
    search: string -> Option<seq<PurePerson>>,
    extSearch: string -> Option<seq<string>>,
    create: ExtPersonPayload -> Option<string>,
    orcidUri: string)

  /** `contributor['name'] = first_name + ' ' + last_name` */
  function FullName(c: DsContributor): string
  {
    c.firstName + " " + c.lastName
  }

  type DsLookup = DsContributor -> Result<Option<PersonDetail>>

  /** find_person as the dataset pass calls it: with the contributor's type. */
  function InternalLookup(ref: Option<Date>, L: DsLookups): DsLookup
  {
    c => FindPersonOf(Contributor(Some(FullName(c)), c.firstName, c.lastName), c.personIds, ref, Some(c.kind), L.fetch, L.search)
  }

  function FirstStep(prev: Result<(DsPersons, bool)>, c: DsContributor, lookup: DsLookup): Result<(DsPersons, bool)>
  {
    if prev.Raised? then prev
    else
      var found := lookup(c);
      if found.Raised? then Raised(found.error)
      else if found.value.Some? then
        Ok((Put(prev.value.0, FullName(c), Some(Internal(found.value.value.(kind := Some(c.kind))))), true))
      else Ok((Put(prev.value.0, FullName(c), None), prev.value.1))
  }

  function FirstPass(cs: seq<DsContributor>, lookup: DsLookup): Result<(DsPersons, bool)>
    decreases |cs|
  {
    if |cs| == 0 then Ok(([], false))
    else FirstStep(FirstPass(cs[..|cs| - 1], lookup), Last(cs), lookup)
  }

  /** The value of the last identifier whose key is 'orcid' in any case, or ''. */
  function LastOrcid(ids: Dict<string, string>): string
    decreases |ids|
  {
    if |ids| == 0 then ""
    else if Lower(Last(ids).0) == "orcid" then Last(ids).1
    else LastOrcid(ids[..|ids| - 1])
  }

  /** The entry a contributor still marked None gets in the second pass. */
  function ExternalEntry(c: DsContributor, L: DsLookups): DsDetail
  {
    var found := ExternalLookupOf(c.personIds, L.extSearch).uuid;
    var uuid := if Truthy(found) then found
                else L.create(DatasetPersonPayload(c.firstName, c.lastName, Some(LastOrcid(c.personIds)), L.orcidUri));
    if Truthy(uuid) then External(None, uuid.value, c.firstName, c.lastName, c.kind)
    else External(Some("externalorg"), "external_person_uuid", c.firstName, c.lastName, c.kind)
  }

  function SecondStep(persons: DsPersons, c: DsContributor, L: DsLookups): DsPersons
  {
    if Get(persons, FullName(c)) == Some(None) then Put(persons, FullName(c), Some(ExternalEntry(c, L)))
    else persons
  }

  function SecondPass(cs: seq<DsContributor>, persons: DsPersons, L: DsLookups): DsPersons
    decreases |cs|
  {
    if |cs| == 0 then persons else SecondStep(SecondPass(cs[..|cs| - 1], persons, L), Last(cs), L)
  }

  /** The two passes, for any internal lookup. */
  function DetailsWith(cs: seq<DsContributor>, lookup: DsLookup, L: DsLookups): Result<Option<DsPersons>>
  {
    match FirstPass(cs, lookup)
    case Raised(e) => Raised(e)
    case Ok(acc) => if acc.1 then Ok(Some(SecondPass(cs, acc.0, L))) else Ok(None)
  }

  function ContributorsDetailsOf(cs: seq<DsContributor>, ref: Option<Date>, L: DsLookups): Result<Option<DsPersons>>
  {
    DetailsWith(cs, InternalLookup(ref, L), L)
  }

  lemma {:induction false} FirstPassRaisedStays(cs: seq<DsContributor>, k: nat, lookup: DsLookup)
    requires k <= |cs| && FirstPass(cs[..k], lookup).Raised?
    ensures FirstPass(cs, lookup) == FirstPass(cs[..k], lookup)
    decreases |cs|
  {
    if k < |cs| {
      var front := cs[..|cs| - 1];
      assert front[..k] == cs[..k];
      FirstPassRaisedStays(front, k, lookup);
    } else {
      assert cs[..k] == cs;
    }
  }

  lemma FirstPassSnoc(cs: seq<DsContributor>, i: nat, lookup: DsLookup)
    requires i < |cs|
    ensures FirstPass(cs[..i + 1], lookup) == FirstStep(FirstPass(cs[..i], lookup), cs[i], lookup)
  {
    assert cs[..i + 1][..i] == cs[..i];
  }

  /** One turn of the first loop: find_person for one person. */
  method FirstPassTurn(persons: DsPersons, foundInternal: bool, c: DsContributor, ref: Option<Date>, L: DsLookups)
    returns (r: Result<(DsPersons, bool)>)
    ensures r == FirstStep(Ok((persons, foundInternal)), c, InternalLookup(ref, L))
  {
    var name := c.firstName + " " + c.lastName;
    var details := FindPerson(Contributor(Some(name), c.firstName, c.lastName), c.personIds, ref, Some(c.kind), L.fetch, L.search);
    if details.Raised? {
      return Raised(details.error);
    }
    if details.value.Some? {
      r := Ok((Put(persons, name, Some(Internal(details.value.value.(kind := Some(c.kind))))), true));
    } else {
      r := Ok((Put(persons, name, None), foundInternal));
    }
  }

  /** The first loop: find_person for every person, the flag set by any hit. */
  method FirstPassLoop(cs: seq<DsContributor>, ref: Option<Date>, L: DsLookups) returns (r: Result<(DsPersons, bool)>)
    ensures r == FirstPass(cs, InternalLookup(ref, L))
  {
    var persons: DsPersons := [];
    var foundInternal := false;
    var i := 0;
    while i < |cs|
      invariant 0 <= i <= |cs|
      invariant FirstPass(cs[..i], InternalLookup(ref, L)) == Ok((persons, foundInternal))
    {
      FirstPassSnoc(cs, i, InternalLookup(ref, L));
      var step := FirstPassTurn(persons, foundInternal, cs[i], ref, L);
      if step.Raised? {
        FirstPassRaisedStays(cs, i + 1, InternalLookup(ref, L));
        return step;
      }
      persons, foundInternal := step.value.0, step.value.1;
      i := i + 1;
    }
    assert cs[..i] == cs;
    r := Ok((persons, foundInternal));
  }

  /** The loop over `person_ids` keeping the value of the last 'orcid' key. */
  method FindLastOrcid(ids: Dict<string, string>) returns (orcid: string)
    ensures orcid == LastOrcid(ids)
  {
    orcid := "";
    var j := 0;
    while j < |ids|
      invariant 0 <= j <= |ids|
      invariant orcid == LastOrcid(ids[..j])
    {
      assert ids[..j + 1][..j] == ids[..j] && Last(ids[..j + 1]) == ids[j];
      if Lower(ids[j].0) == "orcid" {
        orcid := ids[j].1;
      }
      j := j + 1;
    }
    assert ids[..j] == ids;
  }

  /** The entry of a person not found internally: found, created, or the placeholder. */
  method ResolveExternal(c: DsContributor, L: DsLookups) returns (d: DsDetail)
    ensures d == ExternalEntry(c, L)
  {
    var lookup := FindExternalPerson(c.personIds, L.extSearch);
    var uuid := lookup.uuid;
    if !Truthy(uuid) {
      var orcid := FindLastOrcid(c.personIds);
      uuid := L.create(DatasetPersonPayload(c.firstName, c.lastName, Some(orcid), L.orcidUri));
    }
    if Truthy(uuid) {
      d := External(None, uuid.value, c.firstName, c.lastName, c.kind);
    } else {
      d := External(Some("externalorg"), "external_person_uuid", c.firstName, c.lastName, c.kind);
    }
  }

  /**
   * get_contributors_details for datasets: internal persons first (their
   * `type` set to the contributor's); only when one was found, every other
   * person becomes an external person, found, created, or a placeholder.
   */
  method GetContributorsDetails(cs: seq<DsContributor>, ref: Option<Date>, L: DsLookups) returns (r: Result<Option<DsPersons>>)
    ensures r == ContributorsDetailsOf(cs, ref, L)
  {
    var firstPass := FirstPassLoop(cs, ref, L);
    if firstPass.Raised? {
      return Raised(firstPass.error);
    }
    var (persons, foundInternal) := firstPass.value;
    if !foundInternal {
      return Ok(None);
    }
    ghost var first := persons;
    var i := 0;
    while i < |cs|
      invariant 0 <= i <= |cs|
      invariant persons == SecondPass(cs[..i], first, L)
    {
      assert cs[..i + 1][..i] == cs[..i] && Last(cs[..i + 1]) == cs[i];
      var c := cs[i];
      var name := c.firstName + " " + c.lastName;
      if Get(persons, name) == Some(None) {
        var entry := ResolveExternal(c, L);
        persons := Put(persons, name, Some(entry));
      }
      i := i + 1;
    }
    assert cs[..i] == cs;
    r := Ok(Some(persons));
  }

  /** The first pass keys every person's full name and marks it found or None. */
  lemma {:induction false} FirstPassCovers(cs: seq<DsContributor>, lookup: DsLookup, i: nat)
    requires i < |cs| && FirstPass(cs, lookup).Ok?
    ensures Get(FirstPass(cs, lookup).value.0, FullName(cs[i])).Some?
    decreases |cs|
  {
    var front := cs[..|cs| - 1];
    var c := cs[|cs| - 1];
    var prev := FirstPass(front, lookup);
    assert FirstPass(cs, lookup) == FirstStep(prev, c, lookup);
    FirstStepFlag(prev, c, lookup);
    if i < |front| {
      assert front[i] == cs[i];
      FirstPassCovers(front, lookup, i);
    }
    FirstStepCovers(prev, c, lookup, FullName(cs[i]));
  }

  /** One turn keys the person's full name and keeps every key it had. */
  lemma FirstStepCovers(prev: Result<(DsPersons, bool)>, c: DsContributor, lookup: DsLookup, k: string)
    requires prev.Ok? && FirstStep(prev, c, lookup).Ok?
    requires k == FullName(c) || Get(prev.value.0, k).Some?
    ensures Get(FirstStep(prev, c, lookup).value.0, k).Some?
  {
    var v := if lookup(c).value.Some? then Some(Internal(lookup(c).value.value.(kind := Some(c.kind)))) else None;
    assert FirstStep(prev, c, lookup).value.0 == Put(prev.value.0, FullName(c), v);
    PutGet(prev.value.0, FullName(c), v, k);
  }

  /** The flag is set exactly when some person was found internally. */
  lemma FirstStepFlag(prev: Result<(DsPersons, bool)>, c: DsContributor, lookup: DsLookup)
    requires FirstStep(prev, c, lookup).Ok?
    ensures prev.Ok? && lookup(c).Ok?
    ensures FirstStep(prev, c, lookup).value.1 == (prev.value.1 || lookup(c) != Ok(None))
  {
  }

  /** Some one of the persons was found internally. */
  predicate AnyFound(cs: seq<DsContributor>, lookup: DsLookup)
  {
    exists i :: 0 <= i < |cs| && lookup(cs[i]) != Ok(None)
  }

  lemma AnyFoundSnoc(cs: seq<DsContributor>, lookup: DsLookup)
    requires |cs| > 0
    ensures AnyFound(cs, lookup) <==> AnyFound(cs[..|cs| - 1], lookup) || lookup(cs[|cs| - 1]) != Ok(None)
  {
    var front := cs[..|cs| - 1];
    if AnyFound(front, lookup) {
      var i :| 0 <= i < |front| && lookup(front[i]) != Ok(None);
      assert front[i] == cs[i];
    }
    if AnyFound(cs, lookup) {
      var i :| 0 <= i < |cs| && lookup(cs[i]) != Ok(None);
      if i < |front| {
        assert front[i] == cs[i];
      }
    }
  }

  lemma {:induction false} FirstPassFlag(cs: seq<DsContributor>, lookup: DsLookup)
    requires FirstPass(cs, lookup).Ok?
    ensures FirstPass(cs, lookup).value.1 <==> AnyFound(cs, lookup)
    decreases |cs|
  {
    if |cs| > 0 {
      var front := cs[..|cs| - 1];
      var c := cs[|cs| - 1];
      var prev := FirstPass(front, lookup);
      assert FirstPass(cs, lookup) == FirstStep(prev, c, lookup);
      FirstStepFlag(prev, c, lookup);
      FirstPassFlag(front, lookup);
      AnyFoundSnoc(cs, lookup);
    }
  }

  /** One turn of the second pass: the person's None entry gets filled, other entries stay. */
  lemma SecondStepGet(p: DsPersons, c: DsContributor, L: DsLookups, k: string)
    ensures Get(p, k).Some? ==> Get(SecondStep(p, c, L), k).Some?
    ensures Get(p, k).Some? && Get(p, k).value.Some? ==> Get(SecondStep(p, c, L), k) == Get(p, k)
    ensures FullName(c) == k && Get(p, k).Some? ==> Get(SecondStep(p, c, L), k).value.Some?
  {
    if Get(p, FullName(c)) == Some(None) {
      PutGet(p, FullName(c), Some(ExternalEntry(c, L)), k);
    }
  }

  /** Some person of the list has the full name. */
  predicate NamesPerson(cs: seq<DsContributor>, k: string)
  {
    exists i :: 0 <= i < |cs| && FullName(cs[i]) == k
  }

  lemma NamesPersonSnoc(cs: seq<DsContributor>, k: string)
    requires |cs| > 0
    ensures NamesPerson(cs, k) <==> NamesPerson(cs[..|cs| - 1], k) || FullName(cs[|cs| - 1]) == k
  {
    var front := cs[..|cs| - 1];
    if NamesPerson(front, k) {
      var i :| 0 <= i < |front| && FullName(front[i]) == k;
      assert front[i] == cs[i];
    }
    if NamesPerson(cs, k) && FullName(cs[|cs| - 1]) != k {
      var i :| 0 <= i < |cs| && FullName(cs[i]) == k;
      assert front[i] == cs[i];
    }
  }

  /** The second pass turns every None entry of a person it visits into an entry, and keeps the others. */
  lemma {:induction false} SecondPassFills(cs: seq<DsContributor>, persons: DsPersons, L: DsLookups, k: string)
    ensures Get(persons, k).Some? ==> Get(SecondPass(cs, persons, L), k).Some?
    ensures Get(persons, k).Some? && Get(persons, k).value.Some? ==> Get(SecondPass(cs, persons, L), k) == Get(persons, k)
    ensures NamesPerson(cs, k) && Get(persons, k).Some? ==> Get(SecondPass(cs, persons, L), k).value.Some?
    decreases |cs|
  {
    if |cs| > 0 {
      var front := cs[..|cs| - 1];
      var c := cs[|cs| - 1];
      var p := SecondPass(front, persons, L);
      assert SecondPass(cs, persons, L) == SecondStep(p, c, L);
      SecondPassFills(front, persons, L, k);
      SecondStepGet(p, c, L, k);
      NamesPersonSnoc(cs, k);
    }
  }

  /**
   * The result of get_contributors_details for datasets, whatever the
   * internal lookup (find_person in `ContributorsDetailsOf`): None exactly
   * when no person was found internally; otherwise every person's full name
   * has an entry, and none of them is None.
   */
  lemma ContributorsDetailsFilled(cs: seq<DsContributor>, lookup: DsLookup, L: DsLookups, i: nat)
    requires i < |cs| && FirstPass(cs, lookup).Ok?
    ensures DetailsWith(cs, lookup, L).Ok?
    ensures DetailsWith(cs, lookup, L).value.None? ==> forall j :: 0 <= j < |cs| ==> lookup(cs[j]) == Ok(None)
    ensures (forall j :: 0 <= j < |cs| ==> lookup(cs[j]) == Ok(None)) ==> DetailsWith(cs, lookup, L).value.None?
    ensures DetailsWith(cs, lookup, L).value.Some? ==>
      var e := Get(DetailsWith(cs, lookup, L).value.value, FullName(cs[i]));
      e.Some? && e.value.Some?
  {
    var first := FirstPass(cs, lookup).value;
    FirstPassFlag(cs, lookup);
    if first.1 {
      FirstPassCovers(cs, lookup, i);
      SecondPassFills(cs, first.0, L, FullName(cs[i]));
      assert NamesPerson(cs, FullName(cs[i]));
    }
  }

  // ---------------------------------------------------------------------
  // format_contributors

  /** A person association of the dataset record; `roleUri` is the role's `uri`. */
  datatype DsContributorJson =
    | InternalPerson(firstName: Option<string>, lastName: Option<string>, roleUri: string,
                     personUuid: Option<string>, organizations: seq<Option<string>>)
    | ExternalPerson(extFirstName: string, extLastName: string, extRoleUri: string, externalPersonUuid: string)

  /** The role every external person of a dataset gets. */
  const EXTERNAL_ROLE := "/dk/atira/pure/dataset/roles/dataset/contributor"

  /**
   * The association of one entry: an internal person's role is its type looked
   * up in the type map (KeyError when absent); a None entry cannot be
   * formatted (TypeError).
   */
  function DsContributorJsonOf(d: Option<DsDetail>, typeUri: Dict<string, string>): (r: Result<DsContributorJson>)
    ensures d.None? ==> r.Raised?
    ensures d.Some? && d.value.External? ==>
      r == Ok(ExternalPerson(d.value.firstName, d.value.lastName, EXTERNAL_ROLE, d.value.extUuid))
    ensures d.Some? && d.value.Internal? ==>
      (r.Ok? <==> d.value.person.kind.Some? && Get(typeUri, d.value.person.kind.value).Some?)
    ensures d.Some? && d.value.Internal? && r.Ok? ==>
      r.value.InternalPerson? && r.value.roleUri == Get(typeUri, d.value.person.kind.value).value
      && r.value.personUuid == d.value.person.uuid && r.value.organizations == AssocUuids(d.value.person.associations)
  {
    match d
    case None => Raised("TypeError")
    case Some(External(_, uuid, first, last, _)) => Ok(ExternalPerson(first, last, EXTERNAL_ROLE, uuid))
    case Some(Internal(p)) =>
      if p.kind.None? then Raised("KeyError")
      else match Get(typeUri, p.kind.value)
        case None => Raised("KeyError")
        case Some(uri) => Ok(InternalPerson(p.firstName, p.lastName, uri, p.uuid, AssocUuids(p.associations)))
  }

  function DedupedDetail(d: Option<DsDetail>): Option<DsDetail>
  {
    if d.Some? && d.value.Internal? then
      Some(Internal(d.value.person.(associations := UniqueByUuid(d.value.person.associations))))
    else d
  }

  function DedupedPersons(cs: DsPersons): (r: DsPersons)
    ensures |r| == |cs| && forall i :: 0 <= i < |cs| ==> r[i] == (cs[i].0, DedupedDetail(cs[i].1))
  {
    seq(|cs|, i requires 0 <= i < |cs| => (cs[i].0, DedupedDetail(cs[i].1)))
  }

  /** One association per entry, in table order, or the first error. */
  function FormattedOf(cs: DsPersons, typeUri: Dict<string, string>): Result<seq<DsContributorJson>>
    decreases |cs|
  {
    if |cs| == 0 then Ok([])
    else
      var prev := FormattedOf(cs[..|cs| - 1], typeUri);
      if prev.Raised? then prev
      else
        var one := DsContributorJsonOf(Last(cs).1, typeUri);
        if one.Raised? then Raised(one.error) else Ok(prev.value + [one.value])
  }

  lemma {:induction false} FormattedRaisedStays(cs: DsPersons, k: nat, typeUri: Dict<string, string>)
    requires k <= |cs| && FormattedOf(cs[..k], typeUri).Raised?
    ensures FormattedOf(cs, typeUri) == FormattedOf(cs[..k], typeUri)
    decreases |cs|
  {
    if k < |cs| {
      var front := cs[..|cs| - 1];
      assert front[..k] == cs[..k];
      FormattedRaisedStays(front, k, typeUri);
    } else {
      assert cs[..k] == cs;
    }
  }

  /**
   * format_contributors for datasets: the associations of every internal
   * person are de-duplicated (`deduped` is the table after the call), then one
   * association is formatted per entry.
   */
  method FormatContributors(cs: DsPersons, typeUri: Dict<string, string>)
    returns (deduped: DsPersons, formatted: Result<seq<DsContributorJson>>)
    ensures deduped == DedupedPersons(cs)
    ensures formatted == FormattedOf(deduped, typeUri)
  {
    deduped := [];
    var i := 0;
    while i < |cs|
      invariant 0 <= i <= |cs|
      invariant deduped == DedupedPersons(cs[..i])
    {
      var (name, details) := cs[i];
      if details.Some? && details.value.Internal? {
        var unique := DedupeAssociations(details.value.person.associations);
        details := Some(Internal(details.value.person.(associations := unique)));
      }
      deduped := deduped + [(name, details)];
      i := i + 1;
    }
    assert cs[..i] == cs;
    var out: seq<DsContributorJson> := [];
    i := 0;
    while i < |deduped|
      invariant 0 <= i <= |deduped|
      invariant FormattedOf(deduped[..i], typeUri) == Ok(out)
    {
      assert deduped[..i + 1][..i] == deduped[..i] && Last(deduped[..i + 1]) == deduped[i];
      var one := DsContributorJsonOf(deduped[i].1, typeUri);
      if one.Raised? {
        FormattedRaisedStays(deduped, i + 1, typeUri);
        return deduped, Raised(one.error);
      }
      out := out + [one.value];
      i := i + 1;
    }
    assert deduped[..i] == deduped;
    formatted := Ok(out);
  }

  /** A table without None entries is formatted without error, one association per entry. */
  lemma {:induction false} FormattedLength(cs: DsPersons, typeUri: Dict<string, string>)
    requires forall i :: 0 <= i < |cs| ==> DsContributorJsonOf(cs[i].1, typeUri).Ok?
    ensures FormattedOf(cs, typeUri).Ok?
    ensures |FormattedOf(cs, typeUri).value| == |cs|
    ensures forall i :: 0 <= i < |cs| ==> FormattedOf(cs, typeUri).value[i] == DsContributorJsonOf(cs[i].1, typeUri).value
    decreases |cs|
  {
    if |cs| > 0 {
      var front := cs[..|cs| - 1];
      assert forall i :: 0 <= i < |front| ==> front[i] == cs[i];
      FormattedLength(front, typeUri);
      assert DsContributorJsonOf(cs[|cs| - 1].1, typeUri).Ok?;
    }
  }

  // ---------------------------------------------------------------------
  // format_organizations_from_contributors

  function OrgsOf(d: DsDetail): seq<Option<string>>
  {
    if d.Internal? then AssocUuids(d.person.associations) else []
  }

  function ManagingCandidate(d: DsDetail): Option<string>
  {
    if d.Internal? && |d.person.associations| > 0 then d.person.associations[0].uuid else None
  }

  /** Whether every entry is a dict (the loop reads a None entry and raises). */
  predicate NoneFree(cs: DsPersons)
  {
    forall i :: 0 <= i < |cs| ==> cs[i].1.Some?
  }

  function AllOrgs(cs: DsPersons): seq<Option<string>>
    requires NoneFree(cs)
    decreases |cs|
  {
    if |cs| == 0 then [] else AllOrgs(cs[..|cs| - 1]) + OrgsOf(Last(cs).1.value)
  }

  function ManagingOf(cs: DsPersons): Option<string>
    requires NoneFree(cs)
    decreases |cs|
  {
    if |cs| == 0 then None
    else if ManagingOf(cs[..|cs| - 1]).Some? then ManagingOf(cs[..|cs| - 1])
    else ManagingCandidate(Last(cs).1.value)
  }

  /** One more entry that is a dict: the prefix stays free of None, and what it adds to the two results. */
  lemma OrgsSnoc(cs: DsPersons, i: nat)
    requires i < |cs| && NoneFree(cs[..i]) && cs[i].1.Some?
    ensures NoneFree(cs[..i + 1])
    ensures AllOrgs(cs[..i + 1]) == AllOrgs(cs[..i]) + OrgsOf(cs[i].1.value)
    ensures ManagingOf(cs[..i + 1]) == if ManagingOf(cs[..i]).Some? then ManagingOf(cs[..i]) else ManagingCandidate(cs[i].1.value)
  {
    var upto := cs[..i + 1];
    forall j | 0 <= j < |upto|
      ensures upto[j].1.Some?
    {
      if j < i {
        assert upto[j] == cs[..i][j];
      }
    }
    assert upto[..i] == cs[..i] && Last(upto) == cs[i];
  }

  /** The loop body for one dict entry: its uuids join the set, the managing one is kept once set. */
  method CollectOrgs(d: DsDetail, orgs: seq<Option<string>>, ghost all: seq<Option<string>>, managing: Option<string>)
    returns (orgs': seq<Option<string>>, managing': Option<string>)
    requires orgs == Dedupe(all)
    ensures orgs' == Dedupe(all + OrgsOf(d))
    ensures managing' == if managing.Some? then managing else ManagingCandidate(d)
  {
    orgs', managing' := orgs, managing;
    assert all + [] == all;
    if managing.None? && d.Internal? && |d.person.associations| > 0 {
      managing' := d.person.associations[0].uuid;
    }
    if d.Internal? {
      orgs' := SetUpdate(orgs, all, AssocUuids(d.person.associations));
    }
  }

  datatype DsOrganizations = DsOrganizations(organizations: seq<Option<string>>, managing: Option<string>)

  /** What format_organizations_from_contributors gives for a contributor table. */
  function OrganizationsOf(cs: DsPersons, defaultUniversity: string): Result<DsOrganizations>
  {
    if !NoneFree(cs) then Raised("TypeError")
    else Ok(DsOrganizations(if AllOrgs(cs) == [] then [Some(defaultUniversity)] else Dedupe(AllOrgs(cs)),
                            if Truthy(ManagingOf(cs)) then ManagingOf(cs) else Some(defaultUniversity)))
  }

  /**
   * format_organizations_from_contributors for datasets: the distinct
   * association uuids, or only the default university when there are none;
   * the managing organisation falls back to the same default. A None entry
   * raises a TypeError.
   */
  method FormatOrganizationsFromContributors(cs: DsPersons, defaultUniversity: string) returns (r: Result<DsOrganizations>)
    ensures !NoneFree(cs) <==> r.Raised?
    ensures NoneFree(cs) ==>
      (r.Ok?
       && r.value.organizations == (if AllOrgs(cs) == [] then [Some(defaultUniversity)] else Dedupe(AllOrgs(cs)))
       && r.value.managing == (if Truthy(ManagingOf(cs)) then ManagingOf(cs) else Some(defaultUniversity)))
    ensures r == OrganizationsOf(cs, defaultUniversity)
  {
    var orgs: seq<Option<string>> := [];
    var managing: Option<string> := None;
    var i := 0;
    while i < |cs|
      invariant 0 <= i <= |cs|
      invariant NoneFree(cs[..i])
      invariant orgs == Dedupe(AllOrgs(cs[..i]))
      invariant managing == ManagingOf(cs[..i])
    {
      var details := cs[i].1;
      if details.None? {
        assert !NoneFree(cs) by { assert !cs[i].1.Some?; }
        return Raised("TypeError");
      }
      OrgsSnoc(cs, i);
      orgs, managing := CollectOrgs(details.value, orgs, AllOrgs(cs[..i]), managing);
      i := i + 1;
    }
    assert cs[..i] == cs;
    if orgs == [] {
      orgs := [Some(defaultUniversity)];
    }
    if !Truthy(managing) {
      managing := Some(defaultUniversity);
    }
    r := Ok(DsOrganizations(orgs, managing));
  }

  /** No organisation uuid at all is the only case in which the default is used. */
  lemma DedupeEmpty(s: seq<Option<string>>)
    ensures Dedupe(s) == [] <==> s == []
  {
    if s != [] {
      assert s[0] in s;
    }
  }

  // ---------------------------------------------------------------------
  // find_publisher, format_description, construct_dataset_json

  datatype PublisherItem = PublisherItem(uuid: Option<string>, name: Option<string>)

  /** How the publisher search ended: an exception, a status other than 200, or the items. */
  datatype PublisherResponse = RequestFailed | NotOk | Answered(items: seq<PublisherItem>)

  /**
   * find_publisher: the uuid of the first item named exactly like the
   * publisher; otherwise, and for a status other than 200, the default
   * publisher; None when the request itself fails.
   */
  function FindPublisher(publisher: string, response: PublisherResponse, defaultPublisher: string): (r: Option<string>)
    ensures response.RequestFailed? ==> r.None?
    ensures response.NotOk? ==> r == Some(defaultPublisher)
    ensures response.Answered? ==>
      (match FindFirst(response.items, (it: PublisherItem) => it.name == Some(publisher))
       case Some(i) => r == response.items[i].uuid
       case None => r == Some(defaultPublisher))
  {
    match response
    case RequestFailed => None
    case NotOk => Some(defaultPublisher)
    case Answered(items) =>
      match FindFirst(items, (it: PublisherItem) => it.name == Some(publisher))
      case Some(i) => items[i].uuid
      case None => Some(defaultPublisher)
  }

  /** The first item with an exactly equal name wins; later equal names are never reached. */
  lemma FindPublisherFirst(publisher: string, items: seq<PublisherItem>, defaultPublisher: string, i: nat)
    requires i < |items| && items[i].name == Some(publisher)
    requires forall j :: 0 <= j < i ==> items[j].name != Some(publisher)
    ensures FindPublisher(publisher, Answered(items), defaultPublisher) == items[i].uuid
  {
    var p := (it: PublisherItem) => it.name == Some(publisher);
    var f := FindFirst(items, p);
    assert p(items[i]);
    assert f.Some? && f.value == i;
  }

  const DESCRIPTION_TYPE := "/dk/atira/pure/dataset/descriptions/datasetdescription"

  datatype Description = Description(text: string, typeUri: string, term: string)

  /** format_description: the text under `en_GB`, typed as a dataset description. */
  function FormatDescription(description: string): (r: Description)
    ensures r.text == description && r.typeUri == DESCRIPTION_TYPE && r.term == "Description"
  {
    Description(description, DESCRIPTION_TYPE, "Description")
  }

  /** The row fields construct_dataset_json reads. */
  datatype DsRow = DsRow(
    title: string,
    description: string,
    created: string,
    doi: Option<string>,
    publisher: string,
    managingOrg: Option<string>,
    parsedContributors: seq<DsContributorJson>,
    parsedOrganizations: seq<Option<string>>)

  datatype DatasetJson = DatasetJson(
    title: string,
    descriptions: seq<Description>,
    doi: string,
    typeUri: string,
    publisher: Option<string>,
    year: string,
    month: string,
    day: string,
    managingOrganization: Option<string>,
    persons: seq<DsContributorJson>,
    organizations: seq<Option<string>>,
    visibilityKey: string)

  /** `row['created'][:10]` */
  function DatePart(created: string): (r: string)
    ensures |r| <= 10 && StartsWith(created, r)
    ensures |created| >= 10 ==> |r| == 10
  {
    if |created| <= 10 then created else created[..10]
  }

  lemma Join3(parts: seq<string>, sep: string)
    requires |parts| == 3
    ensures Join(parts, sep) == parts[0] + sep + parts[1] + sep + parts[2]
  {
    assert parts[1..][1..] == [parts[2]];
    assert Join(parts[1..], sep) == parts[1] + sep + parts[2];
  }

  /**
   * construct_dataset_json: the first ten characters of `created` must split
   * on '-' into exactly three parts (a ValueError otherwise), which become the
   * available date; an empty DOI is written as 'n/a'.
   */
  function ConstructDatasetJson(row: DsRow, publisherOf: string -> PublisherResponse, defaultPublisher: string,
                                datasetTypeUri: string, visibilityKey: string): (r: Result<DatasetJson>)
    ensures r.Ok? <==> |Split(DatePart(row.created), "-")| == 3
    ensures r.Ok? ==> r.value.year + "-" + r.value.month + "-" + r.value.day == DatePart(row.created)
    ensures r.Ok? ==> r.value.doi == (if Truthy(row.doi) then row.doi.value else "n/a")
    ensures r.Ok? ==> r.value.publisher == FindPublisher(row.publisher, publisherOf(row.publisher), defaultPublisher)
    ensures r.Ok? ==> r.value.descriptions == [FormatDescription(row.description)]
    ensures r.Ok? ==> r.value.title == row.title
  {
    var parts := Split(DatePart(row.created), "-");
    if |parts| != 3 then Raised("ValueError")
    else
      JoinSplit(DatePart(row.created), "-");
      Join3(parts, "-");
      Ok(DatasetJson(row.title, [FormatDescription(row.description)],
                     if Truthy(row.doi) then row.doi.value else "n/a",
                     datasetTypeUri, FindPublisher(row.publisher, publisherOf(row.publisher), defaultPublisher),
                     parts[0], parts[1], parts[2], row.managingOrg, row.parsedContributors, row.parsedOrganizations,
                     visibilityKey))
  }

  /** A DataCite timestamp: the date part split into year, month and day; an empty DOI becomes 'n/a'. */
  lemma DatasetDateExample(row: DsRow, publisherOf: string -> PublisherResponse, d: string, t: string, v: string)
    requires row.created == "2024-05-17T10:00:00" && row.doi == Some("")
    ensures var r := ConstructDatasetJson(row, publisherOf, d, t, v);
      r.Ok? && r.value.doi == "n/a" && r.value.year == "2024" && r.value.month == "05" && r.value.day == "17"
  {
    assert DatePart(row.created) == "2024-05-17";
    assert "2024-05-17" == "2024" + ['-'] + "05" + ['-'] + "17";
    SplitThree("2024", '-', "05", "17");
  }
}
