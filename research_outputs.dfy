/**
 * Building a Pure research output from OpenAlex metadata: resolving the
 * contributors to internal or external persons, de-duplicating their
 * associations, collecting the organisations and the managing organisation,
 * and assembling the research-output record.
 */
module ResearchOutputs {
  import opened Common
  import opened PurePersons

  /**
   * What get_contributors_details stores per contributor name: the details of
   * an internal person, or the dict describing an external person.
   */
  datatype RoDetail =
    | Internal(person: PersonDetail)
    | External(extOrg: Option<string>, extUuid: string, firstName: string, lastName: string)

  /** A contributor of the OpenAlex record: `name`, names, `ids` and the `ROR` of its affiliations. */
  datatype RoContributor = RoContributor(name: string, firstName: string, lastName: string,
                                         ids: Dict<string, string>, ror: Option<string>)

  /**
   * The Pure calls the two passes make: the person fetch and search, the
   * external-person and external-organisation searches, and the PUT that
   * creates an external person (None when it fails).
   */
  datatype Lookups = Lookups(
    fetch: string -> Option<PurePerson>,
    search: string -> Option<seq<PurePerson>>,
    extSearch: string -> Option<seq<string>>,
    orgSearch: string -> Option<seq<string>>,
    create: ExtPersonPayload -> Option<string>,
    orcidUri: string,
    openalexUri: string)

  type Persons = Dict<string, Option<RoDetail>>

  // ---------------------------------------------------------------------
  // get_contributors_details

  function AsContributor(c: RoContributor): Contributor
  {
    Contributor(Some(c.name), c.firstName, c.lastName)
  }

  /** find_person as the first pass calls it: by the contributor's ids and name, no type. */
  function InternalLookup(ref: Option<Date>, L: Lookups): RoContributor -> Result<Option<PersonDetail>>
  {
    c => FindPersonOf(AsContributor(c), c.ids, ref, None, L.fetch, L.search)
  }

  type PersonLookup = RoContributor -> Result<Option<PersonDetail>>

  /** One turn of the first pass. */
  function FirstStep(prev: Result<(Persons, bool)>, c: RoContributor, lookup: PersonLookup): Result<(Persons, bool)>
  {
    if prev.Raised? then prev
    else
      var found := lookup(c);
      if found.Raised? then Raised(found.error)
      else if found.value.Some? then Ok((Put(prev.value.0, c.name, Some(Internal(found.value.value))), true))
      else Ok((Put(prev.value.0, c.name, None), prev.value.1))
  }

  /** The first pass: every name gets its internal details or None; the flag says whether any was found. */
  function FirstPass(cs: seq<RoContributor>, lookup: PersonLookup): Result<(Persons, bool)>
    decreases |cs|
  {
    if |cs| == 0 then Ok(([], false))
    else FirstStep(FirstPass(cs[..|cs| - 1], lookup), Last(cs), lookup)
  }

  /** The second pass for one contributor still marked None. */
  function SecondStep(persons: Persons, c: RoContributor, test: string, L: Lookups): Persons
  {
    if Get(persons, c.name) != Some(None) || test != "no" then persons
    else
      var lookup := ExternalLookupOf(c.ids, L.extSearch);
      var org := FindExternalOrg(c.ror, L.orgSearch);
      var uuid := if Truthy(lookup.uuid) then lookup.uuid
                  else L.create(ExternalPersonPayload(Some(c.firstName), Some(c.lastName), lookup.orcid, lookup.openalex,
                                                      L.orcidUri, L.openalexUri));
      if Truthy(uuid) then Put(persons, c.name, Some(External(org, uuid.value, c.firstName, c.lastName)))
      else persons
  }

  function SecondPass(cs: seq<RoContributor>, persons: Persons, test: string, L: Lookups): Persons
    decreases |cs|
  {
    if |cs| == 0 then persons
    else SecondStep(SecondPass(cs[..|cs| - 1], persons, test, L), Last(cs), test, L)
  }

  /** The two passes, for any internal lookup. */
  function DetailsWith(cs: seq<RoContributor>, lookup: PersonLookup, test: string, L: Lookups): Result<Option<Persons>>
  {
    match FirstPass(cs, lookup)
    case Raised(e) => Raised(e)
    case Ok(acc) => if acc.1 then Ok(Some(SecondPass(cs, acc.0, test, L))) else Ok(None)
  }

  function ContributorsDetailsOf(cs: seq<RoContributor>, ref: Option<Date>, test: string, L: Lookups): Result<Option<Persons>>
  {
    DetailsWith(cs, InternalLookup(ref, L), test, L)
  }

  lemma {:induction false} FirstPassRaisedStays(cs: seq<RoContributor>, k: nat, lookup: PersonLookup)
    requires k <= |cs| && FirstPass(cs[..k], lookup).Raised?
    ensures FirstPass(cs, lookup) == FirstPass(cs[..k], lookup)
    decreases |cs|
  {
    if k < |cs| {
      var front := cs[..|cs| - 1];
      assert front[..k] == cs[..k];
      FirstPassRaisedStays(front, k, lookup);
    } else {
      assert cs[..k] == cs;
    }
  }

  /**
   * get_contributors_details: internal persons first; only when one was found,
   * the contributors still unresolved are looked up or created as external
   * persons (creation only when `test` is 'no').
   */
  method GetContributorsDetails(cs: seq<RoContributor>, ref: Option<Date>, test: string, L: Lookups)
    returns (r: Result<Option<Persons>>)
    ensures r == ContributorsDetailsOf(cs, ref, test, L)
  {
    var first := FirstPassLoop(cs, ref, L);
    if first.Raised? {
      return Raised(first.error);
    }
    var (persons, foundInternal) := first.value;
    if !foundInternal {
      return Ok(None);
    }
    persons := SecondPassLoop(cs, persons, test, L);
    r := Ok(Some(persons));
  }

  /** The first loop of get_contributors_details: find_person for every contributor. */
  method FirstPassLoop(cs: seq<RoContributor>, ref: Option<Date>, L: Lookups) returns (r: Result<(Persons, bool)>)
    ensures r == FirstPass(cs, InternalLookup(ref, L))
  {
    var persons: Persons := [];
    var foundInternal := false;
    var i := 0;
    while i < |cs|
      invariant 0 <= i <= |cs|
      invariant FirstPass(cs[..i], InternalLookup(ref, L)) == Ok((persons, foundInternal))
    {
      assert cs[..i + 1][..i] == cs[..i] && Last(cs[..i + 1]) == cs[i];
      var c := cs[i];
      var details := FindPerson(AsContributor(c), c.ids, ref, None, L.fetch, L.search);
      if details.Raised? {
        FirstPassRaisedStays(cs, i + 1, InternalLookup(ref, L));
        return Raised(details.error);
      }
      if details.value.Some? {
        persons := Put(persons, c.name, Some(Internal(details.value.value)));
        foundInternal := true;
      } else {
        persons := Put(persons, c.name, None);
      }
      i := i + 1;
    }
    assert cs[..i] == cs;
    r := Ok((persons, foundInternal));
  }

  /** The second loop of get_contributors_details: external persons for the names still None. */
  method SecondPassLoop(cs: seq<RoContributor>, first: Persons, test: string, L: Lookups) returns (persons: Persons)
    ensures persons == SecondPass(cs, first, test, L)
  {
    persons := first;
    var i := 0;
    while i < |cs|
      invariant 0 <= i <= |cs|
      invariant persons == SecondPass(cs[..i], first, test, L)
    {
      assert cs[..i + 1][..i] == cs[..i] && Last(cs[..i + 1]) == cs[i];
      var c := cs[i];
      if Get(persons, c.name) == Some(None) {
        var lookup := FindExternalPerson(c.ids, L.extSearch);
        var org := FindExternalOrg(c.ror, L.orgSearch);
        if test == "no" {
          var uuid := lookup.uuid;
          if !Truthy(uuid) {
            uuid := L.create(ExternalPersonPayload(Some(c.firstName), Some(c.lastName), lookup.orcid, lookup.openalex,
                                                   L.orcidUri, L.openalexUri));
          }
          if Truthy(uuid) {
            persons := Put(persons, c.name, Some(External(org, uuid.value, c.firstName, c.lastName)));
          }
        }
      }
      i := i + 1;
    }
    assert cs[..i] == cs;
  }

  function Names(cs: seq<RoContributor>): (r: seq<string>)
    ensures |r| == |cs| && forall i :: 0 <= i < |cs| ==> r[i] == cs[i].name
  {
    seq(|cs|, i requires 0 <= i < |cs| => cs[i].name)
  }

  /** A contributor was found internally. */
  predicate FoundInternally(c: RoContributor, lookup: PersonLookup)
  {
    lookup(c) != Ok(None)
  }

  /** The first pass keys the table by contributor name, in order of first appearance. */
  lemma {:induction false} FirstPassKeys(cs: seq<RoContributor>, lookup: PersonLookup)
    requires FirstPass(cs, lookup).Ok?
    ensures Keys(FirstPass(cs, lookup).value.0) == Dedupe(Names(cs))
    decreases |cs|
  {
    if |cs| > 0 {
      var front := cs[..|cs| - 1];
      var c := cs[|cs| - 1];
      var prev := FirstPass(front, lookup);
      assert prev.Ok?;
      FirstPassKeys(front, lookup);
      FirstStepKeys(prev, c, lookup);
      NamesSnoc(cs);
      DedupeSnoc(Names(front), c.name);
    }
  }

  /** One turn of the first pass adds the contributor's name unless it is already a key. */
  lemma FirstStepKeys(prev: Result<(Persons, bool)>, c: RoContributor, lookup: PersonLookup)
    requires prev.Ok? && FirstStep(prev, c, lookup).Ok?
    ensures Keys(FirstStep(prev, c, lookup).value.0) ==
      if c.name in Keys(prev.value.0) then Keys(prev.value.0) else Keys(prev.value.0) + [c.name]
  {
  }

  lemma NamesSnoc(cs: seq<RoContributor>)
    requires |cs| > 0
    ensures Names(cs) == Names(cs[..|cs| - 1]) + [cs[|cs| - 1].name]
  {
  }

  /** Some contributor of the list was found internally. */
  predicate AnyFound(cs: seq<RoContributor>, lookup: PersonLookup)
  {
    exists i :: 0 <= i < |cs| && FoundInternally(cs[i], lookup)
  }

  lemma AnyFoundSnoc(cs: seq<RoContributor>, lookup: PersonLookup)
    requires |cs| > 0
    ensures AnyFound(cs, lookup) <==> AnyFound(cs[..|cs| - 1], lookup) || FoundInternally(cs[|cs| - 1], lookup)
  {
    var front := cs[..|cs| - 1];
    if AnyFound(front, lookup) {
      var i :| 0 <= i < |front| && FoundInternally(front[i], lookup);
      assert front[i] == cs[i];
    }
    if AnyFound(cs, lookup) && !FoundInternally(cs[|cs| - 1], lookup) {
      var i :| 0 <= i < |cs| && FoundInternally(cs[i], lookup);
      assert front[i] == cs[i];
    }
  }

  lemma FirstStepFlag(prev: Result<(Persons, bool)>, c: RoContributor, lookup: PersonLookup)
    requires FirstStep(prev, c, lookup).Ok?
    ensures prev.Ok? && lookup(c).Ok?
    ensures FirstStep(prev, c, lookup).value.1 == (prev.value.1 || FoundInternally(c, lookup))
  {
  }

  /** Its flag is set exactly when some contributor was found internally. */
  lemma {:induction false} FirstPassFlag(cs: seq<RoContributor>, lookup: PersonLookup)
    requires FirstPass(cs, lookup).Ok?
    ensures FirstPass(cs, lookup).value.1 <==> AnyFound(cs, lookup)
    decreases |cs|
  {
    if |cs| > 0 {
      var front := cs[..|cs| - 1];
      var prev := FirstPass(front, lookup);
      assert FirstPass(cs, lookup) == FirstStep(prev, cs[|cs| - 1], lookup);
      FirstStepFlag(prev, cs[|cs| - 1], lookup);
      FirstPassFlag(front, lookup);
      AnyFoundSnoc(cs, lookup);
    }
  }

  /**
   * The second pass only fills in names still marked None: it keeps the keys
   * and every internal person, and outside of `test == 'no'` it changes nothing.
   */
  lemma {:induction false} SecondPassKeeps(cs: seq<RoContributor>, persons: Persons, test: string, L: Lookups, k: string)
    ensures Keys(SecondPass(cs, persons, test, L)) == Keys(persons)
    ensures Get(persons, k).Some? && Get(persons, k).value.Some? && Get(persons, k).value.value.Internal? ==>
      Get(SecondPass(cs, persons, test, L), k) == Get(persons, k)
    ensures test != "no" ==> SecondPass(cs, persons, test, L) == persons
    decreases |cs|
  {
    if |cs| > 0 {
      var front := cs[..|cs| - 1];
      SecondPassKeeps(front, persons, test, L, k);
      var p := SecondPass(front, persons, test, L);
      var c := Last(cs);
      if Get(p, c.name) == Some(None) && test == "no" {
        var lookup := ExternalLookupOf(c.ids, L.extSearch);
        var org := FindExternalOrg(c.ror, L.orgSearch);
        var uuid := if Truthy(lookup.uuid) then lookup.uuid
                    else L.create(ExternalPersonPayload(Some(c.firstName), Some(c.lastName), lookup.orcid, lookup.openalex,
                                                        L.orcidUri, L.openalexUri));
        if Truthy(uuid) {
          PutGet(p, c.name, Some(External(org, uuid.value, c.firstName, c.lastName)), k);
        }
      }
    }
  }

  /**
   * The result of get_contributors_details, whatever the internal lookup
   * (find_person in `ContributorsDetailsOf`): None exactly when no
   * contributor was found internally; otherwise every contributor name is a
   * key, once, in order of first appearance, and with `test` other than 'no'
   * no external person is filled in.
   */
  lemma ContributorsDetailsShape(cs: seq<RoContributor>, lookup: PersonLookup, test: string, L: Lookups)
    requires FirstPass(cs, lookup).Ok?
    ensures DetailsWith(cs, lookup, test, L).Ok?
    ensures DetailsWith(cs, lookup, test, L).value.None? ==> forall i :: 0 <= i < |cs| ==> !FoundInternally(cs[i], lookup)
    ensures (forall i :: 0 <= i < |cs| ==> !FoundInternally(cs[i], lookup)) ==> DetailsWith(cs, lookup, test, L).value.None?
    ensures DetailsWith(cs, lookup, test, L).value.Some? ==>
      Keys(DetailsWith(cs, lookup, test, L).value.value) == Dedupe(Names(cs))
    ensures DetailsWith(cs, lookup, test, L).value.Some? && test != "no" ==>
      DetailsWith(cs, lookup, test, L).value.value == FirstPass(cs, lookup).value.0
  {
    FirstPassKeys(cs, lookup);
    FirstPassFlag(cs, lookup);
    SecondPassKeeps(cs, FirstPass(cs, lookup).value.0, test, L, "");
  }

  // ---------------------------------------------------------------------
  // format_contributors

  /** A contributor association of the research-output record. */
  datatype ContributorJson =
    | InternalAuthor(firstName: Option<string>, lastName: Option<string>, personUuid: Option<string>,
                     organizations: seq<Option<string>>)
    | ExternalAuthor(externalOrganizations: Option<seq<string>>, extFirstName: string, extLastName: string,
                     externalPersonUuid: string)

  /** The role every contributor of an article gets. */
  const AUTHOR_ROLE := "/dk/atira/pure/researchoutput/roles/contributiontojournal/author"

  function ContributorJsonOf(d: RoDetail): (r: ContributorJson)
    ensures d.Internal? <==> r.InternalAuthor?
    ensures d.Internal? ==> r.personUuid == d.person.uuid && r.organizations == AssocUuids(d.person.associations)
    ensures d.External? ==> r.externalPersonUuid == d.extUuid && r.extFirstName == d.firstName && r.extLastName == d.lastName
    ensures d.External? ==> (r.externalOrganizations.Some? <==> Truthy(d.extOrg))
    ensures d.External? && Truthy(d.extOrg) ==> r.externalOrganizations == Some([d.extOrg.value])
  {
    match d
    case Internal(p) => InternalAuthor(p.firstName, p.lastName, p.uuid, AssocUuids(p.associations))
    case External(org, uuid, first, last) =>
      ExternalAuthor(if Truthy(org) then Some([org.value]) else None, first, last, uuid)
  }

  /** The associations of an internal person de-duplicated by organisation uuid. */
  function DedupedDetail(d: Option<RoDetail>): Option<RoDetail>
  {
    if d.Some? && d.value.Internal? then
      Some(Internal(d.value.person.(associations := UniqueByUuid(d.value.person.associations))))
    else d
  }

  function DedupedPersons(cs: Persons): (r: Persons)
    ensures |r| == |cs| && forall i :: 0 <= i < |cs| ==> r[i] == (cs[i].0, DedupedDetail(cs[i].1))
  {
    seq(|cs|, i requires 0 <= i < |cs| => (cs[i].0, DedupedDetail(cs[i].1)))
  }

  /** One contributor association per entry that is not None, in table order. */
  function FormattedOf(cs: Persons): seq<ContributorJson>
    decreases |cs|
  {
    if |cs| == 0 then []
    else FormattedOf(cs[..|cs| - 1]) + (if Last(cs).1.Some? then [ContributorJsonOf(Last(cs).1.value)] else [])
  }

  /**
   * format_contributors: it first rewrites every internal person's
   * associations to the de-duplicated list (returned as `deduped`, the table
   * after the call), then formats one contributor per entry that is not None.
   */
  method FormatContributors(cs: Persons) returns (deduped: Persons, formatted: seq<ContributorJson>)
    ensures deduped == DedupedPersons(cs)
    ensures formatted == FormattedOf(deduped)
  {
    deduped := [];
    var i := 0;
    while i < |cs|
      invariant 0 <= i <= |cs|
      invariant deduped == DedupedPersons(cs[..i])
    {
      var (name, details) := cs[i];
      if details.Some? && details.value.Internal? {
        var unique := DedupeAssociations(details.value.person.associations);
        details := Some(Internal(details.value.person.(associations := unique)));
      }
      deduped := deduped + [(name, details)];
      i := i + 1;
    }
    assert cs[..i] == cs;
    formatted := [];
    i := 0;
    while i < |deduped|
      invariant 0 <= i <= |deduped|
      invariant formatted == FormattedOf(deduped[..i])
    {
      assert deduped[..i + 1][..i] == deduped[..i] && Last(deduped[..i + 1]) == deduped[i];
      var details := deduped[i].1;
      if details.Some? {
        formatted := formatted + [ContributorJsonOf(details.value)];
      }
      i := i + 1;
    }
    assert deduped[..i] == deduped;
  }

  /** The entries that are not None, in order. */
  function Present(cs: Persons): (r: seq<RoDetail>)
    decreases |cs|
  {
    if |cs| == 0 then []
    else Present(cs[..|cs| - 1]) + (if Last(cs).1.Some? then [Last(cs).1.value] else [])
  }

  /**
   * There is one formatted contributor per entry that is not None, in order,
   * and each is the association of that entry.
   */
  lemma {:induction false} FormattedMatchesPresent(cs: Persons)
    ensures |FormattedOf(cs)| == |Present(cs)|
    ensures forall k :: 0 <= k < |Present(cs)| ==> FormattedOf(cs)[k] == ContributorJsonOf(Present(cs)[k])
    decreases |cs|
  {
    if |cs| > 0 {
      FormattedMatchesPresent(cs[..|cs| - 1]);
    }
  }

  /** After de-duplication no internal person lists the same organisation twice. */
  lemma DedupedDistinct(cs: Persons, i: nat)
    requires i < |cs| && cs[i].1.Some? && cs[i].1.value.Internal?
    ensures var orgs := AssocUuids(DedupedPersons(cs)[i].1.value.person.associations);
      orgs == Dedupe(AssocUuids(cs[i].1.value.person.associations))
      && forall a, b :: 0 <= a < b < |orgs| ==> orgs[a] != orgs[b]
  {
    UniqueByUuidUuids(cs[i].1.value.person.associations);
  }

  // ---------------------------------------------------------------------
  // format_organizations_from_contributors

  /** The organisation uuids an entry contributes. */
  function OrgsOf(d: Option<RoDetail>): seq<Option<string>>
  {
    if d.Some? && d.value.Internal? then AssocUuids(d.value.person.associations) else []
  }

  /** The external organisation an entry contributes (a truthy `external_person_extorgui`). */
  function ExtOrgsOf(d: Option<RoDetail>): seq<string>
  {
    if d.Some? && d.value.External? && Truthy(d.value.extOrg) then [d.value.extOrg.value] else []
  }

  /** What an entry proposes as managing organisation: its first association's uuid. */
  function ManagingCandidate(d: Option<RoDetail>): Option<string>
  {
    if d.Some? && d.value.Internal? && |d.value.person.associations| > 0 then d.value.person.associations[0].uuid
    else None
  }

  function AllOrgs(cs: Persons): seq<Option<string>>
    decreases |cs|
  {
    if |cs| == 0 then [] else AllOrgs(cs[..|cs| - 1]) + OrgsOf(Last(cs).1)
  }

  function AllExtOrgs(cs: Persons): seq<string>
    decreases |cs|
  {
    if |cs| == 0 then [] else AllExtOrgs(cs[..|cs| - 1]) + ExtOrgsOf(Last(cs).1)
  }

  /** `managing_org` after the loop: set once, by the first entry proposing one. */
  function ManagingOf(cs: Persons): Option<string>
    decreases |cs|
  {
    if |cs| == 0 then None
    else if ManagingOf(cs[..|cs| - 1]).Some? then ManagingOf(cs[..|cs| - 1])
    else ManagingCandidate(Last(cs).1)
  }

  /**
   * format_organizations_from_contributors: the distinct association uuids,
   * the distinct external organisations, and the managing organisation (None
   * when it would be empty). Python's set order is replaced by first occurrence.
   */
  method FormatOrganizationsFromContributors(cs: Persons)
    returns (orgs: seq<Option<string>>, extOrgs: seq<string>, managing: Option<string>)
    ensures orgs == Dedupe(AllOrgs(cs))
    ensures extOrgs == Dedupe(AllExtOrgs(cs))
    ensures managing == if Truthy(ManagingOf(cs)) then ManagingOf(cs) else None
  {
    orgs, extOrgs, managing := [], [], None;
    var i := 0;
    while i < |cs|
      invariant 0 <= i <= |cs|
      invariant orgs == Dedupe(AllOrgs(cs[..i]))
      invariant extOrgs == Dedupe(AllExtOrgs(cs[..i]))
      invariant managing == ManagingOf(cs[..i])
    {
      OrgsSnoc(cs, i);
      orgs, extOrgs, managing := CollectOrgs(cs[i].1, orgs, AllOrgs(cs[..i]), extOrgs, AllExtOrgs(cs[..i]), managing);
      i := i + 1;
    }
    assert cs[..i] == cs;
    if !Truthy(managing) {
      managing := None;
    }
  }

  /** The three collections after one more entry. */
  lemma OrgsSnoc(cs: Persons, i: nat)
    requires i < |cs|
    ensures AllOrgs(cs[..i + 1]) == AllOrgs(cs[..i]) + OrgsOf(cs[i].1)
    ensures AllExtOrgs(cs[..i + 1]) == AllExtOrgs(cs[..i]) + ExtOrgsOf(cs[i].1)
    ensures ManagingOf(cs[..i + 1]) == if ManagingOf(cs[..i]).Some? then ManagingOf(cs[..i]) else ManagingCandidate(cs[i].1)
  {
    assert cs[..i + 1][..i] == cs[..i] && Last(cs[..i + 1]) == cs[i];
  }

  /** The loop body for one entry: its uuids and external organisation join the sets, the managing one is kept once set. */
  method CollectOrgs(details: Option<RoDetail>, orgs: seq<Option<string>>, ghost all: seq<Option<string>>,
                     extOrgs: seq<string>, ghost allExt: seq<string>, managing: Option<string>)
    returns (orgs': seq<Option<string>>, extOrgs': seq<string>, managing': Option<string>)
    requires orgs == Dedupe(all) && extOrgs == Dedupe(allExt)
    ensures orgs' == Dedupe(all + OrgsOf(details)) && extOrgs' == Dedupe(allExt + ExtOrgsOf(details))
    ensures managing' == if managing.Some? then managing else ManagingCandidate(details)
  {
    orgs', extOrgs', managing' := orgs, extOrgs, managing;
    assert all + [] == all && allExt + [] == allExt;
    if details.Some? {
      if managing.None? && details.value.Internal? && |details.value.person.associations| > 0 {
        managing' := details.value.person.associations[0].uuid;
      }
      if details.value.Internal? {
        orgs' := SetUpdate(orgs, all, AssocUuids(details.value.person.associations));
      }
      if details.value.External? && Truthy(details.value.extOrg) {
        extOrgs' := SetUpdate(extOrgs, allExt, [details.value.extOrg.value]);
      }
    }
  }

  /** Every organisation uuid collected comes from an internal person's association, and back. */
  lemma {:induction false} AllOrgsMembers(cs: Persons, u: Option<string>)
    ensures u in AllOrgs(cs) <==> exists i :: 0 <= i < |cs| && u in OrgsOf(cs[i].1)
    decreases |cs|
  {
    if |cs| > 0 {
      var front := cs[..|cs| - 1];
      AllOrgsMembers(front, u);
      assert forall i :: 0 <= i < |front| ==> front[i] == cs[i];
      if u in OrgsOf(cs[|cs| - 1].1) {
        assert u in AllOrgs(cs);
      }
    }
  }

  /**
   * The managing organisation is proposed by the first entry proposing any:
   * no earlier entry proposes one.
   */
  lemma {:induction false} ManagingIsFirst(cs: Persons)
    ensures ManagingOf(cs).None? <==> forall i :: 0 <= i < |cs| ==> ManagingCandidate(cs[i].1).None?
    ensures ManagingOf(cs).Some? ==>
      exists i :: (0 <= i < |cs| && ManagingCandidate(cs[i].1) == ManagingOf(cs)
                   && forall j :: 0 <= j < i ==> ManagingCandidate(cs[j].1).None?)
    decreases |cs|
  {
    if |cs| > 0 {
      var front := cs[..|cs| - 1];
      ManagingIsFirst(front);
      assert forall i :: 0 <= i < |front| ==> front[i] == cs[i];
      if ManagingOf(front).None? {
        assert ManagingCandidate(cs[|cs| - 1].1) == ManagingOf(cs);
      }
    }
  }

  // ---------------------------------------------------------------------
  // get_journal_uuid, unique_fields_per_type, parse_keywords

  /** get_journal_uuid over the items of the journal search: the last item's uuid, unless empty. */
  method GetJournalUuid(items: seq<string>) returns (r: Option<string>)
    ensures r.Some? <==> |items| > 0 && Last(items) != ""
    ensures r.Some? ==> r.value == Last(items)
  {
    if |items| == 0 {
      return None;
    }
    var journal := "";
    var i := 0;
    while i < |items|
      invariant 0 <= i <= |items|
      invariant i > 0 ==> journal == items[i - 1]
    {
      journal := items[i];
      i := i + 1;
    }
    if journal == "" {
      return None;
    }
    r := Some(journal);
  }

  /** The error flag unique_fields_per_type returns, and the journal it stores when it looks one up. */
  datatype FieldsCheck = FieldsCheck(journal: Option<Option<string>>, error: bool)

  /**
   * unique_fields_per_type: an article needs an ISSN other than '' and
   * 'No ISSN' (a missing ISSN is looked up as null) and a journal found for
   * it. A dissertation hands its `supervisors` (`supervisors` entries) to
   * get_supervisors, which passes each supervisor's name string to
   * find_person as the contributor; `contributor['name']` on a string raises
   * TypeError, so a dissertation with a supervisor raises. Other types, and a
   * dissertation without supervisors, pass unchanged.
   */
  function UniqueFieldsPerType(kind: string, issn: Option<string>, journalOf: Option<string> -> Option<string>,
                               supervisors: nat): (r: Result<FieldsCheck>)
    ensures r.Raised? <==> kind == "dissertation" && supervisors > 0
    ensures r.Raised? ==> r.error == "TypeError"
    ensures r.Ok? ==> (r.value.error <==> kind == "article" && (issn == Some("") || issn == Some("No ISSN") || journalOf(issn).None?))
    ensures r.Ok? ==> (r.value.journal.Some? <==> kind == "article" && issn != Some("") && issn != Some("No ISSN"))
    ensures r.Ok? && r.value.journal.Some? ==> r.value.journal.value == journalOf(issn)
  {
    if kind == "article" then
      if issn == Some("No ISSN") || issn == Some("") then Ok(FieldsCheck(None, true))
      else
        var journal := journalOf(issn);
        Ok(FieldsCheck(Some(journal), journal.None?))
    else if kind == "dissertation" && supervisors > 0 then Raised("TypeError")
    else Ok(FieldsCheck(None, false))
  }

  /** The free-keyword group parse_keywords wraps the keywords in. */
  datatype KeywordGroup = KeywordGroup(pureId: int, logicalName: string, name: string,
                                       containerPureId: int, locale: string, freeKeywords: seq<string>)

  function ParseKeywords(keywords: seq<string>): (r: seq<KeywordGroup>)
    ensures |r| == 1 && r[0].freeKeywords == keywords
    ensures r[0].pureId == 191008212 && r[0].containerPureId == 191008215
    ensures r[0].logicalName == "keywordContainers" && r[0].locale == "en_GB"
  {
    [KeywordGroup(191008212, "keywordContainers", "Keywords", 191008215, "en_GB", keywords)]
  }

  // ---------------------------------------------------------------------
  // construct_research_output_json, check_research_in_pure

  /** The row fields construct_research_output_json reads. */
  datatype RoRow = RoRow(
    title: string,
    peerReview: bool,
    publicationYear: int,
    publicationMonth: int,
    languageUri: string,
    contributors: seq<RoContributor>,
    parsedContributors: seq<ContributorJson>,
    parsedOrganizations: seq<Option<string>>,
    managingOrg: Option<string>,
    doi: string,
    keywords: seq<KeywordGroup>,
    visibilityKey: string,
    workflowStep: string,
    journal: Option<string>,
    formattedExtOrganizations: seq<string>)

  datatype ResearchOutputJson = ResearchOutputJson(
    title: string,
    peerReview: bool,
    publicationYear: int,
    publicationMonth: int,
    languageUri: string,
    contributors: seq<ContributorJson>,
    organizations: seq<Option<string>>,
    totalNumberOfContributors: nat,
    managingOrganization: Option<string>,
    electronicVersionDoi: string,
    keywordGroups: seq<KeywordGroup>,
    linkUrls: seq<string>,
    visibilityKey: string,
    workflowStep: string,
    journal: Option<string>,
    externalOrganizations: Option<seq<string>>)

  /**
   * construct_research_output_json: the count is the number of OpenAlex
   * contributors (resolved or not), the DOI is both the electronic version and
   * the only link, and `externalOrganizations` is present only when non-empty.
   */
  function ConstructResearchOutputJson(row: RoRow): (r: ResearchOutputJson)
    ensures r.totalNumberOfContributors == |row.contributors|
    ensures r.electronicVersionDoi == row.doi && r.linkUrls == [row.doi]
    ensures r.externalOrganizations.Some? <==> |row.formattedExtOrganizations| > 0
    ensures r.externalOrganizations.Some? ==> r.externalOrganizations.value == row.formattedExtOrganizations
    ensures r.contributors == row.parsedContributors && r.organizations == row.parsedOrganizations
    ensures r.managingOrganization == row.managingOrg && r.journal == row.journal
  {
    ResearchOutputJson(row.title, row.peerReview, row.publicationYear, row.publicationMonth, row.languageUri,
                       row.parsedContributors, row.parsedOrganizations, |row.contributors|, row.managingOrg,
                       row.doi, row.keywords, [row.doi], row.visibilityKey, row.workflowStep, row.journal,
                       if |row.formattedExtOrganizations| > 0 then Some(row.formattedExtOrganizations) else None)
  }

  /** Some item has an electronic version whose `doi` is exactly the given one. */
  predicate HasVersionDoi(items: seq<seq<Option<string>>>, doi: string)
  {
    exists i, j :: 0 <= i < |items| && 0 <= j < |items[i]| && items[i][j] == Some(doi)
  }

  /**
   * check_research_in_pure over the search result (None for a failed request):
   * each item is the list of its electronic versions' `doi` (None when absent).
   * The search string and the compared DOI are `doi.split("org/")[-1]`.
   */
  method CheckResearchInPure(doi: string, search: string -> Option<seq<seq<Option<string>>>>) returns (exists_: bool)
    ensures exists_ <==> search(AfterLast(doi, "org/")).Some? && HasVersionDoi(search(AfterLast(doi, "org/")).value, AfterLast(doi, "org/"))
  {
    exists_ := false;
    var d := AfterLast(doi, "org/");
    var response := search(d);
    if response.None? {
      return;
    }
    var items := response.value;
    var i := 0;
    while i < |items|
      invariant 0 <= i <= |items|
      invariant exists_ <==> exists a, b :: 0 <= a < i && 0 <= b < |items[a]| && items[a][b] == Some(d)
    {
      var versions := items[i];
      var j := 0;
      while j < |versions|
        invariant 0 <= j <= |versions|
        invariant exists_ <==> (exists a, b :: 0 <= a < i && 0 <= b < |items[a]| && items[a][b] == Some(d))
                               || (exists b :: 0 <= b < j && versions[b] == Some(d))
      {
        if versions[j] == Some(d) {
          exists_ := true;
        }
        j := j + 1;
      }
      i := i + 1;
    }
  }
}
