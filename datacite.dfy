/**
 * Reading dataset metadata from DataCite: the first affiliation of a
 * creator, splitting a creator's single `name` into given and family name,
 * the identifier map per creator, and the record built from one DOI's
 * attributes.
 */
module Datacite {
  import opened Common
  import opened PurePersons

  // ---------------------------------------------------------------------
  // Affiliations

  /** One element of a creator's `affiliation` list. */
  datatype AffiliationItem =
    | AffiliationDict(name: Option<string>)   // a JSON object; `name` absent is None
    | AffiliationText(text: string)           // a plain string
    | AffiliationOther                          // a number, a list, null ...

  /** The `affiliation` value: a list, or something that is not a list. */
  datatype Affiliation = AffiliationList(items: seq<AffiliationItem>) | AffiliationNotList

  const NO_AFFILIATION := "None"

  /** get_first_affiliation_name: the name of the first affiliation, else the text 'None'. */
  function FirstAffiliationName(a: Affiliation): (r: string)
    ensures a.AffiliationList? && |a.items| > 0 && a.items[0].AffiliationDict? && a.items[0].name.Some? ==>
      r == a.items[0].name.value
    ensures a.AffiliationList? && |a.items| > 0 && a.items[0].AffiliationText? ==> r == a.items[0].text
    ensures (a.AffiliationNotList? || |a.items| == 0 || a.items[0].AffiliationOther? ||
             (a.items[0].AffiliationDict? && a.items[0].name.None?)) ==> r == NO_AFFILIATION
  {
    if a.AffiliationList? && |a.items| > 0 then
      match a.items[0]
      case AffiliationDict(name) => name.GetOr(NO_AFFILIATION)
      case AffiliationText(text) => text
      case AffiliationOther => NO_AFFILIATION
    else NO_AFFILIATION
  }

  // ---------------------------------------------------------------------
  // Name identifiers

  /** One element of `nameIdentifiers`; a key that is absent is None. */
  datatype NameIdentifier = NameIdentifier(scheme: Option<string>, identifier: Option<string>)

  /** The identifier map, keyed by scheme (a missing scheme is the key None). */
  type PersonIds = Dict<Option<string>, string>

  /** The dict comprehension over `nameIdentifiers`, skipping empty identifiers. */
  function PersonIdsOf(nis: seq<NameIdentifier>): PersonIds
    decreases |nis|
  {
    if |nis| == 0 then []
    else
      var ids := PersonIdsOf(nis[..|nis| - 1]);
      var ni := Last(nis);
      if Truthy(ni.identifier) then Put(ids, ni.scheme, ni.identifier.value) else ids
  }

  /** The identifier of the last entry with the scheme and a non-empty identifier. */
  function LastIdentifierFor(nis: seq<NameIdentifier>, scheme: Option<string>): (r: Option<string>)
    ensures r.Some? ==> exists i :: (0 <= i < |nis| && nis[i].scheme == scheme && nis[i].identifier == r &&
      Truthy(nis[i].identifier) && forall j :: i < j < |nis| ==> !(nis[j].scheme == scheme && Truthy(nis[j].identifier)))
    ensures r.None? ==> forall i :: 0 <= i < |nis| ==> !(nis[i].scheme == scheme && Truthy(nis[i].identifier))
    decreases |nis|
  {
    if |nis| == 0 then None
    else if Last(nis).scheme == scheme && Truthy(Last(nis).identifier) then Last(nis).identifier
    else
      var r := LastIdentifierFor(nis[..|nis| - 1], scheme);
      assert forall i :: 0 <= i < |nis| - 1 ==> nis[..|nis| - 1][i] == nis[i];
      r
  }

  /**
   * person_ids: a scheme maps to the identifier of its last entry with a
   * non-empty identifier (a later entry overwrites an earlier one), and
   * schemes with no such entry are absent.
   */
  lemma {:induction false} PersonIdsLastWins(nis: seq<NameIdentifier>, scheme: Option<string>)
    ensures Get(PersonIdsOf(nis), scheme) == LastIdentifierFor(nis, scheme)
    decreases |nis|
  {
    if |nis| > 0 {
      var front := nis[..|nis| - 1];
      PersonIdsLastWins(front, scheme);
      var ni := Last(nis);
      if Truthy(ni.identifier) {
        PutGet(PersonIdsOf(front), ni.scheme, ni.identifier.value, scheme);
      }
    }
  }

  /** Each scheme occurs once in the map. */
  lemma {:induction false} PersonIdsDistinct(nis: seq<NameIdentifier>)
    ensures DistinctKeys(PersonIdsOf(nis))
    decreases |nis|
  {
    if |nis| > 0 {
      var front := nis[..|nis| - 1];
      PersonIdsDistinct(front);
      var ni := Last(nis);
      if Truthy(ni.identifier) {
        PutDistinct(PersonIdsOf(front), ni.scheme, ni.identifier.value);
      }
    }
  }

  // ---------------------------------------------------------------------
  // Creators

  /**
   * Splitting a single `name`: at ',' when that gives exactly two parts,
   * otherwise at ' '; the given name is the first part and the family name
   * the other parts joined with a space ('' when there is only one part).
   */
  function SplitCreatorName(name: string): (string, string)
  {
    var parts := if |Split(name, ",")| == 2 then Split(name, ",") else Split(name, " ");
    (parts[0], if |parts| > 1 then Join(parts[1..], " ") else "")
  }

  /** The two halves put back together give the name again. */
  lemma NameSplitRoundTrip(name: string)
    ensures var (given, family) := SplitCreatorName(name);
      if |Split(name, ",")| == 2 then given + "," + family == name
      else if |Split(name, " ")| > 1 then given + " " + family == name
      else given == name && family == ""
  {
    var comma := Split(name, ",");
    var space := Split(name, " ");
    if |comma| == 2 {
      JoinSplit(name, ",");
      assert Join(comma, ",") == comma[0] + "," + Join(comma[1..], ",");
      assert Join(comma[1..], " ") == comma[1] && Join(comma[1..], ",") == comma[1];
    } else {
      JoinSplit(name, " ");
      if |space| > 1 {
        assert Join(space, " ") == space[0] + " " + Join(space[1..], " ");
      }
    }
  }

  /** A name in "Family, Given" form is taken apart without trimming: the family name lands in the given name. */
  lemma CommaNameNotSwapped()
    ensures SplitCreatorName("Doe, Jane") == ("Doe", " Jane")
  {
    assert "Doe, Jane" == "Doe" + [','] + " Jane";
    SplitTwo("Doe", ',', " Jane");
  }

  /** A creator as DataCite returns it; a key that is absent is None. */
  datatype Creator = Creator(
    givenName: Option<string>,
    familyName: Option<string>,
    name: Option<string>,
    affiliation: Affiliation,          // `affiliation` absent is the empty list
    nameIdentifiers: seq<NameIdentifier>)

  /** A person of the parsed record. */
  datatype DcPerson = DcPerson(firstName: string, lastName: string, kind: string,
                               affiliations: string, personIds: PersonIds)

  const CREATOR_TYPE := "creator"

  /** The given and family name after the in-place fill from `name`. */
  function FilledNames(c: Creator): (Option<string>, Option<string>)
  {
    if c.givenName.None? && c.familyName.None? && c.name.Some? then
      var (given, family) := SplitCreatorName(c.name.value);
      (Some(given), Some(family))
    else (c.givenName, c.familyName)
  }

  /** The person a creator contributes, if any. */
  function CreatorPerson(c: Creator): Option<DcPerson>
  {
    var (given, family) := FilledNames(c);
    if given.Some? && family.Some? then
      Some(DcPerson(given.value, family.value, CREATOR_TYPE, FirstAffiliationName(c.affiliation),
                    PersonIdsOf(c.nameIdentifiers)))
    else None
  }

  /**
   * A creator enters `persons` exactly when it has both a given and a
   * family name, or neither but a `name`; names it has are kept as they are.
   */
  lemma CreatorPersonCases(c: Creator)
    ensures CreatorPerson(c).Some? <==>
      (c.givenName.Some? && c.familyName.Some?) || (c.givenName.None? && c.familyName.None? && c.name.Some?)
    ensures c.givenName.Some? && c.familyName.Some? ==>
      CreatorPerson(c).value.firstName == c.givenName.value && CreatorPerson(c).value.lastName == c.familyName.value
    ensures CreatorPerson(c).Some? ==> (CreatorPerson(c).value.kind == CREATOR_TYPE &&
      CreatorPerson(c).value.affiliations == FirstAffiliationName(c.affiliation) &&
      CreatorPerson(c).value.personIds == PersonIdsOf(c.nameIdentifiers))
  {
  }

  /** The loop over `data['creators']`, appending one person per qualifying creator. */
  method ParseCreators(creators: seq<Creator>) returns (persons: seq<DcPerson>)
    ensures persons == FilterMap(creators, CreatorPerson)
  {
    persons := [];
    var i := 0;
    while i < |creators|
      invariant 0 <= i <= |creators|
      invariant persons == FilterMap(creators[..i], CreatorPerson)
    {
      FilterMapSnoc(creators, i, CreatorPerson);
      var creator := creators[i];
      var given := creator.givenName;
      var family := creator.familyName;
      if given.None? && family.None? {
        if creator.name.Some? {
          var split := SplitCreatorName(creator.name.value);
          given := Some(split.0);
          family := Some(split.1);
        }
      }
      if given.Some? && family.Some? {
        persons := persons + [DcPerson(given.value, family.value, CREATOR_TYPE,
                                       FirstAffiliationName(creator.affiliation),
                                       PersonIdsOf(creator.nameIdentifiers))];
      }
      i := i + 1;
    }
    assert creators[..i] == creators;
  }

  // ---------------------------------------------------------------------
  // One DOI's record

  /**
   * The `attributes` of a DataCite response. `created` is the timestamp as
   * `str(datetime)` renders it, None when it does not have the
   * `%Y-%m-%dT%H:%M:%S.%fZ` form.
   */
  datatype DcAttributes = DcAttributes(
    titles: seq<string>,
    creators: seq<Creator>,
    subjects: seq<string>,
    descriptions: seq<string>,
    publisher: string,
    publicationYear: int,
    created: Option<string>)

  datatype DcRecord = DcRecord(
    title: string,
    description: string,
    persons: seq<DcPerson>,
    publisher: string,
    doi: string,
    publicationYear: int,
    created: string,
    subjects: seq<string>)

  const NO_DESCRIPTION := "No description available"

  /** parse_datacite_response as a value: IndexError without a title, ValueError on a bad timestamp. */
  function ParsedRecord(data: DcAttributes, doi: string): (r: Result<DcRecord>)
    ensures r.Ok? <==> |data.titles| > 0 && data.created.Some?
    ensures r.Ok? ==> (r.value.title == data.titles[0] && r.value.doi == doi &&
      r.value.subjects == data.subjects && r.value.publisher == data.publisher &&
      r.value.persons == FilterMap(data.creators, CreatorPerson) &&
      r.value.description == (if |data.descriptions| > 0 then data.descriptions[0] else NO_DESCRIPTION))
  {
    if |data.titles| == 0 then Raised("IndexError")
    else if data.created.None? then Raised("ValueError")
    else
      Ok(DcRecord(data.titles[0],
                  if |data.descriptions| > 0 then data.descriptions[0] else NO_DESCRIPTION,
                  FilterMap(data.creators, CreatorPerson), data.publisher, doi,
                  data.publicationYear, data.created.value, data.subjects))
  }

  method ParseDataciteResponse(data: DcAttributes, doi: string) returns (r: Result<DcRecord>)
    ensures r == ParsedRecord(data, doi)
  {
    if |data.titles| == 0 {
      return Raised("IndexError");
    }
    var title := data.titles[0];
    var persons := ParseCreators(data.creators);
    var description := if |data.descriptions| > 0 then data.descriptions[0] else NO_DESCRIPTION;
    if data.created.None? {
      return Raised("ValueError");
    }
    r := Ok(DcRecord(title, description, persons, data.publisher, doi, data.publicationYear,
                     data.created.value, data.subjects));
  }

  /** fetch_data_for_doi: None when the request does not answer 200. */
  function FetchDataForDoi(doi: string, fetch: string -> Option<DcAttributes>): Result<Option<DcRecord>>
  {
    match fetch(doi)
    case None => Ok(None)
    case Some(data) =>
      match ParsedRecord(data, doi)
      case Raised(e) => Raised(e)
      case Ok(rec) => Ok(Some(rec))
  }

  /** The records of the DOIs whose fetch succeeded, in DOI order; the first raise, in that order, escapes. */
  function DataciteRecords(dois: seq<string>, fetch: string -> Option<DcAttributes>): Result<seq<DcRecord>>
    decreases |dois|
  {
    if |dois| == 0 then Ok([])
    else
      match DataciteRecords(dois[..|dois| - 1], fetch)
      case Raised(e) => Raised(e)
      case Ok(front) =>
        match FetchDataForDoi(Last(dois), fetch)
        case Raised(e) => Raised(e)
        case Ok(None) => Ok(front)
        case Ok(Some(rec)) => Ok(front + [rec])
  }

  /** The record a DOI contributes, in FilterMap form. */
  function FetchedRecord(fetch: string -> Option<DcAttributes>): string -> Option<DcRecord>
  {
    (doi: string) => var res := FetchDataForDoi(doi, fetch); if res.Ok? then res.value else None
  }

  /**
   * The None filter of get_df_from_datacite: without a raise the result is
   * the fetched records with the failed fetches dropped, in order; it
   * raises exactly when some DOI's record raises.
   */
  lemma {:induction false} DataciteRecordsFilter(dois: seq<string>, fetch: string -> Option<DcAttributes>)
    ensures DataciteRecords(dois, fetch).Ok? <==> forall i :: 0 <= i < |dois| ==> FetchDataForDoi(dois[i], fetch).Ok?
    ensures DataciteRecords(dois, fetch).Ok? ==> DataciteRecords(dois, fetch).value == FilterMap(dois, FetchedRecord(fetch))
    decreases |dois|
  {
    if |dois| > 0 {
      var front := dois[..|dois| - 1];
      DataciteRecordsFilter(front, fetch);
      assert forall i :: 0 <= i < |front| ==> front[i] == dois[i];
      assert Last(dois) == dois[|dois| - 1];
    }
  }
}
