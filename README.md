# BackToPure, modelled in Dafny

BackToPure is a set of Python scripts used at Utrecht University. They feed
the research-information system Pure with what other systems know:

- the graph index Ricgraph;
- the scholarly APIs OpenAlex and DataCite;
- the data repository Yoda.

The scripts enrich Pure persons, external persons and external
organisations with missing identifiers: ORCID, OpenAlex id and ROR. They
also stage new research outputs and datasets. Every change is first written
to a review table, where a person marks each row 'X' (or 'x'). A second
script, `apply_updates_to_pure.py`, then applies only the marked rows. It
marks each row that went through, so running it again does nothing more.

This project models the logic between the HTTP calls. Records are Dafny
datatypes. Every outbound call is a parameter: a search is a function from
the request to the items returned, or to `None` when the request fails, and
a PUT or a create is a function giving a status code or a new uuid. The
modules follow the source files:

| module | source file |
|---|---|
| `Common` | Python idioms the scripts share: `split`, `replace`, `lower`, `strip`, dicts kept in insertion order, batching generators, sets kept in insertion order |
| `Identifiers` | the Pure `ClassifiedId` identifier object |
| `Works` | OpenAlex works and Pure research outputs as the scripts read them |
| `InternalPersons` | `src/enrich_internal_persons_with_ids.py` |
| `ExternalPersons` | `src/enrich_pure_external_persons.py` |
| `PurePersons` | `src/pure_persons.py` (and the association de-duplication shared by the two `format_contributors`) |
| `ExternalOrgs` | `src/enrich_pure_external_orgs.py` |
| `MergeOrgs` | `src/merge_external_orgs.py` |
| `ResearchOutputs` | `src/pure_researchoutputs.py` |
| `Datasets` | `src/pure_datasets.py` |
| `ApplyUpdates` | `src/apply_updates_to_pure.py` |
| `RicgraphDatasets` | `src/update_datasets_from_ricgraph.py` |
| `Datacite` | `src/datacite_utils.py` |
| `Yoda` | `src/yoda_utils.py` |
| `PersonsPerPublication` | `src/personsperpublication.py` |

Loops in the source become methods with `while` loops. Each one is proved
equal to a recursive function over the prefix it has processed, and the
promised properties are lemmas about that function. Tables that the source
mutates in place become classes whose methods state their whole new state:

- `ApplyUpdates.ReviewTable` for the review CSV;
- `InternalPersons.PersonStore` for the fetched records of `update_persons`;
- `ExternalPersons.ExternalPersonStore` for the records of `update_externalpersons_pure`.

Some behaviours of the code that the model keeps as they are:

- `check_name_match` compares only the first initial and the last token, so
  "John Smith" matches "Jane Smith" (`ExternalPersons.SameInitialExamples`).
- `get_ro_from_pure` strips `https://doi.org/` before lower-casing, so an
  upper-case prefix stays (`ExternalPersons.UpperCasePrefixIsKept`).
- DataCite names in "Family, Given" form are not swapped or trimmed
  (`Datacite.CommaNameNotSwapped`).

## Model

| member | source | states |
|---|---|---|
| Common.SplitIntoBatches | src/enrich_pure_external_persons.py:364-366 | the batching generator yields non-empty consecutive slices of at most n elements whose concatenation is the input |
| Common.ChunksFlatten | src/enrich_pure_external_orgs.py:364-366 | chunk_list loses and reorders nothing: the chunks concatenate to the input |
| Common.ChunksSizes | src/enrich_pure_external_orgs.py:364-366 | every chunk is non-empty and at most chunk_size long, and all but the last are full |
| Common.ChunksAt | src/merge_external_orgs.py:56-57 | batch k is the slice starting at offset k times the batch size |
| Common.Split | src/enrich_pure_external_persons.py:155 | Python's split on a non-empty separator always gives at least one piece |
| Common.JoinSplit | src/datacite_utils.py:54-58 | splitting and joining with the same separator gives the string back |
| Common.SplitPiecesFree | src/enrich_pure_external_persons.py:155 | no piece of a split contains the separator |
| Common.Put | src/personsperpublication.py:61 | assignment to a dict key keeps an existing key's position and appends a new key last |
| Common.PutGet | src/personsperpublication.py:61 | after the assignment the key gives the new value and every other key its old one |
| Common.Dedupe | src/pure_researchoutputs.py:377 | the distinct elements, each once, and exactly those of the input |
| Common.SetUpdate | src/pure_researchoutputs.py:353-356 | adding a list to a set kept in insertion order is inserting its elements one by one |
| Common.FilterMapSpec | src/datacite_utils.py:100 | a comprehension with a filter keeps exactly the accepted elements, in order |
| Common.FindFirst | src/enrich_internal_persons_with_ids.py:215-221 | the index of the first element that satisfies the test; None only when none does |
| Common.AfterLast | src/pure_persons.py:45 | split(sep)[-1] is a suffix without the separator, the whole string when there is none (also `doi.split("org/")[-1]` of src/pure_researchoutputs.py:597) |
| Common.BeforeFirst | src/enrich_pure_external_persons.py:471 | split(sep)[0] is a prefix without the separator, the whole string when there is none |
| Common.RemoveAll | src/enrich_pure_external_persons.py:125 | replace(pattern, "") never lengthens the string |
| Common.RemoveAllAbsent | src/enrich_pure_external_persons.py:125 | removing a pattern that does not occur changes nothing |
| Common.Lower | src/enrich_pure_external_persons.py:125 | lower-casing keeps the length and maps each character on its own |
| InternalPersons.IsNan | src/enrich_internal_persons_with_ids.py:93-97 | a cell is "NaN" exactly when it is None or a float NaN, i.e. when it holds no string |
| InternalPersons.CheckNewIds | src/enrich_internal_persons_with_ids.py:181-213 | the new ids, the conflicting ids, the ORCID read from the row, whether the ORCID is added and the record with it are those the column-by-column specification gives |
| InternalPersons.ScanIdentifiers | src/enrich_internal_persons_with_ids.py:193-203 | found exactly when Pure holds an identifier of the column's type; the conflicts are, in order, the entries of that type whose id (or value) differs from the row's |
| InternalPersons.NewIdsCharacterized | src/enrich_internal_persons_with_ids.py:188-205 | an id is proposed as new if and only if some considered, non-NaN column maps to a type URI that no existing identifier of the person has, with that column's value |
| InternalPersons.ConflictsAreKnownTypes | src/enrich_internal_persons_with_ids.py:192-205 | every reported conflict names an existing identifier of that type whose id differs from the row's; no proposed new id has a type Pure already holds |
| InternalPersons.ConflictsWithSound | src/enrich_internal_persons_with_ids.py:195-203 | each conflict found against one column is of that column's type and value and differs from an existing identifier of that type |
| InternalPersons.AsIdentifiers | src/enrich_internal_persons_with_ids.py:168-173 | one ClassifiedId object is built per new id, in order |
| InternalPersons.UpdatePerson | src/enrich_internal_persons_with_ids.py:167-178 | the record sent is the old record with the new identifiers appended; all existing identifiers stay in front, unchanged |
| InternalPersons.AllKnownNoNewIds | src/enrich_internal_persons_with_ids.py:192-205 | when Pure already has every considered type, no new id is proposed |
| InternalPersons.RecheckFindsNothing | src/enrich_internal_persons_with_ids.py:167-205 | after the new ids are appended, checking the same row again proposes nothing (idempotence of the enrichment) |
| InternalPersons.FindItemByUuid | src/enrich_internal_persons_with_ids.py:215-221 | the result is the first record whose uuid equals the target; None only when no record has it |
| InternalPersons.ProcessRow | src/enrich_internal_persons_with_ids.py:296-310 | one loop iteration performs the per-row step of update_persons |
| InternalPersons.PersonStore.constructor | src/enrich_internal_persons_with_ids.py:292 | the store starts with the fetched records |
| InternalPersons.PersonStore.UpdatePersons | src/enrich_internal_persons_with_ids.py:292-311 | the store's records, counter, success count and PUTs become those of the whole-run specification over the rows |
| InternalPersons.ExtendsTrans | src/enrich_internal_persons_with_ids.py:174-177 | "only adds identifiers" is transitive |
| InternalPersons.StepExtends | src/enrich_internal_persons_with_ids.py:300-308 | one row never removes or reorders a record's identifiers or its ORCID |
| InternalPersons.RunNeverRemoves | src/enrich_internal_persons_with_ids.py:292-311 | over a run each row is counted once, successes grow by at most one per row, and no record loses an identifier or ORCID |
| InternalPersons.RunPuts | src/enrich_internal_persons_with_ids.py:303-308 | when test_choice is not "no" nothing is sent; otherwise exactly one PUT per success |
| InternalPersons.RepeatedRowIsNoop | src/enrich_internal_persons_with_ids.py:295-308 | in a live run (`test_choice` 'no') processing the same row twice: the second time changes no record, counts no success and sends nothing |
| InternalPersons.RepeatedRowInTestRun | src/enrich_internal_persons_with_ids.py:206-212 | in a test run (the loop at src/enrich_internal_persons_with_ids.py:300-308) check_new_ids still writes the ORCID into the in-memory record, so a repeated row changes no record and sends nothing, and counts as a success again exactly when it proposes identifier types the record lacks |
| InternalPersons.FetchPersonData | src/enrich_internal_persons_with_ids.py:248-289 | the result concatenates the answers of one search per batch of batch_size uuids, a failed request contributing nothing; every record returned came from some batch's answer |
| ExternalPersons.ExtractIdCases | src/enrich_pure_external_persons.py:69-92 | a missing or empty id normalises to "", the prefix followed by a bare id to that id, and any other text is left as it is |
| ExternalPersons.ExtractIdIdempotent | src/enrich_pure_external_persons.py:69-92 | normalising an already normalised id changes nothing |
| ExternalPersons.OrcidAndOpenalexCases | src/enrich_pure_external_persons.py:69-92 | the ORCID and OpenAlex normalisers strip their own URL prefix and map a missing id to "" |
| ExternalPersons.GetRoFromOpenalex | src/enrich_pure_external_persons.py:93-111 | the result is the first work whose doi is exactly the DOI URL of the item, case-sensitive; None only when no work has it |
| ExternalPersons.GetRoFromPure | src/enrich_pure_external_persons.py:112-148 | the result is the first work carrying the normalised target DOI in a version doi or a link url; None only when no work carries it |
| ExternalPersons.NormalizeDoiIgnoresPrefixAndCase | src/enrich_pure_external_persons.py:112-148 | a DOI with or without the lower-case URL prefix, in any ASCII case, normalises to the same text |
| ExternalPersons.UpperCasePrefixIsKept | src/enrich_pure_external_persons.py:112-148 | an upper-case URL prefix is not removed, because the removal comes before the lower-casing |
| ExternalPersons.CheckNameMatch | src/enrich_pure_external_persons.py:149-172 | an exact name returns its uuid; a one-token name nothing; otherwise the uuid of the first Pure name with the same last token and first initial, and None only when no Pure name has them |
| ExternalPersons.SplitTwoNames | src/enrich_pure_external_persons.py:155 | "first last" splits at its single space into the two names |
| ExternalPersons.SameInitialAndSurnameMatch | src/enrich_pure_external_persons.py:149-172 | two two-token names with the same surname and first initial match, even with different first names |
| ExternalPersons.SameInitialExamples | src/enrich_pure_external_persons.py:149-172 | "J. Smith" matches "John Smith", and "John Smith" matches "Jane Smith" |
| ExternalPersons.SingleTokenNoMatch | src/enrich_pure_external_persons.py:155-157 | a single-token name that is not a key matches nothing |
| ExternalPersons.MatchPersonsOaPure | src/enrich_pure_external_persons.py:173-233 | the three loops compute the common-author list of the two name tables |
| ExternalPersons.PureAuthorsLastWins | src/enrich_pure_external_persons.py:193-206 | a name is in the Pure table exactly when some external contributor with a first or last name has it, and it maps to the uuid of the last such contributor |
| ExternalPersons.AlexAuthorsDistinct | src/enrich_pure_external_persons.py:178-186 | the OpenAlex table has each display name once |
| ExternalPersons.CommonAuthorsExact | src/enrich_pure_external_persons.py:212-223 | one entry per OpenAlex author that check_name_match pairs with a non-empty uuid, and every such author contributes its entry |
| ExternalPersons.CommonAuthorsDistinctNames | src/enrich_pure_external_persons.py:212-223 | distinct OpenAlex names give distinct output names |
| ExternalPersons.CommonNamesOrdered | src/enrich_pure_external_persons.py:212-223 | output entries follow the order of the OpenAlex table |
| ExternalPersons.IdentifierExists | src/enrich_pure_external_persons.py:235-239 | true exactly when some identifier has both the type URI and the id |
| ExternalPersons.ProcessExternalRow | src/enrich_pure_external_persons.py:260-341 | one iteration performs the per-row step of update_externalpersons_pure |
| ExternalPersons.ExternalPersonStore.constructor | src/enrich_pure_external_persons.py:241 | the store starts with the fetched records |
| ExternalPersons.ExternalPersonStore.UpdateExternalPersonsPure | src/enrich_pure_external_persons.py:241-345 | the records, the two counters and the PUTs become those of the whole-run specification over the rows |
| ExternalPersons.OrcidAppendedIff | src/enrich_pure_external_persons.py:276-316 | the ORCID object is appended exactly when the row has an ORCID and no identifier has both the ORCID type and that id; an ORCID identifier with another id does not prevent it |
| ExternalPersons.StepFoundIff | src/enrich_pure_external_persons.py:253-266 | a row finds a record exactly when its uuid is a record's uuid |
| ExternalPersons.ExtRunCounts | src/enrich_pure_external_persons.py:259-341 | each row with a record bumps exactly one of updated and already; rows without one bump neither; no record loses, edits or reorders an identifier |
| ExternalPersons.RepeatedExtRowAddsNothing | src/enrich_pure_external_persons.py:301-341 | a repeated row adds nothing the second time, counts as already complete and sends no PUT |
| ExternalPersons.SelectPersonsResearchoutput | src/enrich_pure_external_persons.py:454-480 | the nested loops collect, per faculty and person-root, the DOIs of the journal articles known to both Pure and OpenAlex |
| ExternalPersons.BothSystemsDoisClean | src/enrich_pure_external_persons.py:466-472 | every selected DOI is a key prefix without '\|', at most one per output |
| ExternalPersons.ValidDoiExamples | src/enrich_pure_external_persons.py:607 | the DOI pattern wants "10.", four to nine digits, "/" and a non-empty suffix |
| ExternalPersons.FilterValidDois | src/enrich_pure_external_persons.py:607-610 | a DOI is kept exactly when it is in the input and matches the pattern |
| ExternalPersons.FetchOpenalexWorks | src/enrich_pure_external_persons.py:590-657 | the works are those of every result page of every 40-DOI request over the valid DOIs, and a request that fails on every retry raises RetryError and ends the run |
| ExternalPersons.OaFetchedOk | src/enrich_pure_external_persons.py:620-646 | the fetch succeeds exactly when every request obtained its pages; otherwise it raises RetryError, which the `except RequestException` clause does not catch |
| ExternalPersons.OaFetchedRaisedStays | src/enrich_pure_external_persons.py:628-646 | once a batch has failed, the later batches do not change the outcome |
| ExternalPersons.CollectPages | src/enrich_pure_external_persons.py:636-646 | the works of one request are those of its first page and of every following page, in page order |
| ExternalPersons.OpenalexRequestsValid | src/enrich_pure_external_persons.py:607-617 | every request holds between one and 40 DOIs, all valid and all from the input |
| ExternalPersons.FetchPureResearchoutputs | src/enrich_pure_external_persons.py:493-589 | the works are the items of the successful searches over the distinct DOIs, 10 to a search |
| ExternalPersons.PureRequestsOnce | src/enrich_pure_external_persons.py:516-520 | every input DOI is requested from Pure exactly once |
| ExternalPersons.GetExternalPersonsData | src/enrich_pure_external_persons.py:350-400 | the records are the items of the successful 500-uuid searches over the rows' uuids, in order |
| ExternalPersons.MatchPersons | src/enrich_pure_external_persons.py:481-492 | a result exists only when the DOI is found on both sides and at least one author matches; every entry has a uuid and a name |
| ExternalPersons.MatchAllPersons | src/enrich_pure_external_persons.py:658-668 | the matched authors of every DOI, concatenated in DOI order; every entry has a uuid and a name |
| PurePersons.ExtractOrcid | src/pure_persons.py:42-45 | the ORCID is the part after the last '/': a suffix of the URL with no '/' in it, and a value without '/' is returned unchanged |
| PurePersons.ExtractOrcidOfUrl | src/pure_persons.py:42-45 | extracting from "https://orcid.org/" followed by a bare id gives that id back (round trip) |
| PurePersons.ConstructPersonDetail | src/pure_persons.py:49-97 | the loop builds the person detail of the specification: uuid, names and the selected associations, or the raise of the date comparison |
| PurePersons.NoRefKeepsAll | src/pure_persons.py:76-90 | without a reference date every association is kept, one per staff association, in order |
| PurePersons.RefKeepsActive | src/pure_persons.py:69-83 | with a reference date the associations kept are exactly those whose period contains it, in order, an absent end date counting as 9999-12-31; the comparison raises exactly when some association has no start date, or has a start on or before the reference date and a null end date |
| PurePersons.GetActiveAssociations | src/pure_persons.py:212-247 | no details or no date gives None; otherwise the details with only the associations whose two dates enclose the reference date |
| PurePersons.KeepActiveExact | src/pure_persons.py:233-246 | an association survives if and only if it is in the input and active on the date; the list never grows |
| PurePersons.KeepActiveOfActive | src/pure_persons.py:233-246 | a list of active associations is kept whole |
| PurePersons.KeepActiveIdempotent | src/pure_persons.py:212-247 | filtering twice on the same date is filtering once |
| PurePersons.FindPerson | src/pure_persons.py:99-207 | the lookup returns what the uuid-fetch, identifier-search, name-search cascade of the specification returns |
| PurePersons.ViaIdsFirstUnique | src/pure_persons.py:138-163 | the identifier stage returns the person of the first identifier whose search has exactly one hit, tagged with the type; with no such identifier it falls through to the name search |
| PurePersons.FindPersonCascade | src/pure_persons.py:124-207 | a successful uuid fetch decides, untagged; otherwise the first single-hit identifier search decides; only then is the name searched |
| PurePersons.KnownAsLastWins | src/pure_persons.py:182-196 | among several name hits the person chosen is the LAST whose "known as" first and last name equal the contributor's; none matching gives no person |
| PurePersons.FindExternalPerson | src/pure_persons.py:249-287 | the loop over the identifiers returns the specification's uuid, ORCID and OpenAlex id |
| PurePersons.ExternalLookupLastWins | src/pure_persons.py:249-287 | the uuid is the single hit of an identifier search with no later single hit, None exactly when no search had one hit; the ORCID and the OpenAlex id are the normalised values of the last ORCID and the last OpenAlex identifier, None when there is none |
| PurePersons.ExternalPersonPayload | src/pure_persons.py:289-343 | the payload keeps the names; `identifiers` is present exactly when an ORCID or an OpenAlex id is given, with one object each, the ORCID first |
| PurePersons.FindExternalOrg | src/pure_persons.py:345-374 | a uuid is returned exactly when the ROR is given and its search has one hit, and it is that hit |
| PurePersons.UniqueByUuidUuids | src/pure_researchoutputs.py:390-399 | the de-duplicated associations carry the distinct uuids, in order of first occurrence |
| PurePersons.UniqueByUuidKeepsFirst | src/pure_researchoutputs.py:394-397 | every association kept is the first one with its uuid |
| PurePersons.DedupeAssociations | src/pure_researchoutputs.py:390-399 | the seen-set loop computes the first-occurrence de-duplication by uuid |
| Identifiers.IdOrValue | src/enrich_internal_persons_with_ids.py:183 | `entry.get('id') or entry.get('value')`: the id when it is truthy, else the value |
| Identifiers.ClassifiedId | src/enrich_internal_persons_with_ids.py:169-173 | a new ClassifiedId has the given id and type URI |
| ExternalOrgs.IdName | src/enrich_pure_external_orgs.py:481-482 | an identifier's name is its English type term when it has a type, otherwise its idSource |
| ExternalOrgs.NamedId | src/enrich_pure_external_orgs.py:480-486 | an identifier becomes a name/id pair exactly when both its name and its id-or-value are non-empty |
| ExternalOrgs.PureDetailFor | src/enrich_pure_external_orgs.py:457-493 | a requested uuid has a detail exactly when the bulk answer holds a record with it, built from the first such record |
| ExternalOrgs.NamedIds | src/enrich_pure_external_orgs.py:480-486 | the loop keeps the identifiers that have a name and a value, in order |
| ExternalOrgs.GetExtOrgdataPure | src/enrich_pure_external_orgs.py:455-497 | one detail per requested uuid found in the bulk answer, in request order; the others are skipped |
| ExternalOrgs.PureDetailsExact | src/enrich_pure_external_orgs.py:466-496 | every detail belongs to a found uuid, in request order, and no found uuid is missed |
| ExternalOrgs.NamedIdsNonEmpty | src/enrich_pure_external_orgs.py:485-486 | every pair kept has a non-empty name and id |
| ExternalOrgs.OaDetailFor | src/enrich_pure_external_orgs.py:503-536 | an institution has a detail exactly when the bulk answer has a result with its id, built from the first such result |
| ExternalOrgs.GetExtOrgdataOpenalex | src/enrich_pure_external_orgs.py:500-538 | one detail per unique institution found in the bulk answer, in key order; the others are skipped |
| ExternalOrgs.MatchFor | src/enrich_pure_external_orgs.py:76-92 | a Pure organisation has a match exactly when some institution has its name, and the match is the first such institution |
| ExternalOrgs.MatchOrganizations | src/enrich_pure_external_orgs.py:67-95 | the nested loop with its break yields the match of each Pure organisation that has one |
| ExternalOrgs.MatchesInPureOrder | src/enrich_pure_external_orgs.py:67-95 | at most one match per Pure organisation, in Pure order, each carrying that organisation's uuid |
| ExternalOrgs.UniqueInstitutionsFirst | src/enrich_pure_external_orgs.py:111-117 | the entry under a non-empty OpenAlex id is built from the first institution with that id; there is none when no institution has it |
| ExternalOrgs.ContributorOrgsMembers | src/enrich_pure_external_orgs.py:129-135 | a uuid is gathered from the contributors exactly when some contributor lists it |
| ExternalOrgs.ExternalOrganizationUuidsMembers | src/enrich_pure_external_orgs.py:119-145 | the research output's set holds every non-empty uuid of a contributor's or a top-level external organisation, and nothing else |
| ExternalOrgs.CollectInstitutions | src/enrich_pure_external_orgs.py:101-117 | the loops build the unique-institution table and add every ROR, a missing one included, to oa_ids |
| ExternalOrgs.CollectExternalUuids | src/enrich_pure_external_orgs.py:119-145 | the loops compute the set of non-empty external organisation uuids |
| ExternalOrgs.MatchOrgsOaPure | src/enrich_pure_external_orgs.py:97-154 | exactly one entry is appended to article_orgs; uuids grows by the output's external organisations and oa_ids by every institution's ROR |
| ExternalOrgs.WithIdentifiers | src/enrich_pure_external_orgs.py:210-211 | a record without identifiers gets an empty list; a record with them is unchanged |
| ExternalOrgs.StageFor | src/enrich_pure_external_orgs.py:192-225 | a match is staged exactly when it has a ROR whose identifier object is not an element of the fetched record's identifiers |
| ExternalOrgs.StageExternalOrgs | src/enrich_pure_external_orgs.py:162-226 | the review rows and the JSON records written are the two halves of the staged pairs, so they stay aligned |
| ExternalOrgs.StagedExact | src/enrich_pure_external_orgs.py:183-225 | exactly the matches with a ROR the record lacks are staged, in order, each row marked 'X' beside the fetched record, without the new ROR appended |
| ExternalOrgs.ExtraKeysStageAgain | src/enrich_pure_external_orgs.py:214 | a record holding the same ROR with extra keys in the identifier object does not count as holding it, so the match is staged again |
| ExternalOrgs.OtherLocaleStagesAgain | src/enrich_pure_external_orgs.py:199-214 | a record holding the same ROR, type uri and English term whose `term` also has another locale does not count as holding it, so the match is staged again |
| ExternalOrgs.SameRorNotStaged | src/enrich_pure_external_orgs.py:214 | a record already holding the identical ROR object is not staged |
| MergeOrgs.ReadRors | src/merge_external_orgs.py:81-85 | the loop collects the second cell of each row |
| MergeOrgs.ReadRorsExact | src/merge_external_orgs.py:81-85 | the RORs read are the second cells of exactly the rows with at least two cells, in file order |
| MergeOrgs.FetchOrgData | src/merge_external_orgs.py:36-78 | the result concatenates the answers of one search per batch of RORs |
| MergeOrgs.FetchedFrom | src/merge_external_orgs.py:56-71 | batch k is the slice starting at offset k times the batch size, and an entry is fetched exactly when some answered batch returned it |
| MergeOrgs.RorIdsMember | src/merge_external_orgs.py:93-94 | an id is a ROR id of an entry exactly when one of its identifiers is typed "ROR ID" with that id |
| MergeOrgs.PairsMember | src/merge_external_orgs.py:89-98 | a pair is extracted exactly when some entry has that non-empty uuid and a "ROR ID" identifier with that id |
| MergeOrgs.ExtractPairs | src/merge_external_orgs.py:89-98 | the loop over datatotal builds the list of uuid/ROR pairs |
| MergeOrgs.ClusterByRor | src/merge_external_orgs.py:99-106 | the loop builds the ROR-to-uuid-set clustering |
| MergeOrgs.UuidsForMember | src/merge_external_orgs.py:101-106 | a uuid is in a ROR's set exactly when it is paired with that ROR |
| MergeOrgs.ClusterKeys | src/merge_external_orgs.py:99-106 | the clustering has one key per distinct ROR, in order of first appearance |
| MergeOrgs.ClusterDistinct | src/merge_external_orgs.py:99-106 | the clustering has no repeated key |
| MergeOrgs.ClusterGet | src/merge_external_orgs.py:99-106 | the set under each ROR holds exactly the distinct uuids paired with it; a ROR no pair mentions has no set |
| MergeOrgs.KeepSharedGet | src/merge_external_orgs.py:110 | the filter keeps a ROR's set exactly when it has more than one uuid |
| MergeOrgs.KeepSharedKeys | src/merge_external_orgs.py:110 | the filter adds no key |
| MergeOrgs.KeepSharedDistinct | src/merge_external_orgs.py:110 | the result has no repeated key |
| MergeOrgs.SharedRors | src/merge_external_orgs.py:89-110 | a ROR appears in the saved result exactly when two different organisations carry it, and then with every organisation that carries it |
| MergeOrgs.RepeatedPairIgnored | src/merge_external_orgs.py:104-106 | a pair seen before changes nothing: each organisation counts once per ROR |
| MergeOrgs.MergeExternalOrgs | src/merge_external_orgs.py:80-110 | the script's result is the shared-ROR filter over the clustering of the pairs of the fetched entries, with distinct keys |
| ResearchOutputs.GetContributorsDetails | src/pure_researchoutputs.py:184-230 | the two passes compute the contributor table of the specification: internal lookups first, then, only if one was found, external lookup or creation |
| ResearchOutputs.FirstPassKeys | src/pure_researchoutputs.py:188-198 | the first pass keys the table by contributor name, in order of first appearance |
| ResearchOutputs.FirstPassFlag | src/pure_researchoutputs.py:188-198 | the "found" flag is set exactly when some contributor was found internally |
| ResearchOutputs.SecondPassKeeps | src/pure_researchoutputs.py:199-226 | the second pass keeps the keys and every internal person, and changes nothing unless test is "no" |
| ResearchOutputs.ContributorsDetailsShape | src/pure_researchoutputs.py:184-230 | for any internal lookup (the real one included): None exactly when the lookup finds no contributor; otherwise every contributor name is a key once, and with test other than "no" no external person is filled in |
| ResearchOutputs.ContributorJsonOf | src/pure_researchoutputs.py:404-474 | an internal detail gives an internal association with its uuid and organisations; an external one gives an external association whose externalOrganizations is present exactly when extorgui is truthy |
| ResearchOutputs.DedupedPersons | src/pure_researchoutputs.py:387-399 | the table after the first loop pairs each name with its de-duplicated detail |
| ResearchOutputs.FormatContributors | src/pure_researchoutputs.py:384-476 | the two loops de-duplicate every internal person's associations in place and then format one contributor per present entry |
| ResearchOutputs.FormattedMatchesPresent | src/pure_researchoutputs.py:404-474 | there is one formatted contributor per entry that is not None, in order, and it is that entry's association |
| ResearchOutputs.DedupedDistinct | src/pure_researchoutputs.py:390-399 | after de-duplication no internal person lists the same organisation twice |
| ResearchOutputs.FormatOrganizationsFromContributors | src/pure_researchoutputs.py:328-382 | the loop yields the distinct association uuids, the distinct truthy external organisations and the managing organisation, an empty one becoming None |
| ResearchOutputs.CollectOrgs | src/pure_researchoutputs.py:345-370 | one contributor adds its association uuids and its truthy external organisation to the two sets, and sets the managing organisation only while none is set |
| ResearchOutputs.AllOrgsMembers | src/pure_researchoutputs.py:353-359 | every organisation collected is an association uuid of some internal contributor, and every such uuid is collected |
| ResearchOutputs.ManagingIsFirst | src/pure_researchoutputs.py:345-348 | the managing organisation is the first association of the first contributor that has one; None only when none has one |
| ResearchOutputs.GetJournalUuid | src/pure_researchoutputs.py:254-275 | the uuid is the last item's uuid when there are items and it is not empty; otherwise None |
| ResearchOutputs.UniqueFieldsPerType | src/pure_researchoutputs.py:550-585 | an article with ISSN '' or 'No ISSN' or without a journal for it sets the error flag, and the journal is looked up exactly for an article with another ISSN; a dissertation with at least one supervisor raises TypeError (its name string reaches `contributor['name']` in find_person, src/pure_researchoutputs.py:504-507 and src/pure_persons.py:117); other types never set the flag |
| ResearchOutputs.ParseKeywords | src/pure_researchoutputs.py:232-252 | one keyword container with the fixed Pure ids, logical name and locale, holding the free keywords |
| ResearchOutputs.ConstructResearchOutputJson | src/pure_researchoutputs.py:278-324 | the contributor count is the number of OpenAlex contributors, the DOI is the electronic version and the only link, and externalOrganizations is present exactly when the formatted list is non-empty |
| ResearchOutputs.CheckResearchInPure | src/pure_researchoutputs.py:593-621 | true exactly when the search succeeds and some returned item has an electronic version whose doi is exactly the DOI after its last "org/" |
| Datasets.SplitName | src/pure_datasets.py:54-72 | no name or an empty one gives (None, None); otherwise the trimmed name is cut at its first space, a single token giving (token, '') |
| Datasets.SplitNameExamples | src/pure_datasets.py:63-72 | None and "" give (None, None); "Ada" gives ("Ada", "") |
| Datasets.FormatDoi | src/pure_datasets.py:73-85 | None stays None; a string not mentioning "doi" in any case is returned unchanged |
| Datasets.FormatDoiHttps | src/pure_datasets.py:80-85 | a "https://doi.org/" URL is cut to its suffix |
| Datasets.FormatDoiBare | src/pure_datasets.py:80-85 | a "doi.org/" URL is cut to its suffix |
| Datasets.FindDataset | src/pure_datasets.py:108-118 | a uuid that is fetched gives [uuid]; a uuid that is not found gives None; no uuid and no search string gives None; otherwise the uuids of the DOI-formatted search's items |
| Datasets.Uuids | src/pure_datasets.py:117 | a uuid is listed exactly when some item has it |
| Datasets.DatasetPersonPayload | src/pure_datasets.py:131-156 | the payload keeps the names and has an identifiers list exactly when an ORCID is given, holding the one normalised ORCID object |
| Datasets.FirstPassLoop | src/pure_datasets.py:175-186 | the first loop looks up every person, keyed by full name, and sets the flag on any hit |
| Datasets.FindLastOrcid | src/pure_datasets.py:205-209 | the ORCID submitted on creation is the value of the last key that lower-cases to "orcid", or '' |
| Datasets.ResolveExternal | src/pure_datasets.py:191-231 | a person not found internally becomes the found external person, a created one, or the placeholder entry when creation fails |
| Datasets.GetContributorsDetails | src/pure_datasets.py:170-237 | the two loops compute the specification's contributor table |
| Datasets.FirstPassCovers | src/pure_datasets.py:175-186 | every person's full name is a key after the first pass |
| Datasets.FirstPassFlag | src/pure_datasets.py:180-186 | the flag is set exactly when some person was found internally |
| Datasets.SecondPassFills | src/pure_datasets.py:188-231 | the second pass gives every visited None entry a value and keeps the others |
| Datasets.ContributorsDetailsFilled | src/pure_datasets.py:170-237 | for any internal lookup (the real one included): None exactly when the lookup finds no person; otherwise every person's full name has an entry and none of them is None |
| Datasets.DsContributorJsonOf | src/pure_datasets.py:258-299 | an external entry gives the external association with the fixed contributor role; an internal one gives the role its type maps to, and raises a KeyError when the type is not mapped; a None entry raises a TypeError |
| Datasets.FormatContributors | src/pure_datasets.py:238-301 | the associations of every internal person are de-duplicated in place, then one association is formatted per entry |
| Datasets.FormattedLength | src/pure_datasets.py:258-299 | a table without None entries whose types are all mapped is formatted without error, one association per entry, in order |
| Datasets.FormatOrganizationsFromContributors | src/pure_datasets.py:302-340 | a None entry raises a TypeError; otherwise the distinct association uuids, or the default university alone when there are none, and the first contributor's first association as managing organisation, falling back to the default |
| Datasets.CollectOrgs | src/pure_datasets.py:316-325 | one contributor adds its association uuids to the set and sets the managing organisation only while none is set |
| Datasets.DedupeEmpty | src/pure_datasets.py:330-332 | the default is used only when no organisation uuid was found at all |
| Datasets.FindPublisher | src/pure_datasets.py:342-372 | a failed request gives None, a non-200 answer gives the default, and an answer gives the first item named exactly like the publisher or else the default |
| Datasets.FindPublisherFirst | src/pure_datasets.py:354-359 | the first item with an equal name wins; later equal names are never reached |
| Datasets.FormatDescription | src/pure_datasets.py:373-391 | the description object holds the text, the dataset description type and the term "Description" |
| Datasets.DatePart | src/pure_datasets.py:396 | the date part is the first ten characters of created, or all of it when shorter |
| Datasets.ConstructDatasetJson | src/pure_datasets.py:392-440 | the record exists exactly when the date part splits on '-' into three parts, which joined with '-' give it back; an empty DOI is written as 'n/a' |
| Datasets.DatasetDateExample | src/pure_datasets.py:396-399 | a DataCite timestamp yields year, month and day, and an empty DOI becomes 'n/a' |
| ApplyUpdates.Done | src/apply_updates_to_pure.py:149-150 | a row that went through has updated set to the marker and to_be_updated cleared, all else kept |
| ApplyUpdates.IndexOf | src/apply_updates_to_pure.py:158 | the index of the first occurrence of the column |
| ApplyUpdates.ReorderColumnsMoves | src/apply_updates_to_pure.py:157-159 | the updated column moves to second place and every other column keeps its relative order; the columns are a permutation of the old ones |
| ApplyUpdates.UpdateEntry | src/apply_updates_to_pure.py:129-141 | the loop over the group applies every row to the record |
| ApplyUpdates.ApplyGroupEffect | src/apply_updates_to_pure.py:129-141 | the record sent has every non-ORCID row's identifier appended after the existing ones in row order, the ORCID of the last ORCID row (the old one when there is none), and nothing else touched |
| ApplyUpdates.MarkGroup | src/apply_updates_to_pure.py:149-150 | marking a group keeps the number of rows |
| ApplyUpdates.InternalOutcome | src/apply_updates_to_pure.py:119-154 | a row is marked done exactly when it was pending with 'X' and the PUT for its person answered 200; every other row is left as it was; one PUT per group whose person is in Pure's list |
| ApplyUpdates.OnePutPerPerson | src/apply_updates_to_pure.py:122-145 | each pending person is sent at most once |
| ApplyUpdates.PendingKeysMember | src/apply_updates_to_pure.py:119-122 | a person is a group key exactly when some row for it is marked 'X' |
| ApplyUpdates.SecondRunResendsOnlyFailures | src/apply_updates_to_pure.py:108-166 | re-running the pass leaves rows that went through alone and resends only persons whose first PUT failed or who had no record |
| ApplyUpdates.FindJsonByUuid | src/apply_updates_to_pure.py:170-176 | the first record whose UUID or uuid is the target; None only when no record has it |
| ApplyUpdates.ExternalOutcomeCases | src/apply_updates_to_pure.py:180-197 | a row is marked done exactly when it is pending with 'X', Pure's list has its record and the PUT answered 200; applying the outcome twice is applying it once |
| ApplyUpdates.DoiToDatasetLastWins | src/apply_updates_to_pure.py:243 | the doi map finds a dataset exactly when some dataset has that doi, and then the last such dataset |
| ApplyUpdates.ImportOutcomeCases | src/apply_updates_to_pure.py:212-226 | an import row is marked exactly when it is pending with the lower-case 'x' and its item was found; a second run changes nothing |
| ApplyUpdates.OutputFoundFirst | src/apply_updates_to_pure.py:215-216 | a research output is found exactly when some version's doi ends with the row's doi, and the first such item is taken |
| ApplyUpdates.ReviewTable.constructor | src/apply_updates_to_pure.py:108 | the table holds the columns and rows read from the CSV file |
| ApplyUpdates.ReviewTable.MarkGroupRows | src/apply_updates_to_pure.py:149-150 | the group's rows are marked in place and the columns are untouched |
| ApplyUpdates.ReviewTable.ProcessGroup | src/apply_updates_to_pure.py:123-154 | one group changes the table and PUT list as one step of the specification |
| ApplyUpdates.ReviewTable.ProcessInternalPersons | src/apply_updates_to_pure.py:108-166 | the table and the PUTs become those of the run over the pending persons, and the updated column is moved to second place |
| ApplyUpdates.ReviewTable.ExternalRow | src/apply_updates_to_pure.py:181-197 | one row is replaced by its outcome and nothing else changes |
| ApplyUpdates.ReviewTable.ProcessExternalRecords | src/apply_updates_to_pure.py:178-208 | every row becomes its outcome, the PUTs are those of the pending rows with a record, in row order, and the updated column moves to second place |
| ApplyUpdates.ReviewTable.ProcessResearchOutput | src/apply_updates_to_pure.py:211-237 | every row becomes its import outcome and the items created are those found for the pending rows |
| ApplyUpdates.ReviewTable.ProcessDatasets | src/apply_updates_to_pure.py:240-269 | every row becomes its import outcome against the doi map and the datasets created are those found for the pending rows |
| RicgraphDatasets.SelectFaculties | src/update_datasets_from_ricgraph.py:76-91 | "all" in any letter case selects every faculty key, anything else is the one faculty named |
| RicgraphDatasets.RootDois | src/update_datasets_from_ricgraph.py:115-119 | one DOI per dataset neighbour of a person root, in order, each the key's part before '\|' |
| RicgraphDatasets.CollectFaculty | src/update_datasets_from_ricgraph.py:110-119 | the loop over one faculty's person roots appends exactly that faculty's DOIs to data |
| RicgraphDatasets.SelectPersonsDatasetsAsWritten | src/update_datasets_from_ricgraph.py:93-121 | as written: "all" gives every dataset's DOI; otherwise only the LAST faculty's DOIs survive the reset, and no faculty at all leaves data unbound |
| RicgraphDatasets.SelectPersonsDatasets | src/update_datasets_from_ricgraph.py:93-121 | corrected: "all" gives every dataset's DOI; otherwise the DOIs of all selected faculties, concatenated in faculty order |
| RicgraphDatasets.AllFacultyDoisMember | src/update_datasets_from_ricgraph.py:107-119 | a DOI is selected exactly when some person root with a key of some selected faculty neighbours a dataset whose key yields it |
| RicgraphDatasets.FacultyDoisMember | src/update_datasets_from_ricgraph.py:112-119 | a DOI comes from a faculty exactly when one of its keyed person roots neighbours a dataset with that DOI |
| RicgraphDatasets.OneRootOneDataset | src/update_datasets_from_ricgraph.py:112-119 | one person root with one dataset neighbour contributes exactly that DOI |
| RicgraphDatasets.CapitalAllSelectsEveryFaculty | src/update_datasets_from_ricgraph.py:86-87 | "All" selects every faculty in select_faculties although it is not equal to "all" |
| RicgraphDatasets.MixedCaseAllDropsFaculties | src/update_datasets_from_ricgraph.py:95-112 | with "All" and two faculties of one dataset each, the as-written loop returns only the second DOI and the corrected one returns both |
| RicgraphDatasets.TwoFaculties | src/update_datasets_from_ricgraph.py:107-119 | the corrected loop over two faculties concatenates their DOIs |
| RicgraphDatasets.DoiOfKey | src/update_datasets_from_ricgraph.py:118 | the DOI of a key "doi\|category" whose DOI has no '\|' is that DOI |
| RicgraphDatasets.ProcessRow | src/update_datasets_from_ricgraph.py:157-189 | one iteration performs the per-row step of df_to_pure |
| RicgraphDatasets.CreateRow | src/update_datasets_from_ricgraph.py:165-179 | a row whose contributors were found is collected and staged with its DOI and title, and counted as created, unless building its record raises |
| RicgraphDatasets.BuildDataset | src/update_datasets_from_ricgraph.py:165-169 | the record is the one built from the formatted contributors and organisations, or the first raise among the three steps |
| RicgraphDatasets.DfToPure | src/update_datasets_from_ricgraph.py:144-211 | the counters and the two staged lists are those of the whole-run specification over the rows, or the raise of the first row that raises |
| RicgraphDatasets.DfRunCounts | src/update_datasets_from_ricgraph.py:157-189 | a pass that does not raise counts every row once: ignored by the rows already in Pure, no_internal by those without internal contributors, created by the rest; each created dataset has its review row 'x', ' ', doi, title, aligned |
| Works.KeyDoi | src/enrich_pure_external_persons.py:471 | the DOI is the part of the key before the first '\|': a prefix without '\|', the whole key when it has none |
| Datacite.FirstAffiliationName | src/datacite_utils.py:20-29 | a first item that is a dict gives its name, or 'None' when it has none; a first item that is a string gives the string; anything else gives 'None' |
| Datacite.LastIdentifierFor | src/datacite_utils.py:63-67 | the identifier of the last entry with the scheme and a non-empty identifier; None only when there is none |
| Datacite.PersonIdsLastWins | src/datacite_utils.py:63-67 | a scheme maps to the identifier of its last entry with a non-empty identifier, and schemes without one are absent |
| Datacite.PersonIdsDistinct | src/datacite_utils.py:63-67 | each scheme occurs once in person_ids |
| Datacite.NameSplitRoundTrip | src/datacite_utils.py:50-58 | the given and family name put back together with the separator used give the name again |
| Datacite.CommaNameNotSwapped | src/datacite_utils.py:54-58 | "Doe, Jane" is taken apart without trimming or swapping: given "Doe", family " Jane" |
| Datacite.CreatorPersonCases | src/datacite_utils.py:48-77 | a creator enters persons exactly when it has both a given and a family name, or neither but a name; its names are kept as they are, with type "creator" |
| Datacite.ParseCreators | src/datacite_utils.py:48-77 | the loop keeps one person per qualifying creator, in order |
| Datacite.ParsedRecord | src/datacite_utils.py:42-92 | the record exists exactly when there is a title and a valid created timestamp; it has the first title, the DOI, the first description or the default text, and the parsed persons |
| Datacite.ParseDataciteResponse | src/datacite_utils.py:42-92 | the parse returns the record of the specification |
| Datacite.DataciteRecordsFilter | src/datacite_utils.py:94-100 | without a raise the result is the fetched records with the failed fetches dropped, in order; it raises exactly when some DOI's record raises |
| Yoda.Consumed | src/yoda_utils.py:74 | a directive of the strptime format consumes one to four characters, the alternatives of CPython's format regular expression tried in order, and what follows is the next literal (in either case) or a directive's digit |
| Yoda.ParseDate | src/yoda_utils.py:65-82 | a missing value raises a TypeError; otherwise the first of the two formats that parses gives its date, always a valid calendar date, and a string neither parses gives None |
| Yoda.NumberValueBound | src/yoda_utils.py:74 | a piece of n digits has a value below 10 to the n |
| Yoda.YearInRange | src/yoda_utils.py:74 | a parsed year is at most 9999 |
| Yoda.FormatsExclusive | src/yoda_utils.py:70-81 | the date-only and the date-time formats never both parse a string, so their order does not matter |
| Yoda.DayEnds | src/yoda_utils.py:70 | a day at the end of the string is never followed by 'T' |
| Yoda.MatchSepCons | src/yoda_utils.py:70-81 | a literal of the format matches its character in either case (strptime's pattern is compiled with IGNORECASE, so `2024-05-17t10:00:00` parses with the date-time format), and the match then goes on after it |
| Yoda.NumberValuePad2 | src/yoda_utils.py:74 | a number below 100 written with two digits reads back as itself |
| Yoda.NumberValueYear | src/yoda_utils.py:74 | a year below 10000 written with four digits reads back as itself |
| Yoda.IsoDateRoundTrip | src/yoda_utils.py:65-82 | every valid date written YYYY-MM-DD parses back to itself, with the first format and through parse_date |
| Yoda.IsoDateMatches | src/yoda_utils.py:74 | the match of a YYYY-MM-DD date yields its year, month and day |
| Yoda.IdValueOf | src/yoda_utils.py:93-100 | an identifier object is kept exactly when it is not empty, with 'N/A' for a missing scheme or identifier |
| Yoda.FullNameRoundTrip | src/yoda_utils.py:87-88 | the full name splits back at its space into the given and family name, 'Unknown' for a missing one, when neither contains a space |
| Yoda.PersonIdsKept | src/yoda_utils.py:85-111 | person_ids keeps exactly the non-empty identifier objects, in order; every person is typed 'contributor' and has the first affiliation or 'None' |
| Yoda.PersonsOf | src/yoda_utils.py:138-140 | the contributors come first and then the metadata's creators, one person each, in order |
| Yoda.RowOfCases | src/yoda_utils.py:130-152 | the corrected row raises only the TypeError of a missing modified date with no start date; its date is the parse of the start date when that is non-empty, else of the modified date |
| Yoda.RowAsWrittenDiffers | src/yoda_utils.py:130-152 | the code as written raises KeyError exactly when the date does not parse, and otherwise agrees with the corrected row |
| Yoda.SlashDateRaises | src/yoda_utils.py:130-148 | a start date "31/12/2024" parses in neither format, so the code as written raises KeyError while the corrected row has no date |
| Yoda.GetDfFromYoda | src/yoda_utils.py:113-154 | the corrected loop (see Findings): an export that could not be read gives no rows; otherwise one corrected row (`Yoda.RowOf`) per dataset in order, or the first raise. The code as written raises KeyError at the first unparsable date (src/yoda_utils.py:148), which `Yoda.RowAsWritten` and `Yoda.RowAsWrittenDiffers` state |
| Yoda.BuildRow | src/yoda_utils.py:124-152 | the loop body builds the corrected row of one dataset |
| Yoda.RowsOfAligned | src/yoda_utils.py:123-152 | without a raise there is one row per dataset, the i-th built from the i-th dataset |
| PersonsPerPublication.LastValue | src/personsperpublication.py:56-65 | the value of the last field with the name; None only when no field has it |
| PersonsPerPublication.GetIdsAndName | src/personsperpublication.py:53-69 | the loop builds the identifier map and the full name of the specification |
| PersonsPerPublication.FullNameIsLast | src/personsperpublication.py:55-59 | the full name is the value of the last FULL_NAME field, or '' when there is none |
| PersonsPerPublication.IdsAreLast | src/personsperpublication.py:54-65 | the map holds only ORCID, OPENALEX and PURE_UUID_PERS, each once, each exactly when such a field occurs, with the value of its last field |
| PersonsPerPublication.OtherFieldIgnored | src/personsperpublication.py:56-65 | a field of any other name changes neither result |

## Left out

- HTTP requests to Pure, Ricgraph, OpenAlex and DataCite are parameters of the model. A search is a function from the request to its items, or to None for a non-200 status or a failed request whose exception the source catches. An exception raised by a request the source does not wrap in `try` (for example the GET of `fetch_data_for_doi` in `src/datacite_utils.py:33` or the PUT of `src/enrich_internal_persons_with_ids.py:178`) is not modelled. A PUT, POST or create is a function giving a status code or a uuid. Retries (apart from the RetryError that ends `ExternalPersons.FetchOpenalexWorks`), sessions, `verify=False` and `time.sleep` are not modelled.
- File and spreadsheet I/O is not modelled: reading and writing CSV, Excel and JSON, `os.makedirs`, and `safe_load_json`, whose result is a parameter. Logging and `print` are not modelled either. Records are values, so the in-memory mutation that a saved JSON file would show is modelled only through the values the methods return.
- The `ThreadPoolExecutor` in `get_df_from_datacite` and `fetch_openalex_works` is modelled as a sequential loop. `executor.map` keeps the input order, so the results are the same.
- A pandas DataFrame is a sequence of row datatypes, one row type per table. `NaN` and missing cells are `Option` (`InternalPersons.IsNan`).
- `groupby('PURE_UUID_PERS')` visits groups in sorted key order. The model visits them in order of first appearance. `ApplyUpdates.InternalOutcome` holds for any key order, so only the order of the PUTs differs.
- Python sets are sequences without duplicates, in order of first insertion (`Common.Dedupe`, `Common.SetUpdate`). Python's own set order is unspecified, so membership and distinctness are stated, not any particular order.
- JSON lookups that raise `KeyError` on a missing key are not modelled, except the ones the model names. The fields read with `[...]` are assumed present: `item['uuid']`, `row['Pure_UUID']`, `data['creators']`, `data['publisher']`, `['type']['term']`. A JSON `null` and an absent key are both `None`.
- Lower-casing, `strip()` and digit tests are ASCII-only. Unicode case folding and the Unicode digits that Python's `\d` accepts are not modelled.
- Dates of Pure associations are already-parsed integers YYYYMMDD. `parse_date` of `src/pure_persons.py:32` and the `strptime` calls of `construct_person_detail` are not modelled, and `9999-12-31` is the integer 99991231. The two formats of `yoda_utils.parse_date` are modelled on strings.
- Datacite.ParsedRecord: the `strptime(created, '%Y-%m-%dT%H:%M:%S.%fZ')` call is modelled as a `created` value that is present or absent (absent meaning ValueError). Which timestamps are valid, and the exact text `str(datetime)` produces, are not stated.
- `Data_Access_Restriction` is read by `get_df_from_yoda` but never used, and it is not modelled.
- Other operations are not part of this model: every `main`, the web pages, the referer dispatch of `apply_updates_to_pure.py` and the `select_faculties`, `fetch_personroots`, `select_researchoutputs` and `select_datasets` fetchers. Their results are parameters. The same goes for `df_to_pure`, `get_supervisors` (apart from the TypeError its first `find_person` call raises, see `ResearchOutputs.UniqueFieldsPerType`), `create_research_output` and `get_researchoutput` of `pure_researchoutputs.py`, `create_dataset` and `user_choice` of `pure_datasets.py`, `fetch_openalex_rors` and `fetch_pure_extorgs` of `enrich_pure_external_orgs.py`, the people table preparation of `enrich_internal_persons_with_ids.py`, and the test and configuration files.
- ExternalPersons.FetchOpenalexWorks: the `meta.next` pagination is a parameter giving, for each request, the pages it returns, or None when one of its requests fails on all three attempts. Cursor handling, the back-off waits and a request that succeeds on a retry are not modelled separately.
- RicgraphDatasets.ProcessRow: a row's reference date (`refDate`) is the day of `created`, a parameter of the row, and the time of day is dropped. The source compares the full `created` timestamp with end dates parsed at midnight. So an association that ends on the creation day is dropped by the source when `created` is after midnight, but kept by the model, and the contributors' organisations and managing organisation can then differ.
- RicgraphDatasets.DfToPure: the same end-day boundary holds for every row of the pass. Rows carry `refDate` as a day without its time, and nothing ties `refDate` to `created`.
- PurePersons.ActiveOn: dates are whole days (YYYYMMDD), so a reference date with a time of day after midnight on an association's last day counts as active here. The source treats it as after the end.
- ApplyUpdates.NewIdentifier: an empty (NaN) `uri` cell is modelled as the uri '', whereas `row.get('uri', '')` passes the NaN itself into the identifier that is PUT; what the JSON encoder makes of a NaN is not modelled.
- Datasets.FormatDoi: its own contract covers None and strings not mentioning "doi". The two prefix cases are stated by `Datasets.FormatDoiHttps` and `Datasets.FormatDoiBare` only for a suffix that does not repeat "doi.org/".
- Common.RemoveAll: its contracts state only three things: the result is never longer, an absent pattern leaves the string unchanged, and a leading occurrence is removed. They do not say that the result is free of the pattern, which `str.replace` does not promise either.

## Findings

| source | as written | input that shows it | evidently intended | confidence | as-written member | corrected member |
|---|---|---|---|---|---|---|
| src/update_datasets_from_ricgraph.py:108-121 | `data = []` is reset inside the faculty loop, so only the last faculty's DOIs are returned; with no faculty `data` is unbound | faculty choice "All": `select_faculties` lower-cases it and selects every faculty, but the exact test `faculty_choice == 'all'` fails, so the loop runs over two faculties f1 and f2 with datasets d1 and d2 and returns only ["d2"] | `data` started once before the loop, giving the DOIs of every selected faculty (["d1", "d2"]) | not executed; high | RicgraphDatasets.MixedCaseAllDropsFaculties | RicgraphDatasets.SelectPersonsDatasets |
| src/yoda_utils.py:130-150 | `parse_date(...) or {}` turns an unparsable date into `{}`, and `date_info['publication_year']` then raises KeyError, ending the whole export | a dataset whose Start_Date is "31/12/2024" (or any text neither format parses) | a row whose date is missing, so that the other datasets of the export are still read | not executed; medium | Yoda.SlashDateRaises | Yoda.RowOfCases |
