/**
 * Research outputs as the enrichment scripts read them: OpenAlex works with
 * their authorships and institutions, and Pure research outputs with their
 * electronic versions, links, contributors and external organisations.
 */
module Works {
  import opened Common

  /** `authorship['author']` when it is a dict. */
  datatype OaAuthor = OaAuthor(displayName: Option<string>, id: Option<string>, orcid: Option<string>)

  /** An entry of `authorship['institutions']`. */
  datatype OaInstitution = OaInstitution(id: Option<string>, displayName: Option<string>, ror: Option<string>)

  datatype OaAuthorship = OaAuthorship(author: Option<OaAuthor>, institutions: seq<OaInstitution>)

  /** An OpenAlex work; `authorships` is None when the key is missing or null. */
  datatype OaWork = OaWork(doi: Option<string>, authorships: Option<seq<OaAuthorship>>)

  /**
   * A Pure contributor. `externalPerson` is None when the contributor has no
   * `externalPerson` key and otherwise its `uuid` (defaulting to "");
   * `firstName`/`lastName` default to "".
   */
  datatype PureContributor = PureContributor(
    externalPerson: Option<string>,
    firstName: string,
    lastName: string,
    externalOrganizations: seq<Option<string>>)

  /**
   * A Pure research output: the `doi` of each electronic version and the `url`
   * of each additional link (None when the key is absent), its contributors and
   * the uuids of its top-level external organisations.
   */
  datatype PureWork = PureWork(
    uuid: Option<string>,
    versionDois: seq<Option<string>>,
    linkUrls: seq<Option<string>>,
    contributors: seq<PureContributor>,
    externalOrganizations: seq<Option<string>>)

  /** A node key of the form `doi|category`: the DOI is the part before the first '|'. */
  function KeyDoi(key: string): (r: string)
    ensures StartsWith(key, r) && !Contains(r, "|")
    ensures !Contains(key, "|") ==> r == key
  {
    BeforeFirst(key, "|")
  }
}
