/**
 * Enrichment of Pure's external persons from OpenAlex: research outputs known
 * to both systems are matched by DOI, their author lists are matched by name,
 * and the ORCID and OpenAlex ids found are appended to the external person
 * records that lack them.
 */
module ExternalPersons {
  import opened Common
  import opened Identifiers
  import opened Works
  import PurePersons

  const ORCID_PREFIX := "https://orcid.org/"
  const OPENALEX_PREFIX := "https://openalex.org/"
  const DOI_PREFIX := "https://doi.org/"

  // ---------------------------------------------------------------------
  // Identifier normalisation

  /**
   * extract_orcid_id / extract_openalex_id: a URL with the prefix gives the
   * part after its last '/', any other non-empty value is kept, and a missing
   * or empty value gives "".
   */
  function ExtractId(raw: Option<string>, prefix: string): string
  {
    if Truthy(raw) && StartsWith(raw.value, prefix) then AfterLast(raw.value, "/")
    else if Truthy(raw) then raw.value
    else ""
  }

  function ExtractOrcidId(raw: Option<string>): string
  {
    ExtractId(raw, ORCID_PREFIX)
  }

  function ExtractOpenalexId(raw: Option<string>): string
  {
    ExtractId(raw, OPENALEX_PREFIX)
  }

  /** The three cases of the normalisers, for any prefix ending in '/'. */
  lemma ExtractIdCases(prefix: string, v: string, other: string)
    requires |prefix| > 0 && Last(prefix) == '/'
    ensures ExtractId(None, prefix) == "" && ExtractId(Some(""), prefix) == ""
    ensures !Contains(v, "/") ==> ExtractId(Some(prefix + v), prefix) == v
    ensures other != "" && !StartsWith(other, prefix) ==> ExtractId(Some(other), prefix) == other
  {
    if !Contains(v, "/") {
      var p := prefix[..|prefix| - 1];
      assert prefix + v == p + ['/'] + v;
      AfterLastOfTail(p, '/', v);
      assert StartsWith(prefix + v, prefix);
    }
  }

  /** Normalising a normalised id changes nothing. */
  lemma ExtractIdIdempotent(raw: Option<string>, prefix: string)
    requires |prefix| > 0 && Last(prefix) == '/'
    ensures ExtractId(Some(ExtractId(raw, prefix)), prefix) == ExtractId(raw, prefix)
  {
    var r := ExtractId(raw, prefix);
    if Truthy(raw) && StartsWith(raw.value, prefix) && r != "" {
      ContainsLastChar(prefix);
      if StartsWith(r, prefix) {
        StartsWithContains(r, prefix, "/");
      }
    }
  }

  lemma OrcidAndOpenalexCases(v: string)
    requires !Contains(v, "/")
    ensures ExtractOrcidId(Some(ORCID_PREFIX + v)) == v
    ensures ExtractOpenalexId(Some(OPENALEX_PREFIX + v)) == v
    ensures ExtractOrcidId(None) == "" && ExtractOpenalexId(None) == ""
  {
    ExtractIdCases(ORCID_PREFIX, v, "");
    ExtractIdCases(OPENALEX_PREFIX, v, "");
  }

  // ---------------------------------------------------------------------
  // Finding a research output by DOI

  /**
   * get_ro_from_openalex: the first work whose doi is exactly the DOI URL of
   * the item (case-sensitive), or None.
   */
  function GetRoFromOpenalex(item: string, works: seq<OaWork>): (r: Option<OaWork>)
    ensures r.Some? ==> exists i :: 0 <= i < |works| && works[i] == r.value
                          && works[i].doi == Some(DOI_PREFIX + item)
                          && forall j :: 0 <= j < i ==> works[j].doi != Some(DOI_PREFIX + item)
    ensures r.None? ==> forall j :: 0 <= j < |works| ==> works[j].doi != Some(DOI_PREFIX + item)
  {
    match FindFirst(works, (w: OaWork) => w.doi == Some(DOI_PREFIX + item))
    case None => None
    case Some(i) => Some(works[i])
  }

  /** Every `https://doi.org/` removed, then lower-cased. */
  function NormalizeDoi(s: string): string
  {
    Lower(RemoveAll(s, DOI_PREFIX))
  }

  /** Some electronic version doi or additional link url of the work normalises to n. */
  predicate WorkHasDoi(w: PureWork, n: string)
  {
    (exists v :: v in w.versionDois && v.Some? && NormalizeDoi(v.value) == n)
    || (exists u :: u in w.linkUrls && u.Some? && NormalizeDoi(u.value) == n)
  }

  /** get_ro_from_pure: the first work whose versions or links carry the target DOI, compared normalised. */
  function GetRoFromPure(target: string, works: seq<PureWork>): (r: Option<PureWork>)
    ensures r.Some? ==> exists i :: 0 <= i < |works| && works[i] == r.value
                          && WorkHasDoi(works[i], NormalizeDoi(target))
                          && forall j :: 0 <= j < i ==> !WorkHasDoi(works[j], NormalizeDoi(target))
    ensures r.None? ==> forall j :: 0 <= j < |works| ==> !WorkHasDoi(works[j], NormalizeDoi(target))
  {
    var n := NormalizeDoi(target);
    match FindFirst(works, (w: PureWork) => WorkHasDoi(w, n))
    case None => None
    case Some(i) => Some(works[i])
  }

  /**
   * A DOI with or without the lower-case URL prefix, in any ASCII case,
   * normalises to the same text, provided the prefix does not also occur
   * inside it.
   */
  lemma NormalizeDoiIgnoresPrefixAndCase(x: string, y: string)
    requires !Contains(x, DOI_PREFIX) && !Contains(y, DOI_PREFIX) && Lower(x) == Lower(y)
    ensures NormalizeDoi(DOI_PREFIX + x) == NormalizeDoi(y)
    ensures NormalizeDoi(x) == Lower(x)
  {
    RemoveAllPrefix(DOI_PREFIX, x);
    RemoveAllAbsent(x, DOI_PREFIX);
    RemoveAllAbsent(y, DOI_PREFIX);
  }

  /** The removal runs before the lower-casing, so an upper-case prefix stays. */
  lemma UpperCasePrefixIsKept()
    ensures NormalizeDoi("HTTPS://DOI.ORG/10.1/x") != NormalizeDoi("10.1/x")
  {
    var s := "HTTPS://DOI.ORG/10.1/x";
    assert s[..|DOI_PREFIX|] != DOI_PREFIX by { assert s[0] != DOI_PREFIX[0]; }
    assert RemoveAll(s, DOI_PREFIX)[0] == 'H';
    assert NormalizeDoi(s)[0] == 'h';
    assert NormalizeDoi("10.1/x")[0] == '1';
  }

  // ---------------------------------------------------------------------
  // Name matching

  /** Both names have at least two tokens, the same last token and the same initial. */
  predicate InitialSurnameMatch(alexParts: seq<string>, pureName: string)
  {
    var p := Split(pureName, " ");
    |alexParts| >= 2 && |p| >= 2 && Last(alexParts) == Last(p)
    && alexParts[0] != "" && p[0] != "" && alexParts[0][0] == p[0][0]
  }

  /**
   * check_name_match: the uuid stored under the exact name, otherwise the uuid
   * of the first Pure name with the same surname and initial.
   */
  function CheckNameMatch(alexName: string, pure: Dict<string, string>): (r: Option<string>)
    ensures alexName in Keys(pure) ==> r == Get(pure, alexName)
    ensures alexName !in Keys(pure) && |Split(alexName, " ")| < 2 ==> r.None?
    ensures alexName !in Keys(pure) && r.Some? ==>
      exists i :: 0 <= i < |pure| && r.value == pure[i].1
        && InitialSurnameMatch(Split(alexName, " "), pure[i].0)
        && forall j :: 0 <= j < i ==> !InitialSurnameMatch(Split(alexName, " "), pure[j].0)
    ensures alexName !in Keys(pure) && r.None? ==>
      forall j :: 0 <= j < |pure| ==> !InitialSurnameMatch(Split(alexName, " "), pure[j].0)
  {
    if alexName in Keys(pure) then Get(pure, alexName)
    else
      var parts := Split(alexName, " ");
      if |parts| < 2 then None
      else
        match FindFirst(pure, (kv: (string, string)) => InitialSurnameMatch(parts, kv.0))
        case None => None
        case Some(i) => Some(pure[i].1)
  }

  /** Splitting "first last" at its single space. */
  lemma SplitTwoNames(first: string, last: string)
    requires ' ' !in first && ' ' !in last
    ensures Split(first + " " + last, " ") == [first, last]
  {
    NotContainsChar(first, ' ');
    NotContainsChar(last, ' ');
    assert first + " " + last == first + [' '] + last;
    SplitAtChar(first, ' ', last);
    NoSepSplitsToItself(first, " ");
    NoSepSplitsToItself(last, " ");
  }

  /**
   * Two-token names with the same surname and the same initial match, even
   * when the first names differ ("J. Smith" or "John Smith" against "Jane Smith").
   */
  lemma SameInitialAndSurnameMatch(a: string, b: string, last: string, uuid: string)
    requires ' ' !in a && ' ' !in b && ' ' !in last
    requires a != "" && b != "" && a[0] == b[0] && a != b
    ensures CheckNameMatch(a + " " + last, [(b + " " + last, uuid)]) == Some(uuid)
  {
    var pure := [(b + " " + last, uuid)];
    SplitTwoNames(a, last);
    SplitTwoNames(b, last);
    assert Keys(pure) == [b + " " + last];
    assert a + " " + last != b + " " + last;
    assert InitialSurnameMatch(Split(a + " " + last, " "), pure[0].0);
  }

  lemma SameInitialExamples()
    ensures CheckNameMatch("J." + " " + "Smith", [("John" + " " + "Smith", "u1")]) == Some("u1")
    ensures CheckNameMatch("John" + " " + "Smith", [("Jane" + " " + "Smith", "u2")]) == Some("u2")
  {
    SameInitialAndSurnameMatch("J.", "John", "Smith", "u1");
    SameInitialAndSurnameMatch("John", "Jane", "Smith", "u2");
  }

  /** A single-token name that is not a key matches nothing. */
  lemma SingleTokenNoMatch()
    ensures CheckNameMatch("Cher", [("Cher Smith", "u3")]) == None
  {
    NotContainsChar("Cher", ' ');
    NoSepSplitsToItself("Cher", " ");
    assert Keys([("Cher Smith", "u3")]) == ["Cher Smith"];
  }

  // ---------------------------------------------------------------------
  // match_persons_oa_pure

  datatype AlexIds = AlexIds(alexId: Option<string>, orcid: Option<string>)

  /** One matched author: `{Name, Alex_ID, Pure_UUID, ORCID}`. */
  datatype CommonAuthor = CommonAuthor(name: string, alexId: string, pureUuid: string, orcid: string)

  /** The `alex_authors` dict: authors with a display name, keyed by it. */
  function AlexAuthorsOf(authorships: seq<OaAuthorship>): Dict<string, AlexIds>
    decreases |authorships|
  {
    if |authorships| == 0 then []
    else
      var d := AlexAuthorsOf(authorships[..|authorships| - 1]);
      var a := Last(authorships).author;
      if a.Some? && Truthy(a.value.displayName) then Put(d, a.value.displayName.value, AlexIds(a.value.id, a.value.orcid))
      else d
  }

  /** An external-person contributor with a first or last name. */
  predicate EntersPureTable(c: PureContributor)
  {
    c.externalPerson.Some? && (c.firstName != "" || c.lastName != "")
  }

  function PureName(c: PureContributor): string
  {
    Strip(c.firstName + " " + c.lastName)
  }

  /** The `pure_authors` dict: name to uuid. */
  function PureAuthorsOf(cs: seq<PureContributor>): Dict<string, string>
    decreases |cs|
  {
    if |cs| == 0 then []
    else
      var d := PureAuthorsOf(cs[..|cs| - 1]);
      var c := Last(cs);
      if EntersPureTable(c) then Put(d, PureName(c), c.externalPerson.value) else d
  }

  /** The entry for one OpenAlex author, when its name matches a Pure uuid. */
  function CommonEntry(kv: (string, AlexIds), pure: Dict<string, string>): Option<CommonAuthor>
  {
    var m := CheckNameMatch(kv.0, pure);
    if Truthy(m) && kv.0 != "" then
      Some(CommonAuthor(kv.0, ExtractOpenalexId(kv.1.alexId), m.value, ExtractOrcidId(kv.1.orcid)))
    else None
  }

  function CommonAuthorsOf(alex: Dict<string, AlexIds>, pure: Dict<string, string>): seq<CommonAuthor>
    decreases |alex|
  {
    if |alex| == 0 then []
    else
      var prev := CommonAuthorsOf(alex[..|alex| - 1], pure);
      match CommonEntry(Last(alex), pure)
      case None => prev
      case Some(c) => prev + [c]
  }

  function CommonAuthorsFor(oa: OaWork, pure: PureWork): seq<CommonAuthor>
  {
    CommonAuthorsOf(AlexAuthorsOf(oa.authorships.GetOr([])), PureAuthorsOf(pure.contributors))
  }

  /** match_persons_oa_pure: fill both name tables, then list the authors found in both. */
  method MatchPersonsOaPure(oa: OaWork, pure: PureWork) returns (common: seq<CommonAuthor>)
    ensures common == CommonAuthorsFor(oa, pure)
  {
    var authorships := oa.authorships.GetOr([]);
    var alex: Dict<string, AlexIds> := [];
    var i := 0;
    while i < |authorships|
      invariant 0 <= i <= |authorships|
      invariant alex == AlexAuthorsOf(authorships[..i])
    {
      assert authorships[..i + 1][..i] == authorships[..i] && Last(authorships[..i + 1]) == authorships[i];
      var a := authorships[i].author;
      if a.Some? && Truthy(a.value.displayName) {
        alex := Put(alex, a.value.displayName.value, AlexIds(a.value.id, a.value.orcid));
      }
      i := i + 1;
    }
    assert authorships[..i] == authorships;

    var cs := pure.contributors;
    var pureAuthors: Dict<string, string> := [];
    i := 0;
    while i < |cs|
      invariant 0 <= i <= |cs|
      invariant pureAuthors == PureAuthorsOf(cs[..i])
    {
      assert cs[..i + 1][..i] == cs[..i] && Last(cs[..i + 1]) == cs[i];
      var c := cs[i];
      if c.externalPerson.Some? && (c.firstName != "" || c.lastName != "") {
        pureAuthors := Put(pureAuthors, Strip(c.firstName + " " + c.lastName), c.externalPerson.value);
      }
      i := i + 1;
    }
    assert cs[..i] == cs;

    common := [];
    i := 0;
    while i < |alex|
      invariant 0 <= i <= |alex|
      invariant common == CommonAuthorsOf(alex[..i], pureAuthors)
    {
      assert alex[..i + 1][..i] == alex[..i] && Last(alex[..i + 1]) == alex[i];
      var (name, ids) := alex[i];
      var pureUuid := CheckNameMatch(name, pureAuthors);
      if Truthy(pureUuid) && name != "" {
        common := common + [CommonAuthor(name, ExtractOpenalexId(ids.alexId), pureUuid.value, ExtractOrcidId(ids.orcid))];
      }
      i := i + 1;
    }
    assert alex[..i] == alex;
  }

  /** The uuid of the last contributor entering the table under the name, or None. */
  function LastUuidNamed(cs: seq<PureContributor>, name: string): Option<string>
    decreases |cs|
  {
    if |cs| == 0 then None
    else if EntersPureTable(Last(cs)) && PureName(Last(cs)) == name then Some(Last(cs).externalPerson.value)
    else LastUuidNamed(cs[..|cs| - 1], name)
  }

  /**
   * The Pure table holds exactly the names of external contributors with a
   * first or last name, and the later contributor of a name overwrites the
   * earlier one.
   */
  lemma {:induction false} PureAuthorsLastWins(cs: seq<PureContributor>, name: string)
    ensures Get(PureAuthorsOf(cs), name) == LastUuidNamed(cs, name)
    ensures name in Keys(PureAuthorsOf(cs)) <==>
      exists i :: 0 <= i < |cs| && EntersPureTable(cs[i]) && PureName(cs[i]) == name
    decreases |cs|
  {
    if |cs| > 0 {
      var front := cs[..|cs| - 1];
      PureAuthorsLastWins(front, name);
      var c := Last(cs);
      if EntersPureTable(c) {
        PutGet(PureAuthorsOf(front), PureName(c), c.externalPerson.value, name);
      }
      if name in Keys(PureAuthorsOf(cs)) && !(EntersPureTable(c) && PureName(c) == name) {
        var i :| 0 <= i < |front| && EntersPureTable(front[i]) && PureName(front[i]) == name;
        assert cs[i] == front[i];
      }
      if exists i :: 0 <= i < |cs| && EntersPureTable(cs[i]) && PureName(cs[i]) == name {
        var i :| 0 <= i < |cs| && EntersPureTable(cs[i]) && PureName(cs[i]) == name;
        if i < |front| {
          assert front[i] == cs[i];
        }
      }
    }
  }

  lemma {:induction false} AlexAuthorsDistinct(authorships: seq<OaAuthorship>)
    ensures DistinctKeys(AlexAuthorsOf(authorships))
    decreases |authorships|
  {
    if |authorships| > 0 {
      var front := authorships[..|authorships| - 1];
      AlexAuthorsDistinct(front);
      var a := Last(authorships).author;
      if a.Some? && Truthy(a.value.displayName) {
        PutDistinct(AlexAuthorsOf(front), a.value.displayName.value, AlexIds(a.value.id, a.value.orcid));
      }
    }
  }

  /**
   * One entry per matched OpenAlex author, in table order: each output entry
   * is the entry of some author, each author with an entry contributes it, and
   * every entry carries a non-empty Pure uuid.
   */
  lemma CommonAuthorsExact(alex: Dict<string, AlexIds>, pure: Dict<string, string>)
    ensures |CommonAuthorsOf(alex, pure)| <= |alex|
    ensures forall k :: 0 <= k < |CommonAuthorsOf(alex, pure)| ==>
      exists i :: 0 <= i < |alex| && CommonEntry(alex[i], pure) == Some(CommonAuthorsOf(alex, pure)[k])
    ensures forall i :: 0 <= i < |alex| && CommonEntry(alex[i], pure).Some? ==>
      CommonEntry(alex[i], pure).value in CommonAuthorsOf(alex, pure)
    ensures forall c :: c in CommonAuthorsOf(alex, pure) ==> c.pureUuid != "" && c.name != ""
  {
    CommonAuthorsFromEntries(alex, pure);
    CommonAuthorsCover(alex, pure);
  }

  /** What one more OpenAlex author adds to the output. */
  lemma CommonSnoc(alex: Dict<string, AlexIds>, pure: Dict<string, string>)
    requires |alex| > 0
    ensures CommonAuthorsOf(alex, pure) == CommonAuthorsOf(alex[..|alex| - 1], pure) +
      (if CommonEntry(Last(alex), pure).Some? then [CommonEntry(Last(alex), pure).value] else [])
  {
  }

  /** Each output entry is the entry of some author, and carries a non-empty uuid and name. */
  lemma {:induction false} CommonAuthorsFromEntries(alex: Dict<string, AlexIds>, pure: Dict<string, string>)
    ensures |CommonAuthorsOf(alex, pure)| <= |alex|
    ensures forall k :: 0 <= k < |CommonAuthorsOf(alex, pure)| ==>
      exists i :: 0 <= i < |alex| && CommonEntry(alex[i], pure) == Some(CommonAuthorsOf(alex, pure)[k])
    ensures forall c :: c in CommonAuthorsOf(alex, pure) ==> c.pureUuid != "" && c.name != ""
    decreases |alex|
  {
    if |alex| > 0 {
      var front := alex[..|alex| - 1];
      var prev := CommonAuthorsOf(front, pure);
      var r := CommonAuthorsOf(alex, pure);
      CommonAuthorsFromEntries(front, pure);
      CommonSnoc(alex, pure);
      forall k | 0 <= k < |r|
        ensures exists i :: 0 <= i < |alex| && CommonEntry(alex[i], pure) == Some(r[k])
      {
        if k < |prev| {
          var i :| 0 <= i < |front| && CommonEntry(front[i], pure) == Some(prev[k]);
          assert alex[i] == front[i];
        } else {
          assert CommonEntry(alex[|alex| - 1], pure) == Some(r[k]);
        }
      }
    }
  }

  /** Each author with an entry contributes it. */
  lemma {:induction false} CommonAuthorsCover(alex: Dict<string, AlexIds>, pure: Dict<string, string>)
    ensures forall i :: 0 <= i < |alex| && CommonEntry(alex[i], pure).Some? ==>
      CommonEntry(alex[i], pure).value in CommonAuthorsOf(alex, pure)
    decreases |alex|
  {
    if |alex| > 0 {
      var front := alex[..|alex| - 1];
      CommonAuthorsCover(front, pure);
      CommonSnoc(alex, pure);
      forall i | 0 <= i < |alex| && CommonEntry(alex[i], pure).Some?
        ensures CommonEntry(alex[i], pure).value in CommonAuthorsOf(alex, pure)
      {
        if i < |front| {
          assert alex[i] == front[i];
        }
      }
    }
  }

  /** When the OpenAlex names are distinct, so are the names in the output. */
  lemma CommonAuthorsDistinctNames(alex: Dict<string, AlexIds>, pure: Dict<string, string>)
    requires DistinctKeys(alex)
    ensures forall a, b :: 0 <= a < b < |CommonAuthorsOf(alex, pure)| ==>
      CommonAuthorsOf(alex, pure)[a].name != CommonAuthorsOf(alex, pure)[b].name
  {
    CommonNamesOrdered(alex, pure);
  }

  /** Output positions follow strictly increasing table positions. */
  lemma {:induction false} CommonNamesOrdered(alex: Dict<string, AlexIds>, pure: Dict<string, string>)
    requires DistinctKeys(alex)
    ensures forall a, b :: 0 <= a < b < |CommonAuthorsOf(alex, pure)| ==>
      CommonAuthorsOf(alex, pure)[a].name != CommonAuthorsOf(alex, pure)[b].name
    ensures forall a :: 0 <= a < |CommonAuthorsOf(alex, pure)| ==>
      CommonAuthorsOf(alex, pure)[a].name in Keys(alex)
    decreases |alex|
  {
    if |alex| > 0 {
      var front := alex[..|alex| - 1];
      assert DistinctKeys(front) by {
        forall i, j | 0 <= i < j < |front| ensures front[i].0 != front[j].0 {
          assert front[i] == alex[i] && front[j] == alex[j];
        }
      }
      CommonNamesOrdered(front, pure);
      var prev := CommonAuthorsOf(front, pure);
      var r := CommonAuthorsOf(alex, pure);
      forall a | 0 <= a < |prev|
        ensures prev[a].name in Keys(alex)
      {
        var i :| 0 <= i < |front| && Keys(front)[i] == prev[a].name;
        assert Keys(alex)[i] == alex[i].0 == front[i].0;
      }
      if |r| > |prev| {
        var last := Last(alex);
        assert r[|prev|].name == last.0;
        assert Keys(alex)[|alex| - 1] == last.0;
        forall a | 0 <= a < |prev|
          ensures prev[a].name != last.0
        {
          var i :| 0 <= i < |front| && Keys(front)[i] == prev[a].name;
          assert alex[i] == front[i];
        }
      }
    }
  }

  // ---------------------------------------------------------------------
  // update_externalpersons_pure

  /**
   * identifier_exists: some identifier has the type uri and the id. The
   * source reads `['type']['uri']` and `['id']` with `[...]`; those keys are
   * assumed present, and None here stands only for a JSON null.
   */
  function IdentifierExists(ids: seq<Identifier>, newId: string, uri: string): (r: bool)
    ensures r <==> exists i :: 0 <= i < |ids| && TypeUri(ids[i]) == Some(uri) && ids[i].id == Some(newId)
    decreases |ids|
  {
    if |ids| == 0 then false
    else if TypeUri(ids[0]) == Some(uri) && ids[0].id == Some(newId) then true
    else
      var r := IdentifierExists(ids[1..], newId, uri);
      assert r ==> exists i :: 1 <= i < |ids| && TypeUri(ids[i]) == Some(uri) && ids[i].id == Some(newId) by {
        if r {
          var k :| 0 <= k < |ids[1..]| && TypeUri(ids[1..][k]) == Some(uri) && ids[1..][k].id == Some(newId);
          assert ids[k + 1] == ids[1..][k];
        }
      }
      assert (exists i :: 1 <= i < |ids| && TypeUri(ids[i]) == Some(uri) && ids[i].id == Some(newId)) ==> r by {
        if exists i :: 1 <= i < |ids| && TypeUri(ids[i]) == Some(uri) && ids[i].id == Some(newId) {
          var k :| 1 <= k < |ids| && TypeUri(ids[k]) == Some(uri) && ids[k].id == Some(newId);
          assert ids[1..][k - 1] == ids[k];
        }
      }
      r
  }

  /** The external person records fetched from Pure; `identifiers` is None when the key is absent. */
  datatype ExtPersonRecord = ExtPersonRecord(uuid: string, identifiers: Option<seq<Identifier>>, others: seq<(string, string)>)

  /** The identifiers appended for a row: ORCID first, then OpenAlex, each only when not present yet. */
  function AddedIds(ids: seq<Identifier>, row: CommonAuthor, orcidUri: string, openalexUri: string): seq<Identifier>
  {
    (if row.orcid != "" && !IdentifierExists(ids, row.orcid, orcidUri) then [OrcidObject(row.orcid, orcidUri)] else [])
    + (if row.alexId != "" && !IdentifierExists(ids, row.alexId, openalexUri) then [OpenalexObject(row.alexId, openalexUri)] else [])
  }

  /** State of the loop: the records (mutated in place), both counters and the PUTs sent. */
  datatype ExtRun = ExtRun(records: seq<ExtPersonRecord>, updated: nat, already: nat, puts: seq<(string, ExtPersonRecord)>)

  function FindPersonByUuid(records: seq<ExtPersonRecord>, uuid: string): Option<nat>
  {
    FindFirst(records, (p: ExtPersonRecord) => p.uuid == uuid)
  }

  /** One iteration of update_externalpersons_pure. */
  function ExtStep(st: ExtRun, row: CommonAuthor, orcidUri: string, openalexUri: string, test: string): ExtRun
  {
    match FindPersonByUuid(st.records, row.pureUuid)
    case None => st
    case Some(i) =>
      var ids := st.records[i].identifiers.GetOr([]);
      var added := AddedIds(ids, row, orcidUri, openalexUri);
      var rec := st.records[i].(identifiers := Some(ids + added));
      if |added| > 0 then
        ExtRun(st.records[i := rec], st.updated + 1, st.already,
               if test == "no" then st.puts + [(row.pureUuid, rec)] else st.puts)
      else
        ExtRun(st.records[i := rec], st.updated, st.already + 1, st.puts)
  }

  function ExtRunOf(st: ExtRun, rows: seq<CommonAuthor>, orcidUri: string, openalexUri: string, test: string): ExtRun
    decreases |rows|
  {
    if |rows| == 0 then st
    else ExtStep(ExtRunOf(st, rows[..|rows| - 1], orcidUri, openalexUri, test), Last(rows), orcidUri, openalexUri, test)
  }

  /** The body of the loop, on the loop's state. */
  method ProcessExternalRow(st: ExtRun, row: CommonAuthor, orcidUri: string, openalexUri: string, test: string)
    returns (next: ExtRun)
    ensures next == ExtStep(st, row, orcidUri, openalexUri, test)
  {
    next := st;
    var found := FindPersonByUuid(st.records, row.pureUuid);
    if found.None? {
      return;
    }
    var k := found.value;
    var identifiers := st.records[k].identifiers.GetOr([]);
    var orcidExists := row.orcid != "" && IdentifierExists(identifiers, row.orcid, orcidUri);
    var openalexExists := row.alexId != "" && IdentifierExists(identifiers, row.alexId, openalexUri);
    var updatedIds := identifiers;
    var identifiersUpdated := false;
    if row.orcid != "" && !orcidExists {
      updatedIds := updatedIds + [OrcidObject(row.orcid, orcidUri)];
      identifiersUpdated := true;
    }
    if row.alexId != "" && !openalexExists {
      updatedIds := updatedIds + [OpenalexObject(row.alexId, openalexUri)];
      identifiersUpdated := true;
    }
    assert updatedIds == identifiers + AddedIds(identifiers, row, orcidUri, openalexUri);
    var rec := st.records[k].(identifiers := Some(updatedIds));
    next := next.(records := st.records[k := rec]);
    if identifiersUpdated {
      next := next.(updated := st.updated + 1);
      if test == "no" {
        next := next.(puts := st.puts + [(row.pureUuid, rec)]);
      }
    } else {
      next := next.(already := st.already + 1);
    }
  }

  /** The external person records held in memory while the rows are applied. */
  class ExternalPersonStore {
    var records: seq<ExtPersonRecord>

    constructor (fetched: seq<ExtPersonRecord>)
      ensures records == fetched
    {
      records := fetched;
    }

    /**
     * update_externalpersons_pure: append the missing ORCID and OpenAlex ids
     * to each matched record, count it as updated or as already complete, and
     * PUT it only when test_choice is "no".
     */
    method UpdateExternalPersonsPure(rows: seq<CommonAuthor>, orcidUri: string, openalexUri: string, test: string)
      returns (updated: nat, already: nat, puts: seq<(string, ExtPersonRecord)>)
      modifies this
      ensures ExtRun(records, updated, already, puts)
              == ExtRunOf(ExtRun(old(records), 0, 0, []), rows, orcidUri, openalexUri, test)
    {
      var st := ExtRun(records, 0, 0, []);
      var i := 0;
      while i < |rows|
        invariant 0 <= i <= |rows|
        invariant st == ExtRunOf(ExtRun(old(records), 0, 0, []), rows[..i], orcidUri, openalexUri, test)
      {
        assert rows[..i + 1][..i] == rows[..i] && Last(rows[..i + 1]) == rows[i];
        st := ProcessExternalRow(st, rows[i], orcidUri, openalexUri, test);
        i := i + 1;
      }
      assert rows[..i] == rows;
      records, updated, already, puts := st.records, st.updated, st.already, st.puts;
    }
  }

  /**
   * The ORCID object is appended exactly when the row has an ORCID and no
   * existing identifier has both the ORCID type uri and that id; an ORCID
   * identifier with another id does not prevent it.
   */
  lemma OrcidAppendedIff(ids: seq<Identifier>, row: CommonAuthor, orcidUri: string, openalexUri: string)
    ensures OrcidObject(row.orcid, orcidUri) in AddedIds(ids, row, orcidUri, openalexUri) <==>
      row.orcid != "" && forall e :: e in ids ==> !(TypeUri(e) == Some(orcidUri) && e.id == Some(row.orcid))
  {
    var o := OrcidObject(row.orcid, orcidUri);
    assert o != OpenalexObject(row.alexId, openalexUri) by {
      assert o.kind.value.term != OpenalexObject(row.alexId, openalexUri).kind.value.term;
    }
    assert IdentifierExists(ids, row.orcid, orcidUri) <==>
      exists e :: e in ids && TypeUri(e) == Some(orcidUri) && e.id == Some(row.orcid)
    by {
      if IdentifierExists(ids, row.orcid, orcidUri) {
        var i :| 0 <= i < |ids| && TypeUri(ids[i]) == Some(orcidUri) && ids[i].id == Some(row.orcid);
        assert ids[i] in ids;
      }
    }
  }

  /** The uuids of the records, which the run never changes. */
  function Uuids(records: seq<ExtPersonRecord>): seq<string>
  {
    seq(|records|, i requires 0 <= i < |records| => records[i].uuid)
  }

  /** How many rows have a record with their uuid. */
  function FoundRows(rows: seq<CommonAuthor>, uuids: seq<string>): nat
    decreases |rows|
  {
    if |rows| == 0 then 0
    else FoundRows(rows[..|rows| - 1], uuids) + (if Last(rows).pureUuid in uuids then 1 else 0)
  }

  /** Records keep their place, uuid and other fields; their identifiers only grow at the end. */
  predicate IdsExtend(before: seq<ExtPersonRecord>, after: seq<ExtPersonRecord>)
  {
    |after| == |before|
    && forall i :: 0 <= i < |before| ==>
         after[i].uuid == before[i].uuid && after[i].others == before[i].others
         && |before[i].identifiers.GetOr([])| <= |after[i].identifiers.GetOr([])|
         && after[i].identifiers.GetOr([])[..|before[i].identifiers.GetOr([])|] == before[i].identifiers.GetOr([])
  }

  lemma StepFoundIff(st: ExtRun, row: CommonAuthor, orcidUri: string, openalexUri: string, test: string)
    ensures FindPersonByUuid(st.records, row.pureUuid).Some? <==> row.pureUuid in Uuids(st.records)
  {
    var found := FindPersonByUuid(st.records, row.pureUuid);
    if row.pureUuid in Uuids(st.records) {
      var i :| 0 <= i < |st.records| && Uuids(st.records)[i] == row.pureUuid;
      assert st.records[i].uuid == row.pureUuid;
    }
    if found.Some? {
      assert Uuids(st.records)[found.value] == row.pureUuid;
    }
  }

  /**
   * Over a whole run: every row with a record bumps exactly one of the two
   * counters, rows without one bump neither, and no record loses, edits or
   * reorders an identifier.
   */
  lemma {:induction false} ExtRunCounts(st: ExtRun, rows: seq<CommonAuthor>, orcidUri: string, openalexUri: string, test: string)
    ensures var r := ExtRunOf(st, rows, orcidUri, openalexUri, test);
      r.updated + r.already == st.updated + st.already + FoundRows(rows, Uuids(st.records))
      && Uuids(r.records) == Uuids(st.records)
      && IdsExtend(st.records, r.records)
      && st.updated <= r.updated && st.already <= r.already
    decreases |rows|
  {
    if |rows| > 0 {
      var front := rows[..|rows| - 1];
      var mid := ExtRunOf(st, front, orcidUri, openalexUri, test);
      ExtRunCounts(st, front, orcidUri, openalexUri, test);
      ExtStepEffect(mid, Last(rows), orcidUri, openalexUri, test);
      IdsExtendTrans(st.records, mid.records, ExtStep(mid, Last(rows), orcidUri, openalexUri, test).records);
    }
  }

  /** One row: one counter moves when the row's uuid has a record, the records only gain identifiers. */
  lemma ExtStepEffect(st: ExtRun, row: CommonAuthor, orcidUri: string, openalexUri: string, test: string)
    ensures var r := ExtStep(st, row, orcidUri, openalexUri, test);
      r.updated + r.already == st.updated + st.already + (if row.pureUuid in Uuids(st.records) then 1 else 0)
      && Uuids(r.records) == Uuids(st.records)
      && IdsExtend(st.records, r.records)
      && st.updated <= r.updated && st.already <= r.already
  {
    StepFoundIff(st, row, orcidUri, openalexUri, test);
    var r := ExtStep(st, row, orcidUri, openalexUri, test);
    assert Uuids(r.records) == Uuids(st.records);
  }

  lemma IdsExtendTrans(a: seq<ExtPersonRecord>, b: seq<ExtPersonRecord>, c: seq<ExtPersonRecord>)
    requires IdsExtend(a, b) && IdsExtend(b, c)
    ensures IdsExtend(a, c)
  {
    forall i | 0 <= i < |a|
      ensures c[i].identifiers.GetOr([])[..|a[i].identifiers.GetOr([])|] == a[i].identifiers.GetOr([])
    {
      var x, y, z := a[i].identifiers.GetOr([]), b[i].identifiers.GetOr([]), c[i].identifiers.GetOr([]);
      assert z[..|y|] == y;
      assert z[..|x|] == z[..|y|][..|x|];
    }
  }

  /**
   * A repeated row for the same uuid adds nothing the second time: the record
   * already carries both ids, so it is counted as already complete and no PUT
   * is sent.
   */
  lemma RepeatedExtRowAddsNothing(st: ExtRun, row: CommonAuthor, orcidUri: string, openalexUri: string, test: string)
    requires FindPersonByUuid(st.records, row.pureUuid).Some?
    ensures var st1 := ExtStep(st, row, orcidUri, openalexUri, test);
      var st2 := ExtStep(st1, row, orcidUri, openalexUri, test);
      st2.records == st1.records && st2.updated == st1.updated && st2.puts == st1.puts
      && st2.already == st1.already + 1
  {
    var i := FindPersonByUuid(st.records, row.pureUuid).value;
    var ids := st.records[i].identifiers.GetOr([]);
    var ids1 := ids + AddedIds(ids, row, orcidUri, openalexUri);
    var st1 := ExtStep(st, row, orcidUri, openalexUri, test);
    assert st1.records[i].identifiers == Some(ids1);
    FindFirstSame(st.records, st1.records, (p: ExtPersonRecord) => p.uuid == row.pureUuid);
    AddedIdsTwice(ids, row, orcidUri, openalexUri);
    assert ids1 + [] == ids1;
  }

  /** Once the missing ids are appended, nothing is missing any more. */
  lemma AddedIdsTwice(ids: seq<Identifier>, row: CommonAuthor, orcidUri: string, openalexUri: string)
    ensures var ids1 := ids + AddedIds(ids, row, orcidUri, openalexUri);
      AddedIds(ids1, row, orcidUri, openalexUri) == []
  {
    var ids1 := ids + AddedIds(ids, row, orcidUri, openalexUri);
    if row.orcid != "" {
      if IdentifierExists(ids, row.orcid, orcidUri) {
        var k :| 0 <= k < |ids| && TypeUri(ids[k]) == Some(orcidUri) && ids[k].id == Some(row.orcid);
        assert ids1[k] == ids[k];
      } else {
        assert ids1[|ids|] == OrcidObject(row.orcid, orcidUri);
      }
      assert IdentifierExists(ids1, row.orcid, orcidUri);
    }
    if row.alexId != "" {
      if IdentifierExists(ids, row.alexId, openalexUri) {
        var k :| 0 <= k < |ids| && TypeUri(ids[k]) == Some(openalexUri) && ids[k].id == Some(row.alexId);
        assert ids1[k] == ids[k];
      } else {
        assert ids1[|ids1| - 1] == OpenalexObject(row.alexId, openalexUri);
      }
      assert IdentifierExists(ids1, row.alexId, openalexUri);
    }
  }

  // ---------------------------------------------------------------------
  // Selecting, fetching and matching research outputs

  /** A research-output node as Ricgraph returns it: its key and its `_source` list. */
  datatype RicOutput = RicOutput(key: string, source: seq<string>)

  /** The DOIs of the outputs known to both Pure and OpenAlex. */
  function BothSystemsDois(outputs: seq<RicOutput>): seq<string>
    decreases |outputs|
  {
    if |outputs| == 0 then []
    else
      var o := Last(outputs);
      BothSystemsDois(outputs[..|outputs| - 1])
      + (if "Pure-uu" in o.source && "OpenAlex-uu" in o.source then [KeyDoi(o.key)] else [])
  }

  function RootsDois(roots: seq<Option<string>>, outputs: string -> seq<RicOutput>): seq<string>
    decreases |roots|
  {
    if |roots| == 0 then []
    else
      var r := Last(roots);
      RootsDois(roots[..|roots| - 1], outputs) + (if r.Some? then BothSystemsDois(outputs(r.value)) else [])
  }

  function FacultiesDois(faculties: seq<string>, personroots: string -> seq<Option<string>>, outputs: string -> seq<RicOutput>): seq<string>
    decreases |faculties|
  {
    if |faculties| == 0 then []
    else FacultiesDois(faculties[..|faculties| - 1], personroots, outputs) + RootsDois(personroots(Last(faculties)), outputs)
  }

  /**
   * select_persons_researchoutput: per faculty, per person-root with a key,
   * the DOI of each journal article that both Pure and OpenAlex know. The
   * person-root and neighbour lookups are parameters.
   */
  method SelectPersonsResearchoutput(faculties: seq<string>, personroots: string -> seq<Option<string>>, outputs: string -> seq<RicOutput>)
    returns (allData: seq<string>)
    ensures allData == FacultiesDois(faculties, personroots, outputs)
  {
    allData := [];
    var f := 0;
    while f < |faculties|
      invariant 0 <= f <= |faculties|
      invariant allData == FacultiesDois(faculties[..f], personroots, outputs)
    {
      assert faculties[..f + 1][..f] == faculties[..f] && Last(faculties[..f + 1]) == faculties[f];
      var roots := personroots(faculties[f]);
      var newData := [];
      var r := 0;
      while r < |roots|
        invariant 0 <= r <= |roots|
        invariant newData == RootsDois(roots[..r], outputs)
      {
        assert roots[..r + 1][..r] == roots[..r] && Last(roots[..r + 1]) == roots[r];
        if roots[r].Some? {
          var outs := outputs(roots[r].value);
          var o := 0;
          ghost var before := newData;
          while o < |outs|
            invariant 0 <= o <= |outs|
            invariant newData == before + BothSystemsDois(outs[..o])
          {
            assert outs[..o + 1][..o] == outs[..o] && Last(outs[..o + 1]) == outs[o];
            if "Pure-uu" in outs[o].source && "OpenAlex-uu" in outs[o].source {
              newData := newData + [KeyDoi(outs[o].key)];
            }
            o := o + 1;
          }
          assert outs[..o] == outs;
        }
        r := r + 1;
      }
      assert roots[..r] == roots;
      allData := allData + newData;
      f := f + 1;
    }
    assert faculties[..f] == faculties;
  }

  /** Every selected DOI is a key prefix free of '|'. */
  lemma {:induction false} BothSystemsDoisClean(outputs: seq<RicOutput>)
    ensures forall d :: d in BothSystemsDois(outputs) ==> !Contains(d, "|")
    ensures |BothSystemsDois(outputs)| <= |outputs|
    decreases |outputs|
  {
    if |outputs| > 0 {
      BothSystemsDoisClean(outputs[..|outputs| - 1]);
    }
  }

  /**
   * The DOI filter of fetch_openalex_works,
   * `^10\.\d{4,9}/[-._;()/:A-Z0-9]+$` with IGNORECASE: "10.", a run of four
   * to nine digits, '/', one or more allowed characters, and `$`, which also
   * accepts one trailing newline.
   */
  predicate DoiSuffixChar(c: char)
  {
    c in "-._;()/:" || IsAsciiLetter(c) || IsDigit(c)
  }

  predicate DoiWithDigits(s: string, k: nat)
  {
    3 + k + 1 < |s| && s[..3] == "10." && (forall i :: 3 <= i < 3 + k ==> IsDigit(s[i]))
    && s[3 + k] == '/' && forall i :: 3 + k + 1 <= i < |s| ==> DoiSuffixChar(s[i])
  }

  predicate DoiBody(s: string)
  {
    exists k :: 4 <= k <= 9 && DoiWithDigits(s, k)
  }

  predicate ValidDoi(s: string)
  {
    DoiBody(s) || (|s| > 0 && Last(s) == '\n' && DoiBody(s[..|s| - 1]))
  }

  lemma ValidDoiExamples()
    ensures ValidDoi("10.1234/abc")
    ensures !ValidDoi("10.123/abc")
    ensures !ValidDoi("11.1234/abc")
  {
    assert DoiWithDigits("10.1234/abc", 4);
    assert !DoiBody("10.123/abc") by {
      forall k | 4 <= k <= 9 ensures !DoiWithDigits("10.123/abc", k) {
        if 3 + k + 1 < 10 {
          assert !IsDigit("10.123/abc"[6]);
        }
      }
    }
    var bad := "10.123/abc"[..9];
    assert !DoiBody(bad) by {
      forall k | 4 <= k <= 9 ensures !DoiWithDigits(bad, k) {
        if 3 + k + 1 < |bad| {
          assert !IsDigit(bad[6]);
        }
      }
    }
    assert "11.1234/abc"[..3][1] != "10."[1];
    assert "11.1234/abc"[..10][..3][1] != "10."[1];
  }

  /** `[doi for doi in dois if doi_pattern.match(doi)]` */
  function FilterValidDois(dois: seq<string>): (r: seq<string>)
    ensures forall d :: d in r <==> d in dois && ValidDoi(d)
    ensures |r| <= |dois|
    decreases |dois|
  {
    if |dois| == 0 then []
    else
      assert dois == dois[..|dois| - 1] + [Last(dois)];
      FilterValidDois(dois[..|dois| - 1]) + (if ValidDoi(Last(dois)) then [Last(dois)] else [])
  }

  /**
   * The works of each batch's result pages, in batch order. `pages` gives,
   * for the joined DOIs of one request, the result pages obtained by
   * following `meta.next`, or None when one of those requests failed on all
   * three attempts of `fetch_batch`. tenacity then raises RetryError, which
   * is not a RequestException, so the run ends there.
   */
  function OaFetched(batches: seq<seq<string>>, pages: string -> Option<seq<seq<OaWork>>>): PurePersons.Result<seq<OaWork>>
    decreases |batches|
  {
    if |batches| == 0 then PurePersons.Ok([])
    else
      match OaFetched(batches[..|batches| - 1], pages)
      case Raised(e) => PurePersons.Raised(e)
      case Ok(works) =>
        match pages(Join(Last(batches), "|"))
        case None => PurePersons.Raised("RetryError")
        case Some(results) => PurePersons.Ok(works + Flatten(results))
  }

  /**
   * fetch_openalex_works: valid DOIs only, 40 to a request, every result page
   * of each request; a request that fails on every retry ends the run.
   */
  method FetchOpenalexWorks(dois: seq<string>, pages: string -> Option<seq<seq<OaWork>>>)
    returns (r: PurePersons.Result<seq<OaWork>>)
    ensures r == OaFetched(Chunks(FilterValidDois(dois), 40), pages)
  {
    var valid := FilterValidDois(dois);
    var batches := SplitIntoBatches(valid, 40);
    var works := [];
    var b := 0;
    while b < |batches|
      invariant 0 <= b <= |batches|
      invariant OaFetched(batches[..b], pages) == PurePersons.Ok(works)
    {
      assert batches[..b + 1][..b] == batches[..b] && Last(batches[..b + 1]) == batches[b];
      var fetched := pages(Join(batches[b], "|"));
      if fetched.None? {
        OaFetchedRaisedStays(batches, pages, b + 1);
        return PurePersons.Raised("RetryError");
      }
      var results := CollectPages(fetched.value);
      works := works + results;
      b := b + 1;
    }
    assert batches[..b] == batches;
    r := PurePersons.Ok(works);
  }

  /** Once a batch has failed, the later batches change nothing. */
  lemma {:induction false} OaFetchedRaisedStays(batches: seq<seq<string>>, pages: string -> Option<seq<seq<OaWork>>>, k: nat)
    requires k <= |batches| && OaFetched(batches[..k], pages).Raised?
    ensures OaFetched(batches, pages) == OaFetched(batches[..k], pages)
    decreases |batches|
  {
    if k < |batches| {
      var front := batches[..|batches| - 1];
      assert front[..k] == batches[..k];
      OaFetchedRaisedStays(front, pages, k);
    } else {
      assert batches[..k] == batches;
    }
  }

  /**
   * The fetch succeeds exactly when every request's pages were obtained,
   * and otherwise raises RetryError.
   */
  lemma {:induction false} OaFetchedOk(batches: seq<seq<string>>, pages: string -> Option<seq<seq<OaWork>>>)
    ensures OaFetched(batches, pages).Ok? <==> forall b :: b in batches ==> pages(Join(b, "|")).Some?
    ensures OaFetched(batches, pages).Raised? ==> OaFetched(batches, pages).error == "RetryError"
    decreases |batches|
  {
    if |batches| > 0 {
      var front := batches[..|batches| - 1];
      OaFetchedOk(front, pages);
      assert batches == front + [Last(batches)];
      var last := pages(Join(Last(batches), "|"));
      if OaFetched(front, pages).Raised? {
        var b :| b in front && pages(Join(b, "|")).None?;
        assert b in batches;
      } else if last.None? {
        assert Last(batches) in batches;
      } else {
        forall b | b in batches
          ensures pages(Join(b, "|")).Some?
        {
          if b != Last(batches) {
            assert b in front;
          }
        }
      }
    }
  }

  /** The inner loop: the works of every result page, in page order. */
  method CollectPages(results: seq<seq<OaWork>>) returns (works: seq<OaWork>)
    ensures works == Flatten(results)
  {
    works := [];
    var p := 0;
    while p < |results|
      invariant 0 <= p <= |results|
      invariant works == Flatten(results[..p])
    {
      FlattenAppend(results[..p], [results[p]]);
      assert results[..p + 1] == results[..p] + [results[p]];
      assert Flatten([results[p]]) == results[p] + Flatten([results[p]][1..]);
      works := works + results[p];
      p := p + 1;
    }
    assert results[..p] == results;
  }

  /** Only valid DOIs from the input are requested, at most 40 at a time. */
  lemma OpenalexRequestsValid(dois: seq<string>)
    ensures forall b :: b in Chunks(FilterValidDois(dois), 40) ==>
      0 < |b| <= 40 && forall d :: d in b ==> d in dois && ValidDoi(d)
  {
    var valid := FilterValidDois(dois);
    var cs := Chunks(valid, 40);
    ChunksSizes(valid, 40);
    ChunksFlatten(valid, 40);
    forall b | b in cs
      ensures forall d :: d in b ==> d in dois && ValidDoi(d)
    {
      var i :| 0 <= i < |cs| && cs[i] == b;
      forall d | d in b ensures d in dois && ValidDoi(d) {
        var j :| 0 <= j < |b| && b[j] == d;
        FlattenContains(cs, i, j);
      }
    }
  }

  function PureFetched(batches: seq<seq<string>>, search: string -> Option<seq<PureWork>>): seq<PureWork>
    decreases |batches|
  {
    if |batches| == 0 then []
    else PureFetched(batches[..|batches| - 1], search) + search(Join(Last(batches), "|")).GetOr([])
  }

  /**
   * fetch_pure_researchoutputs: the distinct DOIs, 10 to a search, the items
   * of each successful search concatenated.
   */
  method FetchPureResearchoutputs(dois: seq<string>, search: string -> Option<seq<PureWork>>) returns (works: seq<PureWork>)
    ensures works == PureFetched(Chunks(Dedupe(dois), 10), search)
  {
    var deduplicated := Dedupe(dois);
    var batches := SplitIntoBatches(deduplicated, 10);
    works := [];
    var b := 0;
    while b < |batches|
      invariant 0 <= b <= |batches|
      invariant works == PureFetched(batches[..b], search)
    {
      assert batches[..b + 1][..b] == batches[..b] && Last(batches[..b + 1]) == batches[b];
      var response := search(Join(batches[b], "|"));
      if response.Some? {
        works := works + response.value;
      }
      b := b + 1;
    }
    assert batches[..b] == batches;
  }

  /** Each DOI is requested from Pure exactly once. */
  lemma PureRequestsOnce(dois: seq<string>)
    ensures Flatten(Chunks(Dedupe(dois), 10)) == Dedupe(dois)
    ensures forall d :: d in Flatten(Chunks(Dedupe(dois), 10)) <==> d in dois
    ensures forall i, j :: 0 <= i < j < |Flatten(Chunks(Dedupe(dois), 10))| ==>
      Flatten(Chunks(Dedupe(dois), 10))[i] != Flatten(Chunks(Dedupe(dois), 10))[j]
  {
    ChunksFlatten(Dedupe(dois), 10);
  }

  function ExternalPersonsFetched(batches: seq<seq<string>>, search: seq<string> -> Option<seq<ExtPersonRecord>>): seq<ExtPersonRecord>
    decreases |batches|
  {
    if |batches| == 0 then []
    else ExternalPersonsFetched(batches[..|batches| - 1], search) + search(Last(batches)).GetOr([])
  }

  /** get_external_persons_data: the rows' uuids, 500 to a search, the items of each successful search. */
  method GetExternalPersonsData(rows: seq<CommonAuthor>, search: seq<string> -> Option<seq<ExtPersonRecord>>)
    returns (all: seq<ExtPersonRecord>)
    ensures all == ExternalPersonsFetched(Chunks(seq(|rows|, i requires 0 <= i < |rows| => rows[i].pureUuid), 500), search)
  {
    var uids := seq(|rows|, i requires 0 <= i < |rows| => rows[i].pureUuid);
    var batches := SplitIntoBatches(uids, 500);
    all := [];
    var b := 0;
    while b < |batches|
      invariant 0 <= b <= |batches|
      invariant all == ExternalPersonsFetched(batches[..b], search)
    {
      assert batches[..b + 1][..b] == batches[..b] && Last(batches[..b + 1]) == batches[b];
      var response := search(batches[b]);
      if response.Some? {
        all := all + response.value;
      }
      b := b + 1;
    }
    assert batches[..b] == batches;
  }

  /**
   * match_persons: the matched authors when the DOI is found on both sides and
   * at least one author matches, otherwise None.
   */
  function MatchPersons(doi: string, oaWorks: seq<OaWork>, pureWorks: seq<PureWork>): (r: Option<seq<CommonAuthor>>)
    ensures r.Some? ==> (|r.value| > 0
      && (exists i :: 0 <= i < |oaWorks| && oaWorks[i].doi == Some(DOI_PREFIX + doi))
      && (exists i :: 0 <= i < |pureWorks| && WorkHasDoi(pureWorks[i], NormalizeDoi(doi)))
      && forall c :: c in r.value ==> c.pureUuid != "" && c.name != "")
    ensures r.None? && GetRoFromOpenalex(doi, oaWorks).Some? && GetRoFromPure(doi, pureWorks).Some? ==>
      CommonAuthorsFor(GetRoFromOpenalex(doi, oaWorks).value, GetRoFromPure(doi, pureWorks).value) == []
  {
    var oa := GetRoFromOpenalex(doi, oaWorks);
    var pure := GetRoFromPure(doi, pureWorks);
    if oa.Some? && pure.Some? then
      var persons := CommonAuthorsFor(oa.value, pure.value);
      CommonAuthorsExact(AlexAuthorsOf(oa.value.authorships.GetOr([])), PureAuthorsOf(pure.value.contributors));
      if |persons| > 0 then Some(persons) else None
    else None
  }

  function AllPersonsOf(dois: seq<string>, oaWorks: seq<OaWork>, pureWorks: seq<PureWork>): seq<CommonAuthor>
    decreases |dois|
  {
    if |dois| == 0 then []
    else AllPersonsOf(dois[..|dois| - 1], oaWorks, pureWorks) + MatchPersons(Last(dois), oaWorks, pureWorks).GetOr([])
  }

  /** match_all_persons: the matched authors of every DOI, concatenated in DOI order. */
  method MatchAllPersons(dois: seq<string>, oaWorks: seq<OaWork>, pureWorks: seq<PureWork>) returns (all: seq<CommonAuthor>)
    ensures all == AllPersonsOf(dois, oaWorks, pureWorks)
    ensures forall c :: c in all ==> c.pureUuid != "" && c.name != ""
  {
    all := [];
    var i := 0;
    while i < |dois|
      invariant 0 <= i <= |dois|
      invariant all == AllPersonsOf(dois[..i], oaWorks, pureWorks)
      invariant forall c :: c in all ==> c.pureUuid != "" && c.name != ""
    {
      assert dois[..i + 1][..i] == dois[..i] && Last(dois[..i + 1]) == dois[i];
      var persons := MatchPersons(dois[i], oaWorks, pureWorks);
      if persons.Some? {
        all := all + persons.value;
      }
      i := i + 1;
    }
    assert dois[..i] == dois;
  }
}
