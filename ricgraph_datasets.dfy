/**
 * Importing datasets found in Ricgraph: collect dataset DOIs per faculty,
 * and for each dataset not yet in Pure build the Pure dataset record and a
 * row of the review table, counting what was done with every row.
 */
module RicgraphDatasets {
  import opened Common
  import opened PurePersons
  import opened Works
  import opened Datasets

  // ---------------------------------------------------------------------
  // Selecting faculties and dataset DOIs

  /** select_faculties: every faculty for "all" in any case, otherwise the one named. */
  function SelectFaculties(facultyChoice: string, facultyKeys: seq<string>): (r: seq<string>)
    ensures Lower(facultyChoice) == "all" ==> r == facultyKeys
    ensures Lower(facultyChoice) != "all" ==> r == [facultyChoice]
  {
    if Lower(facultyChoice) == "all" then facultyKeys else [facultyChoice]
  }

  /** The DOIs of the datasets one person-root node neighbours, in order. */
  function RootDois(neighbours: seq<string>): (r: seq<string>)
    ensures |r| == |neighbours| && forall i :: 0 <= i < |r| ==> r[i] == KeyDoi(neighbours[i])
  {
    seq(|neighbours|, i requires 0 <= i < |neighbours| => KeyDoi(neighbours[i]))
  }

  /**
   * The DOIs found for one faculty: for each person root with a key, the
   * keys of its dataset neighbours cut at the first '|'.
   */
  function FacultyDois(roots: seq<Option<string>>, neighbours: string -> seq<string>): seq<string>
    decreases |roots|
  {
    if |roots| == 0 then []
    else
      var front := FacultyDois(roots[..|roots| - 1], neighbours);
      if Last(roots).Some? then front + RootDois(neighbours(Last(roots).value)) else front
  }

  /** The loop over one faculty's person roots, appending to `data`. */
  method CollectFaculty(data: seq<string>, roots: seq<Option<string>>, neighbours: string -> seq<string>)
    returns (data': seq<string>)
    ensures data' == data + FacultyDois(roots, neighbours)
  {
    data' := data;
    var r := 0;
    while r < |roots|
      invariant 0 <= r <= |roots|
      invariant data' == data + FacultyDois(roots[..r], neighbours)
    {
      assert roots[..r + 1][..r] == roots[..r] && Last(roots[..r + 1]) == roots[r];
      if roots[r].Some? {
        var datasets := neighbours(roots[r].value);
        var d := 0;
        ghost var before := data';
        while d < |datasets|
          invariant 0 <= d <= |datasets|
          invariant data' == before + RootDois(datasets)[..d]
        {
          assert RootDois(datasets)[..d + 1] == RootDois(datasets)[..d] + [KeyDoi(datasets[d])];
          data' := data' + [KeyDoi(datasets[d])];
          d := d + 1;
        }
        assert RootDois(datasets)[..d] == RootDois(datasets);
      }
      r := r + 1;
    }
    assert roots[..r] == roots;
  }

  /** The DOIs of the "data set" search (the branch for exactly "all"). */
  function AllDois(datasetKeys: seq<string>): seq<string>
  {
    RootDois(datasetKeys)
  }

  /** Every faculty's DOIs, in faculty order. */
  function AllFacultyDois(faculties: seq<string>, roots: string -> seq<Option<string>>, neighbours: string -> seq<string>): seq<string>
    decreases |faculties|
  {
    if |faculties| == 0 then []
    else AllFacultyDois(faculties[..|faculties| - 1], roots, neighbours) + FacultyDois(roots(Last(faculties)), neighbours)
  }

  /**
   * select_persons_datasets as written: `data = []` is reset for every
   * faculty, so only the last faculty's DOIs survive; with no faculty at all
   * `data` is never bound (a NameError, None here).
   */
  method SelectPersonsDatasetsAsWritten(faculties: seq<string>, facultyChoice: string, datasetKeys: seq<string>,
                                        roots: string -> seq<Option<string>>, neighbours: string -> seq<string>)
    returns (data: Option<seq<string>>)
    ensures facultyChoice == "all" ==> data == Some(AllDois(datasetKeys))
    ensures facultyChoice != "all" && |faculties| == 0 ==> data.None?
    ensures facultyChoice != "all" && |faculties| > 0 ==> data == Some(FacultyDois(roots(Last(faculties)), neighbours))
  {
    if facultyChoice == "all" {
      return Some(AllDois(datasetKeys));
    }
    data := None;
    var f := 0;
    while f < |faculties|
      invariant 0 <= f <= |faculties|
      invariant f == 0 ==> data.None?
      invariant f > 0 ==> data == Some(FacultyDois(roots(faculties[f - 1]), neighbours))
    {
      var personroots := roots(faculties[f]);
      var collected := CollectFaculty([], personroots, neighbours);
      assert [] + FacultyDois(personroots, neighbours) == FacultyDois(personroots, neighbours);
      data := Some(collected);
      f := f + 1;
    }
  }

  /** select_persons_datasets with `data` started once, before the faculty loop. */
  method SelectPersonsDatasets(faculties: seq<string>, facultyChoice: string, datasetKeys: seq<string>,
                               roots: string -> seq<Option<string>>, neighbours: string -> seq<string>)
    returns (data: seq<string>)
    ensures facultyChoice == "all" ==> data == AllDois(datasetKeys)
    ensures facultyChoice != "all" ==> data == AllFacultyDois(faculties, roots, neighbours)
  {
    if facultyChoice == "all" {
      return AllDois(datasetKeys);
    }
    data := [];
    var f := 0;
    while f < |faculties|
      invariant 0 <= f <= |faculties|
      invariant data == AllFacultyDois(faculties[..f], roots, neighbours)
    {
      assert faculties[..f + 1][..f] == faculties[..f] && Last(faculties[..f + 1]) == faculties[f];
      data := CollectFaculty(data, roots(faculties[f]), neighbours);
      f := f + 1;
    }
    assert faculties[..f] == faculties;
  }

  /**
   * With the corrected loop a DOI is selected exactly when some person root
   * of some selected faculty neighbours a dataset whose key yields it.
   */
  lemma {:induction false} AllFacultyDoisMember(faculties: seq<string>, roots: string -> seq<Option<string>>,
                                                neighbours: string -> seq<string>, doi: string)
    ensures doi in AllFacultyDois(faculties, roots, neighbours) <==>
      exists f :: 0 <= f < |faculties| && doi in FacultyDois(roots(faculties[f]), neighbours)
    decreases |faculties|
  {
    if |faculties| > 0 {
      var front := faculties[..|faculties| - 1];
      AllFacultyDoisMember(front, roots, neighbours, doi);
      assert forall f :: 0 <= f < |front| ==> front[f] == faculties[f];
      assert Last(faculties) == faculties[|faculties| - 1];
    }
  }

  /** A person root with a key contributes the DOI of each of its dataset neighbours. */
  lemma {:induction false} FacultyDoisMember(roots: seq<Option<string>>, neighbours: string -> seq<string>, doi: string)
    ensures doi in FacultyDois(roots, neighbours) <==>
      exists r, k :: 0 <= r < |roots| && roots[r].Some? && 0 <= k < |neighbours(roots[r].value)| &&
        KeyDoi(neighbours(roots[r].value)[k]) == doi
    decreases |roots|
  {
    if |roots| > 0 {
      var front := roots[..|roots| - 1];
      FacultyDoisMember(front, neighbours, doi);
      assert forall r :: 0 <= r < |front| ==> front[r] == roots[r];
      var last := roots[|roots| - 1];
      if last.Some? && doi in RootDois(neighbours(last.value)) {
        var k :| 0 <= k < |RootDois(neighbours(last.value))| && RootDois(neighbours(last.value))[k] == doi;
        assert KeyDoi(neighbours(last.value)[k]) == doi;
      }
    }
  }

  /** One person root neighbouring one dataset contributes that dataset's DOI. */
  lemma OneRootOneDataset(root: string, key: string, neighbours: string -> seq<string>)
    requires neighbours(root) == [key]
    ensures FacultyDois([Some(root)], neighbours) == [KeyDoi(key)]
  {
    assert [Some(root)][..0] == [];
    assert RootDois([key]) == [KeyDoi(key)];
  }

  /** "All" lower-cases to "all", though it is not "all" itself. */
  lemma CapitalAllSelectsEveryFaculty(facultyKeys: seq<string>)
    ensures SelectFaculties("All", facultyKeys) == facultyKeys && "All" != "all"
  {
    var lowered := Lower("All");
    assert lowered[0] == 'a' && lowered[1] == 'l' && lowered[2] == 'l';
    assert lowered == "all";
  }

  /**
   * The reset loses faculties: when "All" (capitalised) selects two
   * faculties whose one person root each neighbours one dataset, the
   * as-written loop keeps only the second faculty's DOI, the corrected one
   * both.
   */
  lemma MixedCaseAllDropsFaculties(roots: string -> seq<Option<string>>, neighbours: string -> seq<string>)
    requires roots("f1") == [Some("p1")] && roots("f2") == [Some("p2")]
    requires neighbours("p1") == ["d1|ds"] && neighbours("p2") == ["d2|ds"]
    ensures var faculties := SelectFaculties("All", ["f1", "f2"]);
      faculties == ["f1", "f2"] &&
      FacultyDois(roots(Last(faculties)), neighbours) == ["d2"] &&
      AllFacultyDois(faculties, roots, neighbours) == ["d1", "d2"]
  {
    CapitalAllSelectsEveryFaculty(["f1", "f2"]);
    ExampleKeyDois();
    OneRootOneDataset("p1", "d1|ds", neighbours);
    OneRootOneDataset("p2", "d2|ds", neighbours);
    TwoFaculties("f1", "f2", roots, neighbours);
  }

  /** The DOIs of the two example keys. */
  lemma ExampleKeyDois()
    ensures KeyDoi("d1|ds") == "d1" && KeyDoi("d2|ds") == "d2"
  {
    DoiOfKey("d1", "ds");
    DoiOfKey("d2", "ds");
    assert "d1" + "|" + "ds" == "d1|ds";
    assert "d2" + "|" + "ds" == "d2|ds";
  }

  lemma TwoFaculties(f1: string, f2: string, roots: string -> seq<Option<string>>, neighbours: string -> seq<string>)
    ensures AllFacultyDois([f1, f2], roots, neighbours) == FacultyDois(roots(f1), neighbours) + FacultyDois(roots(f2), neighbours)
  {
    assert [f1, f2][..1] == [f1] && [f1][..0] == [];
    assert AllFacultyDois([f1], roots, neighbours) == [] + FacultyDois(roots(f1), neighbours);
  }

  /** The DOI of a key `doi|category` whose DOI part has no '|'. */
  lemma DoiOfKey(doi: string, category: string)
    requires '|' !in doi
    ensures KeyDoi(doi + "|" + category) == doi
  {
    NotContainsChar(doi, '|');
    NoSepSplitsToItself(doi, "|");
    SplitAtChar(doi, '|', category);
    assert doi + "|" + category == doi + ['|'] + category;
  }

  // ---------------------------------------------------------------------
  // df_to_pure

  /**
   * A row of the DataCite table: the fields this pass reads. `refDate` is the
   * day of `created` without its time of day.
   */
  datatype RgRow = RgRow(
    doi: Option<string>,
    title: string,
    description: string,
    created: string,
    refDate: Option<Date>,
    publisher: string,
    persons: seq<DsContributor>)

  /** The requests and settings the pass depends on. */
  datatype RgEnv = RgEnv(
    fetchDataset: string -> Option<string>,
    searchDatasets: string -> seq<Option<string>>,
    lookups: DsLookups,
    typeUri: Dict<string, string>,
    defaultUniversity: string,
    publisherOf: string -> PublisherResponse,
    defaultPublisher: string,
    datasetTypeUri: string,
    visibilityKey: string)

  /** A row of the review table: `{to_be_updated: 'x', updated: ' ', doi, title}`. */
  datatype StagedRow = StagedRow(toBeUpdated: string, updated: string, doi: string, title: string)

  /** The counters and the two lists df_to_pure fills. */
  datatype DfRun = DfRun(created: int, ignored: int, noInternal: int,
                         collection: seq<DatasetJson>, staged: seq<StagedRow>)

  /** `puda.find_dataset(None, row['doi'])` found something. */
  predicate AlreadyInPure(row: RgRow, env: RgEnv)
  {
    var found := FindDataset(None, row.doi, env.fetchDataset, env.searchDatasets);
    found.Some? && |found.value| > 0
  }

  /**
   * The record built for a row whose contributors were found (a raise stops
   * the whole pass). format_contributors de-duplicates the table in place, so
   * the organisations are read from the de-duplicated table.
   */
  function DatasetFor(row: RgRow, details: DsPersons, env: RgEnv): Result<DatasetJson>
  {
    var deduped := DedupedPersons(details);
    match FormattedOf(deduped, env.typeUri)
    case Raised(e) => Raised(e)
    case Ok(contributors) =>
      match OrganizationsOf(deduped, env.defaultUniversity)
      case Raised(e) => Raised(e)
      case Ok(orgs) =>
        ConstructDatasetJson(DsRow(row.title, row.description, row.created, row.doi, row.publisher,
                                   orgs.managing, contributors, orgs.organizations),
                             env.publisherOf, env.defaultPublisher, env.datasetTypeUri, env.visibilityKey)
  }

  /** One row of the loop. */
  function RowStep(st: DfRun, row: RgRow, env: RgEnv): Result<DfRun>
  {
    if AlreadyInPure(row, env) then Ok(st.(ignored := st.ignored + 1))
    else
      match ContributorsDetailsOf(row.persons, row.refDate, env.lookups)
      case Raised(e) => Raised(e)
      case Ok(None) => Ok(st.(noInternal := st.noInternal + 1))
      case Ok(Some(details)) => CreatedStep(st, row, details, env)
  }

  /** A row whose contributors were found: its record is collected and staged. */
  function CreatedStep(st: DfRun, row: RgRow, details: DsPersons, env: RgEnv): Result<DfRun>
  {
    match DatasetFor(row, details, env)
    case Raised(e) => Raised(e)
    case Ok(json) =>
      // construct_dataset_json writes 'n/a' into row['doi'] first, so the staged row carries it too
      var doi := if Truthy(row.doi) then row.doi.value else "n/a";
      Ok(st.(created := st.created + 1,
             collection := st.collection + [json],
             staged := st.staged + [StagedRow("x", " ", doi, row.title)]))
  }

  function DfRunOf(rows: seq<RgRow>, env: RgEnv, st0: DfRun): Result<DfRun>
    decreases |rows|
  {
    if |rows| == 0 then Ok(st0)
    else
      match DfRunOf(rows[..|rows| - 1], env, st0)
      case Raised(e) => Raised(e)
      case Ok(st) => RowStep(st, Last(rows), env)
  }

  /** The body of the loop for one row, calling the dataset module's methods. */
  method ProcessRow(st: DfRun, row: RgRow, env: RgEnv) returns (r: Result<DfRun>)
    ensures r == RowStep(st, row, env)
  {
    var alreadyInPure := FindDataset(None, row.doi, env.fetchDataset, env.searchDatasets);
    if alreadyInPure.Some? && |alreadyInPure.value| > 0 {
      return Ok(st.(ignored := st.ignored + 1));
    }
    var contributorsDetails := GetContributorsDetails(row.persons, row.refDate, env.lookups);
    if contributorsDetails.Raised? {
      return Raised(contributorsDetails.error);
    }
    if contributorsDetails.value.None? {
      return Ok(st.(noInternal := st.noInternal + 1));
    }
    r := CreateRow(st, row, contributorsDetails.value.value, env);
  }

  /** The rest of the loop body once the contributors are known. */
  method CreateRow(st: DfRun, row: RgRow, details: DsPersons, env: RgEnv) returns (r: Result<DfRun>)
    ensures r == CreatedStep(st, row, details, env)
  {
    var datasetJson := BuildDataset(row, details, env);
    if datasetJson.Raised? {
      return Raised(datasetJson.error);
    }
    var doi := if Truthy(row.doi) then row.doi.value else "n/a";
    r := Ok(st.(created := st.created + 1,
                collection := st.collection + [datasetJson.value],
                staged := st.staged + [StagedRow("x", " ", doi, row.title)]));
  }

  /** The record for a row whose contributors were found, built by the dataset module's methods. */
  method BuildDataset(row: RgRow, details: DsPersons, env: RgEnv) returns (r: Result<DatasetJson>)
    ensures r == DatasetFor(row, details, env)
  {
    var deduped, parsedContributors := FormatContributors(details, env.typeUri);
    if parsedContributors.Raised? {
      return Raised(parsedContributors.error);
    }
    var orgs := FormatOrganizationsFromContributors(deduped, env.defaultUniversity);
    if orgs.Raised? {
      return Raised(orgs.error);
    }
    r := ConstructDatasetJson(
      DsRow(row.title, row.description, row.created, row.doi, row.publisher,
            orgs.value.managing, parsedContributors.value, orgs.value.organizations),
      env.publisherOf, env.defaultPublisher, env.datasetTypeUri, env.visibilityKey);
  }

  lemma DfRunRaisedStays(rows: seq<RgRow>, env: RgEnv, st0: DfRun, i: nat)
    requires i <= |rows| && DfRunOf(rows[..i], env, st0).Raised?
    ensures DfRunOf(rows, env, st0) == DfRunOf(rows[..i], env, st0)
    decreases |rows| - i
  {
    if i < |rows| {
      assert rows[..i + 1][..i] == rows[..i];
      DfRunRaisedStays(rows, env, st0, i + 1);
    } else {
      assert rows[..i] == rows;
    }
  }

  /** df_to_pure: the counters come in and go out; the two lists are what gets saved. */
  method DfToPure(rows: seq<RgRow>, env: RgEnv, created: int, ignored: int, noInternal: int)
    returns (r: Result<DfRun>)
    ensures r == DfRunOf(rows, env, DfRun(created, ignored, noInternal, [], []))
  {
    var st0 := DfRun(created, ignored, noInternal, [], []);
    var st := st0;
    var i := 0;
    while i < |rows|
      invariant 0 <= i <= |rows|
      invariant DfRunOf(rows[..i], env, st0) == Ok(st)
    {
      assert rows[..i + 1][..i] == rows[..i] && Last(rows[..i + 1]) == rows[i];
      var next := ProcessRow(st, rows[i], env);
      if next.Raised? {
        DfRunRaisedStays(rows, env, st0, i + 1);
        return Raised(next.error);
      }
      st := next.value;
      i := i + 1;
    }
    assert rows[..i] == rows;
    r := Ok(st);
  }

  function CountInPure(rows: seq<RgRow>, env: RgEnv): nat
    decreases |rows|
  {
    if |rows| == 0 then 0
    else CountInPure(rows[..|rows| - 1], env) + (if AlreadyInPure(Last(rows), env) then 1 else 0)
  }

  function CountNoInternal(rows: seq<RgRow>, env: RgEnv): nat
    decreases |rows|
  {
    if |rows| == 0 then 0
    else
      var row := Last(rows);
      var none := !AlreadyInPure(row, env) && ContributorsDetailsOf(row.persons, row.refDate, env.lookups) == Ok(None);
      CountNoInternal(rows[..|rows| - 1], env) + (if none then 1 else 0)
  }

  /** A review row that belongs to the dataset record it stands beside. */
  predicate StagedFor(staged: StagedRow, json: DatasetJson)
  {
    staged.toBeUpdated == "x" && staged.updated == " " && staged.doi == json.doi && staged.title == json.title
  }

  /** The two lists df_to_pure saves, as DfRun holds them. */
  predicate Aligned(st: DfRun, created0: int)
  {
    |st.collection| == |st.staged| == st.created - created0 &&
    forall k :: 0 <= k < |st.staged| ==> StagedFor(st.staged[k], st.collection[k])
  }

  /**
   * A pass that does not raise counts every row exactly once: `ignored`
   * grows by the rows already in Pure, `no_internal` by the rows without
   * internal contributors and `created` by the rest; each created dataset
   * has one review row beside it, carrying its DOI and title.
   */
  lemma {:induction false} DfRunCounts(rows: seq<RgRow>, env: RgEnv, st0: DfRun)
    requires st0.collection == [] && st0.staged == []
    requires DfRunOf(rows, env, st0).Ok?
    ensures var st := DfRunOf(rows, env, st0).value;
      st.ignored == st0.ignored + CountInPure(rows, env) &&
      st.noInternal == st0.noInternal + CountNoInternal(rows, env) &&
      st.created == st0.created + |rows| - CountInPure(rows, env) - CountNoInternal(rows, env) &&
      Aligned(st, st0.created)
    decreases |rows|
  {
    if |rows| > 0 {
      var front := rows[..|rows| - 1];
      var prev := DfRunOf(front, env, st0);
      if prev.Ok? {
        DfRunCounts(front, env, st0);
        RowStepCounts(prev.value, Last(rows), env, st0.created);
      }
    }
  }

  lemma RowStepCounts(st: DfRun, row: RgRow, env: RgEnv, created0: int)
    requires RowStep(st, row, env).Ok? && Aligned(st, created0)
    ensures var nx := RowStep(st, row, env).value;
      var inPure := if AlreadyInPure(row, env) then 1 else 0;
      var none := if !AlreadyInPure(row, env) && ContributorsDetailsOf(row.persons, row.refDate, env.lookups) == Ok(None) then 1 else 0;
      nx.ignored == st.ignored + inPure && nx.noInternal == st.noInternal + none &&
      nx.created == st.created + 1 - inPure - none && Aligned(nx, created0)
  {
    if !AlreadyInPure(row, env) && ContributorsDetailsOf(row.persons, row.refDate, env.lookups).value.Some? {
      var nx := RowStep(st, row, env).value;
      var details := ContributorsDetailsOf(row.persons, row.refDate, env.lookups).value.value;
      var json := DatasetFor(row, details, env).value;
      assert json.title == row.title;
      assert nx.collection == st.collection + [json];
      forall k | 0 <= k < |nx.staged|
        ensures StagedFor(nx.staged[k], nx.collection[k])
      {
        if k < |st.staged| {
          assert nx.staged[k] == st.staged[k] && nx.collection[k] == st.collection[k];
        }
      }
    }
  }
}
