/**
 * Enrichment of Pure's external organisations from OpenAlex: for each research
 * output known to both systems the OpenAlex institutions and the Pure external
 * organisations are collected, their details are looked up in the bulk
 * answers, organisations are matched by name, and a review row is staged for
 * every matched organisation whose ROR identifier Pure does not hold yet.
 */
module ExternalOrgs {
  import opened Common
  import opened Identifiers
  import opened Works

  // ---------------------------------------------------------------------
  // get_ext_orgdata_pure

  /** A record of the bulk Pure answer: its `uuid`, `name.en_GB` and identifiers. */
  datatype PureOrgRecord = PureOrgRecord(uuid: Option<string>, nameEn: Option<string>, identifiers: seq<Identifier>)

  /** What get_ext_orgdata_pure keeps of a Pure organisation: identifiers as (name, id) pairs. */
  datatype PureOrgDetail = PureOrgDetail(uuid: string, name: string, identifiers: seq<(string, string)>)

  /** The name of an identifier: `type.term.en_GB` when it has a type, otherwise `idSource`. */
  function IdName(e: Identifier): (r: Option<string>)
    ensures e.kind.Some? ==> r == e.kind.value.term
    ensures e.kind.None? ==> r == e.idSource
  {
    if e.kind.Some? then e.kind.value.term else e.idSource
  }

  /** An identifier is kept as a pair only when both its name and its value are non-empty. */
  function NamedId(e: Identifier): (r: Option<(string, string)>)
    ensures r.Some? <==> Truthy(IdName(e)) && Truthy(IdOrValue(e))
    ensures r.Some? ==> r.value == (IdName(e).value, IdOrValue(e).value)
  {
    if Truthy(IdName(e)) && Truthy(IdOrValue(e)) then Some((IdName(e).value, IdOrValue(e).value)) else None
  }

  function NamedIdOf(): Identifier -> Option<(string, string)>
  {
    (e: Identifier) => NamedId(e)
  }

  function ResultByUuid(results: seq<PureOrgRecord>, uuid: string): Option<nat>
  {
    FindFirst(results, (r: PureOrgRecord) => r.uuid == Some(uuid))
  }

  /** The detail of a requested uuid, or None when the bulk answer lacks it. */
  function PureDetailFor(uuid: string, results: seq<PureOrgRecord>): (r: Option<PureOrgDetail>)
    ensures r.Some? <==> ResultByUuid(results, uuid).Some?
    ensures r.Some? ==>
      var rec := results[ResultByUuid(results, uuid).value];
      r.value == PureOrgDetail(uuid, rec.nameEn.GetOr(""), FilterMap(rec.identifiers, NamedIdOf()))
  {
    match ResultByUuid(results, uuid)
    case None => None
    case Some(i) =>
      var rec := results[i];
      Some(PureOrgDetail(rec.uuid.value, rec.nameEn.GetOr(""), FilterMap(rec.identifiers, NamedIdOf())))
  }

  function PureDetailOf(results: seq<PureOrgRecord>): string -> Option<PureOrgDetail>
  {
    (u: string) => PureDetailFor(u, results)
  }

  method NamedIds(ids: seq<Identifier>) returns (pairs: seq<(string, string)>)
    ensures pairs == FilterMap(ids, NamedIdOf())
  {
    pairs := [];
    var i := 0;
    while i < |ids|
      invariant 0 <= i <= |ids|
      invariant pairs == FilterMap(ids[..i], NamedIdOf())
    {
      FilterMapSnoc(ids, i, NamedIdOf());
      var name := if ids[i].kind.Some? then ids[i].kind.value.term else ids[i].idSource;
      var value := IdOrValue(ids[i]);
      if Truthy(name) && Truthy(value) {
        pairs := pairs + [(name.value, value.value)];
      }
      i := i + 1;
    }
    assert ids[..i] == ids;
  }

  /**
   * get_ext_orgdata_pure: one detail per requested uuid found in the bulk
   * answer (the first record with that uuid), in request order; uuids not
   * found are skipped.
   */
  method GetExtOrgdataPure(uuids: seq<string>, results: seq<PureOrgRecord>) returns (details: seq<PureOrgDetail>)
    ensures details == FilterMap(uuids, PureDetailOf(results))
  {
    details := [];
    var i := 0;
    while i < |uuids|
      invariant 0 <= i <= |uuids|
      invariant details == FilterMap(uuids[..i], PureDetailOf(results))
    {
      FilterMapSnoc(uuids, i, PureDetailOf(results));
      var j := 0;
      var found: Option<nat> := None;
      while j < |results|
        invariant 0 <= j <= |results|
        invariant forall k :: 0 <= k < j ==> results[k].uuid != Some(uuids[i])
      {
        if results[j].uuid == Some(uuids[i]) {
          found := Some(j);
          break;
        }
        j := j + 1;
      }
      assert found == ResultByUuid(results, uuids[i]);
      if found.Some? {
        var rec := results[found.value];
        var ids := NamedIds(rec.identifiers);
        details := details + [PureOrgDetail(rec.uuid.value, rec.nameEn.GetOr(""), ids)];
      }
      i := i + 1;
    }
    assert uuids[..i] == uuids;
  }

  /** Every detail belongs to a requested uuid that was found, in request order, and none found is missed. */
  lemma PureDetailsExact(uuids: seq<string>, results: seq<PureOrgRecord>)
    ensures var idx := FilterIndices(uuids, PureDetailOf(results));
      var ds := FilterMap(uuids, PureDetailOf(results));
      |ds| == |idx|
      && (forall k :: 0 <= k < |idx| ==> 0 <= idx[k] < |uuids| && ds[k].uuid == uuids[idx[k]])
      && (forall k, l :: 0 <= k < l < |idx| ==> idx[k] < idx[l])
      && (forall i :: 0 <= i < |uuids| ==> (ResultByUuid(results, uuids[i]).Some? <==> i in idx))
  {
    FilterMapSpec(uuids, PureDetailOf(results));
  }

  /** Every identifier pair kept has a non-empty name and value. */
  lemma NamedIdsNonEmpty(ids: seq<Identifier>)
    ensures forall k :: 0 <= k < |FilterMap(ids, NamedIdOf())| ==>
      FilterMap(ids, NamedIdOf())[k].0 != "" && FilterMap(ids, NamedIdOf())[k].1 != ""
  {
    FilterMapSpec(ids, NamedIdOf());
    var idx := FilterIndices(ids, NamedIdOf());
    forall k | 0 <= k < |FilterMap(ids, NamedIdOf())|
      ensures FilterMap(ids, NamedIdOf())[k].0 != "" && FilterMap(ids, NamedIdOf())[k].1 != ""
    {
      assert NamedId(ids[idx[k]]) == Some(FilterMap(ids, NamedIdOf())[k]);
    }
  }

  // ---------------------------------------------------------------------
  // get_ext_orgdata_openalex

  type Geo = Dict<string, string>

  /** An institution of the bulk OpenAlex answer. */
  datatype OaOrgRecord = OaOrgRecord(
    id: Option<string>,
    idsOpenalex: Option<string>,
    idsRor: Option<string>,
    displayName: Option<string>,
    alternatives: seq<string>,
    geo: Geo)

  datatype OaOrgDetail = OaOrgDetail(
    openalexId: Option<string>,
    ror: Option<string>,
    displayName: Option<string>,
    alternatives: seq<string>,
    geo: Geo)

  function OaDetailFor(id: string, results: seq<OaOrgRecord>): (r: Option<OaOrgDetail>)
    ensures r.Some? <==> exists j :: 0 <= j < |results| && results[j].id == Some(id)
    ensures r.Some? ==> exists j :: (0 <= j < |results| && results[j].id == Some(id)
      && (forall k :: 0 <= k < j ==> results[k].id != Some(id))
      && r.value == OaOrgDetail(results[j].idsOpenalex, results[j].idsRor, results[j].displayName,
                                results[j].alternatives, results[j].geo))
  {
    match FindFirst(results, (r: OaOrgRecord) => r.id == Some(id))
    case None => None
    case Some(j) =>
      var rec := results[j];
      Some(OaOrgDetail(rec.idsOpenalex, rec.idsRor, rec.displayName, rec.alternatives, rec.geo))
  }

  function OaDetailOf(results: seq<OaOrgRecord>): string -> Option<OaOrgDetail>
  {
    (k: string) => OaDetailFor(k, results)
  }

  /**
   * get_ext_orgdata_openalex: one detail per unique institution (by key, in
   * key order) found in the bulk answer; the others are skipped.
   */
  method GetExtOrgdataOpenalex(institutions: seq<string>, results: seq<OaOrgRecord>) returns (details: seq<OaOrgDetail>)
    ensures details == FilterMap(institutions, OaDetailOf(results))
  {
    details := [];
    var i := 0;
    while i < |institutions|
      invariant 0 <= i <= |institutions|
      invariant details == FilterMap(institutions[..i], OaDetailOf(results))
    {
      FilterMapSnoc(institutions, i, OaDetailOf(results));
      var j := 0;
      while j < |results|
        invariant 0 <= j <= |results|
        invariant forall k :: 0 <= k < j ==> results[k].id != Some(institutions[i])
      {
        if results[j].id == Some(institutions[i]) {
          break;
        }
        j := j + 1;
      }
      if j < |results| {
        var rec := results[j];
        details := details + [OaOrgDetail(rec.idsOpenalex, rec.idsRor, rec.displayName, rec.alternatives, rec.geo)];
      }
      i := i + 1;
    }
    assert institutions[..i] == institutions;
  }

  // ---------------------------------------------------------------------
  // match_organizations

  /** A Pure organisation matched to an OpenAlex institution. */
  datatype MatchedOrg = MatchedOrg(uuid: string, openalexId: Option<string>, ror: Option<string>, geo: Geo)

  /** The Pure name equals the display name or is one of the alternatives. */
  predicate OrgMatches(p: PureOrgDetail, o: OaOrgDetail)
  {
    o.displayName == Some(p.name) || p.name in o.alternatives
  }

  function MatchesOrg(p: PureOrgDetail): OaOrgDetail -> bool
  {
    (o: OaOrgDetail) => OrgMatches(p, o)
  }

  /** The match of one Pure organisation: the first OpenAlex institution with its name. */
  function MatchFor(p: PureOrgDetail, oas: seq<OaOrgDetail>): (r: Option<MatchedOrg>)
    ensures r.Some? <==> exists j :: 0 <= j < |oas| && OrgMatches(p, oas[j])
    ensures r.Some? ==> exists j :: (0 <= j < |oas| && OrgMatches(p, oas[j])
      && (forall k :: 0 <= k < j ==> !OrgMatches(p, oas[k]))
      && r.value == MatchedOrg(p.uuid, oas[j].openalexId, oas[j].ror, oas[j].geo))
  {
    match FindFirst(oas, MatchesOrg(p))
    case None => None
    case Some(j) => Some(MatchedOrg(p.uuid, oas[j].openalexId, oas[j].ror, oas[j].geo))
  }

  function MatchOf(oas: seq<OaOrgDetail>): PureOrgDetail -> Option<MatchedOrg>
  {
    (p: PureOrgDetail) => MatchFor(p, oas)
  }

  /**
   * match_organizations: for each Pure organisation the inner loop stops at
   * the first matching institution (`break`), so each yields at most one match.
   */
  method MatchOrganizations(pureOrgs: seq<PureOrgDetail>, oaOrgs: seq<OaOrgDetail>) returns (matched: seq<MatchedOrg>)
    ensures matched == FilterMap(pureOrgs, MatchOf(oaOrgs))
  {
    matched := [];
    var i := 0;
    while i < |pureOrgs|
      invariant 0 <= i <= |pureOrgs|
      invariant matched == FilterMap(pureOrgs[..i], MatchOf(oaOrgs))
    {
      FilterMapSnoc(pureOrgs, i, MatchOf(oaOrgs));
      var p := pureOrgs[i];
      var j := 0;
      while j < |oaOrgs|
        invariant 0 <= j <= |oaOrgs|
        invariant forall k :: 0 <= k < j ==> !OrgMatches(p, oaOrgs[k])
      {
        if oaOrgs[j].displayName == Some(p.name) || p.name in oaOrgs[j].alternatives {
          break;
        }
        j := j + 1;
      }
      if j < |oaOrgs| {
        assert FindFirst(oaOrgs, MatchesOrg(p)) == Some(j);
        matched := matched + [MatchedOrg(p.uuid, oaOrgs[j].openalexId, oaOrgs[j].ror, oaOrgs[j].geo)];
      } else {
        assert FindFirst(oaOrgs, MatchesOrg(p)).None?;
      }
      i := i + 1;
    }
    assert pureOrgs[..i] == pureOrgs;
  }

  /**
   * At most one match per Pure organisation, in Pure order: the k-th match
   * is that of the k-th Pure organisation that has one, and it carries that
   * organisation's uuid.
   */
  lemma MatchesInPureOrder(pureOrgs: seq<PureOrgDetail>, oaOrgs: seq<OaOrgDetail>)
    ensures var idx := FilterIndices(pureOrgs, MatchOf(oaOrgs));
      var ms := FilterMap(pureOrgs, MatchOf(oaOrgs));
      |ms| == |idx| && |ms| <= |pureOrgs|
      && (forall k :: 0 <= k < |idx| ==>
            (0 <= idx[k] < |pureOrgs|
             && Some(ms[k]) == MatchFor(pureOrgs[idx[k]], oaOrgs) && ms[k].uuid == pureOrgs[idx[k]].uuid))
      && (forall k, l :: 0 <= k < l < |idx| ==> idx[k] < idx[l])
      && (forall i :: 0 <= i < |pureOrgs| ==>
            ((exists j :: 0 <= j < |oaOrgs| && OrgMatches(pureOrgs[i], oaOrgs[j])) <==> i in idx))
  {
    var f := MatchOf(oaOrgs);
    FilterMapSpec(pureOrgs, f);
    var idx := FilterIndices(pureOrgs, f);
    IncreasingBounded(idx, |pureOrgs|);
  }

  /** Strictly increasing indices below n are at most n many. */
  lemma {:induction false} IncreasingBounded(idx: seq<int>, n: int)
    requires 0 <= n
    requires forall k :: 0 <= k < |idx| ==> 0 <= idx[k] < n
    requires forall k, l :: 0 <= k < l < |idx| ==> idx[k] < idx[l]
    ensures |idx| <= n
    decreases |idx|
  {
    if |idx| > 0 {
      var front := idx[..|idx| - 1];
      var m := idx[|idx| - 1];
      forall k | 0 <= k < |front|
        ensures 0 <= front[k] < m
      {
        assert front[k] == idx[k];
      }
      forall k, l | 0 <= k < l < |front|
        ensures front[k] < front[l]
      {
        assert front[k] == idx[k] && front[l] == idx[l];
      }
      IncreasingBounded(front, m);
    }
  }

  // ---------------------------------------------------------------------
  // match_orgs_oa_pure

  /** An entry of `oa_unique_institutions`. */
  datatype UniqueInstitution = UniqueInstitution(openalexId: string, displayName: Option<string>, ror: Option<string>)

  /** What match_orgs_oa_pure appends to `article_orgs`. */
  datatype ArticleOrgs = ArticleOrgs(
    doi: Option<string>,
    externalOrganizationUuids: seq<string>,
    uniqueInstitutions: Dict<string, UniqueInstitution>)

  /** All institutions of the authorships, in order. */
  function Institutions(auths: seq<OaAuthorship>): seq<OaInstitution>
    decreases |auths|
  {
    if |auths| == 0 then [] else Institutions(auths[..|auths| - 1]) + Last(auths).institutions
  }

  function WorkInstitutions(oa: OaWork): seq<OaInstitution>
  {
    if oa.authorships.Some? then Institutions(oa.authorships.value) else []
  }

  /** The `ror` of every institution, None included. */
  function Rors(insts: seq<OaInstitution>): seq<Option<string>>
    decreases |insts|
  {
    if |insts| == 0 then [] else Rors(insts[..|insts| - 1]) + [Last(insts).ror]
  }

  /** The first institution with a given non-empty id is kept; later ones and empty ids are skipped. */
  function UniqueInstitutionsOf(insts: seq<OaInstitution>): Dict<string, UniqueInstitution>
    decreases |insts|
  {
    if |insts| == 0 then []
    else
      var prev := UniqueInstitutionsOf(insts[..|insts| - 1]);
      var inst := Last(insts);
      if Truthy(inst.id) && inst.id.value !in Keys(prev) then
        Put(prev, inst.id.value, UniqueInstitution(inst.id.value, inst.displayName, inst.ror))
      else prev
  }

  function HasId(k: string): OaInstitution -> bool
  {
    (inst: OaInstitution) => inst.id == Some(k)
  }

  /**
   * The entry under a non-empty OpenAlex id is built from the first
   * institution carrying that id, and there is none when no institution does.
   */
  lemma {:induction false} UniqueInstitutionsFirst(insts: seq<OaInstitution>, k: string)
    requires k != ""
    ensures Get(UniqueInstitutionsOf(insts), k) ==
      match FindFirst(insts, HasId(k))
      case None => None
      case Some(i) => Some(UniqueInstitution(k, insts[i].displayName, insts[i].ror))
    decreases |insts|
  {
    if |insts| > 0 {
      var front := insts[..|insts| - 1];
      var inst := Last(insts);
      assert insts == front + [inst];
      UniqueInstitutionsFirst(front, k);
      FindFirstSnoc(front, inst, HasId(k));
      var prev := UniqueInstitutionsOf(front);
      if Truthy(inst.id) && inst.id.value !in Keys(prev) {
        PutGet(prev, inst.id.value, UniqueInstitution(inst.id.value, inst.displayName, inst.ror), k);
        if inst.id.value == k {
          assert Get(prev, k).None?;
        }
      } else if inst.id == Some(k) {
        assert k in Keys(prev);
      }
    }
  }

  /** The truthy values of a list of optional uuids, in order. */
  function TruthyUuids(s: seq<Option<string>>): (r: seq<string>)
    ensures forall u :: u in r <==> u != "" && Some(u) in s
    decreases |s|
  {
    if |s| == 0 then []
    else
      var front := s[..|s| - 1];
      assert s == front + [Last(s)];
      TruthyUuids(front) + (if Truthy(Last(s)) then [Last(s).value] else [])
  }

  /** The `externalOrganizations` uuids of the contributors, in order. */
  function ContributorOrgs(cs: seq<PureContributor>): seq<Option<string>>
    decreases |cs|
  {
    if |cs| == 0 then [] else ContributorOrgs(cs[..|cs| - 1]) + Last(cs).externalOrganizations
  }

  /** The set `external_organization_uuids` (as a list in first-occurrence order). */
  function ExternalOrganizationUuids(pure: PureWork): seq<string>
  {
    Dedupe(TruthyUuids(ContributorOrgs(pure.contributors) + pure.externalOrganizations))
  }

  lemma {:induction false} ContributorOrgsMembers(cs: seq<PureContributor>, u: Option<string>)
    ensures u in ContributorOrgs(cs) <==> exists i :: 0 <= i < |cs| && u in cs[i].externalOrganizations
    decreases |cs|
  {
    if |cs| > 0 {
      var front := cs[..|cs| - 1];
      ContributorOrgsMembers(front, u);
      assert forall i :: 0 <= i < |front| ==> front[i] == cs[i];
      if exists i :: 0 <= i < |cs| && u in cs[i].externalOrganizations {
        var i :| 0 <= i < |cs| && u in cs[i].externalOrganizations;
        if i < |front| {
          assert u in front[i].externalOrganizations;
        }
      }
    }
  }

  /**
   * The set of uuids gathered for a research output: every non-empty uuid of
   * a contributor's external organisations or of the top-level ones, and
   * nothing else.
   */
  lemma ExternalOrganizationUuidsMembers(pure: PureWork, u: string)
    ensures u in ExternalOrganizationUuids(pure) <==>
      u != "" && (Some(u) in pure.externalOrganizations
                  || exists i :: 0 <= i < |pure.contributors| && Some(u) in pure.contributors[i].externalOrganizations)
  {
    ContributorOrgsMembers(pure.contributors, Some(u));
  }

  /** One institution: its ROR joins `oa_ids`, and a new non-empty id gets an entry. */
  method AddInstitution(unique: Dict<string, UniqueInstitution>, oaIds: seq<Option<string>>,
                        ghost oaBase: seq<Option<string>>, ghost done: seq<OaInstitution>, inst: OaInstitution)
    returns (unique': Dict<string, UniqueInstitution>, oaIds': seq<Option<string>>)
    requires unique == UniqueInstitutionsOf(done) && oaIds == Dedupe(oaBase + Rors(done))
    ensures unique' == UniqueInstitutionsOf(done + [inst]) && oaIds' == Dedupe(oaBase + Rors(done + [inst]))
  {
    assert (done + [inst])[..|done|] == done && Last(done + [inst]) == inst;
    DedupeSnoc(oaBase + Rors(done), inst.ror);
    assert oaBase + Rors(done + [inst]) == oaBase + Rors(done) + [inst.ror];
    oaIds' := oaIds;
    if inst.ror !in oaIds {
      oaIds' := oaIds + [inst.ror];
    }
    unique' := unique;
    if Truthy(inst.id) && inst.id.value !in Keys(unique) {
      unique' := Put(unique, inst.id.value, UniqueInstitution(inst.id.value, inst.displayName, inst.ror));
    }
  }

  /** The inner loop over one authorship's institutions. */
  method AddInstitutions(unique: Dict<string, UniqueInstitution>, oaIds: seq<Option<string>>,
                         ghost oaBase: seq<Option<string>>, ghost seen: seq<OaInstitution>, insts: seq<OaInstitution>)
    returns (unique': Dict<string, UniqueInstitution>, oaIds': seq<Option<string>>)
    requires unique == UniqueInstitutionsOf(seen) && oaIds == Dedupe(oaBase + Rors(seen))
    ensures unique' == UniqueInstitutionsOf(seen + insts) && oaIds' == Dedupe(oaBase + Rors(seen + insts))
  {
    unique', oaIds' := unique, oaIds;
    assert seen + insts[..0] == seen;
    var j := 0;
    while j < |insts|
      invariant 0 <= j <= |insts|
      invariant unique' == UniqueInstitutionsOf(seen + insts[..j])
      invariant oaIds' == Dedupe(oaBase + Rors(seen + insts[..j]))
    {
      AppendPrefixSnoc(seen, insts, j);
      unique', oaIds' := AddInstitution(unique', oaIds', oaBase, seen + insts[..j], insts[j]);
      j := j + 1;
    }
    assert insts[..j] == insts;
  }

  /** The loops over the authorships and their institutions. */
  method CollectInstitutions(oa: OaWork, oaIds: seq<Option<string>>, ghost oaBase: seq<Option<string>>)
    returns (unique: Dict<string, UniqueInstitution>, oaIds': seq<Option<string>>)
    requires oaIds == Dedupe(oaBase)
    ensures unique == UniqueInstitutionsOf(WorkInstitutions(oa))
    ensures oaIds' == Dedupe(oaBase + Rors(WorkInstitutions(oa)))
  {
    unique := [];
    oaIds' := oaIds;
    assert oaBase + Rors([]) == oaBase;
    if oa.authorships.None? {
      return;
    }
    var auths := oa.authorships.value;
    var a := 0;
    while a < |auths|
      invariant 0 <= a <= |auths|
      invariant unique == UniqueInstitutionsOf(Institutions(auths[..a]))
      invariant oaIds' == Dedupe(oaBase + Rors(Institutions(auths[..a])))
    {
      assert auths[..a + 1][..a] == auths[..a] && Last(auths[..a + 1]) == auths[a];
      assert Institutions(auths[..a + 1]) == Institutions(auths[..a]) + auths[a].institutions;
      unique, oaIds' := AddInstitutions(unique, oaIds', oaBase, Institutions(auths[..a]), auths[a].institutions);
      a := a + 1;
    }
    assert auths[..a] == auths;
  }

  /** The inner loops adding the non-empty uuids of a list to the set. */
  method AddAllTruthy(acc: seq<string>, ghost seen: seq<Option<string>>, xs: seq<Option<string>>) returns (r: seq<string>)
    requires acc == Dedupe(TruthyUuids(seen))
    ensures r == Dedupe(TruthyUuids(seen + xs))
  {
    r := acc;
    assert seen + xs[..0] == seen;
    var j := 0;
    while j < |xs|
      invariant 0 <= j <= |xs|
      invariant r == Dedupe(TruthyUuids(seen + xs[..j]))
    {
      AppendPrefixSnoc(seen, xs, j);
      r := AddTruthy(r, seen + xs[..j], xs[j]);
      j := j + 1;
    }
    assert xs[..j] == xs;
  }

  /** The loops gathering the non-empty external organisation uuids into a set. */
  method CollectExternalUuids(pure: PureWork) returns (uuids: seq<string>)
    ensures uuids == ExternalOrganizationUuids(pure)
  {
    uuids := [];
    var cs := pure.contributors;
    var i := 0;
    while i < |cs|
      invariant 0 <= i <= |cs|
      invariant uuids == Dedupe(TruthyUuids(ContributorOrgs(cs[..i])))
    {
      assert cs[..i + 1][..i] == cs[..i] && Last(cs[..i + 1]) == cs[i];
      assert ContributorOrgs(cs[..i + 1]) == ContributorOrgs(cs[..i]) + cs[i].externalOrganizations;
      uuids := AddAllTruthy(uuids, ContributorOrgs(cs[..i]), cs[i].externalOrganizations);
      i := i + 1;
    }
    assert cs[..i] == cs;
    uuids := AddAllTruthy(uuids, ContributorOrgs(cs), pure.externalOrganizations);
  }

  /** `if uuid: external_organization_uuids.add(uuid)` */
  method AddTruthy(acc: seq<string>, ghost seen: seq<Option<string>>, u: Option<string>) returns (r: seq<string>)
    requires acc == Dedupe(TruthyUuids(seen))
    ensures r == Dedupe(TruthyUuids(seen + [u]))
  {
    assert (seen + [u])[..|seen|] == seen;
    r := acc;
    if Truthy(u) {
      DedupeSnoc(TruthyUuids(seen), u.value);
      if u.value !in acc {
        r := acc + [u.value];
      }
    } else {
      assert TruthyUuids(seen + [u]) == TruthyUuids(seen);
    }
  }

  /**
   * match_orgs_oa_pure: one entry is appended to `article_orgs`; `uuids`
   * grows by the research output's external organisations and `oa_ids` by
   * the ROR of every institution, missing ones included.
   */
  method MatchOrgsOaPure(oa: OaWork, pure: PureWork, articleOrgs: seq<ArticleOrgs>,
                         uuids: seq<string>, ghost uuidsBase: seq<string>,
                         oaIds: seq<Option<string>>, ghost oaBase: seq<Option<string>>)
    returns (articleOrgs': seq<ArticleOrgs>, uuids': seq<string>, oaIds': seq<Option<string>>)
    requires uuids == Dedupe(uuidsBase) && oaIds == Dedupe(oaBase)
    ensures articleOrgs' == articleOrgs + [ArticleOrgs(oa.doi, ExternalOrganizationUuids(pure),
                                                       UniqueInstitutionsOf(WorkInstitutions(oa)))]
    ensures uuids' == Dedupe(uuidsBase + ExternalOrganizationUuids(pure))
    ensures oaIds' == Dedupe(oaBase + Rors(WorkInstitutions(oa)))
  {
    var unique: Dict<string, UniqueInstitution>;
    unique, oaIds' := CollectInstitutions(oa, oaIds, oaBase);
    var ext := CollectExternalUuids(pure);
    articleOrgs' := articleOrgs + [ArticleOrgs(oa.doi, ext, unique)];
    uuids' := SetUpdate(uuids, uuidsBase, ext);
  }

  // ---------------------------------------------------------------------
  // update_externalorg_pure (staging)

  /** An external organisation as fetched from Pure; `identifiers` is None when the key is absent. */
  datatype ExtOrgRecord = ExtOrgRecord(uuid: Option<string>, identifiers: Option<seq<Identifier>>, others: Dict<string, string>)

  /** A row of the review table `external_orgs_to_update.csv`. */
  datatype OrgReviewRow = OrgReviewRow(toBeUpdated: string, updated: string, uuid: string, ror: string)

  /** The ROR identifier object built for a match. */
  function RorObject(ror: string, rorUri: string): Identifier
  {
    ClassifiedId(ror, rorUri, Some("ROR ID"))
  }

  /** `data['identifiers']` defaulted to an empty list. */
  function WithIdentifiers(rec: ExtOrgRecord): (r: ExtOrgRecord)
    ensures r.identifiers.Some? && r.uuid == rec.uuid && r.others == rec.others
    ensures rec.identifiers.Some? ==> r == rec
  {
    if rec.identifiers.Some? then rec else rec.(identifiers := Some([]))
  }

  /**
   * The staging of one match: a row marked 'X' and the fetched record when the
   * match has a ROR whose identifier object is not an element of the record's
   * identifiers (whole-object comparison).
   */
  function StageFor(m: MatchedOrg, fetch: string -> ExtOrgRecord, rorUri: string): (r: Option<(OrgReviewRow, ExtOrgRecord)>)
    ensures r.Some? <==> Truthy(m.ror) && RorObject(m.ror.value, rorUri) !in WithIdentifiers(fetch(m.uuid)).identifiers.value
    ensures r.Some? ==>
      (r.value.0 == OrgReviewRow("X", " ", m.uuid, m.ror.value) && r.value.1 == WithIdentifiers(fetch(m.uuid)))
  {
    var data := WithIdentifiers(fetch(m.uuid));
    if Truthy(m.ror) && RorObject(m.ror.value, rorUri) !in data.identifiers.value then
      Some((OrgReviewRow("X", " ", m.uuid, m.ror.value), data))
    else None
  }

  function StageOf(fetch: string -> ExtOrgRecord, rorUri: string): MatchedOrg -> Option<(OrgReviewRow, ExtOrgRecord)>
  {
    (m: MatchedOrg) => StageFor(m, fetch, rorUri)
  }

  function Rows(staged: seq<(OrgReviewRow, ExtOrgRecord)>): seq<OrgReviewRow>
  {
    seq(|staged|, k requires 0 <= k < |staged| => staged[k].0)
  }

  function Records(staged: seq<(OrgReviewRow, ExtOrgRecord)>): seq<ExtOrgRecord>
  {
    seq(|staged|, k requires 0 <= k < |staged| => staged[k].1)
  }

  /**
   * The staging loop of update_externalorg_pure: the review rows and the JSON
   * records written are the two halves of the staged pairs, so they stay
   * aligned.
   */
  method StageExternalOrgs(orgs: seq<MatchedOrg>, fetch: string -> ExtOrgRecord, rorUri: string)
    returns (rows: seq<OrgReviewRow>, records: seq<ExtOrgRecord>)
    ensures rows == Rows(FilterMap(orgs, StageOf(fetch, rorUri)))
    ensures records == Records(FilterMap(orgs, StageOf(fetch, rorUri)))
  {
    rows := [];
    records := [];
    ghost var staged: seq<(OrgReviewRow, ExtOrgRecord)> := [];
    var i := 0;
    while i < |orgs|
      invariant 0 <= i <= |orgs|
      invariant staged == FilterMap(orgs[..i], StageOf(fetch, rorUri))
      invariant rows == Rows(staged) && records == Records(staged)
    {
      FilterMapSnoc(orgs, i, StageOf(fetch, rorUri));
      var row := orgs[i];
      var data := fetch(row.uuid);
      var newRor: Option<Identifier> := None;
      if Truthy(row.ror) {
        newRor := Some(RorObject(row.ror.value, rorUri));
      }
      if data.identifiers.None? {
        data := data.(identifiers := Some([]));
      }
      if newRor.Some? && newRor.value !in data.identifiers.value {
        var entry := (OrgReviewRow("X", " ", row.uuid, row.ror.value), data);
        rows := rows + [entry.0];
        records := records + [entry.1];
        staged := staged + [entry];
      }
      i := i + 1;
    }
    assert orgs[..i] == orgs;
  }

  /**
   * What is staged: exactly the matches with a ROR the record does not hold,
   * in match order, each row marked 'X' next to the fetched record with
   * `identifiers` defaulted and without the new ROR appended.
   */
  lemma StagedExact(orgs: seq<MatchedOrg>, fetch: string -> ExtOrgRecord, rorUri: string)
    ensures var staged := FilterMap(orgs, StageOf(fetch, rorUri));
      var idx := FilterIndices(orgs, StageOf(fetch, rorUri));
      |Rows(staged)| == |Records(staged)| == |idx|
      && (forall k :: 0 <= k < |idx| ==>
            0 <= idx[k] < |orgs| && Truthy(orgs[idx[k]].ror)
            && Rows(staged)[k] == OrgReviewRow("X", " ", orgs[idx[k]].uuid, orgs[idx[k]].ror.value)
            && Records(staged)[k] == WithIdentifiers(fetch(orgs[idx[k]].uuid))
            && RorObject(Rows(staged)[k].ror, rorUri) !in Records(staged)[k].identifiers.value)
      && (forall k, l :: 0 <= k < l < |idx| ==> idx[k] < idx[l])
      && (forall i :: 0 <= i < |orgs| ==>
            (i in idx <==> Truthy(orgs[i].ror)
                           && RorObject(orgs[i].ror.value, rorUri) !in WithIdentifiers(fetch(orgs[i].uuid)).identifiers.value))
  {
    var f := StageOf(fetch, rorUri);
    FilterMapSpec(orgs, f);
    var staged := FilterMap(orgs, f);
    var idx := FilterIndices(orgs, f);
    forall k | 0 <= k < |idx|
      ensures StageFor(orgs[idx[k]], fetch, rorUri) == Some(staged[k])
    {
      assert f(orgs[idx[k]]) == Some(staged[k]);
    }
  }

  /**
   * A record holding the ROR under the same id and type but with extra keys
   * (as records fetched from Pure carry, such as `pureId`) does not count as
   * holding it: the match is staged again.
   */
  lemma ExtraKeysStageAgain(m: MatchedOrg, fetch: string -> ExtOrgRecord, rorUri: string, extra: (string, string))
    requires Truthy(m.ror)
    requires fetch(m.uuid).identifiers == Some([RorObject(m.ror.value, rorUri).(others := [extra])])
    ensures StageFor(m, fetch, rorUri).Some?
  {
    assert RorObject(m.ror.value, rorUri).others == [];
  }

  /**
   * A record holding the ROR under the same id, type uri and English term but
   * with a further translation of the term (such as `nl_NL`) does not count
   * as holding it either: the `term` dictionaries differ.
   */
  lemma OtherLocaleStagesAgain(m: MatchedOrg, fetch: string -> ExtOrgRecord, rorUri: string, locale: (string, string))
    requires Truthy(m.ror)
    requires fetch(m.uuid).identifiers ==
      Some([RorObject(m.ror.value, rorUri).(kind := Some(IdType(Some(rorUri), Some("ROR ID"), [locale])))])
    ensures StageFor(m, fetch, rorUri).Some?
  {
    assert RorObject(m.ror.value, rorUri).kind.value.otherLocales == [];
  }

  /** A record already holding the identical ROR object is not staged. */
  lemma SameRorNotStaged(m: MatchedOrg, fetch: string -> ExtOrgRecord, rorUri: string)
    requires Truthy(m.ror)
    requires fetch(m.uuid).identifiers == Some([RorObject(m.ror.value, rorUri)])
    ensures StageFor(m, fetch, rorUri).None?
  {
  }
}
