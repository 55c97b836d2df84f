/**
 * The identifier objects Pure stores on persons and organisations:
 * `{"typeDiscriminator": "ClassifiedId", "id": ..., "type": {"uri": ..., "term": {"en_GB": ...}}}`,
 * older ones carrying `value` or `idSource` instead.
 */
module Identifiers {
  import opened Common

  /**
   * The `type` object of an identifier; `term` is its `term.en_GB` and
   * `otherLocales` the term's further translations (such as `nl_NL`), which
   * matter only where the source compares whole objects.
   */
  datatype IdType = IdType(uri: Option<string>, term: Option<string>, otherLocales: seq<(string, string)>)

  /**
   * One identifier object. `others` stands for any further keys a record
   * fetched from Pure carries (such as `pureId`); they matter only where the
   * source compares whole objects.
   */
  datatype Identifier = Identifier(
    discriminator: Option<string>,
    id: Option<string>,
    value: Option<string>,
    kind: Option<IdType>,
    idSource: Option<string>,
    others: seq<(string, string)>)

  /** `entry.get('type', {}).get('uri')` */
  function TypeUri(e: Identifier): Option<string>
  {
    if e.kind.Some? then e.kind.value.uri else None
  }

  /** `entry.get('id') or entry.get('value')` */
  function IdOrValue(e: Identifier): (r: Option<string>)
    ensures Truthy(e.id) ==> r == e.id
    ensures !Truthy(e.id) ==> r == e.value
  {
    if Truthy(e.id) then e.id else e.value
  }

  /** A freshly built `ClassifiedId` with the given id, type uri and optional English term. */
  function ClassifiedId(id: string, uri: string, term: Option<string>): (r: Identifier)
    ensures r.id == Some(id) && TypeUri(r) == Some(uri)
  {
    Identifier(Some("ClassifiedId"), Some(id), None, Some(IdType(Some(uri), term, [])), None, [])
  }

  /** The ORCID identifier object the scripts build (term "ORCID"). */
  function OrcidObject(orcid: string, orcidUri: string): Identifier
  {
    ClassifiedId(orcid, orcidUri, Some("ORCID"))
  }

  /** The OpenAlex identifier object the scripts build (term "Open Alex id"). */
  function OpenalexObject(alexId: string, openalexUri: string): Identifier
  {
    ClassifiedId(alexId, openalexUri, Some("Open Alex id"))
  }

  /** Some identifier in the list has the given type uri. */
  predicate HasTypeUri(ids: seq<Identifier>, uri: string)
  {
    exists e :: e in ids && TypeUri(e) == Some(uri)
  }

  /** An identifier put at the end adds its own type to the types present. */
  lemma HasTypeUriSnoc(ids: seq<Identifier>, e: Identifier, uri: string)
    ensures HasTypeUri(ids + [e], uri) <==> HasTypeUri(ids, uri) || TypeUri(e) == Some(uri)
  {
    if HasTypeUri(ids + [e], uri) {
      var x :| x in ids + [e] && TypeUri(x) == Some(uri);
      if x != e {
        assert x in ids;
      }
    }
    if HasTypeUri(ids, uri) {
      var x :| x in ids && TypeUri(x) == Some(uri);
      assert x in ids + [e];
    }
    if TypeUri(e) == Some(uri) {
      assert e in ids + [e];
    }
  }
}
