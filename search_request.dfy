/**
 * The search resolver's request to the `user-profiles` index: a fuzzy
 * `multi_match` of the keyword over six document fields, one page of hits
 * selected by `size` and `from`. When the query's `limit` is not given, the
 * page size is 50; when its `offset` is not given, the page starts at 0.
 * A given argument is used as it is (the template's `#if` is true for any
 * value that is present, zero included).
 */
module SearchRequest {
  import opened Wrappers
  import Documents

  const DefaultSize: int := 50
  const DefaultFrom: int := 0

  /** The document fields the keyword is matched against. */
  const SearchedFields: seq<string> := ["fullName", "department", "position", "bio", "skills", "hobbies"]

  datatype SearchBody = SearchBody(keyword: string, fields: seq<string>, size: int, from: int)

  /** The request body built from the query arguments `keyword`, `limit` and `offset`. */
  function BuildSearch(keyword: string, limit: Option<int>, offset: Option<int>): (b: SearchBody)
    ensures b.keyword == keyword && b.fields == SearchedFields
    ensures b.size == (if limit.Some? then limit.value else DefaultSize)
    ensures b.from == (if offset.Some? then offset.value else DefaultFrom)
  {
    SearchBody(keyword, SearchedFields, Paging(limit, DefaultSize), Paging(offset, DefaultFrom))
  }

  /** `#if($arg) $arg #else default #end`. */
  function Paging(arg: Option<int>, default: int): (r: int)
    ensures arg.Some? ==> r == arg.value
    ensures arg.None? ==> r == default
  {
    if arg.Some? then arg.value else default
  }

  /**
   * Every searched field is one the sync handler projects into the index;
   * the two it projects but never searches are the ids.
   */
  lemma SearchedFieldsAreIndexed()
    ensures forall f :: f in SearchedFields ==> f in Documents.Fields
    ensures Documents.Fields - (set f | f in SearchedFields) == {"id", "userId"}
  {
    var searched := set f | f in SearchedFields;
    assert searched == {"fullName", "department", "position", "bio", "skills", "hobbies"};
  }
}
