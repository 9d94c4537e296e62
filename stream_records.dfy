/**
 * The records delivered by the table's change stream, as the sync handler
 * sees them: an event name and the item images before and after the change.
 * An image maps attribute names to tagged attribute values.
 */
module StreamRecords {
  import opened Wrappers

  /** One tagged attribute value of an item image. Only `S` and `SS` are ever read. */
  datatype AttributeValue =
    | S(s: string)
    | SS(ss: seq<string>)
    | N(n: string)
    | BOOL(b: bool)
    | NULL

  type Image = map<string, AttributeValue>

  /**
   * One stream record: its `eventName` and the `NewImage` / `OldImage` of its
   * `dynamodb` part, either of which may be absent.
   */
  datatype StreamRecord = StreamRecord(eventName: string, newImage: Option<Image>, oldImage: Option<Image>)

  /** `v` is what `item[name]?.S` yields: the `S` string when there is one, else nothing. */
  ghost predicate ReadsString(item: Image, name: string, v: Option<string>)
  {
    && (v.Some? <==> name in item && item[name].S?)
    && (v.Some? ==> item[name] == S(v.value))
  }

  /** `v` is what `item[name]?.SS` yields: the `SS` strings when there are some, else nothing. */
  ghost predicate ReadsStringSet(item: Image, name: string, v: Option<seq<string>>)
  {
    && (v.Some? <==> name in item && item[name].SS?)
    && (v.Some? ==> item[name] == SS(v.value))
  }

  /** `v` is what `item[name]?.SS || []` yields: the `SS` strings when there are some, else `[]`. */
  ghost predicate ReadsList(item: Image, name: string, v: seq<string>)
  {
    ReadsStringSet(item, name, Some(v)) || (ReadsStringSet(item, name, None) && v == [])
  }

  /** `item[name]?.S`: the string under tag `S`, or `undefined`. */
  function StringAttr(item: Image, name: string): (r: Option<string>)
    ensures ReadsString(item, name, r)
  {
    if name in item && item[name].S? then Some(item[name].s) else None
  }

  /** `item[name]?.SS`: the strings under tag `SS`, or `undefined`. */
  function StringSetAttr(item: Image, name: string): (r: Option<seq<string>>)
    ensures ReadsStringSet(item, name, r)
  {
    if name in item && item[name].SS? then Some(item[name].ss) else None
  }
}
