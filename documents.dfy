/**
 * The search document the sync handler writes for a profile: eight fixed
 * fields projected out of an item image. A string field that the image does
 * not carry under tag `S` is `undefined` in the handler and so is absent from
 * the stored JSON; here it is `None`. The two list fields fall back to `[]`.
 */
module Documents {
  import opened Wrappers
  import opened StreamRecords

  datatype Document = Document(
    id: Option<string>,
    userId: Option<string>,
    fullName: Option<string>,
    department: Option<string>,
    position: Option<string>,
    bio: Option<string>,
    skills: seq<string>,
    hobbies: seq<string>)

  /** The attribute names the projection reads; every other attribute is dropped. */
  const Fields: set<string> :=
    {"id", "userId", "fullName", "department", "position", "bio", "skills", "hobbies"}

  /** The document the handler builds from a record's `NewImage`. */
  function Project(item: Image): (d: Document)
    ensures ReadsString(item, "id", d.id)
    ensures ReadsString(item, "userId", d.userId)
    ensures ReadsString(item, "fullName", d.fullName)
    ensures ReadsString(item, "department", d.department)
    ensures ReadsString(item, "position", d.position)
    ensures ReadsString(item, "bio", d.bio)
    ensures ReadsList(item, "skills", d.skills)
    ensures ReadsList(item, "hobbies", d.hobbies)
  {
    Document(
      id := StringAttr(item, "id"),
      userId := StringAttr(item, "userId"),
      fullName := StringAttr(item, "fullName"),
      department := StringAttr(item, "department"),
      position := StringAttr(item, "position"),
      bio := StringAttr(item, "bio"),
      skills := ListOrEmpty(StringSetAttr(item, "skills")),
      hobbies := ListOrEmpty(StringSetAttr(item, "hobbies")))
  }

  function ListOrEmpty(v: Option<seq<string>>): seq<string>
  {
    if v.Some? then v.value else []
  }

  /** Two images that agree on the eight projected attributes give the same document. */
  lemma ProjectReadsOnlyFields(a: Image, b: Image)
    requires forall f :: f in Fields ==> (f in a <==> f in b) && (f in a ==> a[f] == b[f])
    ensures Project(a) == Project(b)
  {
  }

  /** Adding or replacing an attribute outside the eight projected ones changes nothing in the document. */
  lemma ProjectDropsOtherAttributes(item: Image, name: string, v: AttributeValue)
    requires name !in Fields
    ensures Project(item[name := v]) == Project(item)
  {
    ProjectReadsOnlyFields(item[name := v], item);
  }

  /** An item image holding exactly the given document's fields, with the tags the handler reads. */
  function ImageOf(d: Document): (item: Image)
    ensures item.Keys <= Fields
  {
    map f | f in Fields && FieldValue(d, f).Some? :: FieldValue(d, f).value
  }

  /** The attribute a document field is stored as: `S` for a present string, `SS` for a non-empty list. */
  function FieldValue(d: Document, f: string): Option<AttributeValue>
  {
    match f
    case "id" => StringValue(d.id)
    case "userId" => StringValue(d.userId)
    case "fullName" => StringValue(d.fullName)
    case "department" => StringValue(d.department)
    case "position" => StringValue(d.position)
    case "bio" => StringValue(d.bio)
    case "skills" => if d.skills == [] then None else Some(SS(d.skills))
    case "hobbies" => if d.hobbies == [] then None else Some(SS(d.hobbies))
    case _ => None
  }

  function StringValue(v: Option<string>): Option<AttributeValue>
  {
    if v.Some? then Some(S(v.value)) else None
  }

  /**
   * Projection loses nothing a document can hold: every document is the
   * projection of an image, so the eight fields are independent and the
   * `[]` fallback is the only value an absent list can take.
   */
  lemma ProjectImageOf(d: Document)
    ensures Project(ImageOf(d)) == d
  {
  }
}
