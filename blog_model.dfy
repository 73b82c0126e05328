/** The blog record (`IBlog`) and the constraints its schema enforces when
    a document is created: required strings, the status enumeration with
    its default, the owner reference and the store-maintained timestamps.
    The store itself is a sequence of records that `create` appends to. */
module BlogModel {
  import opened Http

  datatype Status = Draft | Published

  /** A stored blog. `id` is the identifier the store assigns; times are
      milliseconds. */
  datatype Blog = Blog(
    id: string,
    title: string,
    content: string,
    tags: seq<string>,
    status: Status,
    createdAt: int,
    updatedAt: int,
    userId: string)

  /** The document handed to `Blog.create`: every schema field may be
      missing. Fields outside the schema are dropped by the store's strict
      mode and are not represented. */
  datatype BlogDoc = BlogDoc(
    title: Option<string>,
    content: Option<string>,
    tags: Option<seq<string>>,
    status: Option<string>,
    userId: Option<string>)

  /** One failed schema constraint. */
  datatype SchemaError = Required(path: string) | NotInEnum(path: string, value: string)

  /** What every stored blog satisfies. */
  predicate ValidBlog(b: Blog)
  {
    b.title != "" && b.content != "" && b.userId != "" && b.createdAt <= b.updatedAt
  }

  /** A required string is present and not empty. */
  function RequiredError(path: string, v: Option<string>): seq<SchemaError>
  {
    if Truthy(v) then [] else [Required(path)]
  }

  /** The status enumeration: a missing status is not an error (the
      default applies); any string other than the two members is. */
  function StatusError(v: Option<string>): seq<SchemaError>
  {
    if v.None? || v.value == "draft" || v.value == "published" then [] else [NotInEnum("status", v.value)]
  }

  /** Every failed constraint of a document, in schema order. */
  function Errors(doc: BlogDoc): (errs: seq<SchemaError>)
    ensures errs == [] <==>
      Truthy(doc.title) && Truthy(doc.content) && Truthy(doc.userId)
      && (doc.status.None? || doc.status.value in {"draft", "published"})
  {
    RequiredError("title", doc.title) + RequiredError("content", doc.content)
    + StatusError(doc.status) + RequiredError("userId", doc.userId)
  }

  /** The status a document gets: the default `draft` when none is given. */
  function StatusOf(v: Option<string>): (s: Status)
    ensures s == Published <==> v == Some("published")
    ensures v.None? ==> s == Draft
  {
    if v == Some("published") then Published else Draft
  }

  /** Validation and default filling as `Blog.create` performs them: the
      new record carries the given id and has both timestamps at `now`. */
  function Validate(doc: BlogDoc, id: string, now: int): (r: Result<Blog, seq<SchemaError>>)
    ensures r.Err? <==> Errors(doc) != []
    ensures r.Err? ==> r.error == Errors(doc)
    ensures r.Ok? ==> ValidBlog(r.value)
    ensures r.Ok? ==>
      && r.value.id == id
      && Some(r.value.title) == doc.title
      && Some(r.value.content) == doc.content
      && Some(r.value.userId) == doc.userId
      && r.value.tags == (if doc.tags.Some? then doc.tags.value else [])
      && r.value.createdAt == now && r.value.updatedAt == now
      && (doc.status.None? ==> r.value.status == Draft)
      && (doc.status.Some? ==> doc.status.value == (if r.value.status == Draft then "draft" else "published"))
  {
    var errs := Errors(doc);
    if errs != [] then Err(errs)
    else
      Ok(Blog(id, doc.title.value, doc.content.value,
              if doc.tags.Some? then doc.tags.value else [],
              StatusOf(doc.status), now, now, doc.userId.value))
  }

  /** The text the store gives to one failed constraint. */
  function ErrorText(e: SchemaError): string
  {
    match e
    case Required(p) => p + ": Path `" + p + "` is required."
    case NotInEnum(p, v) => p + ": `" + v + "` is not a valid enum value for path `" + p + "`."
  }

  function JoinTexts(errs: seq<SchemaError>): string
  {
    if errs == [] then ""
    else if |errs| == 1 then ErrorText(errs[0])
    else ErrorText(errs[0]) + ", " + JoinTexts(errs[1..])
  }

  /** The message of the validation error `create` throws. */
  function ValidationMessage(errs: seq<SchemaError>): string
  {
    "Blog validation failed: " + JoinTexts(errs)
  }

  /** The blog collection. */
  class BlogStore {
    var blogs: seq<Blog>

    ghost predicate Valid()
      reads this
    {
      forall i :: 0 <= i < |blogs| ==> ValidBlog(blogs[i])
    }

    constructor ()
      ensures Valid() && blogs == []
    {
      blogs := [];
    }

    /** `Blog.create(doc)`: validates the document and, when it passes,
        appends exactly one record; otherwise the store is unchanged. */
    method Create(doc: BlogDoc, id: string, now: int) returns (r: Result<Blog, seq<SchemaError>>)
      requires Valid()
      modifies this
      ensures Valid()
      ensures r == Validate(doc, id, now)
      ensures blogs == if r.Ok? then old(blogs) + [r.value] else old(blogs)
    {
      r := Validate(doc, id, now);
      if r.Ok? {
        blogs := blogs + [r.value];
      }
    }
  }
}
