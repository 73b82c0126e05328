/** The collection handlers of the blog API: GET lists the caller's blogs,
    most recently updated first; POST validates a new blog, normalises its
    tag string and creates it under the caller's id. The caller's identity,
    a failing store connection and the parsed request body are inputs. */
module BlogRoutes {
  import opened Http
  import opened Text
  import opened BlogModel

  /** The request body, as `req.json()` yields it: either parsing throws
      (with the parser's message), or an object whose schema-relevant
      fields may be missing. */
  datatype Request = Unparseable(message: string) | Json(body: BlogBody)

  datatype BlogBody = BlogBody(
    title: Option<string>,
    content: Option<string>,
    tags: Option<string>,
    status: Option<string>,
    userId: Option<string>)

  /** The handlers' responses: a JSON error (with the exception's message
      as `details` on a 500), the list GET returns, or the created blog. */
  datatype Response =
    | Error(status: nat, error: string, details: Option<string>)
    | List(blogs: seq<Blog>)
    | Created(blog: Blog)

  /** `tags ? tags.split(',').map(t => t.trim()) : []`: nothing is
      dropped, merged or capped. */
  function NormaliseTags(tags: Option<string>): (r: seq<string>)
    ensures !Truthy(tags) ==> r == []
    ensures Truthy(tags) ==> |r| == Occurrences(tags.value, ',') + 1
    ensures Truthy(tags) ==> forall i :: 0 <= i < |r| ==> r[i] == Trim(Split(tags.value, ',')[i])
  {
    if Truthy(tags) then
      var parts := Split(tags.value, ',');
      seq(|parts|, i requires 0 <= i < |parts| => Trim(parts[i]))
    else []
  }

  /** Each normalised tag is a piece of the tag string between commas,
      without surrounding spaces; an empty piece stays as an empty tag. */
  lemma NormalisedTagsAreTrimmedPieces(tags: string)
    requires tags != ""
    ensures var r := NormaliseTags(Some(tags));
      forall i :: 0 <= i < |r| ==>
        ',' !in r[i] && (r[i] != [] ==> !IsSpace(r[i][0]) && !IsSpace(r[i][|r[i]| - 1]))
  {
    var parts := Split(tags, ',');
    var r := NormaliseTags(Some(tags));
    forall i | 0 <= i < |r|
      ensures ',' !in r[i]
    {
      assert r[i] == Trim(parts[i]);
      TrimKeepsOut(parts[i], ',');
    }
  }

  /** Two adjacent commas give an empty tag, which is kept: the tag
      string `x,,z` normalises to three tags. */
  lemma EmptyPieceIsKept(x: string, z: string)
    requires ',' !in x && ',' !in z
    ensures NormaliseTags(Some(x + [','] + [','] + z)) == [Trim(x), "", Trim(z)]
  {
    var parts := [x, "", z];
    var s := x + [','] + [','] + z;
    assert Join(parts, ',') == s by {
      assert Join(parts[2..], ',') == z;
      assert Join(parts[1..], ',') == [','] + z;
    }
    SplitJoin(parts, ',');
    var r := NormaliseTags(Some(s));
    assert |r| == 3;
    assert Trim("") == "";
  }

  /** `Blog.find({userId})`: the blogs owned by `userId`, in store order. */
  function OwnedBy(blogs: seq<Blog>, userId: string): (r: seq<Blog>)
    ensures forall i :: 0 <= i < |r| ==> r[i].userId == userId
    ensures forall b :: multiset(r)[b] == if b.userId == userId then multiset(blogs)[b] else 0
  {
    if blogs == [] then []
    else
      var rest := OwnedBy(blogs[1..], userId);
      assert blogs == [blogs[0]] + blogs[1..];
      if blogs[0].userId == userId then [blogs[0]] + rest else rest
  }

  /** Ordered by `updatedAt`, most recent first. */
  predicate NewestFirst(s: seq<Blog>)
  {
    forall i, j :: 0 <= i < j < |s| ==> s[i].updatedAt >= s[j].updatedAt
  }

  /** No blog in `s` was updated after `t`. */
  predicate NoNewerThan(s: seq<Blog>, t: int)
  {
    forall i :: 0 <= i < |s| ==> s[i].updatedAt <= t
  }

  lemma PrependKeepsOrder(b: Blog, s: seq<Blog>)
    requires NewestFirst(s) && NoNewerThan(s, b.updatedAt)
    ensures NewestFirst([b] + s)
  {
    forall i, j | 0 <= i < j < |[b] + s|
      ensures ([b] + s)[i].updatedAt >= ([b] + s)[j].updatedAt
    {
      if i == 0 { assert ([b] + s)[j] == s[j - 1]; }
      else { assert ([b] + s)[i] == s[i - 1] && ([b] + s)[j] == s[j - 1]; }
    }
  }

  lemma NoNewerThanFromMultiset(r: seq<Blog>, s: seq<Blog>, b: Blog, t: int)
    requires multiset(r) == multiset(s) + multiset{b}
    requires NoNewerThan(s, t) && b.updatedAt <= t
    ensures NoNewerThan(r, t)
  {
    forall k | 0 <= k < |r| ensures r[k].updatedAt <= t {
      assert r[k] in multiset(r);
      if r[k] != b {
        assert r[k] in multiset(s);
        var m :| 0 <= m < |s| && s[m] == r[k];
      }
    }
  }

  function Insert(b: Blog, s: seq<Blog>): (r: seq<Blog>)
    requires NewestFirst(s)
    ensures NewestFirst(r)
    ensures multiset(r) == multiset(s) + multiset{b}
  {
    if s == [] || b.updatedAt >= s[0].updatedAt then
      PrependKeepsOrder(b, s);
      [b] + s
    else
      assert s == [s[0]] + s[1..];
      var rest := Insert(b, s[1..]);
      assert NoNewerThan(s[1..], s[0].updatedAt);
      NoNewerThanFromMultiset(rest, s[1..], b, s[0].updatedAt);
      PrependKeepsOrder(s[0], rest);
      [s[0]] + rest
  }

  /** `.sort({updatedAt: -1})`. Blogs with equal `updatedAt` keep their
      store order. */
  function SortNewestFirst(s: seq<Blog>): (r: seq<Blog>)
    ensures NewestFirst(r)
    ensures multiset(r) == multiset(s)
  {
    if s == [] then []
    else
      assert s == [s[0]] + s[1..];
      Insert(s[0], SortNewestFirst(s[1..]))
  }

  /** `GET /api/blogs`. */
  function Get(identity: Option<Identity>, dbError: Option<string>, blogs: seq<Blog>): (r: Response)
    ensures identity.None? <==> r == Error(401, "Unauthorized", None)
    ensures identity.Some? && dbError.Some? ==>
      r == Error(500, "Failed to fetch blogs", dbError)
    ensures r.List? <==> identity.Some? && dbError.None?
    ensures r.List? ==> NewestFirst(r.blogs)
    ensures r.List? ==> forall i :: 0 <= i < |r.blogs| ==> r.blogs[i].userId == identity.value.id
    ensures r.List? ==> forall b :: b in blogs && b.userId == identity.value.id ==> b in r.blogs
    ensures r.List? ==> forall b ::
      multiset(r.blogs)[b] == (if b.userId == identity.value.id then multiset(blogs)[b] else 0)
  {
    if identity.None? then Error(401, "Unauthorized", None)
    else if dbError.Some? then Error(500, "Failed to fetch blogs", dbError)
    else
      var owned := OwnedBy(blogs, identity.value.id);
      var sorted := SortNewestFirst(owned);
      assert forall b :: b in sorted <==> b in owned by {
        forall b ensures b in sorted <==> b in owned {
          assert b in sorted <==> multiset(sorted)[b] > 0;
          assert b in owned <==> multiset(owned)[b] > 0;
        }
      }
      assert forall b :: b in blogs <==> multiset(blogs)[b] > 0;
      List(sorted)
  }

  /** The document POST hands to `create`: the body's fields, with
      `userId` forced to the caller and `tags` replaced by the normalised
      list, whatever the body held there. */
  function DocFor(body: BlogBody, caller: Identity): (d: BlogDoc)
    ensures d.userId == Some(caller.id) && d.tags == Some(NormaliseTags(body.tags))
    ensures d.title == body.title && d.content == body.content && d.status == body.status
  {
    BlogDoc(body.title, body.content, Some(NormaliseTags(body.tags)), body.status, Some(caller.id))
  }

  /** The early returns of `POST /api/blogs` that come before `create`,
      or the document to create. */
  function PostCheck(identity: Option<Identity>, dbError: Option<string>, req: Request): (r: Result<BlogDoc, Response>)
    ensures identity.None? ==> r == Err(Error(401, "Unauthorized", None))
    ensures identity.Some? && dbError.Some? ==> r == Err(Error(500, "Failed to create blog", dbError))
    ensures identity.Some? && dbError.None? && req.Unparseable? ==>
      r == Err(Error(500, "Failed to create blog", Some(req.message)))
    ensures identity.Some? && dbError.None? && req.Json? && !(Truthy(req.body.title) && Truthy(req.body.content)) ==>
      r == Err(Error(400, "Title and content are required", None))
    ensures r.Ok? <==> identity.Some? && dbError.None? && req.Json? && Truthy(req.body.title) && Truthy(req.body.content)
    ensures r.Ok? ==>
      && r.value.userId == Some(identity.value.id)
      && r.value.tags == Some(NormaliseTags(req.body.tags))
      && r.value.title == req.body.title && r.value.content == req.body.content
      && r.value.status == req.body.status
  {
    if identity.None? then Err(Error(401, "Unauthorized", None))
    else if dbError.Some? then Err(Error(500, "Failed to create blog", dbError))
    else if req.Unparseable? then Err(Error(500, "Failed to create blog", Some(req.message)))
    else if !Truthy(req.body.title) || !Truthy(req.body.content) then
      Err(Error(400, "Title and content are required", None))
    else Ok(DocFor(req.body, identity.value))
  }

  /** A blog POST creates is owned by the caller, carries the normalised
      tags and, when the body gives no status, is a draft; `create` can
      then fail only on a status outside the enumeration or an empty
      caller id. */
  lemma PostedBlogIsOwnedDraft(identity: Option<Identity>, req: Request, id: string, now: int)
    requires PostCheck(identity, None, req).Ok?
    requires identity.value.id != ""
    ensures var doc := PostCheck(identity, None, req).value;
      var r := Validate(doc, id, now);
      (r.Ok? <==> req.body.status.None? || req.body.status.value in {"draft", "published"})
      && (r.Ok? ==> r.value.userId == identity.value.id && r.value.tags == NormaliseTags(req.body.tags))
      && (req.body.status.None? ==> r.Ok? && r.value.status == Draft)
  {
  }

  /** `POST /api/blogs`. The store gains exactly one record when the
      request passes every check and the schema, and is unchanged
      otherwise. */
  method Post(store: BlogStore, identity: Option<Identity>, dbError: Option<string>,
              req: Request, id: string, now: int) returns (r: Response)
    requires store.Valid()
    modifies store
    ensures store.Valid()
    ensures PostCheck(identity, dbError, req).Err? ==>
      r == PostCheck(identity, dbError, req).error && store.blogs == old(store.blogs)
    ensures PostCheck(identity, dbError, req).Ok? ==>
      var v := Validate(PostCheck(identity, dbError, req).value, id, now);
      (v.Ok? ==> r == Created(v.value) && store.blogs == old(store.blogs) + [v.value])
      && (v.Err? ==> r == Error(500, "Failed to create blog", Some(ValidationMessage(v.error)))
                     && store.blogs == old(store.blogs))
  {
    var check := PostCheck(identity, dbError, req);
    if check.Err? {
      return check.error;
    }
    var created := store.Create(check.value, id, now);
    if created.Ok? {
      r := Created(created.value);
    } else {
      r := Error(500, "Failed to create blog", Some(ValidationMessage(created.error)));
    }
  }
}
