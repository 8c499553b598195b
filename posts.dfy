/**
 * The handlers of controllers/postController.js over an in-memory post store. The
 * store stamps every write with a strictly increasing logical time (the
 * `timestamps: true` of the schema) and allocates ids in creation order. Every
 * handler returns the status and JSON body it sends.
 */
module Posts {

  import opened Wrappers
  import opened Http
  import opened PostModel
  import opened PostQueries

  const MsgRequired: string := "Title, description, and image URL are required"
  const MsgCreated: string := "Post created successfully"
  const MsgCreateError: string := "Error creating post"
  const MsgListError: string := "Error fetching posts"
  const MsgNotFound: string := "Post not found"
  const MsgFetchError: string := "Error fetching post"
  const MsgUpdateForbidden: string := "Not authorized to update this post"
  const MsgUpdated: string := "Post updated successfully"
  const MsgUpdateError: string := "Error updating post"
  const MsgDeleteForbidden: string := "Not authorized to delete this post"
  const MsgDeleted: string := "Post deleted successfully"
  const MsgDeleteError: string := "Error deleting post"
  const MsgTextRequired: string := "Comment text is required"
  const MsgCommented: string := "Comment added successfully"
  const MsgCommentError: string := "Error adding comment"
  const MsgTagError: string := "Error fetching posts by tag"
  const MsgUserPostsError: string := "Error fetching user posts"

  /** `req.body` of a create or update request; `None` is a field that was not sent (undefined). */
  datatype PostFields = PostFields(title: Option<string>, description: Option<string>, imgURL: Option<string>, tags: Option<seq<string>>)

  /** The JSON bodies the controller sends. */
  datatype Payload =
    | Message(message: string)
    | Saved(message: string, post: Post)
    | Found(post: Post)
    | Page(posts: seq<Post>, currentPage: nat, totalPages: nat, totalPosts: nat)

  predicate MissingRequired(f: PostFields)
  {
    Falsy(f.title) || Falsy(f.description) || Falsy(f.imgURL)
  }

  /** The document `createPost` saves: `tags || []`, the requester as OP and no comments. */
  function NewPost(id: ObjectId, f: PostFields, requester: ObjectId, now: nat): (p: Post)
    requires !MissingRequired(f)
    ensures RequiredFieldsPresent(p)
    ensures p.id == id && p.op == requester && p.comments == []
    ensures p.tags == (if f.tags.Some? then f.tags.value else [])
    ensures p.createdAt == p.updatedAt == now
  {
    Post(id, f.title.value, f.description.value, f.imgURL.value,
         if f.tags.Some? then f.tags.value else [], requester, [], now, now)
  }

  /** `$set` of the fields that are not undefined: an empty string or list still overwrites. */
  function ApplyUpdate(p: Post, f: PostFields, now: nat): (r: Post)
    ensures r.id == p.id && r.op == p.op && r.comments == p.comments && r.createdAt == p.createdAt && r.updatedAt == now
    ensures f.title.Some? ==> r.title == f.title.value
    ensures f.title.None? ==> r.title == p.title
    ensures f.description.Some? ==> r.description == f.description.value
    ensures f.description.None? ==> r.description == p.description
    ensures f.imgURL.Some? ==> r.imgURL == f.imgURL.value
    ensures f.imgURL.None? ==> r.imgURL == p.imgURL
    ensures f.tags.Some? ==> r.tags == f.tags.value
    ensures f.tags.None? ==> r.tags == p.tags
  {
    var p1 := if f.title.Some? then p.(title := f.title.value) else p;
    var p2 := if f.description.Some? then p1.(description := f.description.value) else p1;
    var p3 := if f.imgURL.Some? then p2.(imgURL := f.imgURL.value) else p2;
    var p4 := if f.tags.Some? then p3.(tags := f.tags.value) else p3;
    p4.(updatedAt := now)
  }

  /** An update that supplies nothing only touches `updatedAt`. */
  lemma EmptyUpdate(p: Post, now: nat)
    ensures ApplyUpdate(p, PostFields(None, None, None, None), now) == p.(updatedAt := now)
  {
  }

  /**
   * `findByIdAndUpdate` runs no validators, so an owner may store "" in a required
   * field; the post then fails the validation a later `save()` runs.
   */
  lemma BlankingUpdate(p: Post, f: PostFields, now: nat)
    requires f.title == Some("") || f.description == Some("") || f.imgURL == Some("")
    ensures !RequiredFieldsPresent(ApplyUpdate(p, f, now))
  {
  }

  /** `post.comments.push({ text, commenter })` followed by `save()`. */
  function WithComment(p: Post, c: Comment, now: nat): (r: Post)
    ensures r.comments == p.comments + [c]
    ensures r.(comments := p.comments, updatedAt := p.updatedAt) == p
  {
    p.(comments := p.comments + [c], updatedAt := now)
  }

  /** Successive comments on one post, one per tick of the store's clock. */
  function CommentAll(p: Post, cs: seq<Comment>, now: nat): Post
    decreases |cs|
  {
    if cs == [] then p else CommentAll(WithComment(p, cs[0], now), cs[1..], now + 1)
  }

  /** After N comments the post holds exactly those N, after the earlier ones, in call order. */
  lemma {:induction false} CommentsInCallOrder(p: Post, cs: seq<Comment>, now: nat)
    ensures CommentAll(p, cs, now).comments == p.comments + cs
    ensures CommentAll(p, cs, now).op == p.op && CommentAll(p, cs, now).title == p.title
    decreases |cs|
  {
    if cs != [] {
      CommentsInCallOrder(WithComment(p, cs[0], now), cs[1..], now + 1);
      assert p.comments + [cs[0]] + cs[1..] == p.comments + cs;
    }
  }

  /** The 200 body of the three listings: one page of the filtered, newest-first list and the totals. */
  function ListingReply(posts: map<ObjectId, Post>, n: nat, f: Filter, page: Option<nat>, limit: Option<nat>): (r: Reply<Payload>)
    requires IdsConsistent(posts) && CreationOrdered(posts)
    ensures r.status == OK && r.body.Page?
    ensures r.body.currentPage == QueryParam(page, DefaultPage)
    ensures r.body.posts == PageOf(Newest(posts, n, f), QueryParam(page, DefaultPage), QueryParam(limit, DefaultLimit))
    ensures |r.body.posts| <= QueryParam(limit, DefaultLimit)
    ensures r.body.totalPosts == |MatchingIds(posts, n, f)|
    ensures r.body.totalPages == PageCount(r.body.totalPosts, QueryParam(limit, DefaultLimit))
    ensures forall k | 0 <= k < |r.body.posts| ::
              var p := r.body.posts[k]; Matches(f, p) && p.id in posts && posts[p.id] == p
    ensures forall j, k | 0 <= j < k < |r.body.posts| :: r.body.posts[j].createdAt > r.body.posts[k].createdAt
  {
    var page := QueryParam(page, DefaultPage);
    var limit := QueryParam(limit, DefaultLimit);
    var all := Newest(posts, n, f);
    CountMatches(posts, n, f);
    Reply(OK, Page(PageOf(all, page, limit), page, PageCount(|all|, limit), |all|))
  }

  /** Without `page` and `limit`, a listing answers page 1 with the ten newest matching posts. */
  lemma DefaultListing(posts: map<ObjectId, Post>, n: nat, f: Filter)
    requires IdsConsistent(posts) && CreationOrdered(posts)
    ensures var r := ListingReply(posts, n, f, None, None);
            var all := Newest(posts, n, f);
            && r.body.currentPage == 1
            && r.body.posts == all[..Min(10, |all|)]
            && r.body.totalPages == PageCount(|all|, 10)
  {
    var all := Newest(posts, n, f);
    CountMatches(posts, n, f);
    assert PageOf(all, 1, 10) == all[..Min(10, |all|)];
  }

  class PostController {

    var posts: map<ObjectId, Post>
    /** The id the next created post gets. */
    var nextId: ObjectId
    /** The store's logical time: every write is stamped with it and then advances it. */
    var clock: nat

    ghost predicate Valid()
      reads this
    {
      && IdsConsistent(posts)
      && CreationOrdered(posts)
      && forall id | id in posts :: id < nextId && posts[id].createdAt <= posts[id].updatedAt < clock
    }

    /** The posts a filter selects, newest first. */
    function Listing(f: Filter): seq<Post>
      reads this
      requires Valid()
    {
      Newest(posts, nextId, f)
    }

    constructor ()
      ensures Valid() && posts == map[] && nextId == 0 && clock == 0
    {
      posts, nextId, clock := map[], 0, 0;
    }

    /** `createPost` for `req.user.id == requester`. */
    method CreatePost(requester: ObjectId, f: PostFields, storeError: bool) returns (reply: Reply<Payload>)
      requires Valid()
      modifies this
      ensures Valid()
      ensures MissingRequired(f) ==> reply == Reply(BadRequest, Message(MsgRequired)) && unchanged(this)
      ensures !MissingRequired(f) && storeError ==> reply == Reply(ServerError, Message(MsgCreateError)) && unchanged(this)
      ensures !MissingRequired(f) && !storeError ==>
                var p := NewPost(old(nextId), f, requester, old(clock));
                && old(nextId) !in old(posts)
                && posts == old(posts)[old(nextId) := p]
                && nextId == old(nextId) + 1 && clock == old(clock) + 1
                && reply == Reply(Created, Saved(MsgCreated, p))
                && Listing(AnyPost)[0] == p
    {
      if MissingRequired(f) {
        return Reply(BadRequest, Message(MsgRequired));
      }
      if storeError {
        return Reply(ServerError, Message(MsgCreateError));
      }
      var p := NewPost(nextId, f, requester, clock);
      posts := posts[nextId := p];
      nextId, clock := nextId + 1, clock + 1;
      reply := Reply(Created, Saved(MsgCreated, p));
    }

    /** `getAllPosts`. */
    method GetAllPosts(page: Option<nat>, limit: Option<nat>, storeError: bool) returns (reply: Reply<Payload>)
      requires Valid()
      ensures storeError ==> reply == Reply(ServerError, Message(MsgListError))
      ensures !storeError ==> reply == ListingReply(posts, nextId, AnyPost, page, limit)
      ensures !storeError ==> reply.body.totalPosts == |posts|
    {
      if storeError {
        return Reply(ServerError, Message(MsgListError));
      }
      reply := ListingReply(posts, nextId, AnyPost, page, limit);
      assert MatchingIds(posts, nextId, AnyPost) == posts.Keys;
    }

    /** `getPostById`. */
    method GetPostById(id: ObjectId, storeError: bool) returns (reply: Reply<Payload>)
      requires Valid()
      ensures storeError ==> reply == Reply(ServerError, Message(MsgFetchError))
      ensures !storeError && id !in posts ==> reply == Reply(NotFound, Message(MsgNotFound))
      ensures !storeError && id in posts ==> reply == Reply(OK, Found(posts[id])) && reply.body.post.id == id
    {
      if storeError {
        return Reply(ServerError, Message(MsgFetchError));
      }
      if id !in posts {
        return Reply(NotFound, Message(MsgNotFound));
      }
      reply := Reply(OK, Found(posts[id]));
    }

    /** `updatePost`: only the post's OP may change it, and only the supplied fields change. */
    method UpdatePost(requester: ObjectId, id: ObjectId, f: PostFields, storeError: bool) returns (reply: Reply<Payload>)
      requires Valid()
      modifies this
      ensures Valid()
      ensures storeError ==> reply == Reply(ServerError, Message(MsgUpdateError)) && unchanged(this)
      ensures !storeError && id !in old(posts) ==> reply == Reply(NotFound, Message(MsgNotFound)) && unchanged(this)
      ensures !storeError && id in old(posts) && old(posts)[id].op != requester ==>
                reply == Reply(Forbidden, Message(MsgUpdateForbidden)) && unchanged(this)
      ensures !storeError && id in old(posts) && old(posts)[id].op == requester ==>
                var p := ApplyUpdate(old(posts)[id], f, old(clock));
                && posts == old(posts)[id := p]
                && nextId == old(nextId) && clock == old(clock) + 1
                && reply == Reply(OK, Saved(MsgUpdated, p))
    {
      if storeError {
        return Reply(ServerError, Message(MsgUpdateError));
      }
      if id !in posts {
        return Reply(NotFound, Message(MsgNotFound));
      }
      if posts[id].op != requester {
        return Reply(Forbidden, Message(MsgUpdateForbidden));
      }
      var p := ApplyUpdate(posts[id], f, clock);
      posts := posts[id := p];
      clock := clock + 1;
      reply := Reply(OK, Saved(MsgUpdated, p));
    }

    /** `deletePost`: only the post's OP may remove it; its comments go with it. */
    method DeletePost(requester: ObjectId, id: ObjectId, storeError: bool) returns (reply: Reply<Payload>)
      requires Valid()
      modifies this
      ensures Valid()
      ensures storeError ==> reply == Reply(ServerError, Message(MsgDeleteError)) && unchanged(this)
      ensures !storeError && id !in old(posts) ==> reply == Reply(NotFound, Message(MsgNotFound)) && unchanged(this)
      ensures !storeError && id in old(posts) && old(posts)[id].op != requester ==>
                reply == Reply(Forbidden, Message(MsgDeleteForbidden)) && unchanged(this)
      ensures !storeError && id in old(posts) && old(posts)[id].op == requester ==>
                && posts == old(posts) - {id}
                && nextId == old(nextId) && clock == old(clock)
                && reply == Reply(OK, Message(MsgDeleted))
    {
      if storeError {
        return Reply(ServerError, Message(MsgDeleteError));
      }
      if id !in posts {
        return Reply(NotFound, Message(MsgNotFound));
      }
      if posts[id].op != requester {
        return Reply(Forbidden, Message(MsgDeleteForbidden));
      }
      posts := posts - {id};
      reply := Reply(OK, Message(MsgDeleted));
    }

    /**
     * `addComment`: any signed-in user may comment; the comment goes at the end.
     * `post.save()` validates the whole document, so a post whose title,
     * description or imgURL an earlier update emptied cannot take comments.
     */
    method AddComment(requester: ObjectId, id: ObjectId, text: Option<string>, storeError: bool) returns (reply: Reply<Payload>)
      requires Valid()
      modifies this
      ensures Valid()
      ensures Falsy(text) ==> reply == Reply(BadRequest, Message(MsgTextRequired)) && unchanged(this)
      ensures !Falsy(text) && storeError ==> reply == Reply(ServerError, Message(MsgCommentError)) && unchanged(this)
      ensures !Falsy(text) && !storeError && id !in old(posts) ==> reply == Reply(NotFound, Message(MsgNotFound)) && unchanged(this)
      ensures !Falsy(text) && !storeError && id in old(posts) && !RequiredFieldsPresent(old(posts)[id]) ==>
                reply == Reply(ServerError, Message(MsgCommentError)) && unchanged(this)
      ensures !Falsy(text) && !storeError && id in old(posts) && RequiredFieldsPresent(old(posts)[id]) ==>
                var p := WithComment(old(posts)[id], Comment(text.value, requester), old(clock));
                && posts == old(posts)[id := p]
                && nextId == old(nextId) && clock == old(clock) + 1
                && reply == Reply(Created, Saved(MsgCommented, p))
    {
      if Falsy(text) {
        return Reply(BadRequest, Message(MsgTextRequired));
      }
      if storeError {
        return Reply(ServerError, Message(MsgCommentError));
      }
      if id !in posts {
        return Reply(NotFound, Message(MsgNotFound));
      }
      if !RequiredFieldsPresent(posts[id]) {
        return Reply(ServerError, Message(MsgCommentError));
      }
      var p := WithComment(posts[id], Comment(text.value, requester), clock);
      posts := posts[id := p];
      clock := clock + 1;
      reply := Reply(Created, Saved(MsgCommented, p));
    }

    /** `getPostsByTag`. */
    method GetPostsByTag(tag: string, page: Option<nat>, limit: Option<nat>, storeError: bool) returns (reply: Reply<Payload>)
      requires Valid()
      ensures storeError ==> reply == Reply(ServerError, Message(MsgTagError))
      ensures !storeError ==> reply == ListingReply(posts, nextId, TaggedWith(tag), page, limit)
      ensures !storeError ==> forall k | 0 <= k < |reply.body.posts| :: tag in reply.body.posts[k].tags
    {
      if storeError {
        return Reply(ServerError, Message(MsgTagError));
      }
      reply := ListingReply(posts, nextId, TaggedWith(tag), page, limit);
    }

    /** `getPostsByUser`. */
    method GetPostsByUser(userId: ObjectId, page: Option<nat>, limit: Option<nat>, storeError: bool) returns (reply: Reply<Payload>)
      requires Valid()
      ensures storeError ==> reply == Reply(ServerError, Message(MsgUserPostsError))
      ensures !storeError ==> reply == ListingReply(posts, nextId, PostedBy(userId), page, limit)
      ensures !storeError ==> forall k | 0 <= k < |reply.body.posts| :: reply.body.posts[k].op == userId
    {
      if storeError {
        return Reply(ServerError, Message(MsgUserPostsError));
      }
      reply := ListingReply(posts, nextId, PostedBy(userId), page, limit);
    }
  }
}
