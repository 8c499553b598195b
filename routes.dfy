/**
 * The gate composed in front of the handlers it guards: every route of
 * routes/postRoute.js (`router.use(authenticateToken)`) and GET /user of
 * routes/authRoute.js. A handler runs only when the gate calls `next`, and then
 * as the user the access token names.
 */
module Routes {

  import opened Wrappers
  import opened Http
  import opened Tokens
  import opened Guard
  import opened Posts
  import opened AuthRules
  import opened Auth

  /** The post routes and the request data each handler reads. */
  datatype PostRoute =
    | CreateRoute(fields: PostFields)
    | ListRoute(page: Option<nat>, limit: Option<nat>)
    | GetRoute(id: PostModel.ObjectId)
    | UpdateRoute(id: PostModel.ObjectId, fields: PostFields)
    | DeleteRoute(id: PostModel.ObjectId)
    | CommentRoute(id: PostModel.ObjectId, text: Option<string>)
    | TagRoute(tag: string, page: Option<nat>, limit: Option<nat>)
    | UserRoute(userId: PostModel.ObjectId, page: Option<nat>, limit: Option<nat>)

  method HandlePostRoute(posts: PostController, req: Request, config: Config, now: nat, route: PostRoute, storeError: bool)
    returns (reply: Reply<Payload>)
    requires posts.Valid()
    modifies posts, req
    ensures posts.Valid()
    ensures var g := Gate(req.cookies, config, now);
            g.Reject? ==> reply == Reply(Forbidden, Posts.Message(g.reply.body)) && unchanged(posts) && req.user == old(req.user)
    ensures var g := Gate(req.cookies, config, now);
            g.Next? ==> req.user == Some(g.user)
    // a created post belongs to the user the access token names
    ensures route.CreateRoute? && reply.status == Created ==>
              var g := Gate(req.cookies, config, now);
              g.Next? && reply.body.Saved? && reply.body.post.op == g.user.payload.id
  {
    var next, rejection := AuthenticateToken(req, config, now);
    if !next {
      return Reply(rejection.value.status, Posts.Message(rejection.value.body));
    }
    var requester := req.user.value.payload.id;
    match route
    case CreateRoute(fields) =>
      reply := posts.CreatePost(requester, fields, storeError);
    case ListRoute(page, limit) =>
      reply := posts.GetAllPosts(page, limit, storeError);
    case GetRoute(id) =>
      reply := posts.GetPostById(id, storeError);
    case UpdateRoute(id, fields) =>
      reply := posts.UpdatePost(requester, id, fields, storeError);
    case DeleteRoute(id) =>
      reply := posts.DeletePost(requester, id, storeError);
    case CommentRoute(id, text) =>
      reply := posts.AddComment(requester, id, text, storeError);
    case TagRoute(tag, page, limit) =>
      reply := posts.GetPostsByTag(tag, page, limit, storeError);
    case UserRoute(userId, page, limit) =>
      reply := posts.GetPostsByUser(userId, page, limit, storeError);
  }

  /** GET /user: the gate, then `getUserDetails` for `req.user.id`. */
  method HandleUserDetails(auth: AuthController, req: Request, now: nat, storeError: bool) returns (reply: Reply<AuthBody>)
    requires auth.Valid()
    modifies req
    ensures var g := Gate(req.cookies, auth.config, now);
            g.Reject? ==> reply == Reply(Forbidden, AuthRules.Message(g.reply.body)) && req.user == old(req.user)
    ensures var g := Gate(req.cookies, auth.config, now);
            g.Next? && storeError ==> reply == Reply(ServerError, AuthRules.Message(MsgProfileError))
    ensures var g := Gate(req.cookies, auth.config, now);
            g.Next? && !storeError && (forall k | 0 <= k < |auth.users| :: auth.users[k].id != g.user.payload.id) ==>
              reply == Reply(NotFound, AuthRules.Message(MsgUserNotFound))
    ensures var g := Gate(req.cookies, auth.config, now);
            g.Next? && !storeError ==>
              forall k | 0 <= k < |auth.users| && auth.users[k].id == g.user.payload.id ::
                reply == Reply(OK, Profile(UserModel.View(auth.users[k])))
  {
    var next, rejection := AuthenticateToken(req, auth.config, now);
    if !next {
      return Reply(rejection.value.status, AuthRules.Message(rejection.value.body));
    }
    reply := auth.GetUserDetails(req.user.value.payload.id, storeError);
  }
}
