/** The App component: its `posts` state and the four handlers that change it.
    Each remote call is replaced by a `Reply` parameter saying how it ended;
    the requests the component sends and the notices the user sees are kept in
    two append-only fields. */
module AppComponent {
  import opened Interceptor
  import opened Posts

  const AddTitle := "a"
  const AddBody := "b"
  const UpdatedTitle := "UPDATED"
  const AlreadyDeletedMessage := "This post has already been deleted!!"

  /** A request sent to the posts collection (the endpoint URL is left out). */
  datatype Request = List | Create(title: string, body: string) | Replace(id: int, post: PostValue) | Remove(id: int)

  /** How the promise returned by a handler settles. */
  datatype Settled = Resolved | Rejected(error: Error)

  /** Everything shown when the DELETE fails: the interceptor's notices, then
      the handler's own alert for status 400. */
  function DeleteFailureNotices(e: Error): (ns: seq<Notice>)
    ensures Alerted(AlreadyDeletedMessage) in ns <==> e.response == Some(Response(400))
    ensures Alerted(UnexpectedMessage) in ns <==> Classify(e) == Unexpected
  {
    var own := if e.response.Some? && e.response.value.status == 400 then [Alerted(AlreadyDeletedMessage)] else [];
    Intercept(e).notices + own
  }

  /** A 400 gives only the "already deleted" alert; a 500 gives only the
      generic log and alert. */
  lemma DeleteFailureNoticesAt400And500(e: Error)
    ensures e.response == Some(Response(400)) ==> DeleteFailureNotices(e) == [Alerted(AlreadyDeletedMessage)]
    ensures e.response == Some(Response(500)) ==>
              DeleteFailureNotices(e) == [Logged(e), Alerted(UnexpectedMessage)]
  {
  }

  class App {
    var posts: seq<Post>
    var notices: seq<Notice>
    var requests: seq<Request>

    constructor ()
      ensures posts == [] && notices == [] && requests == []
    {
      posts := [];
      notices := [];
      requests := [];
    }

    /** A request whose promise the interceptor rejected: show its notices
        and settle the handler with the rethrown error. */
    method Reject(e: Error) returns (s: Settled)
      modifies this`notices
      ensures notices == old(notices) + Intercept(e).notices
      ensures s == Rejected(e)
    {
      var h := Intercept(e);
      notices := notices + h.notices;
      s := Rejected(h.rejected);
    }

    /** componentDidMount: GET the collection and replace the list with it. */
    method ComponentDidMount(reply: Reply<seq<Post>>) returns (s: Settled)
      modifies this
      ensures requests == old(requests) + [List]
      ensures reply.Ok? ==> posts == reply.data && notices == old(notices) && s == Resolved
      ensures reply.Failed? ==>
                posts == old(posts) && notices == old(notices) + Intercept(reply.error).notices &&
                s == Rejected(reply.error)
    {
      requests := requests + [List];
      match reply
      case Failed(e) =>
        s := Reject(e);
      case Ok(data) =>
        posts := data;
        s := Resolved;
    }

    /** handleAdd: POST a fixed record, then prepend the record the server returns. */
    method HandleAdd(reply: Reply<Post>) returns (s: Settled)
      modifies this
      ensures requests == old(requests) + [Create(AddTitle, AddBody)]
      ensures reply.Ok? ==>
                |posts| == |old(posts)| + 1 && posts[0] == reply.data && posts[1..] == old(posts) &&
                notices == old(notices) && s == Resolved
      ensures reply.Failed? ==>
                posts == old(posts) && notices == old(notices) + Intercept(reply.error).notices &&
                s == Rejected(reply.error)
    {
      requests := requests + [Create(AddTitle, AddBody)];
      match reply
      case Failed(e) =>
        s := Reject(e);
      case Ok(post) =>
        posts := [post] + posts;
        s := Resolved;
    }

    /** handleUpdate: retitle the given object in place, PUT it, then put a
        copy of it at the position `indexOf` finds. A failed PUT leaves the
        retitled object in the list; an object not in the list leaves the list
        as it was (`posts[-1] = ...` adds no element). */
    method HandleUpdate(post: Post, reply: Reply<()>) returns (s: Settled)
      modifies this, post
      ensures post.title == UpdatedTitle
      ensures requests == old(requests) + [Replace(post.id, PostValue(post.id, UpdatedTitle, post.body))]
      ensures Ids(posts) == Ids(old(posts))
      ensures reply.Failed? ==>
                posts == old(posts) && notices == old(notices) + Intercept(reply.error).notices &&
                s == Rejected(reply.error)
      ensures reply.Failed? ==>
                forall j :: 0 <= j < |posts| ==>
                  Values(posts)[j] == if posts[j] == post then PostValue(post.id, UpdatedTitle, post.body)
                                      else old(Values(posts))[j]
      ensures reply.Ok? ==> notices == old(notices) && s == Resolved
      ensures reply.Ok? && post !in old(posts) ==> posts == old(posts)
      ensures reply.Ok? && post in old(posts) ==>
                var i := IndexOf(old(posts), post);
                posts == old(posts)[i := posts[i]] && fresh(posts[i]) &&
                Values(posts)[i] == PostValue(post.id, UpdatedTitle, post.body)
    {
      post.title := UpdatedTitle;
      requests := requests + [Replace(post.id, post.Value())];
      if reply.Failed? {
        s := Reject(reply.error);
      } else {
        var copied := posts;
        var index := IndexOf(copied, post);
        if 0 <= index {
          var copy := new Post.Copy(post);
          copied := copied[index := copy];
        }
        posts := copied;
        s := Resolved;
      }
    }

    /** handleDelete: optimistically drop every entry with the post's id, then
        DELETE it; on any failure show the notices and restore the snapshot.
        `optimistic` is the list shown while the request is pending. */
    method HandleDelete(post: Post, reply: Reply<()>) returns (optimistic: seq<Post>, s: Settled)
      modifies this
      ensures optimistic == WithoutId(old(posts), post.id)
      ensures requests == old(requests) + [Remove(post.id)]
      ensures s == Resolved
      ensures reply.Ok? ==> posts == optimistic && notices == old(notices)
      ensures reply.Failed? ==>
                posts == old(posts) && notices == old(notices) + DeleteFailureNotices(reply.error)
    {
      var original := posts;
      posts := WithoutId(posts, post.id);
      optimistic := posts;
      requests := requests + [Remove(post.id)];
      s := Resolved;
      if reply.Failed? {
        var e := reply.error;
        var rejected := Reject(e);
        if e.response.Some? && e.response.value.status == 400 {
          notices := notices + [Alerted(AlreadyDeletedMessage)];
        }
        posts := original;
      }
    }
  }

  /** Two posts are loaded and the first is deleted, but the DELETE fails with
      `status`: the list is restored and the notices depend on the status. */
  method DeleteRejectedScenario(status: int) returns (before: seq<PostValue>, after: seq<PostValue>, shown: seq<Notice>)
    ensures before == [PostValue(1, "a", ""), PostValue(2, "b", "")]
    ensures after == before
    ensures status == 400 ==> shown == [Alerted(AlreadyDeletedMessage)]
    ensures Classify(Error(Some(Response(status)))) == Unexpected ==>
              shown == [Logged(Error(Some(Response(status)))), Alerted(UnexpectedMessage)]
  {
    var app := new App();
    var first := new Post(1, "a", "");
    var second := new Post(2, "b", "");
    var mounted := app.ComponentDidMount(Ok([first, second]));
    before := Values(app.posts);
    var pending, deleted := app.HandleDelete(first, Failed(Error(Some(Response(status)))));
    after := Values(app.posts);
    shown := app.notices;
  }

  /** Two posts are loaded and the first is updated, but the PUT fails: the
      list still shows the first post retitled. */
  method UpdateRejectedScenario(status: int) returns (after: seq<PostValue>)
    ensures after == [PostValue(1, UpdatedTitle, ""), PostValue(2, "b", "")]
  {
    var app := new App();
    var first := new Post(1, "a", "");
    var second := new Post(2, "b", "");
    var mounted := app.ComponentDidMount(Ok([first, second]));
    var updated := app.HandleUpdate(first, Failed(Error(Some(Response(status)))));
    after := Values(app.posts);
  }
}
