/**
 * The social feed (the `/api/feed` router): creating, editing and deleting
 * posts, comments, the like toggle, and the assembly of the feed from posts
 * and their like and comment counts.  Absent request fields are the empty
 * string, which JavaScript treats as falsy just like `undefined`; times are
 * milliseconds and "now" is a parameter.
 */
module Feed {
  import opened Common
  import Sorting

  const OneHour := 60 * 60 * 1000
  const MinContentLength := 5

  datatype Post = Post(
    userId: nat,
    content: Option<string>,
    voiceRecordingUrl: Option<string>,
    isEdited: bool,
    editedAt: Option<int>,
    createdAt: int)

  datatype Comment = Comment(postId: nat, userId: nat, content: string)

  datatype FeedError =
    | ContentRequired       // 400, neither text nor voice
    | ContentTooShort       // 400
    | PostNotFound          // 404
    | NotAuthorized         // 403, not the owner
    | EditWindowClosed      // 403
    | CommentRequired       // 400

  /** `content || null`: the empty string is stored as null. */
  function OrNull(s: string): (r: Option<string>)
    ensures r.None? <==> s == ""
    ensures r.Some? ==> r.value == s
  {
    if s == "" then None else Some(s)
  }

  /** The checks of `POST /posts`: text or voice is needed, and text, when given, has a `.length` of at least 5 UTF-16 code units. */
  function ValidateNewPost(content: string, voiceUrl: string): (r: Result<(), FeedError>)
    ensures r.Ok? <==> (content != "" || voiceUrl != "") && (content == "" || JsLength(content) >= MinContentLength)
    ensures r == Err(ContentRequired) <==> content == "" && voiceUrl == ""
  {
    if content == "" && voiceUrl == "" then Err(ContentRequired)
    else if content != "" && JsLength(content) < MinContentLength then Err(ContentTooShort)
    else Ok(())
  }

  /** Three characters beyond the Basic Multilingual Plane count as six code units and so make a post. */
  lemma AstralPostAccepted(content: string)
    requires |content| >= 3 && forall i :: 0 <= i < |content| ==> content[i] as int >= 0x1_0000
    ensures ValidateNewPost(content, "").Ok?
  {
    JsLengthAllAstral(content);
  }

  /** A post may be edited until one hour after its creation, the boundary included. */
  predicate WithinEditWindow(createdAt: int, now: int)
  {
    !(createdAt < now - OneHour)
  }

  /** The order of the checks of `PATCH /posts/:id`. */
  function EditCheck(post: Option<Post>, user: nat, content: Option<string>, now: int): (r: Result<(), FeedError>)
    ensures r.Ok? <==> post.Some? && post.value.userId == user && WithinEditWindow(post.value.createdAt, now)
                        && (content.None? || content.value == "" || JsLength(content.value) >= MinContentLength)
    ensures post.None? ==> r == Err(PostNotFound)
    ensures post.Some? && post.value.userId != user ==> r == Err(NotAuthorized)
  {
    if post.None? then Err(PostNotFound)
    else if post.value.userId != user then Err(NotAuthorized)
    else if !WithinEditWindow(post.value.createdAt, now) then Err(EditWindowClosed)
    else if content.Some? && content.value != "" && JsLength(content.value) < MinContentLength then Err(ContentTooShort)
    else Ok(())
  }

  /** The like set after a toggle of `(post, user)`. */
  function Toggled(likes: set<(nat, nat)>, like: (nat, nat)): (r: set<(nat, nat)>)
    ensures like in r <==> like !in likes
    ensures forall l :: l != like ==> (l in r <==> l in likes)
  {
    if like in likes then likes - {like} else likes + {like}
  }

  /** Two toggles restore the original like set. */
  lemma ToggleTwice(likes: set<(nat, nat)>, like: (nat, nat))
    ensures Toggled(Toggled(likes, like), like) == likes
  {
  }

  /** The tables the feed router works on. */
  class FeedStore {
    var posts: map<nat, Post>
    var likes: set<(nat, nat)>
    var comments: seq<Comment>
    var nextPostId: nat

    /** Every post id lies below the next one to hand out. */
    predicate Valid()
      reads this
    {
      forall id :: id in posts ==> id < nextPostId
    }

    constructor ()
      ensures Valid() && posts == map[] && likes == {} && comments == []
    {
      posts, likes, comments, nextPostId := map[], {}, [], 1;
    }

    /** `POST /posts`: inserts the post once the content checks pass. */
    method CreatePost(user: nat, content: string, voiceUrl: string, now: int) returns (r: Result<nat, FeedError>)
      requires Valid()
      modifies this`posts, this`nextPostId
      ensures Valid()
      ensures r.Err? <==> ValidateNewPost(content, voiceUrl).Err?
      ensures r.Err? ==> r.error == ValidateNewPost(content, voiceUrl).error && posts == old(posts)
      ensures r.Ok? ==> r.value !in old(posts)
                        && posts == old(posts)[r.value := Post(user, OrNull(content), OrNull(voiceUrl), false, None, now)]
    {
      var check := ValidateNewPost(content, voiceUrl);
      if check.Err? {
        return Err(check.error);
      }
      var id := nextPostId;
      posts := posts[id := Post(user, OrNull(content), OrNull(voiceUrl), false, None, now)];
      nextPostId := nextPostId + 1;
      r := Ok(id);
    }

    /**
     * `PATCH /posts/:id`: the owner may change the content within the hour;
     * the post is then marked edited at `now`.  An absent content leaves the
     * text as it was.
     */
    method EditPost(id: nat, user: nat, content: Option<string>, now: int) returns (r: Result<Post, FeedError>)
      modifies this`posts
      ensures var check := EditCheck(if id in old(posts) then Some(old(posts)[id]) else None, user, content, now);
              (r.Err? <==> check.Err?) && (r.Err? ==> r.error == check.error && posts == old(posts))
      ensures r.Ok? ==> id in old(posts)
                        && var p := old(posts)[id];
                           r.value == p.(content := if content.Some? then Some(content.value) else p.content,
                                         isEdited := true, editedAt := Some(now))
                           && posts == old(posts)[id := r.value]
    {
      var post := if id in posts then Some(posts[id]) else None;
      var check := EditCheck(post, user, content, now);
      if check.Err? {
        return Err(check.error);
      }
      var p := posts[id];
      var updated := p.(content := if content.Some? then Some(content.value) else p.content,
                        isEdited := true, editedAt := Some(now));
      posts := posts[id := updated];
      r := Ok(updated);
    }

    /** `DELETE /posts/:id`: only the owner may delete. */
    method DeletePost(id: nat, user: nat) returns (r: Result<(), FeedError>)
      modifies this`posts
      ensures id !in old(posts) ==> r == Err(PostNotFound) && posts == old(posts)
      ensures id in old(posts) && old(posts)[id].userId != user ==> r == Err(NotAuthorized) && posts == old(posts)
      ensures id in old(posts) && old(posts)[id].userId == user ==> r == Ok(()) && posts == old(posts) - {id}
    {
      if id !in posts {
        return Err(PostNotFound);
      }
      if posts[id].userId != user {
        return Err(NotAuthorized);
      }
      posts := posts - {id};
      r := Ok(());
    }

    /** `POST /posts/:id/comments`: a blank comment is refused; the stored text is trimmed. */
    method AddComment(postId: nat, user: nat, content: string) returns (r: Result<Comment, FeedError>)
      modifies this`comments
      ensures r.Err? <==> Trim(content) == []
      ensures r.Err? ==> r.error == CommentRequired && comments == old(comments)
      ensures r.Ok? ==> r.value == Comment(postId, user, Trim(content)) && comments == old(comments) + [r.value]
    {
      if content == "" || |Trim(content)| == 0 {
        TrimEmptyIffBlank(content);
        return Err(CommentRequired);
      }
      var c := Comment(postId, user, Trim(content));
      comments := comments + [c];
      r := Ok(c);
    }

    /** `POST /posts/:id/like`: removes an existing like, otherwise adds one; the answer says which. */
    method ToggleLike(postId: nat, user: nat) returns (liked: bool)
      modifies this`likes
      ensures liked <==> (postId, user) !in old(likes)
      ensures likes == Toggled(old(likes), (postId, user))
    {
      if (postId, user) in likes {
        likes := likes - {(postId, user)};
        liked := false;
      } else {
        likes := likes + {(postId, user)};
        liked := true;
      }
    }
  }

  /** A stored comment is never blank. */
  lemma StoredCommentNotBlank(content: string)
    requires Trim(content) != []
    ensures exists i :: 0 <= i < |content| && !IsSpace(content[i])
  {
    TrimEmptyIffBlank(content);
  }

  // ------------------------------------------------------------ assembly

  datatype PostRow = PostRow(id: nat, userId: nat, createdAt: int)

  datatype LikeCount = LikeCount(postId: nat, count: nat, userLiked: bool)

  datatype CommentCount = CommentCount(postId: nat, count: nat)

  datatype FeedItem = FeedItem(
    post: PostRow, likesCount: nat, commentsCount: nat, isLiked: bool, isFollowing: bool, isOwnPost: bool)

  /** The authors shown under the `connections` filter: those followed, and the caller. */
  function ConnectionIds(following: seq<nat>, user: nat): (r: seq<nat>)
    ensures user in r && forall f :: f in following ==> f in r
  {
    following + [user]
  }

  /** Whether the post query lets a post through. */
  predicate PostVisible(p: PostRow, connections: bool, following: seq<nat>, user: nat)
  {
    !connections || p.userId in ConnectionIds(following, user)
  }

  /** Under either filter the caller's own posts are candidates. */
  lemma OwnPostsVisible(p: PostRow, connections: bool, following: seq<nat>, user: nat)
    requires p.userId == user
    ensures PostVisible(p, connections, following, user)
  {
  }

  function FindLikes(rows: seq<LikeCount>, id: nat): (r: Option<LikeCount>)
    ensures r.Some? ==> r.value in rows && r.value.postId == id
    ensures r.None? ==> forall l :: l in rows ==> l.postId != id
  {
    if rows == [] then None else if rows[0].postId == id then Some(rows[0]) else FindLikes(rows[1..], id)
  }

  function FindComments(rows: seq<CommentCount>, id: nat): (r: Option<CommentCount>)
    ensures r.Some? ==> r.value in rows && r.value.postId == id
    ensures r.None? ==> forall c :: c in rows ==> c.postId != id
  {
    if rows == [] then None else if rows[0].postId == id then Some(rows[0]) else FindComments(rows[1..], id)
  }

  /** One post decorated with its counts; a post with no aggregate row has zero likes and comments. */
  function Decorate(p: PostRow, likes: seq<LikeCount>, comments: seq<CommentCount>, followed: set<nat>, user: nat): (item: FeedItem)
    ensures item.post == p
    ensures item.isOwnPost <==> p.userId == user
    ensures item.isFollowing <==> p.userId != 0 && p.userId in followed
    ensures (forall l :: l in likes ==> l.postId != p.id) ==> item.likesCount == 0 && !item.isLiked
    ensures (forall c :: c in comments ==> c.postId != p.id) ==> item.commentsCount == 0
    ensures item.likesCount > 0 ==> exists l :: l in likes && l.postId == p.id && l.count == item.likesCount
    ensures FindLikes(likes, p.id).Some? ==>
              item.likesCount == FindLikes(likes, p.id).value.count && item.isLiked == FindLikes(likes, p.id).value.userLiked
    ensures FindComments(comments, p.id).Some? ==> item.commentsCount == FindComments(comments, p.id).value.count
  {
    var l := FindLikes(likes, p.id);
    var c := FindComments(comments, p.id);
    FeedItem(p,
      if l.Some? then l.value.count else 0,
      if c.Some? then c.value.count else 0,
      l.Some? && l.value.userLiked,
      p.userId != 0 && p.userId in followed,
      p.userId == user)
  }

  /** The count queries group by post, so a post's count row is the one the item shows. */
  lemma DecorateTakesRow(p: PostRow, likes: seq<LikeCount>, comments: seq<CommentCount>, followed: set<nat>, user: nat,
                         l: LikeCount, c: CommentCount)
    requires forall i, j :: 0 <= i < j < |likes| ==> likes[i].postId != likes[j].postId
    requires forall i, j :: 0 <= i < j < |comments| ==> comments[i].postId != comments[j].postId
    requires l in likes && l.postId == p.id && c in comments && c.postId == p.id
    ensures Decorate(p, likes, comments, followed, user).likesCount == l.count
    ensures Decorate(p, likes, comments, followed, user).isLiked == l.userLiked
    ensures Decorate(p, likes, comments, followed, user).commentsCount == c.count
  {
    var fl := FindLikes(likes, p.id);
    var fc := FindComments(comments, p.id);
    var i :| 0 <= i < |likes| && likes[i] == l;
    var j :| 0 <= j < |likes| && likes[j] == fl.value;
    assert i == j;
    var m :| 0 <= m < |comments| && comments[m] == c;
    var n :| 0 <= n < |comments| && comments[n] == fc.value;
    assert m == n;
  }

  function DecorateAll(posts: seq<PostRow>, likes: seq<LikeCount>, comments: seq<CommentCount>, followed: set<nat>, user: nat): (r: seq<FeedItem>)
    ensures |r| == |posts|
    ensures forall i :: 0 <= i < |posts| ==> r[i] == Decorate(posts[i], likes, comments, followed, user)
  {
    if posts == [] then [] else [Decorate(posts[0], likes, comments, followed, user)] + DecorateAll(posts[1..], likes, comments, followed, user)
  }

  function NegCreatedAt(item: FeedItem): int
  {
    -item.post.createdAt
  }

  /** The feed: every post decorated, newest first (a stable sort, so equal times keep the query order). */
  function Assemble(posts: seq<PostRow>, likes: seq<LikeCount>, comments: seq<CommentCount>, followed: set<nat>, user: nat): seq<FeedItem>
  {
    Sorting.Sort(DecorateAll(posts, likes, comments, followed, user), NegCreatedAt)
  }

  /** Sorting on the negated creation time puts the newest first. */
  lemma NewestFirst(items: seq<FeedItem>)
    ensures multiset(Sorting.Sort(items, NegCreatedAt)) == multiset(items)
    ensures var feed := Sorting.Sort(items, NegCreatedAt);
              forall i, j :: 0 <= i < j < |feed| ==> feed[i].post.createdAt >= feed[j].post.createdAt
  {
    var feed := Sorting.Sort(items, NegCreatedAt);
    Sorting.SortCorrect(items, NegCreatedAt);
    forall i, j | 0 <= i < j < |feed| ensures feed[i].post.createdAt >= feed[j].post.createdAt {
      assert NegCreatedAt(feed[i]) <= NegCreatedAt(feed[j]);
    }
  }

  /** The assembled feed holds exactly the decorated posts, newest first. */
  lemma AssembleCorrect(posts: seq<PostRow>, likes: seq<LikeCount>, comments: seq<CommentCount>, followed: set<nat>, user: nat)
    ensures var feed := Assemble(posts, likes, comments, followed, user);
              multiset(feed) == multiset(DecorateAll(posts, likes, comments, followed, user))
              && (forall i, j :: 0 <= i < j < |feed| ==> feed[i].post.createdAt >= feed[j].post.createdAt)
              && (forall i :: 0 <= i < |feed| ==> (feed[i].isOwnPost <==> feed[i].post.userId == user))
  {
    var d := DecorateAll(posts, likes, comments, followed, user);
    NewestFirst(d);
    var feed := Sorting.Sort(d, NegCreatedAt);
    forall i | 0 <= i < |feed| ensures feed[i].isOwnPost <==> feed[i].post.userId == user {
      assert feed[i] in multiset(d);
      var k :| 0 <= k < |d| && d[k] == feed[i];
      assert d[k] == Decorate(posts[k], likes, comments, followed, user);
    }
  }
}
