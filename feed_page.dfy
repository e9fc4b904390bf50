/**
 * The feed page's own rules: which items may be edited, deleted, liked or
 * opened, and the length check before a post is created or an edit saved.
 * Times are milliseconds and "now" is a parameter; the page's requests go
 * to the feed router of the `Feed` module, and the lemmas here show that
 * what the page lets through the router accepts.
 */
module FeedPage {
  import opened Common
  import Feed

  /** The fields of a feed item the page's rules look at. */
  datatype Item = Item(id: int, kind: string, isOwnPost: bool, createdAt: int, content: Option<string>)

  predicate IsPost(item: Item)
  {
    item.kind == "post"
  }

  /** `canEdit`: own posts created strictly less than an hour ago. */
  predicate CanEdit(item: Item, now: int)
  {
    IsPost(item) && item.isOwnPost && item.createdAt > now - Feed.OneHour
  }

  /** The delete button appears on every own post. */
  predicate CanDelete(item: Item)
  {
    IsPost(item) && item.isOwnPost
  }

  /** Whatever may be edited may be deleted, and the edit window only closes as time passes. */
  lemma EditRights(item: Item, earlier: int, later: int)
    requires earlier <= later
    ensures CanEdit(item, later) ==> CanEdit(item, earlier) && CanDelete(item)
    ensures !CanEdit(item, item.createdAt + Feed.OneHour)
    ensures CanDelete(item) ==> CanEdit(item, item.createdAt)
  {
  }

  /** The page offers editing only inside the window the router enforces. */
  lemma EditOfferedWithinServerWindow(item: Item, now: int)
    requires CanEdit(item, now)
    ensures Feed.WithinEditWindow(item.createdAt, now)
  {
  }

  /** `content.trim().length >= 5`: the check before creating a post or saving an edit. */
  predicate LongEnough(content: string)
  {
    JsLength(Trim(content)) >= Feed.MinContentLength
  }

  /** `handleCreatePost`: the text, untrimmed, is sent only when its trimmed form has 5 characters. */
  function CreatePost(content: string): (r: Option<string>)
    ensures r.Some? <==> JsLength(Trim(content)) >= 5
    ensures r.Some? ==> r.value == content
  {
    if JsLength(Trim(content)) < Feed.MinContentLength then None else Some(content)
  }

  /** White space alone never makes a post. */
  lemma BlankPostRefused(content: string)
    requires forall i :: 0 <= i < |content| ==> IsSpace(content[i])
    ensures CreatePost(content).None?
  {
    TrimEmptyIffBlank(content);
  }

  /** A post the page sends passes the router's checks. */
  lemma CreatedPostAccepted(content: string)
    requires CreatePost(content).Some?
    ensures Feed.ValidateNewPost(content, "").Ok?
  {
    TrimJsShorter(content);
  }

  /** Three characters beyond the Basic Multilingual Plane, such as three emoji, already make a post: six code units. */
  lemma AstralPostSent(content: string)
    requires |content| >= 3 && forall i :: 0 <= i < |content| ==> content[i] as int >= 0x1_0000
    ensures CreatePost(content) == Some(content)
  {
    var last := content[|content| - 1];
    assert content[0] as int >= 0x1_0000 && last as int >= 0x1_0000;
    assert !IsSpace(content[0]) && !IsSpace(last);
    TrimKeeps(content);
    JsLengthAllAstral(content);
  }

  /** `handleEditPost`: the edit box starts from the post's text, or empty. */
  function EditStart(post: Item): (text: string)
    ensures post.content.Some? ==> text == post.content.value
    ensures post.content.None? ==> text == ""
  {
    if post.content.Some? then post.content.value else ""
  }

  /** `handleSaveEdit`: nothing without a post being edited or with too short a text; else the post's id and the untrimmed text. */
  function SaveEdit(editing: Option<Item>, content: string): (r: Option<(int, string)>)
    ensures r.Some? <==> editing.Some? && JsLength(Trim(content)) >= 5
    ensures r.Some? ==> r.value == (editing.value.id, content)
  {
    if editing.None? then None
    else if !LongEnough(content) then None
    else Some((editing.value.id, content))
  }

  /** An edit the page saves has the length the router asks of new text. */
  lemma SavedEditAccepted(editing: Option<Item>, content: string)
    requires SaveEdit(editing, content).Some?
    ensures content != "" && JsLength(content) >= Feed.MinContentLength
  {
    TrimJsShorter(content);
  }

  /** `handleLike`: only posts are liked; activities are ignored. */
  function Like(item: Item): (postId: Option<int>)
    ensures postId.Some? <==> IsPost(item)
    ensures postId.Some? ==> postId.value == item.id
  {
    if IsPost(item) then Some(item.id) else None
  }

  /** `handleShowPost`: only a post opens its detail page. */
  function ShowPost(item: Item): (path: Option<string>)
    ensures path.Some? <==> IsPost(item)
    ensures path.Some? ==> path.value == "/feed/" + IntString(item.id)
  {
    if IsPost(item) then Some("/feed/" + IntString(item.id)) else None
  }

  /** Liking and opening act on the same items, and never on an activity. */
  lemma LikeAndOpenAgree(item: Item)
    ensures Like(item).Some? == ShowPost(item).Some?
    ensures item.kind == "activity" ==> Like(item).None? && !CanEdit(item, item.createdAt) && !CanDelete(item)
  {
  }
}
