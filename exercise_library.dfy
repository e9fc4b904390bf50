/**
 * The exercise library pages (the full page and its clean variant share
 * these helpers): the viewer's subscription tier, whether the library may
 * be shared, the file size label, the card thumbnail, choosing recipients,
 * the debounced user search and the share requests.
 */
module ExerciseLibrary {
  import opened Common

  /** The signed-in viewer's flags; a missing Spikes balance is `None`. */
  datatype UserData = UserData(isPremium: bool, isProUser: bool, spikes: Option<int>)

  datatype Tier = FreeTier | ProTier | StarTier

  /** `getSubscriptionTier`: free when signed out, star for premium, else pro for pro users, else free. */
  function SubscriptionTier(user: Option<UserData>): (t: Tier)
    ensures t == StarTier <==> user.Some? && user.value.isPremium
    ensures t == ProTier <==> user.Some? && !user.value.isPremium && user.value.isProUser
    ensures t == FreeTier <==> user.None? || (!user.value.isPremium && !user.value.isProUser)
  {
    if user.None? then FreeTier
    else if user.value.isPremium then StarTier
    else if user.value.isProUser then ProTier
    else FreeTier
  }

  /** Free sharing needs 100 Spikes. */
  const ShareSpikes := 100

  /** `(userData?.spikes || 0)`. */
  function SpikesOf(user: Option<UserData>): int
  {
    if user.Some? && user.value.spikes.Some? then user.value.spikes.value else 0
  }

  /** `canShareLibrary`: pro and star always; free viewers with at least 100 Spikes. */
  function CanShareLibrary(user: Option<UserData>): (b: bool)
    ensures b <==> SubscriptionTier(user) != FreeTier || SpikesOf(user) >= ShareSpikes
  {
    var tier := SubscriptionTier(user);
    if tier == ProTier || tier == StarTier then true else SpikesOf(user) >= ShareSpikes
  }

  /** A signed-out viewer cannot share, and more Spikes never take the right away. */
  lemma ShareMonotoneInSpikes(flags: UserData, fewer: int, more: int)
    requires fewer <= more
    ensures !CanShareLibrary(None)
    ensures CanShareLibrary(Some(flags.(spikes := Some(fewer)))) ==> CanShareLibrary(Some(flags.(spikes := Some(more))))
  {
  }

  /** 2^20: bytes in a megabyte. */
  const Megabyte: nat := 1048576

  /** `(bytes / 2^20).toFixed(1)` as tenths of a megabyte: the nearest tenth, halves rounded up. */
  function SizeTenths(bytes: nat): (t: nat)
    ensures t * Megabyte <= bytes * 10 + Megabyte / 2 < (t + 1) * Megabyte
  {
    (bytes * 10 + Megabyte / 2) / Megabyte
  }

  /**
   * `formatFileSize`: empty for a missing or zero size, otherwise the size
   * in megabytes with one decimal and ' MB'.
   */
  function FormatFileSize(bytes: Option<nat>): (s: string)
    ensures bytes.None? || bytes == Some(0) ==> s == ""
    ensures bytes.Some? && bytes.value > 0 ==>
              var t := SizeTenths(bytes.value);
              s == NatToString(t / 10) + "." + [DigitChar(t % 10)] + " MB"
  {
    if bytes.None? || bytes.value == 0 then ""
    else
      var t := SizeTenths(bytes.value);
      NatToString(t / 10) + "." + [DigitChar(t % 10)] + " MB"
  }

  /** A whole number of megabytes reads with a zero decimal. */
  lemma WholeMegabytes(k: nat)
    requires k > 0
    ensures FormatFileSize(Some(k * Megabyte)) == NatToString(k) + ".0 MB"
  {
    var t := SizeTenths(k * Megabyte);
    assert t == k * 10 by {
      assert (k * 10) * Megabyte <= k * Megabyte * 10 + Megabyte / 2 < (k * 10 + 1) * Megabyte;
    }
    assert t / 10 == k && t % 10 == 0;
  }

  /** Every non-empty label ends in ' MB' and has one digit after the point. */
  lemma LabelShape(bytes: nat)
    requires bytes > 0
    ensures var s := FormatFileSize(Some(bytes));
            |s| >= 6 && s[|s| - 3..] == " MB" && s[|s| - 5] == '.' && '0' <= s[|s| - 4] <= '9'
  {
  }

  datatype Exercise = Exercise(id: int, kind: string, thumbnailUrl: string)

  const Placeholder := "/placeholder-video.jpg"

  /** `getThumbnail`: the stored thumbnail of a YouTube item that has one, else the placeholder. */
  function Thumbnail(e: Exercise): (s: string)
    ensures e.kind == "youtube" && e.thumbnailUrl != "" ==> s == e.thumbnailUrl
    ensures !(e.kind == "youtube" && e.thumbnailUrl != "") ==> s == Placeholder
  {
    if e.kind == "youtube" && e.thumbnailUrl != "" then e.thumbnailUrl else Placeholder
  }

  /** An uploaded file never shows its own thumbnail. */
  lemma UploadShowsPlaceholder(e: Exercise)
    requires e.kind != "youtube"
    ensures Thumbnail(e) == Placeholder
  {
  }

  /** The clean page's checkbox: checking appends the user, unchecking filters the user out. */
  function CheckboxChange(prev: seq<int>, id: int, checked: bool): (r: seq<int>)
    ensures checked ==> r == prev + [id]
    ensures !checked ==> id !in r && forall y :: y != id ==> (y in r <==> y in prev)
  {
    if checked then prev + [id] else Remove(prev, id)
  }

  /** The checkbox shows whether the user is chosen, so its change is the full page's click toggle. */
  lemma CheckboxIsToggle(prev: seq<int>, id: int)
    ensures CheckboxChange(prev, id, id !in prev) == Toggle(prev, id)
  {
  }

  /** Neither way of choosing recipients ever lists the same user twice. */
  lemma ChoosingKeepsRecipientsDistinct(prev: seq<int>, id: int, checked: bool)
    requires NoDup(prev) && checked == (id !in prev)
    ensures NoDup(Toggle(prev, id)) && NoDup(CheckboxChange(prev, id, checked))
  {
    ToggleKeepsNoDup(prev, id);
    CheckboxIsToggle(prev, id);
  }

  /** The debounced search: a query whose `.length` is at least 2 shows the server's matches, a shorter one clears them. */
  function SearchResults<U>(query: string, found: seq<U>): (r: seq<U>)
    ensures JsLength(query) >= 2 ==> r == found
    ensures JsLength(query) < 2 ==> r == []
  {
    if JsLength(query) >= 2 then found else []
  }

  /** A single character beyond the Basic Multilingual Plane has a `.length` of 2 and is searched. */
  lemma AstralCharacterSearched<U>(c: char, found: seq<U>)
    requires c as int >= 0x1_0000
    ensures SearchResults([c], found) == found
  {
    JsLengthAllAstral([c]);
  }

  datatype ShareRequest = ShareRequest(exerciseId: int, recipientIds: seq<int>, message: string)
  datatype LibraryShareRequest = LibraryShareRequest(recipientIds: seq<int>, useSpikes: bool)

  /** `handleShareInternal`: sent only with an exercise open and at least one recipient. */
  function ShareInternal(selected: Option<Exercise>, recipients: seq<int>, message: string): (r: Option<ShareRequest>)
    ensures r.Some? <==> selected.Some? && recipients != []
    ensures r.Some? ==> r.value == ShareRequest(selected.value.id, recipients, message)
  {
    if selected.Some? && |recipients| > 0 then Some(ShareRequest(selected.value.id, recipients, message)) else None
  }

  /** `handleLibraryShare`: sent only with at least one recipient. */
  function LibraryShare(recipients: seq<int>, useSpikes: bool): (r: Option<LibraryShareRequest>)
    ensures r.Some? <==> recipients != []
    ensures r.Some? ==> r.value == LibraryShareRequest(recipients, useSpikes)
  {
    if |recipients| > 0 then Some(LibraryShareRequest(recipients, useSpikes)) else None
  }

  /** A successful share clears the recipients, so pressing send again sends nothing. */
  lemma ShareClearsRecipients(selected: Option<Exercise>)
    ensures ShareInternal(selected, [], "").None?
  {
  }

  /** The send button's label: 'Share with 1 person', otherwise '... people'. */
  function ShareLabel(n: nat): (s: string)
    ensures n == 1 ==> s == "Share with 1 person"
    ensures n != 1 ==> s == "Share with " + NatToString(n) + " people"
  {
    "Share with " + NatToString(n) + (if n == 1 then " person" else " people")
  }
}
