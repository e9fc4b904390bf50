/**
 * The groups page: who may create groups, the tier's group limits, whether
 * one more group may be created, the search over the athlete's groups, and
 * the create-group and send-message requests.
 */
module GroupsPage {
  import opened Common

  /** The signed-in athlete's flags the page reads. */
  datatype User = User(isCoach: bool, subscriptionTier: string)

  datatype Limit = Unlimited | AtMost(n: nat)

  datatype GroupLimits = GroupLimits(maxGroups: Limit, maxMembers: Limit)

  /** `canCreateGroups`: coaches and star athletes. */
  predicate CanCreateGroups(user: Option<User>)
  {
    user.Some? && (user.value.isCoach || user.value.subscriptionTier == "star")
  }

  /** `getGroupLimits`: star first (unlimited), then coaches (10 groups of 50), otherwise none. */
  function GetGroupLimits(user: Option<User>): (l: GroupLimits)
    ensures user.Some? && user.value.subscriptionTier == "star" ==> l == GroupLimits(Unlimited, Unlimited)
    ensures user.Some? && user.value.subscriptionTier != "star" && user.value.isCoach ==> l == GroupLimits(AtMost(10), AtMost(50))
    ensures !CanCreateGroups(user) ==> l == GroupLimits(AtMost(0), AtMost(0))
  {
    if user.Some? && user.value.subscriptionTier == "star" then GroupLimits(Unlimited, Unlimited)
    else if user.Some? && user.value.isCoach then GroupLimits(AtMost(10), AtMost(50))
    else GroupLimits(AtMost(0), AtMost(0))
  }

  /** `canCreateMore`: an unlimited allowance, or fewer groups than the maximum. */
  predicate CanCreateMore(limits: GroupLimits, count: nat)
  {
    limits.maxGroups.Unlimited? || count < limits.maxGroups.n
  }

  /** The create button shows only when both checks pass. */
  predicate CreateButtonShown(user: Option<User>, count: nat)
  {
    CanCreateGroups(user) && CanCreateMore(GetGroupLimits(user), count)
  }

  /**
   * Whoever may not create groups has no allowance left either; a star
   * athlete may always create one more, and a coach below the star tier
   * exactly while fewer than 10 groups are listed.
   */
  lemma CreationRights(user: Option<User>, count: nat)
    ensures !CanCreateGroups(user) ==> !CanCreateMore(GetGroupLimits(user), count)
    ensures user.Some? && user.value.subscriptionTier == "star" ==> CreateButtonShown(user, count)
    ensures user.Some? && user.value.subscriptionTier != "star" && user.value.isCoach ==>
              (CreateButtonShown(user, count) <==> count < 10)
  {
  }

  /** A group as listed; a missing description is `None`. */
  datatype Group = Group(id: int, name: string, description: Option<string>)

  /** The search test: the lower-cased name or description contains the lower-cased query. */
  predicate MatchesQuery(g: Group, query: string)
  {
    Contains(ToLower(g.name), ToLower(query))
      || (g.description.Some? && Contains(ToLower(g.description.value), ToLower(query)))
  }

  /** `filteredGroups`: the groups the search keeps, in their order. */
  function FilterGroups(groups: seq<Group>, query: string): (r: seq<Group>)
    ensures |r| <= |groups|
    ensures forall g :: g in r <==> g in groups && MatchesQuery(g, query)
  {
    Filter(groups, g => MatchesQuery(g, query))
  }

  /** An empty search keeps every group. */
  lemma {:induction false} EmptySearchKeepsAll(groups: seq<Group>)
    ensures FilterGroups(groups, "") == groups
    decreases |groups|
  {
    if groups != [] {
      EmptyContained(ToLower(groups[0].name));
      EmptySearchKeepsAll(groups[1..]);
      assert groups == [groups[0]] + groups[1..];
    }
  }

  /** Capitals in the query never change the result. */
  lemma {:induction false} SearchIgnoresCase(groups: seq<Group>, a: string, b: string)
    requires ToLower(a) == ToLower(b)
    ensures FilterGroups(groups, a) == FilterGroups(groups, b)
    decreases |groups|
  {
    if groups != [] {
      SearchIgnoresCase(groups[1..], a, b);
    }
  }

  /** The search ignores the case of Latin-1 letters too: the query 'é' finds the group 'École'. */
  lemma AccentedQueryFindsGroup(id: int)
    ensures MatchesQuery(Group(id, "\U{00C9}cole", None), "\U{00E9}")
  {
    var name := ToLower("\U{00C9}cole");
    assert ToLower("\U{00E9}") == "\U{00E9}";
    assert name[0] == '\U{00E9}';
    assert name[0..1] == "\U{00E9}";
    ContainsAt(name, "\U{00E9}", 0);
  }

  datatype CreateRequest = CreateRequest(name: string, description: string, isPrivate: bool)

  /** `handleCreateGroup`: nothing without a name; otherwise the trimmed name and description and the privacy. */
  function CreateGroup(name: string, description: string, privacy: string): (r: Option<CreateRequest>)
    ensures r.None? <==> Trim(name) == ""
    ensures r.Some? ==> r.value == CreateRequest(Trim(name), Trim(description), privacy == "private")
                        && r.value.name != "" && !IsSpace(r.value.name[0])
  {
    if Trim(name) == "" then None
    else Some(CreateRequest(Trim(name), Trim(description), privacy == "private"))
  }

  /** `handleSendMessage`: nothing with a blank message or no group chosen; otherwise the trimmed message to that group. */
  function SendMessage(message: string, selectedGroup: Option<int>): (r: Option<(int, string)>)
    ensures r.None? <==> Trim(message) == "" || selectedGroup.None? || selectedGroup == Some(0)
    ensures r.Some? ==> r.value == (selectedGroup.value, Trim(message))
  {
    if Trim(message) == "" || selectedGroup.None? || selectedGroup.value == 0 then None
    else Some((selectedGroup.value, Trim(message)))
  }

  /** A name of ideographic spaces, which `trim()` removes, creates no group. */
  lemma IdeographicSpaceNameRefused(description: string, privacy: string)
    ensures CreateGroup("\U{3000}\U{3000}", description, privacy).None?
  {
    TrimEmptyIffBlank("\U{3000}\U{3000}");
  }

  /** A message of white space only is never sent. */
  lemma BlankMessageNotSent(message: string, selectedGroup: Option<int>)
    requires forall i :: 0 <= i < |message| ==> IsSpace(message[i])
    ensures SendMessage(message, selectedGroup).None?
  {
    TrimEmptyIffBlank(message);
  }
}
