/**
 * Request-handler rules of the HTTP API: the background merge of gym
 * exercises into program sessions, the athlete and competition listings and
 * their pagination, subscription-tier limits, prompt packages, the
 * de-duplication of assigned programs and the PATCH field whitelists.
 * Database reads are inputs; a handler's error response is an `Err`.
 */
module Routes {
  import opened Common
  import Sorting

  // ------------------------------------------------------------ gym merge

  /** A program session as the gym pass sees it. */
  datatype GymSession = GymSession(
    id: nat,
    existingGymData: seq<string>,
    /** For each workout field in order: the gym number it references, if the field is non-empty and has one. */
    gymRefs: seq<Option<int>>)

  function Ident(s: string): string
  {
    s
  }

  /** `gymData.includes(x)` is the merge's key test with the identity key. */
  lemma IncludesIsHasKey(acc: seq<string>, x: string)
    ensures x in acc <==> HasKey(acc, Ident, x)
  {
    if x in acc {
      var i :| 0 <= i < |acc| && acc[i] == x;
      assert Ident(acc[i]) == x;
    }
  }

  /** `for (e of exercises) if (!gymData.includes(e)) gymData.push(e)`. */
  method MergeExercises(gymData: seq<string>, exercises: seq<string>) returns (r: seq<string>)
    ensures r == AppendNewBy(gymData, exercises, Ident)
  {
    r := gymData;
    var k := 0;
    while k < |exercises|
      invariant 0 <= k <= |exercises|
      invariant AppendNewBy(gymData, exercises, Ident) == AppendNewBy(r, exercises[k..], Ident)
    {
      assert exercises[k..][1..] == exercises[k + 1..];
      IncludesIsHasKey(r, exercises[k]);
      if exercises[k] !in r {
        r := r + [exercises[k]];
      }
      k := k + 1;
    }
  }

  /** The exercises a field contributes: the fetched list of its gym, when the number is truthy and the fetch succeeds. */
  function RefExercises(ref: Option<int>, fetched: map<int, seq<string>>): seq<string>
  {
    if ref.Some? && ref.value != 0 && ref.value in fetched then fetched[ref.value] else []
  }

  /** The exercises of all the fields of a session, in field order, repeats included. */
  function AllExercises(refs: seq<Option<int>>, fetched: map<int, seq<string>>): seq<string>
  {
    if refs == [] then [] else RefExercises(refs[0], fetched) + AllExercises(refs[1..], fetched)
  }

  /** The gym data a session receives: every exercise once, in first-seen order. */
  function SessionGymData(refs: seq<Option<int>>, fetched: map<int, seq<string>>): seq<string>
  {
    AppendNewBy([], AllExercises(refs, fetched), Ident)
  }

  lemma {:induction false} AppendNewByConcat(acc: seq<string>, a: seq<string>, b: seq<string>)
    ensures AppendNewBy(acc, a + b, Ident) == AppendNewBy(AppendNewBy(acc, a, Ident), b, Ident)
    decreases |a|
  {
    if a == [] {
      assert a + b == b;
    } else {
      assert (a + b)[0] == a[0] && (a + b)[1..] == a[1..] + b;
      var acc' := if HasKey(acc, Ident, a[0]) then acc else acc + [a[0]];
      AppendNewByConcat(acc', a[1..], b);
    }
  }

  /** The cache holds only successful, non-empty fetches. */
  predicate CacheFaithful(cache: map<int, seq<string>>, fetched: map<int, seq<string>>)
  {
    forall n :: n in cache ==> n in fetched && cache[n] == fetched[n] && cache[n] != []
  }

  /** Gym numbers that would be fetched again with no harm: failed or empty fetches. */
  predicate Refetchable(n: int, fetched: map<int, seq<string>>)
  {
    n !in fetched || fetched[n] == []
  }

  /** A fetch log in which only failed or empty fetches repeat, none of them already cached. */
  predicate FetchLogOk(log: seq<int>, cache: map<int, seq<string>>, fetched: map<int, seq<string>>)
  {
    (forall i, j :: 0 <= i < j < |log| && log[i] == log[j] ==> Refetchable(log[i], fetched))
    && (forall i :: 0 <= i < |log| ==> log[i] in cache || Refetchable(log[i], fetched))
  }

  /** Logging a fetch of a gym number not in the cache, then caching it if it returned exercises, keeps the log sound. */
  lemma LogFetch(log: seq<int>, cache: map<int, seq<string>>, fetched: map<int, seq<string>>, n: int)
    requires CacheFaithful(cache, fetched) && FetchLogOk(log, cache, fetched) && n !in cache
    ensures var cache' := if n in fetched && fetched[n] != [] then cache[n := fetched[n]] else cache;
              CacheFaithful(cache', fetched) && FetchLogOk(log + [n], cache', fetched)
  {
    var log' := log + [n];
    forall i, j | 0 <= i < j < |log'| && log'[i] == log'[j] ensures Refetchable(log'[i], fetched) {
      assert log'[i] == log[i];
      if j < |log| {
        assert log'[j] == log[j];
      }
    }
  }

  /** One workout field: the cached list if there is one, otherwise a fetch whose non-empty result is cached. */
  method FieldGym(ref: Option<int>, gymData0: seq<string>, cache0: map<int, seq<string>>,
                  fetched: map<int, seq<string>>, log0: seq<int>)
    returns (gymData: seq<string>, cache: map<int, seq<string>>, log: seq<int>)
    requires CacheFaithful(cache0, fetched) && FetchLogOk(log0, cache0, fetched)
    ensures CacheFaithful(cache, fetched) && FetchLogOk(log, cache, fetched)
    ensures gymData == AppendNewBy(gymData0, RefExercises(ref, fetched), Ident)
  {
    gymData, cache, log := gymData0, cache0, log0;
    if ref.Some? && ref.value != 0 {
      var n := ref.value;
      if n in cache {
        gymData := MergeExercises(gymData, cache[n]);
      } else {
        LogFetch(log, cache, fetched, n);
        log := log + [n];
        if n in fetched && fetched[n] != [] {
          cache := cache[n := fetched[n]];
          gymData := MergeExercises(gymData, fetched[n]);
        }
      }
    }
  }

  /** The field loop of one session. */
  method SessionGym(refs: seq<Option<int>>, cache0: map<int, seq<string>>, fetched: map<int, seq<string>>,
                    log0: seq<int>)
    returns (gymData: seq<string>, cache: map<int, seq<string>>, log: seq<int>)
    requires CacheFaithful(cache0, fetched) && FetchLogOk(log0, cache0, fetched)
    ensures CacheFaithful(cache, fetched) && FetchLogOk(log, cache, fetched)
    ensures gymData == SessionGymData(refs, fetched)
  {
    gymData, cache, log := [], cache0, log0;
    var f := 0;
    while f < |refs|
      invariant 0 <= f <= |refs|
      invariant CacheFaithful(cache, fetched) && FetchLogOk(log, cache, fetched)
      invariant gymData == AppendNewBy([], AllExercises(refs[..f], fetched), Ident)
    {
      SessionGymStep(refs, f, fetched);
      gymData, cache, log := FieldGym(refs[f], gymData, cache, fetched, log);
      f := f + 1;
    }
    WholePrefix(refs);
  }

  /** The gym data after one more field merges that field's exercises in. */
  lemma SessionGymStep(refs: seq<Option<int>>, f: int, fetched: map<int, seq<string>>)
    requires 0 <= f < |refs|
    ensures AppendNewBy([], AllExercises(refs[..f + 1], fetched), Ident)
            == AppendNewBy(AppendNewBy([], AllExercises(refs[..f], fetched), Ident), RefExercises(refs[f], fetched), Ident)
  {
    PrefixStep(refs, f);
    AllExercisesAppend(refs[..f], refs[f], fetched);
    AppendNewByConcat([], AllExercises(refs[..f], fetched), RefExercises(refs[f], fetched));
  }

  lemma {:induction false} AllExercisesAppend(refs: seq<Option<int>>, ref: Option<int>, fetched: map<int, seq<string>>)
    ensures AllExercises(refs + [ref], fetched) == AllExercises(refs, fetched) + RefExercises(ref, fetched)
    decreases |refs|
  {
    if refs == [] {
      assert [ref][1..] == [];
      AppendToEmpty([ref]);
    } else {
      TailOfSnoc(refs, ref);
      AllExercisesAppend(refs[1..], ref, fetched);
    }
  }

  /** The sessions the pass updates, each with its merged gym data. */
  function GymUpdates(sessions: seq<GymSession>, fetched: map<int, seq<string>>): seq<(nat, seq<string>)>
  {
    if sessions == [] then []
    else
      var s := sessions[0];
      var gym := SessionGymData(s.gymRefs, fetched);
      (if s.existingGymData == [] && gym != [] then [(s.id, gym)] else [])
      + GymUpdates(sessions[1..], fetched)
  }

  lemma {:induction false} GymUpdatesAppend(sessions: seq<GymSession>, s: GymSession, fetched: map<int, seq<string>>)
    ensures GymUpdates(sessions + [s], fetched) == GymUpdates(sessions, fetched) + GymUpdates([s], fetched)
    decreases |sessions|
  {
    if sessions == [] {
      AppendToEmpty([s]);
    } else {
      TailOfSnoc(sessions, s);
      GymUpdatesAppend(sessions[1..], s, fetched);
    }
  }

  /**
   * `processGymDataInBackground`: sessions that already have gym data are
   * skipped; the others receive every referenced exercise once, in
   * first-seen order.  The shared cache makes no difference to the result,
   * and a gym whose fetch returned exercises is never fetched again.
   */
  method ProcessGymData(sessions: seq<GymSession>, fetched: map<int, seq<string>>)
    returns (updates: seq<(nat, seq<string>)>, fetchLog: seq<int>)
    ensures updates == GymUpdates(sessions, fetched)
    ensures forall i, j :: 0 <= i < j < |fetchLog| && fetchLog[i] == fetchLog[j] ==> Refetchable(fetchLog[i], fetched)
  {
    var cache: map<int, seq<string>> := map[];
    updates, fetchLog := [], [];
    var k := 0;
    while k < |sessions|
      invariant 0 <= k <= |sessions|
      invariant CacheFaithful(cache, fetched) && FetchLogOk(fetchLog, cache, fetched)
      invariant updates == GymUpdates(sessions[..k], fetched)
    {
      var s := sessions[k];
      PrefixStep(sessions, k);
      GymUpdatesAppend(sessions[..k], s, fetched);
      if s.existingGymData == [] {
        var gymData;
        var log;
        gymData, cache, log := SessionGym(s.gymRefs, cache, fetched, fetchLog);
        fetchLog := log;
        if gymData != [] {
          updates := updates + [(s.id, gymData)];
        }
      }
      k := k + 1;
    }
    WholePrefix(sessions);
  }

  /** Every session's gym data is free of repeats and holds each exercise of its referenced gyms. */
  lemma GymDataComplete(refs: seq<Option<int>>, fetched: map<int, seq<string>>)
    ensures KeysUnique(SessionGymData(refs, fetched), Ident)
    ensures forall j :: 0 <= j < |AllExercises(refs, fetched)| ==>
              AllExercises(refs, fetched)[j] in SessionGymData(refs, fetched)
    ensures forall i :: 0 <= i < |SessionGymData(refs, fetched)| ==>
              SessionGymData(refs, fetched)[i] in AllExercises(refs, fetched)
  {
    var all := AllExercises(refs, fetched);
    var r := SessionGymData(refs, fetched);
    AppendNewByUnique([], all, Ident);
    AppendNewByFrom([], all, Ident);
    AppendNewByCovers([], all, Ident);
    forall j | 0 <= j < |all| ensures all[j] in r {
      IncludesIsHasKey(r, all[j]);
    }
  }

  // ------------------------------------------------------------ athletes

  datatype UserRow = UserRow(id: nat, username: string, name: string)

  function UserId(u: UserRow): int
  {
    u.id
  }

  function NegUserId(u: UserRow): int
  {
    -(u.id as int)
  }

  /** `map.set(u.id, u)` on an insertion-ordered map kept as a sequence. */
  function SetUser(acc: seq<UserRow>, u: UserRow): (r: seq<UserRow>)
    ensures |r| >= |acc|
  {
    if HasKey(acc, UserId, u.id)
    then seq(|acc|, i requires 0 <= i < |acc| => if acc[i].id == u.id then u else acc[i])
    else acc + [u]
  }

  /** `Array.from(new Map(users.map(u => [u.id, u])).values())`. */
  function UniqueById(acc: seq<UserRow>, users: seq<UserRow>): seq<UserRow>
    decreases |users|
  {
    if users == [] then acc else UniqueById(SetUser(acc, users[0]), users[1..])
  }

  /**
   * The map keeps one row per id: it never repeats an id, every row comes
   * from the input, and every input id is present.
   */
  lemma {:induction false} UniqueByIdCorrect(acc: seq<UserRow>, users: seq<UserRow>)
    requires KeysUnique(acc, UserId)
    ensures var r := UniqueById(acc, users);
              KeysUnique(r, UserId)
              && (forall i :: 0 <= i < |r| ==> r[i] in acc || r[i] in users)
              && (forall j :: 0 <= j < |users| ==> HasKey(r, UserId, users[j].id))
              && (forall j :: 0 <= j < |acc| ==> HasKey(r, UserId, acc[j].id))
    decreases |users|
  {
    if users != [] {
      var u := users[0];
      var acc' := SetUser(acc, u);
      SetUserCorrect(acc, u);
      UniqueByIdCorrect(acc', users[1..]);
      var r := UniqueById(acc, users);
      forall i | 0 <= i < |r| ensures r[i] in acc || r[i] in users {
        if r[i] in users[1..] {
          assert r[i] in users;
        }
      }
      forall j | 0 <= j < |users| ensures HasKey(r, UserId, users[j].id) {
        if j > 0 {
          assert users[1..][j - 1] == users[j];
        } else {
          var k :| 0 <= k < |acc'| && acc'[k].id == u.id;
          assert UserId(acc'[k]) == u.id;
        }
      }
      forall j | 0 <= j < |acc| ensures HasKey(r, UserId, acc[j].id) {
        var k :| 0 <= k < |acc'| && acc'[k].id == acc[j].id;
        assert UserId(acc'[k]) == acc[j].id;
      }
    }
  }

  lemma SetUserCorrect(acc: seq<UserRow>, u: UserRow)
    requires KeysUnique(acc, UserId)
    ensures var r := SetUser(acc, u);
              KeysUnique(r, UserId)
              && (forall i :: 0 <= i < |r| ==> r[i] in acc || r[i] == u)
              && (exists k :: 0 <= k < |r| && r[k].id == u.id)
              && (forall j :: 0 <= j < |acc| ==> exists k :: 0 <= k < |r| && r[k].id == acc[j].id)
  {
    if HasKey(acc, UserId, u.id) {
      SetExistingUser(acc, u);
    } else {
      SetNewUser(acc, u);
    }
  }

  /** Setting a user already present replaces it where it stands. */
  lemma SetExistingUser(acc: seq<UserRow>, u: UserRow)
    requires KeysUnique(acc, UserId) && HasKey(acc, UserId, u.id)
    ensures var r := SetUser(acc, u);
              KeysUnique(r, UserId)
              && (forall i :: 0 <= i < |r| ==> r[i] in acc || r[i] == u)
              && (exists k :: 0 <= k < |r| && r[k].id == u.id)
              && (forall j :: 0 <= j < |acc| ==> exists k :: 0 <= k < |r| && r[k].id == acc[j].id)
  {
    var r := SetUser(acc, u);
    ReplaceKeepsIds(acc, u);
    ReplaceTakesFromBoth(acc, u);
    var k :| 0 <= k < |acc| && UserId(acc[k]) == u.id;
    assert r[k].id == u.id;
    forall j | 0 <= j < |acc| ensures exists k :: 0 <= k < |r| && r[k].id == acc[j].id {
      assert r[j].id == acc[j].id;
    }
  }

  lemma ReplaceKeepsIds(acc: seq<UserRow>, u: UserRow)
    requires HasKey(acc, UserId, u.id)
    ensures |SetUser(acc, u)| == |acc|
    ensures forall i :: 0 <= i < |acc| ==> UserId(SetUser(acc, u)[i]) == UserId(acc[i])
  {
  }

  lemma ReplaceTakesFromBoth(acc: seq<UserRow>, u: UserRow)
    requires HasKey(acc, UserId, u.id)
    ensures forall i :: 0 <= i < |SetUser(acc, u)| ==> SetUser(acc, u)[i] in acc || SetUser(acc, u)[i] == u
  {
    var r := SetUser(acc, u);
    forall i | 0 <= i < |r| ensures r[i] in acc || r[i] == u {
      if acc[i].id != u.id {
        assert r[i] == acc[i];
      }
    }
  }

  /** Setting a new user appends it. */
  lemma SetNewUser(acc: seq<UserRow>, u: UserRow)
    requires KeysUnique(acc, UserId) && !HasKey(acc, UserId, u.id)
    ensures var r := SetUser(acc, u);
              KeysUnique(r, UserId)
              && (forall i :: 0 <= i < |r| ==> r[i] in acc || r[i] == u)
              && (exists k :: 0 <= k < |r| && r[k].id == u.id)
              && (forall j :: 0 <= j < |acc| ==> exists k :: 0 <= k < |r| && r[k].id == acc[j].id)
  {
    var r := SetUser(acc, u);
    assert r == acc + [u];
    assert r[|acc|].id == u.id;
    forall j | 0 <= j < |acc| ensures exists k :: 0 <= k < |r| && r[k].id == acc[j].id {
      assert r[j].id == acc[j].id;
    }
    forall i, j | 0 <= i < j < |r| ensures UserId(r[i]) != UserId(r[j]) {
      if j == |acc| {
        assert UserId(acc[i]) != u.id;
      }
    }
  }

  /** `user.username.toLowerCase().includes(term) || (user.name && user.name.toLowerCase().includes(term))`. */
  predicate MatchesSearch(u: UserRow, term: string)
  {
    Contains(ToLower(u.username), term) || (u.name != "" && Contains(ToLower(u.name), term))
  }

  /** Every user but the caller. */
  function Others(all: seq<UserRow>, caller: nat): seq<UserRow>
  {
    Filter(all, (u: UserRow) => u.id != caller)
  }

  /** The users matching a lower-cased search term. */
  function Searched(users: seq<UserRow>, term: string): seq<UserRow>
  {
    Filter(users, (u: UserRow) => MatchesSearch(u, term))
  }

  /** The athlete list before paging: others only, one row per id, highest id first, then searched. */
  function AthleteList(all: seq<UserRow>, caller: nat, search: Option<string>): seq<UserRow>
  {
    var sorted := Sorting.Sort(UniqueById([], Others(all, caller)), NegUserId);
    if search.Some? && search.value != "" then Searched(sorted, ToLower(search.value)) else sorted
  }

  predicate Descending(s: seq<UserRow>)
  {
    forall i, j :: 0 <= i < j < |s| ==> s[i].id > s[j].id
  }

  /** Sorting one-row-per-id users on the negated id gives strictly descending ids. */
  lemma SortDescending(uniq: seq<UserRow>)
    requires KeysUnique(uniq, UserId)
    ensures multiset(Sorting.Sort(uniq, NegUserId)) == multiset(uniq)
    ensures Descending(Sorting.Sort(uniq, NegUserId))
  {
    assert KeysUnique(uniq, NegUserId) by {
      forall i, j | 0 <= i < j < |uniq| ensures NegUserId(uniq[i]) != NegUserId(uniq[j]) {
        assert UserId(uniq[i]) != UserId(uniq[j]);
      }
    }
    var sorted := Sorting.Sort(uniq, NegUserId);
    Sorting.SortCorrect(uniq, NegUserId);
    Sorting.SortStrict(uniq, NegUserId);
    forall i, j | 0 <= i < j < |sorted| ensures sorted[i].id > sorted[j].id {
      assert NegUserId(sorted[i]) < NegUserId(sorted[j]);
    }
  }

  lemma SearchedDescending(s: seq<UserRow>, term: string)
    requires Descending(s)
    ensures Descending(Searched(s, term))
    ensures forall i :: 0 <= i < |Searched(s, term)| ==> Searched(s, term)[i] in s
  {
    FilterOrdered(s, (u: UserRow) => MatchesSearch(u, term), (a: UserRow, b: UserRow) => a.id > b.id);
  }

  /** Searching a descending list of the table's other users keeps it one. */
  lemma SearchedKeeps(all: seq<UserRow>, caller: nat, sorted: seq<UserRow>, term: string)
    requires Descending(sorted)
    requires forall i :: 0 <= i < |sorted| ==> sorted[i].id != caller && sorted[i] in all
    ensures var r := Searched(sorted, term);
              Descending(r) && forall i :: 0 <= i < |r| ==> r[i].id != caller && r[i] in all
  {
    var r := Searched(sorted, term);
    SearchedDescending(sorted, term);
    forall i | 0 <= i < |r| ensures r[i].id != caller && r[i] in all {
      var k :| 0 <= k < |sorted| && sorted[k] == r[i];
    }
  }

  /** Every user other than the caller has a row in the de-duplicated, sorted list. */
  lemma OthersListed(all: seq<UserRow>, caller: nat, others: seq<UserRow>, uniq: seq<UserRow>, sorted: seq<UserRow>, u: UserRow)
    requires others == Others(all, caller)
    requires forall j :: 0 <= j < |others| ==> HasKey(uniq, UserId, others[j].id)
    requires multiset(sorted) == multiset(uniq)
    requires u in all && u.id != caller
    ensures HasKey(sorted, UserId, u.id)
  {
    assert u in others;
    var m :| 0 <= m < |others| && others[m] == u;
    var k :| 0 <= k < |uniq| && UserId(uniq[k]) == others[m].id;
    assert uniq[k] in multiset(sorted);
    var q :| 0 <= q < |sorted| && sorted[q] == uniq[k];
    assert UserId(sorted[q]) == u.id;
  }

  /**
   * The athlete list never shows the caller, lists each id once in strictly
   * descending id order, and holds only rows of the user table; without a
   * search it holds every other user.
   */
  lemma AthleteListCorrect(all: seq<UserRow>, caller: nat, search: Option<string>)
    ensures var r := AthleteList(all, caller, search);
              (forall i :: 0 <= i < |r| ==> r[i].id != caller && r[i] in all)
              && Descending(r)
              && (search.None? ==> forall j :: 0 <= j < |all| && all[j].id != caller ==> HasKey(r, UserId, all[j].id))
  {
    var others := Others(all, caller);
    var uniq := UniqueById([], others);
    UniqueByIdCorrect([], others);
    var sorted := Sorting.Sort(uniq, NegUserId);
    SortDescending(uniq);
    forall i | 0 <= i < |sorted| ensures sorted[i].id != caller && sorted[i] in all {
      assert sorted[i] in multiset(uniq);
    }
    if search.Some? && search.value != "" {
      SearchedKeeps(all, caller, sorted, ToLower(search.value));
    }
    if search.None? {
      forall j | 0 <= j < |all| && all[j].id != caller ensures HasKey(sorted, UserId, all[j].id) {
        OthersListed(all, caller, others, uniq, sorted, all[j]);
      }
    }
  }

  datatype AthletePage = AthletePage(users: seq<UserRow>, total: nat, hasMore: bool)

  const AthletesPerPage := 10

  /** Paging of the athlete list; `page` is `parseInt` of the query, `None` for NaN. */
  function AthletesPage(list: seq<UserRow>, page: Option<int>): (p: AthletePage)
    ensures p.total == |list| && |p.users| <= AthletesPerPage
    ensures page.None? ==> p.users == [] && !p.hasMore
    ensures page.Some? && page.value >= 1 ==>
              var offset := (page.value - 1) * AthletesPerPage;
              p.users == list[Min(offset, |list|)..Min(offset + AthletesPerPage, |list|)]
              && (p.hasMore <==> page.value * AthletesPerPage < |list|)
  {
    match page
    case None => AthletePage([], |list|, false)
    case Some(n) =>
      var offset := (n - 1) * AthletesPerPage;
      AthletePage(JsSlice(list, offset, offset + AthletesPerPage), |list|, n * AthletesPerPage < |list|)
  }

  /** `hasMore` on page n says exactly that page n + 1 is non-empty. */
  lemma HasMoreMeansNextPage(list: seq<UserRow>, n: int)
    requires n >= 1
    ensures AthletesPage(list, Some(n)).hasMore <==> AthletesPage(list, Some(n + 1)).users != []
  {
    var p := AthletesPage(list, Some(n + 1));
    assert p.users == list[Min(n * 10, |list|)..Min(n * 10 + 10, |list|)];
  }

  /** Consecutive pages tile the list: pages 1..n together are its first 10n rows. */
  lemma {:induction false} PagesTile(list: seq<UserRow>, n: nat)
    ensures Concat(PagesUpTo(list, n)) == list[..Min(n * AthletesPerPage, |list|)]
  {
    if n > 0 {
      var prev, page := PagesUpTo(list, n - 1), AthletesPage(list, Some(n)).users;
      PagesTile(list, n - 1);
      ConcatAppend(prev, page);
      var offset := (n - 1) * AthletesPerPage;
      assert n * AthletesPerPage == offset + AthletesPerPage;
      var a, b := Min(offset, |list|), Min(offset + AthletesPerPage, |list|);
      assert Concat(prev) == list[..a];
      assert page == list[a..b];
      PrefixThenSlice(list, a, b);
      assert Concat(PagesUpTo(list, n)) == list[..a] + list[a..b];
    }
  }

  function PagesUpTo(list: seq<UserRow>, n: nat): seq<seq<UserRow>>
  {
    if n == 0 then [] else PagesUpTo(list, n - 1) + [AthletesPage(list, Some(n)).users]
  }

  function Concat(pages: seq<seq<UserRow>>): seq<UserRow>
  {
    if pages == [] then [] else Concat(pages[..|pages| - 1]) + pages[|pages| - 1]
  }

  lemma ConcatAppend(pages: seq<seq<UserRow>>, p: seq<UserRow>)
    ensures Concat(pages + [p]) == Concat(pages) + p
  {
    assert (pages + [p])[..|pages|] == pages;
  }

  // ---------------------------------------------------------- competitions

  /** `Math.max(limitNum, 50)`; NaN stays NaN. */
  function EffectiveLimit(limit: Option<int>): (r: Option<int>)
    ensures limit.Some? <==> r.Some?
    ensures r.Some? ==> r.value >= 50 && r.value >= limit.value
  {
    match limit
    case None => None
    case Some(l) => Some(Max(l, 50))
  }

  datatype CompetitionPage<T> = CompetitionPage(items: seq<T>, total: nat, totalPages: Option<int>)

  /**
   * The paging of `/api/competitions`.  `fetchedEmpty` says whether the
   * fetch returned nothing, which answers early with zero pages; `comps` is
   * the list after the date, tab and name filters and the date sort.
   */
  function CompetitionsPage<T>(fetchedEmpty: bool, comps: seq<T>, page: Option<int>, limit: Option<int>): (p: CompetitionPage<T>)
    requires fetchedEmpty ==> comps == []
    ensures p.total == |comps|
    ensures fetchedEmpty ==> p.items == [] && p.totalPages == Some(0)
    ensures !fetchedEmpty && limit.Some? ==>
              var size := Max(limit.value, 50);
              p.totalPages.Some? && p.totalPages.value * size >= |comps| && (p.totalPages.value - 1) * size < |comps|
              && |p.items| <= size
    ensures !fetchedEmpty && limit.None? ==> p.items == [] && p.totalPages.None?
    ensures page.None? ==> p.items == []
  {
    if fetchedEmpty then CompetitionPage([], 0, Some(0))
    else
      match EffectiveLimit(limit)
      case None => CompetitionPage([], |comps|, None)
      case Some(size) =>
        var items := match page
          case None => []
          case Some(n) => JsSlice(comps, (n - 1) * size, (n - 1) * size + size);
        CompetitionPage(items, |comps|, Some(CeilDiv(|comps|, size)))
  }

  /**
   * A fetch that the filters empty answers zero pages for a numeric limit,
   * as the early exit does, but no page count (NaN) for a limit that does not parse.
   */
  lemma FilteredToNothing<T>(page: Option<int>, limit: int)
    ensures CompetitionsPage<T>(false, [], page, Some(limit)) == CompetitionPage([], 0, Some(0))
    ensures CompetitionsPage<T>(false, [], page, None).totalPages.None?
    ensures CompetitionsPage<T>(true, [], page, None).totalPages == Some(0)
  {
    var size := Max(limit, 50);
    assert CeilDiv(0, size) == 0;
    var none: seq<T> := [];
    if page.Some? {
      assert |JsSlice(none, (page.value - 1) * size, (page.value - 1) * size + size)| == 0;
    }
  }

  // ------------------------------------------------------------ tier limits

  datatype LibraryLimits = LibraryLimits(uploadLimit: int, canUpload: bool, youtubeLimit: int, canAdd: bool)

  /** `user.subscriptionTier || 'free'`. */
  function TierOrFree(tier: string): string
  {
    if tier == "" then "free" else tier
  }

  /** Upload and video-link limits per tier, -1 for unlimited; an unknown tier has no entry. */
  function LibraryTierLimits(tier: string): Option<(int, int)>
  {
    if tier == "free" then Some((10, 50))
    else if tier == "pro" then Some((50, 100))
    else if tier == "star" then Some((-1, -1))
    else None
  }

  /** `/api/exercise-library/limits`; `None` where the handler fails on an unknown tier. */
  function ExerciseLibraryLimits(tier: string, uploads: nat, links: nat): (r: Option<LibraryLimits>)
    ensures r.Some? <==> TierOrFree(tier) in {"free", "pro", "star"}
    ensures r.Some? ==> (r.value.canUpload <==> r.value.uploadLimit == -1 || uploads < r.value.uploadLimit)
    ensures r.Some? ==> (r.value.canAdd <==> r.value.youtubeLimit == -1 || links < r.value.youtubeLimit)
    ensures TierOrFree(tier) == "star" ==> r.Some? && r.value.canUpload && r.value.canAdd
  {
    match LibraryTierLimits(TierOrFree(tier))
    case None => None
    case Some((up, yt)) => Some(LibraryLimits(up, up == -1 || uploads < up, yt, yt == -1 || links < yt))
  }

  /** Higher tiers allow at least as much: whatever a free user may add, a pro user may too. */
  lemma LibraryTiersOrdered(uploads: nat, links: nat)
    ensures ExerciseLibraryLimits("free", uploads, links).value.canUpload ==> ExerciseLibraryLimits("pro", uploads, links).value.canUpload
    ensures ExerciseLibraryLimits("free", uploads, links).value.canAdd ==> ExerciseLibraryLimits("pro", uploads, links).value.canAdd
    ensures ExerciseLibraryLimits("", uploads, links) == ExerciseLibraryLimits("free", uploads, links)
  {
  }

  /** The coach's athlete limit; `None` is unlimited, and an unknown tier falls back to free. */
  function CoachAthleteLimit(tier: string): Option<nat>
  {
    var t := TierOrFree(tier);
    if t == "pro" then Some(20) else if t == "star" then None else Some(5)
  }

  /** Adding an athlete is refused once the current count reaches the limit. */
  predicate CanAddAthlete(count: nat, tier: string)
  {
    var l := CoachAthleteLimit(tier);
    l.None? || count < l.value
  }

  /** Star coaches are never limited; every other tier limits at 5 or 20 and refuses from there on. */
  lemma CoachLimits(count: nat, tier: string)
    ensures TierOrFree(tier) == "star" ==> CanAddAthlete(count, tier)
    ensures TierOrFree(tier) !in {"pro", "star"} ==> (CanAddAthlete(count, tier) <==> count < 5)
    ensures TierOrFree(tier) == "pro" ==> (CanAddAthlete(count, tier) <==> count < 20)
    ensures CanAddAthlete(count, "free") ==> CanAddAthlete(count, "pro") && CanAddAthlete(count, "star")
    ensures CanAddAthlete(count + 1, tier) ==> CanAddAthlete(count, tier)
  {
  }

  // --------------------------------------------------------- prompt packages

  datatype PurchaseError = InvalidPackage | NotEnoughSpikes

  /** Prompt packages as (cost in spikes, prompts). */
  function PromptPackage(p: string): Option<(nat, nat)>
  {
    if p == "small" then Some((100, 10))
    else if p == "medium" then Some((250, 30))
    else if p == "large" then Some((500, 75))
    else None
  }

  /** A purchase: an unknown package (400) or too few spikes (403) fails; otherwise the cost and prompts. */
  function PurchasePrompts(p: string, spikes: int): (r: Result<(nat, nat), PurchaseError>)
    ensures PromptPackage(p).None? <==> r == Err(InvalidPackage)
    ensures r.Ok? ==> PromptPackage(p) == Some(r.value) && spikes >= r.value.0
    ensures r == Err(NotEnoughSpikes) <==> PromptPackage(p).Some? && spikes < PromptPackage(p).value.0
  {
    match PromptPackage(p)
    case None => Err(InvalidPackage)
    case Some((cost, prompts)) => if spikes < cost then Err(NotEnoughSpikes) else Ok((cost, prompts))
  }

  /** Larger packages cost more and give more prompts, and better value per spike. */
  lemma PackagesScale()
    ensures PromptPackage("small").value.0 < PromptPackage("medium").value.0 < PromptPackage("large").value.0
    ensures PromptPackage("small").value.1 * 250 < PromptPackage("medium").value.1 * 100
    ensures PromptPackage("medium").value.1 * 500 < PromptPackage("large").value.1 * 250
  {
  }

  // ------------------------------------------------- assignment de-duplication

  datatype Assignment = Assignment(programId: nat, assignedAt: int, status: string, assignerId: nat, assigneeId: nat)

  function ProgramOf(a: Assignment): int
  {
    a.programId
  }

  /** Accepted assignments and self-assignments (whatever their status). */
  function VisibleAssignments(xs: seq<Assignment>, user: nat): seq<Assignment>
  {
    Filter(xs, (a: Assignment) => a.status == "accepted" || (a.assignerId == user && a.assigneeId == user))
  }

  /** `acc.find(a => a.programId === id)`. */
  function FindProgram(acc: seq<Assignment>, id: int): (r: Option<Assignment>)
    ensures r.Some? ==> r.value in acc && r.value.programId == id
    ensures r.None? <==> !HasKey(acc, ProgramOf, id)
  {
    if acc == [] then None
    else if acc[0].programId == id then Some(acc[0])
    else
      var r := FindProgram(acc[1..], id);
      assert HasKey(acc, ProgramOf, id) ==> HasKey(acc[1..], ProgramOf, id) by {
        if HasKey(acc, ProgramOf, id) {
          var i :| 0 <= i < |acc| && ProgramOf(acc[i]) == id;
          assert i > 0 && acc[1..][i - 1] == acc[i];
        }
      }
      assert HasKey(acc[1..], ProgramOf, id) ==> HasKey(acc, ProgramOf, id) by {
        if HasKey(acc[1..], ProgramOf, id) {
          var i :| 0 <= i < |acc[1..]| && ProgramOf(acc[1..][i]) == id;
          assert acc[i + 1] == acc[1..][i];
        }
      }
      r
  }

  /** One step of the `reduce`: a newer assignment replaces the kept one of its program. */
  function DedupeStep(acc: seq<Assignment>, a: Assignment): seq<Assignment>
  {
    var existing := FindProgram(acc, a.programId);
    if existing.None? || a.assignedAt > existing.value.assignedAt
    then WithoutProgram(acc, a.programId) + [a]
    else acc
  }

  /** `acc.filter(a => a.programId !== id)`. */
  function WithoutProgram(acc: seq<Assignment>, id: int): (r: seq<Assignment>)
    ensures forall i :: 0 <= i < |r| ==> r[i] in acc && r[i].programId != id
  {
    Filter(acc, (b: Assignment) => b.programId != id)
  }

  /** Removing a program keeps the other programs' assignments, still without repeats. */
  lemma WithoutProgramKeeps(acc: seq<Assignment>, id: int)
    requires KeysUnique(acc, ProgramOf)
    ensures KeysUnique(WithoutProgram(acc, id), ProgramOf)
    ensures forall x :: x in acc && x.programId != id ==> x in WithoutProgram(acc, id)
  {
    FilterOrdered(acc, (b: Assignment) => b.programId != id, (x: Assignment, y: Assignment) => ProgramOf(x) != ProgramOf(y));
  }

  function DedupeFrom(acc: seq<Assignment>, xs: seq<Assignment>): seq<Assignment>
    decreases |xs|
  {
    if xs == [] then acc else DedupeFrom(DedupeStep(acc, xs[0]), xs[1..])
  }

  /** Position `i` of `done` holds the latest assignment of its program, and the first one of that date. */
  predicate LatestAt(done: seq<Assignment>, i: int)
    requires 0 <= i < |done|
  {
    (forall j :: 0 <= j < |done| && done[j].programId == done[i].programId ==> done[j].assignedAt <= done[i].assignedAt)
    && (forall j :: 0 <= j < i && done[j].programId == done[i].programId ==> done[j].assignedAt < done[i].assignedAt)
  }

  /** Reading one more assignment keeps position `i` the latest unless it is a newer one of the same program. */
  lemma LatestExtend(done: seq<Assignment>, i: int, a: Assignment)
    requires 0 <= i < |done| && LatestAt(done, i)
    requires a.programId != done[i].programId || a.assignedAt <= done[i].assignedAt
    ensures LatestAt(done + [a], i)
  {
    var d := done + [a];
    forall j | 0 <= j < |d| && d[j].programId == d[i].programId ensures d[j].assignedAt <= d[i].assignedAt {
      if j < |done| {
        assert d[j] == done[j];
      }
    }
    forall j | 0 <= j < i && d[j].programId == d[i].programId ensures d[j].assignedAt < d[i].assignedAt {
      assert d[j] == done[j];
    }
  }

  /** What the accumulator satisfies after reading `done`. */
  predicate DedupeInv(acc: seq<Assignment>, done: seq<Assignment>)
  {
    KeysUnique(acc, ProgramOf)
    && (forall k :: 0 <= k < |acc| ==> exists i :: 0 <= i < |done| && done[i] == acc[k] && LatestAt(done, i))
    && (forall j :: 0 <= j < |done| ==> HasKey(acc, ProgramOf, done[j].programId))
  }

  /** `a` is newer than every earlier assignment of its program when it beats the kept one. */
  lemma NewestOfProgram(acc: seq<Assignment>, done: seq<Assignment>, a: Assignment)
    requires DedupeInv(acc, done)
    requires FindProgram(acc, a.programId).None? || a.assignedAt > FindProgram(acc, a.programId).value.assignedAt
    ensures LatestAt(done + [a], |done|)
  {
    var existing := FindProgram(acc, a.programId);
    var d := done + [a];
    forall j | 0 <= j < |done| && done[j].programId == a.programId
      ensures done[j].assignedAt < a.assignedAt
    {
      assert HasKey(acc, ProgramOf, done[j].programId);
      var e := existing.value;
      var k :| 0 <= k < |acc| && acc[k] == e;
      var i :| 0 <= i < |done| && done[i] == acc[k] && LatestAt(done, i);
      assert done[j].assignedAt <= done[i].assignedAt;
    }
    forall j | 0 <= j < |d| && d[j].programId == a.programId ensures d[j].assignedAt <= a.assignedAt {
      if j < |done| {
        assert d[j] == done[j];
      }
    }
    forall j | 0 <= j < |done| && d[j].programId == a.programId ensures d[j].assignedAt < a.assignedAt {
      assert d[j] == done[j];
    }
  }

  /** A newer assignment (or the first of its program) replaces the kept one. */
  lemma DedupeReplaceInv(acc: seq<Assignment>, done: seq<Assignment>, a: Assignment)
    requires DedupeInv(acc, done)
    requires FindProgram(acc, a.programId).None? || a.assignedAt > FindProgram(acc, a.programId).value.assignedAt
    ensures DedupeInv(WithoutProgram(acc, a.programId) + [a], done + [a])
  {
    var done' := done + [a];
    var kept := WithoutProgram(acc, a.programId);
    var acc' := kept + [a];
    WithoutProgramKeeps(acc, a.programId);
    NewestOfProgram(acc, done, a);
    ReplaceUnique(kept, a);
    forall k | 0 <= k < |acc'| ensures exists i :: 0 <= i < |done'| && done'[i] == acc'[k] && LatestAt(done', i) {
      if k == |kept| {
        assert done'[|done|] == acc'[k];
      } else {
        assert acc'[k] == kept[k];
        KeptStillLatest(acc, done, a, kept[k]);
      }
    }
    ReplaceCovers(acc, done, a);
  }

  lemma ReplaceUnique(kept: seq<Assignment>, a: Assignment)
    requires KeysUnique(kept, ProgramOf)
    requires forall i :: 0 <= i < |kept| ==> kept[i].programId != a.programId
    ensures KeysUnique(kept + [a], ProgramOf)
  {
    var acc' := kept + [a];
    forall i, j | 0 <= i < j < |acc'| ensures ProgramOf(acc'[i]) != ProgramOf(acc'[j]) {
      if j < |kept| {
        assert acc'[i] == kept[i] && acc'[j] == kept[j];
      } else {
        assert acc'[i] == kept[i];
      }
    }
  }

  lemma ReplaceCovers(acc: seq<Assignment>, done: seq<Assignment>, a: Assignment)
    requires KeysUnique(acc, ProgramOf)
    requires forall j :: 0 <= j < |done| ==> HasKey(acc, ProgramOf, done[j].programId)
    ensures forall j :: 0 <= j < |done + [a]| ==>
              HasKey(WithoutProgram(acc, a.programId) + [a], ProgramOf, (done + [a])[j].programId)
  {
    var done' := done + [a];
    var kept := WithoutProgram(acc, a.programId);
    var acc' := kept + [a];
    WithoutProgramKeeps(acc, a.programId);
    forall j | 0 <= j < |done'| ensures HasKey(acc', ProgramOf, done'[j].programId) {
      if done'[j].programId == a.programId {
        assert ProgramOf(acc'[|kept|]) == a.programId;
      } else {
        assert done'[j] == done[j];
        var m :| 0 <= m < |acc| && ProgramOf(acc[m]) == done[j].programId;
        var q :| 0 <= q < |kept| && kept[q] == acc[m];
        assert ProgramOf(acc'[q]) == done[j].programId;
      }
    }
  }

  /** A kept assignment of another program stays the latest of its program after `a` is read. */
  lemma KeptStillLatest(acc: seq<Assignment>, done: seq<Assignment>, a: Assignment, x: Assignment)
    requires DedupeInv(acc, done)
    requires x in acc && x.programId != a.programId
    ensures exists i :: 0 <= i < |done + [a]| && (done + [a])[i] == x && LatestAt(done + [a], i)
  {
    var m :| 0 <= m < |acc| && acc[m] == x;
    var i :| 0 <= i < |done| && done[i] == acc[m] && LatestAt(done, i);
    assert (done + [a])[i] == x;
    LatestExtend(done, i, a);
  }

  /** An older or equally recent assignment leaves the kept one in place. */
  lemma DedupeKeepInv(acc: seq<Assignment>, done: seq<Assignment>, a: Assignment)
    requires DedupeInv(acc, done)
    requires FindProgram(acc, a.programId).Some? && a.assignedAt <= FindProgram(acc, a.programId).value.assignedAt
    ensures DedupeInv(acc, done + [a])
  {
    KeepStillLatest(acc, done, a);
    KeepStillCovers(acc, done, a);
  }

  lemma KeepStillLatest(acc: seq<Assignment>, done: seq<Assignment>, a: Assignment)
    requires DedupeInv(acc, done)
    requires FindProgram(acc, a.programId).Some? && a.assignedAt <= FindProgram(acc, a.programId).value.assignedAt
    ensures forall k :: 0 <= k < |acc| ==> exists i :: 0 <= i < |done + [a]| && (done + [a])[i] == acc[k] && LatestAt(done + [a], i)
  {
    forall k | 0 <= k < |acc| ensures exists i :: 0 <= i < |done + [a]| && (done + [a])[i] == acc[k] && LatestAt(done + [a], i) {
      if acc[k].programId == a.programId {
        KeptIsFound(acc, a.programId, k);
        KeptStillLatestSame(acc, done, a, acc[k]);
      } else {
        KeptStillLatest(acc, done, a, acc[k]);
      }
    }
  }

  /** With unique programs, the assignment found for a program is the one at its position. */
  lemma KeptIsFound(acc: seq<Assignment>, id: int, k: int)
    requires KeysUnique(acc, ProgramOf) && 0 <= k < |acc| && acc[k].programId == id
    ensures FindProgram(acc, id) == Some(acc[k])
  {
    var e := FindProgram(acc, id).value;
    var m :| 0 <= m < |acc| && acc[m] == e;
    assert ProgramOf(acc[m]) == ProgramOf(acc[k]);
  }

  /** The kept assignment of `a`'s program stays the latest when `a` is not newer. */
  lemma KeptStillLatestSame(acc: seq<Assignment>, done: seq<Assignment>, a: Assignment, x: Assignment)
    requires DedupeInv(acc, done)
    requires x in acc && x.programId == a.programId && a.assignedAt <= x.assignedAt
    ensures exists i :: 0 <= i < |done + [a]| && (done + [a])[i] == x && LatestAt(done + [a], i)
  {
    var m :| 0 <= m < |acc| && acc[m] == x;
    var i :| 0 <= i < |done| && done[i] == acc[m] && LatestAt(done, i);
    assert (done + [a])[i] == x;
    LatestExtend(done, i, a);
  }

  lemma KeepStillCovers(acc: seq<Assignment>, done: seq<Assignment>, a: Assignment)
    requires forall j :: 0 <= j < |done| ==> HasKey(acc, ProgramOf, done[j].programId)
    requires FindProgram(acc, a.programId).Some?
    ensures forall j :: 0 <= j < |done + [a]| ==> HasKey(acc, ProgramOf, (done + [a])[j].programId)
  {
    var done' := done + [a];
    var e := FindProgram(acc, a.programId).value;
    var m :| 0 <= m < |acc| && acc[m] == e;
    forall j | 0 <= j < |done'| ensures HasKey(acc, ProgramOf, done'[j].programId) {
      if j == |done| {
        assert ProgramOf(acc[m]) == a.programId;
      } else {
        assert done'[j] == done[j];
      }
    }
  }

  lemma DedupeStepInv(acc: seq<Assignment>, done: seq<Assignment>, a: Assignment)
    requires DedupeInv(acc, done)
    ensures DedupeInv(DedupeStep(acc, a), done + [a])
  {
    var existing := FindProgram(acc, a.programId);
    if existing.None? || a.assignedAt > existing.value.assignedAt {
      DedupeReplaceInv(acc, done, a);
    } else {
      DedupeKeepInv(acc, done, a);
    }
  }

  lemma {:induction false} DedupeFromInv(acc: seq<Assignment>, done: seq<Assignment>, xs: seq<Assignment>)
    requires DedupeInv(acc, done)
    ensures DedupeInv(DedupeFrom(acc, xs), done + xs)
    decreases |xs|
  {
    if xs == [] {
      assert done + xs == done;
    } else {
      assert done + [xs[0]] + xs[1..] == done + xs;
      DedupeStepInv(acc, done, xs[0]);
      DedupeFromInv(DedupeStep(acc, xs[0]), done + [xs[0]], xs[1..]);
    }
  }

  /**
   * The assigned-programs list keeps exactly one assignment per program: the
   * one assigned last, and among equally recent ones the earliest listed.
   */
  lemma DedupeKeepsLatest(xs: seq<Assignment>)
    ensures var r := DedupeFrom([], xs);
              KeysUnique(r, ProgramOf)
              && (forall j :: 0 <= j < |xs| ==> HasKey(r, ProgramOf, xs[j].programId))
              && (forall k :: 0 <= k < |r| ==> exists i :: 0 <= i < |xs| && xs[i] == r[k] && LatestAt(xs, i))
  {
    assert DedupeInv(DedupeFrom([], xs), xs) by {
      DedupeFromInv([], [], xs);
      AppendToEmpty(xs);
    }
  }

  // ------------------------------------------------------ PATCH whitelists

  const MeetFields := ["name", "date", "location", "coordinates", "events", "warmupTime", "arrivalTime", "status"]

  const AthleteGroupFields := ["name", "description"]

  /** The whitelist loop: copies each allowed field that the body defines. */
  method CopyAllowed<V>(allowed: seq<string>, body: map<string, V>) returns (updates: map<string, V>)
    ensures updates == map k | k in body && k in allowed :: body[k]
  {
    updates := map[];
    var i := 0;
    while i < |allowed|
      invariant 0 <= i <= |allowed|
      invariant updates == map k | k in body && k in allowed[..i] :: body[k]
    {
      PrefixStep(allowed, i);
      if allowed[i] in body {
        updates := updates[allowed[i] := body[allowed[i]]];
      }
      i := i + 1;
    }
    WholePrefix(allowed);
  }

  datatype PatchError = NoValidUpdates

  /** The athlete-group PATCH: name and description only, and refused when neither is given. */
  method PatchAthleteGroup<V>(body: map<string, V>) returns (r: Result<map<string, V>, PatchError>)
    ensures r.Err? <==> "name" !in body && "description" !in body
    ensures r.Ok? ==> r.value.Keys <= {"name", "description"}
                      && forall k :: k in r.value ==> k in body && r.value[k] == body[k]
    ensures r.Ok? ==> r.value == map k | k in body && k in {"name", "description"} :: body[k]
  {
    var updates := CopyAllowed(AthleteGroupFields, body);
    if "name" !in updates && "description" !in updates {
      return Err(NoValidUpdates);
    }
    r := Ok(updates);
  }
}
