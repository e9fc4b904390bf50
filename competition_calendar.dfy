/**
 * The competition calendar: a competition's status against the current
 * time, the page count and the window of page buttons, the previous and
 * next buttons, and the favourite toggle.  Dates are milliseconds; a date
 * string that does not parse is `None` (an invalid `Date`, with which every
 * comparison is false).  The fetches are parameters.
 */
module CompetitionCalendar {
  import opened Common

  datatype Competition = Competition(id: int, start: Option<int>, end: Option<int>, hasResults: bool)

  datatype Status = Upcoming | Completed | Ongoing

  /** `isBefore(now, date)`: false against an invalid date. */
  predicate Before(now: int, date: Option<int>)
  {
    date.Some? && now < date.value
  }

  /** `isAfter(now, date)`: false against an invalid date. */
  predicate After(now: int, date: Option<int>)
  {
    date.Some? && now > date.value
  }

  /** `getCompetitionStatus`: upcoming before the start, completed after the end, ongoing otherwise. */
  function StatusOf(c: Competition, now: int): (s: Status)
    ensures s == Upcoming <==> Before(now, c.start)
    ensures s == Completed <==> !Before(now, c.start) && After(now, c.end)
    ensures s == Ongoing <==> !Before(now, c.start) && !After(now, c.end)
  {
    if Before(now, c.start) then Upcoming
    else if After(now, c.end) then Completed
    else Ongoing
  }

  /** A competition with valid dates is ongoing exactly from its start to its end, inclusive. */
  lemma OngoingBetweenDates(c: Competition, now: int)
    requires c.start.Some? && c.end.Some?
    ensures StatusOf(c, now) == Ongoing <==> c.start.value <= now <= c.end.value
  {
  }

  /** A competition whose dates do not parse is always shown as ongoing. */
  lemma InvalidDatesAreOngoing(c: Competition, now: int)
    requires c.start.None? && c.end.None?
    ensures StatusOf(c, now) == Ongoing
  {
  }

  /** The list endpoint's answer: a bare list, a page object, or nothing yet. */
  datatype Response = ListResponse(items: seq<Competition>)
                    | PageResponse(competitions: Option<seq<Competition>>, total: Option<nat>)
                    | NoResponse

  /** The competitions of the current page. */
  function Competitions(r: Response): (cs: seq<Competition>)
    ensures r.ListResponse? ==> cs == r.items
    ensures r.PageResponse? && r.competitions.Some? ==> cs == r.competitions.value
  {
    match r
    case ListResponse(items) => items
    case PageResponse(cs, _) => if cs.Some? then cs.value else []
    case NoResponse => []
  }

  /** `total || competitions.length`: a missing or zero total falls back to the page's length. */
  function TotalCompetitions(r: Response): (n: nat)
    ensures r.PageResponse? && r.total.Some? && r.total.value > 0 ==> n == r.total.value
    ensures !(r.PageResponse? && r.total.Some? && r.total.value > 0) ==> n == |Competitions(r)|
  {
    if r.PageResponse? && r.total.Some? && r.total.value > 0 then r.total.value else |Competitions(r)|
  }

  const PageSize := 20

  /** `Math.ceil(total / pageSize)`: the fewest pages that hold every competition. */
  function TotalPages(total: nat, pageSize: nat): (p: nat)
    requires pageSize > 0
    ensures p * pageSize >= total && (p == 0 || (p - 1) * pageSize < total)
    ensures p == 0 <==> total == 0
  {
    CeilDiv(total, pageSize)
  }

  /** The first page button: `Math.max(1, Math.min(totalPages - 4, currentPage - 2))`. */
  function FirstButton(totalPages: int, currentPage: int): int
  {
    Max(1, Min(totalPages - 4, currentPage - 2))
  }

  /** The page buttons: `Math.min(5, totalPages)` consecutive pages from the first button. */
  function PageButtons(totalPages: nat, currentPage: int): (b: seq<int>)
    ensures |b| == Min(5, totalPages)
    ensures forall i :: 0 <= i < |b| ==> b[i] == FirstButton(totalPages, currentPage) + i
  {
    seq(Min(5, totalPages), i => FirstButton(totalPages, currentPage) + i)
  }

  /** Every page button is a page that exists, whatever the current page. */
  lemma ButtonsWithinPages(totalPages: nat, currentPage: int)
    ensures forall i :: 0 <= i < |PageButtons(totalPages, currentPage)| ==>
              1 <= PageButtons(totalPages, currentPage)[i] <= totalPages
  {
  }

  /** The current page, when it exists, always has a button. */
  lemma CurrentPageHasButton(totalPages: nat, currentPage: int)
    requires 1 <= currentPage <= totalPages
    ensures currentPage in PageButtons(totalPages, currentPage)
  {
    var b := PageButtons(totalPages, currentPage);
    var k := currentPage - FirstButton(totalPages, currentPage);
    assert 0 <= k < |b| && b[k] == currentPage;
  }

  /** The previous button: `Math.max(1, prev - 1)`. */
  function PreviousPage(page: int): (p: int)
    ensures p >= 1
    ensures page > 1 ==> p == page - 1
    ensures page <= 1 ==> p == 1
  {
    Max(1, page - 1)
  }

  /** The next button: `Math.min(totalPages, prev + 1)`. */
  function NextPage(page: int, totalPages: int): (p: int)
    ensures p <= totalPages
    ensures page < totalPages ==> p == page + 1
    ensures page >= totalPages ==> p == totalPages
  {
    Min(totalPages, page + 1)
  }

  /** Previous and next keep a valid page valid, and undo each other away from the ends. */
  lemma StepsStayOnPages(page: int, totalPages: int)
    requires 1 <= page <= totalPages
    ensures 1 <= PreviousPage(page) <= totalPages && 1 <= NextPage(page, totalPages) <= totalPages
    ensures page < totalPages ==> PreviousPage(NextPage(page, totalPages)) == page
    ensures page > 1 ==> NextPage(PreviousPage(page), totalPages) == page
  {
  }

  datatype FavoriteAction = Add | RemoveFavorite

  /** `handleFavoriteToggle`: remove when the competition is among the favourites, else add. */
  function ToggleAction(favorites: seq<Competition>, c: Competition): (a: FavoriteAction)
    ensures a == RemoveFavorite <==> exists i :: 0 <= i < |favorites| && favorites[i].id == c.id
  {
    if exists i :: 0 <= i < |favorites| && favorites[i].id == c.id then RemoveFavorite else Add
  }

  datatype Tab = UpcomingTab | MajorTab | AllTab | FavoritesTab

  /** `getDisplayCompetitions`: the favourites tab shows the favourites, every other tab the page's competitions. */
  function DisplayCompetitions(tab: Tab, favorites: seq<Competition>, page: Response): (cs: seq<Competition>)
    ensures tab == FavoritesTab ==> cs == favorites
    ensures tab != FavoritesTab ==> cs == Competitions(page)
  {
    if tab == FavoritesTab then favorites else Competitions(page)
  }

  /** On the favourites tab, toggling any displayed competition removes it. */
  lemma DisplayedFavoriteIsRemoved(favorites: seq<Competition>, page: Response, i: nat)
    requires i < |DisplayCompetitions(FavoritesTab, favorites, page)|
    ensures ToggleAction(favorites, DisplayCompetitions(FavoritesTab, favorites, page)[i]) == RemoveFavorite
  {
    assert favorites[i].id == DisplayCompetitions(FavoritesTab, favorites, page)[i].id;
  }

  /** The pagination bar shows only off the favourites tab and with more than one page. */
  predicate ShowsPagination(tab: Tab, totalPages: nat)
  {
    tab != FavoritesTab && totalPages > 1
  }
}
