# TrackLit core, modelled in Dafny

TrackLit is a track-and-field training app: an Express server over a
Postgres database, a React web client, a React Native client and Python
MediaPipe scripts. This project models the app's small, statable pieces of
logic and proves what each promises:

- **Server ledger and rules.** The spreadsheet CSV parser and the
  row-to-session mapping (`Sheets`). The Spikes balance, ledger, login
  streak, achievements, referrals, clubs and group union (`Storage`). The
  gym-data merge, athlete and competition paging, tier limits, prompt
  packages, assignment de-duplication and field whitelists (`Routes`). The
  post, comment and like rules and the feed assembly (`Feed`), with a
  stable sort (`Sorting`). The notification scheduling predicates and the
  sending loops (`Notifications`). The AI prompt allowance and its
  accounting (`AiAnalysis`).
- **Pose metrics.** The streaming tracker with its previous-frame state
  (`RealtimePose`). The batch video analysis: contacts, strides and angle
  statistics (`VideoPose`). The threshold scoring, insights and
  recommendations of the two TypeScript services (`MediapipeSimple`,
  `MediapipeService`).
- **Client calculators and state machines.** Performance analytics. The
  program calendar. The preparation plan and reminders. The cart,
  subscription fees and earnings. The start gun, rep starter, stopwatch
  and velocity tracker, with their clock displays (`TimeFormat`). The
  photo-finish library and viewer. The two arcade games. The ambassador
  tiers, competition calendar, community carousel and practice goals. The
  video analysis pages, exercise library, onboarding and the mobile
  Sprinthia chat. The feed and groups pages.

Each source file becomes one module. A module follows its source's form:

- Pure code (if-chains, maps, filters, reductions) becomes datatypes and
  functions.
- Objects and React state updated step by step become classes. Their
  fields are `seq`s, `map`s and values, and each event handler or timer
  callback is a method.
- Loops in the source become `while` loops with invariants.

Time is integer milliseconds or day numbers. Clock readings,
`Math.random()`, text parsing and the answers of external services are
parameters. Square roots and arccosines are parameters too, or are avoided
by stating properties on squared quantities. Amounts of money are integer
cents where the source works in cents, and `real` where it divides.
`common.dfy` holds the shared helpers: JavaScript rounding; `trim` over
JavaScript's full white-space and line-terminator set; `toLowerCase` for
the ASCII and Latin-1 capitals; `.length` as a count of UTF-16 code units
(`Common.JsLength`, two for a character outside the Basic Multilingual
Plane); `includes`, filters, sums, means and padding.


## Model

| member | source | states |
|---|---|---|
| `Sheets.ParseCsv` | server/utils/sheets.ts:2-59 | the character loop with its explicit parser state returns exactly the rows of the reference reading `Run` of the whole text |
| `Sheets.StepEscapedQuote` | server/utils/sheets.ts:14-18 | a doubled quote appends one quote to the current cell and consumes both characters, inside or outside quotes |
| `Sheets.StepQuote` | server/utils/sheets.ts:21-24 | a lone quote only flips the in-quotes flag and is never copied into a cell |
| `Sheets.StepComma` | server/utils/sheets.ts:27-31 | outside quotes a comma ends the current cell and starts an empty one |
| `Sheets.StepChar` | server/utils/sheets.ts:27-49 | any other character, and a comma, newline or CR LF inside quotes, is appended to the cell; a CR not followed by LF is data |
| `Sheets.StepLineEnd` | server/utils/sheets.ts:34-46 | outside quotes LF or CR LF ends the row as one delimiter |
| `Sheets.PlainRoundTrip` | server/utils/sheets.ts:2-59 | rows of cells free of quotes, commas and LF (and not ending in CR) written with LF or CR LF line ends parse back to exactly those rows, so a text ending in a line end yields no extra empty row |
| `Sheets.QuotedRoundTrip` | server/utils/sheets.ts:2-59 | rows of fully quoted cells, each non-empty and not starting with a quote, parse back to their cells whatever commas, quotes, CRs or newlines they contain |
| `Sheets.EmptyQuotedCellReadsAsQuote` | server/utils/sheets.ts:14-18 | an empty cell written as `""` is read as one escaped quote, which the row mapping's quote stripping turns back into an empty string |
| `Sheets.StripQuotes` | server/utils/sheets.ts:134-136 | removes at most a leading and a trailing quote and leaves an unquoted value untouched |
| `Sheets.PadDay` | server/utils/sheets.ts:151 | the padded day has at least two characters, and a longer day keeps its length |
| `Sheets.FormatMonthDay` | server/utils/sheets.ts:139-153 | a Month-Day cell becomes year, month number (or the month text when unknown) and the padded day, joined by dashes |
| `Sheets.SplitAtDash` | server/utils/sheets.ts:141 | splitting `m-day` at its dash gives back the month and the day |
| `Sheets.FormatKnownMonth` | server/utils/sheets.ts:144-151 | a known month with a one-digit day and a four-digit year gives a ten-character ISO date |
| `Sheets.FormatWithoutDash` | server/utils/sheets.ts:139-140 | a date cell without a dash is kept exactly |
| `Sheets.MapRow` | server/utils/sheets.ts:130-177 | a session is numbered index + 1 and titled 'Day n Training'; its pre-activations, short, medium and long workouts are cells 1 to 5 and its extra session cell 6 (empty on a six-cell row), each with quotes stripped; it is a rest day exactly when the three workout cells are empty, and is described as 'Rest and Recovery' exactly then |
| `Sheets.MapRows` | server/utils/sheets.ts:90-178 | one session per data row, in order, after dropping the header only when there is more than one row |
| `Sheets.SessionNumbering` | server/utils/sheets.ts:90-159 | with a header, session i is numbered i + 1 and comes from sheet row i + 1 |
| `Sheets.FirstFrom` | server/utils/sheets.ts:112 | the first position from a start where a pattern occurs, every earlier one failing; none exactly when it occurs nowhere from there |
| `Sheets.ReplaceFirst` | server/utils/sheets.ts:112 | `replace` with a string pattern replaces exactly its first occurrence, and leaves a text without one unchanged |
| `Sheets.CleanTitle` | server/utils/sheets.ts:112 | a page title without either suffix is only trimmed |
| `Sheets.SheetTitle` | server/utils/sheets.ts:93-118 | the default 'My Training Program' unless the API gave a non-empty title, or the refused API's fallback page a non-empty `<title>`, which is cleaned; only that cleaned page title can be empty |
| `Sheets.ProgramTitle` | server/utils/sheets.ts:181 | the program's title is never empty: the sheet title when it has text, else 'Training Program (Sheet ID: ' with the id |
| `Sheets.SheetIdTitleReached` | server/utils/sheets.ts:105-113 | a fallback page titled ' - Google Sheets' cleans to the empty text, so the program is named after its sheet id |
| `Sheets.ProgramFromCsv` | server/utils/sheets.ts:62-186 | an empty download is an error; otherwise the program holds the mapped sessions, their count, and the title resolved from the lookup, with the sheet-id title when that is empty |
| `Storage.FirstLogin` | server/storage.ts:1208-1218 | a user with no streak row starts a one-day streak (record one) and is paid 5 Spikes |
| `Storage.SameDayLogin` | server/storage.ts:1233-1236 | a second login on the same day returns the row unchanged and pays nothing |
| `Storage.ContinuedStreak` | server/storage.ts:1242-1254 | a login the day after the last one adds one to the streak, raises the record to it when passed, and pays the milestone amount |
| `Storage.MilestoneAmounts` | server/storage.ts:1255-1267 | a multiple of 7 pays 25 (checked first, so 210 pays 25), another multiple of 30 pays 100, any other day 5 |
| `Storage.BrokenStreak` | server/storage.ts:1268-1277 | a gap of more than one day resets the streak to 1, keeps the record and pays 5 |
| `Storage.LoginKeepsStreakGood` | server/storage.ts:1188-1279 | every login that changes the row records today, pays a positive amount, keeps the streak within the record, never lowers the record, and makes a repeat login that day a no-op |
| `Storage.AchievementCompletion` | server/storage.ts:1108-1143 | a first completion starts at one with full progress, a repeat adds one to the count, and a one-time achievement is never earned twice |
| `Storage.Store.constructor` | server/storage.ts:1341-1418 | an empty store satisfies the balance invariant and the ledger agreement |
| `Storage.Store.AddSpikesToUser` | server/storage.ts:1341-1376 | an unknown user is an error leaving every table unchanged; otherwise the balance grows by the amount and exactly one transaction with the new balance is appended; the ledger keeps agreeing with the balances |
| `Storage.Store.DeductSpikesFromUser` | server/storage.ts:1378-1418 | an unknown user is an error and an overdraft returns nothing, both leaving the tables unchanged; otherwise the balance drops by the amount and one transaction of minus the amount is appended; balances stay non-negative |
| `Storage.Store.CreateOrUpdateLoginStreak` | server/storage.ts:1188-1325 | the streak table, the balance and the ledger change exactly as the login outcome says, in one step, or not at all for an unknown user or a same-day login |
| `Storage.Store.CompleteUserAchievement` | server/storage.ts:1082-1180 | an unknown achievement or user leaves every table unchanged; otherwise the achievement row, the balance and the ledger get the completed row and its Spike reward together |
| `Storage.Store.CompleteReferral` | server/storage.ts:1444-1499 | an unknown referral or referrer is an error and an already settled one is returned as is; otherwise the referrer is paid 100 Spikes once and the referral is marked completed and awarded |
| `Storage.Store.CreateClub` | server/storage.ts:682-699 | the club is stored under a fresh id and its owner is enrolled as admin |
| `Storage.Store.GetUserGroups` | server/storage.ts:817-860 | returns the member groups followed by each owned group whose id is not listed yet |
| `Storage.UserGroupsCorrect` | server/storage.ts:830-855 | every listed group comes from one of the two lists, every owned group's id is listed, the member groups come first unchanged, and no id is listed twice when the member list had none twice |
| `Feed.OrNull` | server/routes/feed.ts:234-238 | an empty text is stored as null and any other text as itself |
| `Feed.ValidateNewPost` | server/routes/feed.ts:223-229 | a post needs text or a voice recording, and text when given needs a `.length` of at least 5 UTF-16 code units; with neither the error is 'content required' |
| `Feed.AstralPostAccepted` | server/routes/feed.ts:227-229 | three characters outside the Basic Multilingual Plane already make a text long enough, since each counts two code units |
| `Feed.EditCheck` | server/routes/feed.ts:262-280 | an edit passes exactly for the owner, within one hour of creation (the boundary included), with absent, empty or text of at least 5 UTF-16 code units; a missing post is 404 and another user's post 403 |
| `Feed.Toggled` | server/routes/feed.ts:403-427 | the toggled like is present exactly when it was absent, and no other like changes |
| `Feed.ToggleTwice` | server/routes/feed.ts:403-427 | two toggles of the same like restore the like set |
| `Feed.FeedStore.constructor` | server/routes/feed.ts:215-247 | an empty feed store satisfies the store invariant |
| `Feed.FeedStore.CreatePost` | server/routes/feed.ts:215-247 | a rejected post leaves the posts unchanged with the validation's error; an accepted one is stored under a fresh id with empty fields as null |
| `Feed.FeedStore.EditPost` | server/routes/feed.ts:249-298 | fails exactly when the edit check fails, leaving the posts unchanged; otherwise only that post changes: new text when given, marked edited at now |
| `Feed.FeedStore.DeletePost` | server/routes/feed.ts:300-329 | a missing post is 404 and another user's post 403, both changing nothing; the owner's delete removes exactly that post |
| `Feed.FeedStore.AddComment` | server/routes/feed.ts:363-393 | a blank comment is refused and nothing stored; otherwise exactly one comment with the trimmed text is appended |
| `Feed.FeedStore.ToggleLike` | server/routes/feed.ts:395-433 | answers 'liked' exactly when the like was absent, and the like set becomes its toggle |
| `Feed.StoredCommentNotBlank` | server/routes/feed.ts:372-381 | a comment that passes the check has a character that is not white space |
| `Feed.ConnectionIds` | server/routes/feed.ts:19-29 | the connections filter covers everyone followed and the caller |
| `Feed.OwnPostsVisible` | server/routes/feed.ts:19-60 | under either filter the caller's own posts are candidates |
| `Feed.FindLikes` | server/routes/feed.ts:117 | finds a like-count row of the post when there is one, and reports absence only when no row is for it |
| `Feed.FindComments` | server/routes/feed.ts:118 | finds a comment-count row of the post when there is one, and reports absence only when no row is for it |
| `Feed.Decorate` | server/routes/feed.ts:116-126 | a post shows its like row's count and liked flag and its comment row's count, and zero likes and comments and not liked without rows; own post and following flags are computed from the caller and the followed set |
| `Feed.DecorateTakesRow` | server/routes/feed.ts:80-123 | with the count rows grouped by post, the post's own like and comment rows give its counts and liked flag |
| `Feed.DecorateAll` | server/routes/feed.ts:116-127 | one decorated item per post, in order |
| `Feed.NewestFirst` | server/routes/feed.ts:128 | the sort keeps exactly the items and orders them newest first |
| `Feed.AssembleCorrect` | server/routes/feed.ts:104-130 | the feed holds exactly the decorated posts, newest first, each flagged as own exactly when the caller wrote it |
| `Sorting.SortCorrect` | server/routes/feed.ts:128 | the stable sort behind `Array.prototype.sort` orders by key, keeps exactly the input's elements, and keeps the input order among equal keys |
| `AiAnalysis.TierLimits` | server/ai-analysis.ts:104-138 | star is unlimited and free of charge; pro is free while under 5 prompts this week and free while under 1 this month, else costs 50 Spikes and is allowed only with 50 Spikes; the remaining count never goes below zero |
| `AiAnalysis.CostMatchesFreeUse` | server/ai-analysis.ts:104-138 | a prompt costs nothing exactly when it is within the free allowance or on star, and an allowed paid prompt always has the Spikes to pay for it |
| `AiAnalysis.UnknownTierIsFree` | server/ai-analysis.ts:74-138 | a missing or unknown tier decides exactly like the free tier |
| `AiAnalysis.PromptFor` | server/ai-analysis.ts:157-160 | a custom prompt wins; without one an unknown analysis type has no prompt |
| `AiAnalysis.AnalysisService.constructor` | server/ai-analysis.ts:69-139 | an empty service satisfies its invariant |
| `AiAnalysis.AnalysisService.CheckUserLimits` | server/ai-analysis.ts:69-139 | an unknown user is an error; otherwise a zero usage row is created only when none exists for the period, and the answer is the tier decision on that row |
| `AiAnalysis.AnalysisService.DeductSpikes` | server/ai-analysis.ts:269-289 | the balance drops by the amount but never below zero, and the ledger records minus the amount with the new balance |
| `AiAnalysis.AnalysisService.UpdateUsageTracking` | server/ai-analysis.ts:291-316 | with a usage row, pro counts one more this week, free one more this month and star nothing; without a row nothing changes |
| `AiAnalysis.AnalysisService.AnalyzeVideo` | server/ai-analysis.ts:142-213 | an unknown user is refused with nothing changed; a quota refusal, an unknown analysis type and a failed generation are the errors in that order, charge nothing, save nothing and only create the user's usage row; a success saves the analysis with the reply (or the fallback text), the cost and the free-tier flag, counts one prompt in the tier's counter, and for a paid prompt debits the cost and appends one ledger entry of minus the cost with the new balance |
| `AiAnalysis.AnalysisText` | server/ai-analysis.ts:180 | the saved text is never empty: the model's reply when it has text, and the fallback text otherwise |
| `AiAnalysis.Counted` | server/ai-analysis.ts:308-314 | one analysis adds one to the pro weekly count or the free monthly count and leaves every other tier's row unchanged |
| `AiAnalysis.ProQuotaRunsOut` | server/ai-analysis.ts:115-123 | a pro athlete's fifth prompt of a week is still free and the sixth costs 50 Spikes |
| `Routes.IncludesIsHasKey` | server/routes.ts:62 | `gymData.includes(x)` is membership, the key test of the merge with the identity key |
| `Routes.MergeExercises` | server/routes.ts:61-65 | the push loop appends each exercise not yet present, giving the first-seen merge |
| `Routes.AppendNewByConcat` | server/routes.ts:54-83 | merging the exercises of two fields one after the other equals merging their concatenation |
| `Routes.LogFetch` | server/routes.ts:59-80 | a fetch is made only for a gym not in the cache and only a non-empty result is cached, so only failed or empty fetches are ever repeated |
| `Routes.FieldGym` | server/routes.ts:55-81 | one workout field merges in its gym's exercises whether they come from the cache or a fetch, and keeps the cache faithful to what was fetched |
| `Routes.SessionGym` | server/routes.ts:44-83 | the field loop of a session yields every referenced exercise once, in first-seen order, independent of the cache |
| `Routes.ProcessGymData` | server/routes.ts:26-101 | sessions with gym data are skipped and the others get their merged gym data; a gym number is fetched twice only when its earlier fetch failed or was empty |
| `Routes.GymDataComplete` | server/routes.ts:44-86 | a session's gym data has no repeats, holds every exercise of its referenced gyms and nothing else |
| `Routes.UniqueByIdCorrect` | server/routes.ts:1438-1443 | the id map keeps one row per id, every row comes from the input, and every input id is present |
| `Routes.SetUser` | server/routes.ts:1441 | setting a key never shortens the insertion-ordered map |
| `Routes.SetExistingUser` | server/routes.ts:1441 | setting an id already present replaces that row where it stands |
| `Routes.SetNewUser` | server/routes.ts:1441 | setting a new id appends its row |
| `Routes.SortDescending` | server/routes.ts:1446 | sorting on the negated id keeps the rows and puts the highest id first, strictly |
| `Routes.SearchedDescending` | server/routes.ts:1449-1455 | the search keeps the descending order and only rows of the list |
| `Routes.SearchedKeeps` | server/routes.ts:1449-1455 | searching a descending list of the table's users other than the caller leaves a descending list of such users |
| `Routes.AthleteListCorrect` | server/routes.ts:1434-1455 | the athlete list never shows the caller, lists each id once in strictly descending order, holds only rows of the user table, and without a search holds every other user |
| `Routes.AthletesPage` | server/routes.ts:1427-1460 | page n holds the rows from offset 10(n - 1), at most 10, with the total count, and `hasMore` says 10n is below the total |
| `Routes.HasMoreMeansNextPage` | server/routes.ts:1459-1460 | `hasMore` on page n holds exactly when page n + 1 is non-empty |
| `Routes.PagesTile` | server/routes.ts:1457-1460 | pages 1 to n together are exactly the first 10n rows of the list |
| `Routes.EffectiveLimit` | server/routes.ts:7326 | the page size is the requested limit raised to at least 50, and NaN stays NaN |
| `Routes.CompetitionsPage` | server/routes.ts:7232-7340 | an empty fetch answers zero pages and no items; otherwise the total is the filtered list's length, a numeric limit is raised to at least 50 and the page count times that size covers the list without a spare page, a page never holds more than the size, and an unparsable limit or page yields no items (and no page count for the limit) |
| `Routes.FilteredToNothing` | server/routes.ts:7232-7340 | a fetch that the filters empty answers zero pages and no items for a numeric limit, no page count (NaN) for an unparsable limit, while an empty fetch answers zero pages whatever the limit |
| `Routes.ExerciseLibraryLimits` | server/routes.ts:3257-3300 | a known tier may upload or add a link while under its limit or when unlimited (-1), star always; an unknown tier has no limits entry |
| `Routes.LibraryTiersOrdered` | server/routes.ts:3282-3288 | whatever a free user may upload or link a pro user may too, and a missing tier is free |
| `Routes.CoachLimits` | server/routes.ts:6404-6414 | star coaches are never limited, free (and unknown) tiers stop at 5 athletes and pro at 20, higher tiers allow at least as much, and a refusal stays a refusal as the count grows |
| `Routes.PurchasePrompts` | server/routes.ts:5438-5464 | an unknown package is refused (400), too few Spikes are refused (403), otherwise the package's cost, which the balance covers, and its prompts |
| `Routes.PackagesScale` | server/routes.ts:5444-5457 | larger packages cost more, give more prompts and give more prompts per Spike |
| `Routes.FindProgram` | server/routes.ts:4311 | the found assignment is one of that program, and none is found exactly when no assignment is of that program |
| `Routes.WithoutProgram` | server/routes.ts:4313 | the filter keeps only assignments of other programs |
| `Routes.WithoutProgramKeeps` | server/routes.ts:4313 | the filter keeps every assignment of another program and introduces no repeated program |
| `Routes.DedupeKeepsLatest` | server/routes.ts:4309-4317 | the reduce keeps exactly one assignment per program, the one assigned last, the earliest listed among equally recent ones |
| `Routes.CopyAllowed` | server/routes.ts:1643-1651 | the whitelist loop copies exactly the allowed fields the body defines, with their values |
| `Routes.PatchAthleteGroup` | server/routes.ts:1642-1658 | the update is exactly the name and description the body gives, and is refused (400) when it gives neither |
| `Notifications.DaysSince` | server/notification-system.ts:311-316 | the absolute distance in days rounded up, 0 without a date |
| `Notifications.DaysSinceProperties` | server/notification-system.ts:311-316 | the same instant is 0 days away, the count is symmetric, and any other instant within a day is 1 day away |
| `Notifications.TimeOfDayAt` | server/notification-system.ts:318-322 | morning exactly for hours 6 to 11, afternoon exactly for 12 to 17, evening otherwise |
| `Notifications.IsTimeForNext` | server/notification-system.ts:295-309 | never sent before is always due, one-time never again, conditional always, and the others after at least 1, 7, 14 or 30 days |
| `Notifications.FrequenciesNest` | server/notification-system.ts:300-304 | whenever a monthly template is due so is a bi-weekly one, then a weekly one, then a daily one |
| `Notifications.CheckConditions` | server/notification-system.ts:244-279 | the conditions hold exactly when the account is old enough (when asked) and premium (when asked) |
| `Notifications.ShouldSend` | server/notification-system.ts:214-242 | due exactly when not sent too recently, its conditions hold, and the hour falls in its time of day when one is given |
| `Notifications.OneTimeSentOnce` | server/notification-system.ts:305 | a one-time template already sent is never sent again |
| `Notifications.NewNotification` | server/notification-system.ts:330-340 | the inserted row is unread, for that user and template, with a non-empty custom message preferred over the template's |
| `Notifications.LatestSent` | server/notification-system.ts:281-293 | the newest creation time among the user's notifications of that kind, none exactly when there are none |
| `Notifications.Outbox` | server/notification-system.ts:201-212 | one user's pass inserts at most one row per template |
| `Notifications.OutboxExact` | server/notification-system.ts:201-212 | exactly the automated templates the user is due yield a row, and every row comes from such a template |
| `Notifications.NoSocialSent` | server/notification-system.ts:203-205 | no social or broadcast template is ever sent by the automated pass |
| `Notifications.AllOutboxes` | server/notification-system.ts:189-199 | the whole pass inserts at most one row per template and user |
| `Notifications.AllOutboxesUsers` | server/notification-system.ts:192-196 | every row of the pass belongs to one of the users passed over |
| `Notifications.OutboxKinds` | server/notification-system.ts:202-211 | with distinct kinds, a template's own row cannot change whether a later template is due |
| `Notifications.OtherUsersDoNotCount` | server/notification-system.ts:194-196 | rows inserted for earlier users never change what a later user is due |
| `Notifications.Notifier.constructor` | server/notification-system.ts:189-199 | starts with the given templates and no notifications |
| `Notifications.Notifier.SendNotification` | server/notification-system.ts:330-344 | appends exactly the new row |
| `Notifications.Notifier.ProcessUserNotifications` | server/notification-system.ts:201-212 | the template loop, reading the table it is growing, appends exactly the outbox judged on the table before the pass |
| `Notifications.Notifier.ProcessUserNotificationsFrom` | server/notification-system.ts:201-212 | one user's loop on a table grown only by other users' rows appends the same outbox as on the original table |
| `Notifications.Notifier.ProcessAutomatedNotifications` | server/notification-system.ts:189-199 | the user loop appends exactly every user's outbox, in order, each judged on the table before the pass |
| `Notifications.BroadcastRecipients` | server/notification-system.ts:390-398 | the given ids when there are any, otherwise every user |
| `Notifications.SendAdminBroadcastAsWritten` | server/notification-system.ts:400-408 | the insert names `notificationData`, which is undefined, so the call always fails |
| `Notifications.SendAdminBroadcast` | server/notification-system.ts:389-410 | the intended broadcast appends one unread row per recipient |
| `Notifications.BroadcastDiscrepancy` | server/notification-system.ts:400-408 | as written no recipient receives anything; as intended the first recipient's unread row follows the old table and one row is added per recipient |
| `RealtimePose.ToKeyPoint` | server/realtime-mediapipe.py:77-83 | pixel coordinates are the normalised ones scaled by the frame size and truncated, and the normalised coordinates and visibility are kept |
| `RealtimePose.Extracted` | server/realtime-mediapipe.py:50-86 | no pose gives no landmarks; otherwise exactly the named landmarks with visibility above 0.5 are kept, each converted to a key point |
| `RealtimePose.ExtractLandmarks` | server/realtime-mediapipe.py:50-86 | the loop over the landmark names yields exactly `Extracted` |
| `RealtimePose.JointAngles` | server/realtime-mediapipe.py:88-144 | each knee and hip angle is present exactly when its three landmarks are, the trunk angle exactly when both shoulders and hips are and the trunk vector is not zero, and no other key appears |
| `RealtimePose.VelocityBetween` | server/realtime-mediapipe.py:160-167 | each velocity component times the elapsed time is the pixel displacement |
| `RealtimePose.Velocities` | server/realtime-mediapipe.py:146-171 | no velocities without a previous frame or with no time elapsed; otherwise one per landmark present in both frames, computed from the two |
| `RealtimePose.SideContact` | server/realtime-mediapipe.py:176-191 | one side's contact exists exactly when its ankle has a position and a velocity, records the ankle height and the squared speed of the ankle's velocity, and is a contact exactly when that squared speed is below 2500 (speed below 50 pixels per second) |
| `RealtimePose.GroundContact` | server/realtime-mediapipe.py:173-193 | the left and right entries are the side contacts where they exist, and nothing else is reported |
| `RealtimePose.DetectGroundContact` | server/realtime-mediapipe.py:173-193 | the loop over the two sides yields exactly `GroundContact` |
| `RealtimePose.StrideMetrics` | server/realtime-mediapipe.py:195-216 | metrics exist exactly when both ankles are seen; the stride width is their horizontal distance, the squared step length is the sum of the squared horizontal and vertical distances and at least the squared width, and the frame number is the current count |
| `RealtimePose.FpsOrDefault` | server/realtime-mediapipe.py:227 | a reported frame rate of 0 becomes 30, any other is kept, so the frame time never divides by zero |
| `RealtimePose.EmittedPresent` | server/realtime-mediapipe.py:240-292 | a frame with a pose extends the emitted records by one record computed from the previous pose and time |
| `RealtimePose.EmittedGap` | server/realtime-mediapipe.py:240-262 | a frame without a pose emits nothing and leaves the previous pose as it was |
| `RealtimePose.PoseTracker.constructor` | server/realtime-mediapipe.py:22-36 | no previous landmarks or time, frame count 0 and the default 30 frames per second |
| `RealtimePose.PoseTracker.CalculateVelocities` | server/realtime-mediapipe.py:146-171 | the method's loop yields exactly `Velocities` from the tracker's previous frame |
| `RealtimePose.PoseTracker.ProcessPose` | server/realtime-mediapipe.py:264-292 | the record is the one the frame rule computes, and the tracker then remembers its landmarks and time |
| `RealtimePose.PoseTracker.ConsecutiveFrames` | server/realtime-mediapipe.py:244-292 | consecutive records have increasing frame numbers and times, and a record has a velocity exactly for landmarks seen in it and in the record before |
| `RealtimePose.PoseTracker.ProcessVideo` | server/realtime-mediapipe.py:218-298 | an unopened video emits nothing and changes nothing; otherwise the frame rate is the reported one or 30, the frame count grows by the number of frames, the records are exactly those the frame rule emits, and the tracker remembers the last record |
| `VideoPose.KeyPointsOf` | server/video-analysis-mediapipe.py:48-86 | no pose gives no key points; otherwise exactly the named landmarks whose index the pose reaches are kept, each the landmark at that index |
| `VideoPose.ExtractKeyPoints` | server/video-analysis-mediapipe.py:48-86 | the loop over the landmark names yields exactly `KeyPointsOf` |
| `VideoPose.WithAngle` | server/video-analysis-mediapipe.py:95-99 | one angle is added exactly when its three key points are present, computed from them, and every other entry is unchanged |
| `VideoPose.JointAnglesOf` | server/video-analysis-mediapipe.py:88-138 | the frame index is recorded, each of the six knee, hip and ankle angles is present exactly when its three key points are, and no other angle appears |
| `VideoPose.SideContact` | server/video-analysis-mediapipe.py:150-169 | one side yields at most one event, and one exactly when its ankle is in both frames and moved vertically by less than 0.01; the event carries the later frame's number, time and ankle |
| `VideoPose.FootContacts` | server/video-analysis-mediapipe.py:140-171 | fewer than two records give no events, and each consecutive pair gives at most two |
| `VideoPose.DetectFootContacts` | server/video-analysis-mediapipe.py:140-171 | the loop over the consecutive pairs yields exactly `FootContacts` |
| `VideoPose.ContactsSound` | server/video-analysis-mediapipe.py:148-169 | every event comes from some consecutive pair of records and one side's contact test on it |
| `VideoPose.ContactsComplete` | server/video-analysis-mediapipe.py:148-169 | every ankle that moved less than 0.01 between two consecutive records gives its event |
| `VideoPose.PairHasContact` | server/video-analysis-mediapipe.py:154-169 | a pair in which an ankle moved less than 0.01 lists that ankle's event |
| `VideoPose.Intervals` | server/video-analysis-mediapipe.py:189-195 | one interval per consecutive pair of times, each the later time minus the earlier |
| `VideoPose.StrideTimes` | server/video-analysis-mediapipe.py:189-191 | the loop over one foot's contacts yields exactly the intervals between their times |
| `VideoPose.StrideSummaryOf` | server/video-analysis-mediapipe.py:173-225 | fewer than four events give all zeros; otherwise the stride count is half the number of events |
| `VideoPose.CalculateStrideMetrics` | server/video-analysis-mediapipe.py:173-225 | the method's loops yield exactly `StrideSummaryOf` |
| `VideoPose.NoRepeatNoStrides` | server/video-analysis-mediapipe.py:199-205 | with neither foot contacted twice the time, rate and asymmetry are zero and only the count remains |
| `VideoPose.UniformStrides` | server/video-analysis-mediapipe.py:207-225 | when both feet's strides all take `d`, the average is `d`, the rate is 60 / `d` per minute and the asymmetry is 0 |
| `VideoPose.Samples` | server/video-analysis-mediapipe.py:321-325 | one joint's collected angles number at most the records |
| `VideoPose.AngleStatsOf` | server/video-analysis-mediapipe.py:328-336 | statistics are reported exactly for the six joints with at least one measured angle |
| `VideoPose.AngleStatsOrdered` | server/video-analysis-mediapipe.py:329-335 | every statistic has minimum at most mean at most maximum, and the range is the non-negative difference of maximum and minimum |
| `VideoPose.CollectAngles` | server/video-analysis-mediapipe.py:306-325 | the loop collects, for exactly the six joints, each joint's angles in frame order |
| `VideoPose.AddSamples` | server/video-analysis-mediapipe.py:321-325 | one more record extends each joint's collection by its angle, if measured |
| `VideoPose.CalculateAngleStatistics` | server/video-analysis-mediapipe.py:306-337 | the method yields exactly `AngleStatsOf` |
| `VideoPose.Records` | server/video-analysis-mediapipe.py:242-279 | one record per frame with a pose, in order, each built from that frame's index, time and pose |
| `VideoPose.CollectRecords` | server/video-analysis-mediapipe.py:242-281 | the frame loop yields exactly `Records` |
| `VideoPose.RecordsAreDetectedFrames` | server/video-analysis-mediapipe.py:253-279 | every frame with a pose has its record, with its index and its time index / fps |
| `VideoPose.AnalyzeVideo` | server/video-analysis-mediapipe.py:227-304 | an unopened video and a video with no pose are errors, a zero frame rate with frames is an error where Python divides by zero, and otherwise the result holds the records, the stride summary of their contacts, the angle statistics, the first 10 contacts and the duration |
| `MediapipeService.RuleFacts` | server/mediapipe-service.ts:157-198 | the stride rule gives an insight for every positive rate and a recommendation exactly below 160 or above 200; the asymmetry rule fires above 2 with the strength advice above 5; the knee rule needs both knees and fires below 30 or above 80 degrees of average range; each deduction is bounded and zero exactly when no recommendation is made |
| `MediapipeService.StructuredMetricsOf` | server/mediapipe-service.ts:146-207 | the score lies between 65 and 100 and is 100 exactly without recommendations; there are at most three insights, one more than the recommendations exactly for an optimal rate; each recommendation appears exactly under its rule's condition |
| `MediapipeService.GenerateStructuredMetrics` | server/mediapipe-service.ts:146-207 | the method's pushes and deductions yield exactly `StructuredMetricsOf` |
| `MediapipeService.ScoreFallsWithAsymmetry` | server/mediapipe-service.ts:172-181 | more asymmetry never raises the performance score |
| `MediapipeSimple.DemoMetrics` | server/mediapipe-simple.ts:42-49 | from draws in [0, 1) the demo stride rate lies in [175, 195), the stride count in 10..29, the asymmetry in [0, 8), the knee range in [40, 65), the contact events in 20..59 and the duration in [5, 20) |
| `MediapipeSimple.KneeRange` | server/mediapipe-simple.ts:123-132 | 45 without either knee, otherwise half the sum of the knee ranges, a missing knee counting 0 |
| `MediapipeSimple.KneeRangeOfAnalysis` | server/mediapipe-simple.ts:123-132 | the knee range of a video analysis's angle statistics is never negative |
| `MediapipeSimple.ExtractBiomechanics` | server/mediapipe-simple.ts:38-121 | a run that fails, errs, times out first or does not parse yields the demo metrics; a delivered result takes each metric from the output, its zero replaced by the demo value |
| `MediapipeSimple.FallbackNeverZero` | server/mediapipe-simple.ts:96-101 | with non-zero demo metrics no metric of the result is ever zero |
| `MediapipeSimple.ShortVideoUsesDemoStride` | server/mediapipe-simple.ts:96-98 | when the script saw fewer than four contacts its all-zero stride figures are replaced by the demo stride rate, count and asymmetry |
| `MediapipeSimple.PerformanceScore` | server/mediapipe-simple.ts:222-249 | the score lies between 50 and 100 and is 100 exactly for a stride rate in [170, 190], asymmetry at most 3 and a knee range in [30, 80] |
| `MediapipeSimple.CalculatePerformanceScore` | server/mediapipe-simple.ts:222-249 | the method's deductions yield exactly `PerformanceScore`, between 50 and 100 |
| `MediapipeSimple.ScoreFallsWithAsymmetry` | server/mediapipe-simple.ts:232-239 | more asymmetry never raises the score |
| `MediapipeSimple.DemoScore` | server/mediapipe-simple.ts:42-49 | the demo metrics always score at least 80 |
| `MediapipeSimple.InsightsOf` | server/mediapipe-simple.ts:251-273 | exactly three insights: optimal stride exactly for a rate in [170, 190], good symmetry exactly for asymmetry at most 3, healthy knees exactly for a range in [40, 70] |
| `MediapipeSimple.GenerateInsights` | server/mediapipe-simple.ts:251-273 | the method's pushes yield exactly `InsightsOf` |
| `MediapipeSimple.RecommendationsOf` | server/mediapipe-simple.ts:275-297 | one to three distinct recommendations, each present exactly under its condition, and the maintain-form advice exactly alone when no other applies |
| `MediapipeSimple.GenerateRecommendations` | server/mediapipe-simple.ts:275-297 | the method's pushes yield exactly `RecommendationsOf` |
| `MediapipeSimple.StrideInsightMatchesRecommendations` | server/mediapipe-simple.ts:254-282 | the stride insight says optimal exactly when no stride recommendation is made |
| `MediapipeSimple.MaintainFormScore` | server/mediapipe-simple.ts:222-297 | metrics that get only the maintain-form advice score at least 84 |
| `MediapipeSimple.FallbackAnalysis` | server/mediapipe-simple.ts:193-220 | the fallback report calls the stride optimal exactly in [170, 190], the knees limited below 40 degrees and the asymmetry significant above 5, and advises cadence work below 170, balance work above 3 % asymmetry and stretching exactly for limited knees |
| `MediapipeSimple.FallbackAgreesWithAdvice` | server/mediapipe-simple.ts:193-296 | the fallback report agrees with the insights and recommendations of the same metrics: optimal stride, cadence, balance, significant asymmetry and stretching each exactly when the matching insight or recommendation appears |
| `MediapipeSimple.EnhancedAnalysis` | server/mediapipe-simple.ts:134-190 | the model's reply exactly when it has text; without an API key, on a failed request or on an empty reply, the fallback report of the metrics |
| `MediapipeSimple.AnalyzeVideoComplete` | server/mediapipe-simple.ts:299-318 | the result combines the extracted metrics, the analysis text for those metrics (the model's reply or the fallback report), and their score, insights and recommendations |
| `PerformanceAnalytics.WindAdjusted` | client/src/components/performance-analytics.tsx:43-65 | unchanged without wind or for an event the wind does not affect; a sprint adds, a horizontal jump subtracts, half the wind times the event's factor |
| `PerformanceAnalytics.TailwindAdjustsAgainstTheAthlete` | client/src/components/performance-analytics.tsx:51-62 | a tailwind makes an adjusted sprint slower and an adjusted jump shorter, and a headwind the reverse |
| `PerformanceAnalytics.EventResults` | client/src/components/performance-analytics.tsx:70-71 | only results of the chosen event, all taken from the list |
| `PerformanceAnalytics.ByDateOrdered` | client/src/components/performance-analytics.tsx:70-72 | the event's results sorted by date are a permutation of them in ascending date order |
| `PerformanceAnalytics.CalculateImprovement` | client/src/components/performance-analytics.tsx:68-95 | fewer than two results give 0 and not improving; otherwise oldest and newest are compared, a timed event improving when the newest is lower and any other when it is higher (reversed for a negative first mark), the percentage being the change relative to the first mark, undefined when that is 0 |
| `PerformanceAnalytics.FewResultsNoImprovement` | client/src/components/performance-analytics.tsx:74 | with fewer than two results of an event it is never reported as improving |
| `PerformanceAnalytics.Performances` | client/src/components/performance-analytics.tsx:103 | the marks of the results, one per result, in order |
| `PerformanceAnalytics.IsConsistent` | client/src/components/performance-analytics.tsx:98-121 | fewer than three results are never consistent |
| `PerformanceAnalytics.IdenticalMarksAreConsistent` | client/src/components/performance-analytics.tsx:98-121 | three or more identical positive marks have no variation and are consistent |
| `PerformanceAnalytics.Events` | client/src/components/performance-analytics.tsx:125 | the event of each result, in order |
| `PerformanceAnalytics.AddDistinctCorrect` | client/src/components/performance-analytics.tsx:124-126 | adding the events of further results to a list without repeats keeps it without repeats and holds exactly the old entries and the new events |
| `PerformanceAnalytics.DistinctEventsExactlyOnce` | client/src/components/performance-analytics.tsx:124-126 | the distinct events list every event of the results exactly once and nothing else |
| `PerformanceAnalytics.MeetName` | client/src/components/performance-analytics.tsx:137-145 | never empty, and 'Unknown Meet' when no meet has the result's id |
| `PerformanceAnalytics.ChartData` | client/src/components/performance-analytics.tsx:129-152 | one chart point per result of the event |
| `PerformanceAnalytics.ChartFollowsResults` | client/src/components/performance-analytics.tsx:129-152 | the chart has one point per result of the event, in ascending date order, each carrying a result's mark, its wind-adjusted mark and a wind of 0 when none was recorded |
| `PerformanceAnalytics.PointCarriesResult` | client/src/components/performance-analytics.tsx:140-150 | a point keeps its result's date and mark, the adjusted mark, and a missing wind as 0 |
| `PerformanceAnalytics.BestOf` | client/src/components/performance-analytics.tsx:189-197 | the fold returns one of its inputs, no slower than any for a timed event and no shorter than any otherwise |
| `PerformanceAnalytics.SeasonBest` | client/src/components/performance-analytics.tsx:181-199 | none exactly without an event or without results of it; otherwise a result of that event, the lowest mark for a timed event and the highest for any other |
| `PhotoFinishLibrary.ValidateUpload` | client/src/pages/tools/photo-finish-page.tsx:143-172 | no file does nothing, a type not starting with 'video/' is refused, a video over 500 MB is refused, and only a video of at most 500 MB is accepted |
| `PhotoFinishLibrary.SizeLimitIsInclusive` | client/src/pages/tools/photo-finish-page.tsx:159-160 | a video of exactly 500 MB is accepted and one byte more is refused |
| `PhotoFinishLibrary.FormatFileSize` | client/src/pages/tools/photo-finish-page.tsx:269-274 | kilobytes exactly below 1 MB, each unit the byte count divided by 1024 or 1024², below 1024 KB or at least 1 MB |
| `PhotoFinishLibrary.UsagePercentage` | client/src/pages/tools/photo-finish-page.tsx:279 | the percentage times the tier limit is the count times 100, is never negative, at most 100 within the limit and exactly 100 at it |
| `PhotoFinishLibrary.WithoutVideo` | client/src/pages/tools/photo-finish-page.tsx:251 | the library without the deleted id keeps every other video and only videos of the library, and is unchanged when no video has the id |
| `PhotoFinishLibrary.DeleteIdempotent` | client/src/pages/tools/photo-finish-page.tsx:251 | deleting the same id twice is deleting it once |
| `PhotoFinishLibrary.Library.constructor` | client/src/pages/tools/photo-finish-page.tsx:52-60 | the page starts with the loaded library, no video to delete, the dialog closed and no upload in progress |
| `PhotoFinishLibrary.Library.UploadVideo` | client/src/pages/tools/photo-finish-page.tsx:88-103 | the progress shown is 0, then 20, 40, 60, 80 and 95, then 100, and the upload ends complete |
| `PhotoFinishLibrary.Library.HandleFileUpload` | client/src/pages/tools/photo-finish-page.tsx:143-172 | an accepted file runs the upload to completion; any refused file shows no progress and leaves the upload state unchanged |
| `PhotoFinishLibrary.Library.ConfirmDeleteVideo` | client/src/pages/tools/photo-finish-page.tsx:241-244 | the video becomes the one to delete and the dialog opens |
| `PhotoFinishLibrary.Library.HandleDeleteVideo` | client/src/pages/tools/photo-finish-page.tsx:246-267 | without a chosen video nothing changes; otherwise the video is removed from the list exactly when storage deleted it, and in both outcomes the dialog closes and the choice is cleared |
| `PhotoFinishLibrary.ProgressRises` | client/src/pages/tools/photo-finish-page.tsx:95-102 | the progress shown only ever rises |
| `PhotoFinishViewer.TimerText` | client/src/pages/tools/photo-finish-fullscreen-fixed.tsx:107-111 | a timer's text shows the time since its start point and begins with '-' exactly before that point |
| `PhotoFinishViewer.ClampScale` | client/src/pages/tools/photo-finish-fullscreen-fixed.tsx:183 | the zoom lies within [0.5, 5] and a zoom already inside is kept |
| `PhotoFinishViewer.ScrubTime` | client/src/pages/tools/photo-finish-fullscreen-fixed.tsx:228-238 | a seek happens only with a video and a bar of positive width, always then for a non-negative duration; its time lies in [0, duration] and is the clamped pointer position's fraction of the bar times the duration |
| `PhotoFinishViewer.ScrubberEnds` | client/src/pages/tools/photo-finish-fullscreen-fixed.tsx:228-238 | the bar's left edge seeks to 0 and its right edge to the end |
| `PhotoFinishViewer.Viewer.constructor` | client/src/pages/tools/photo-finish-fullscreen-fixed.tsx:42-61 | no timers, none active, timer mode off, time 0, zoom 1, no offset, not panning |
| `PhotoFinishViewer.Viewer.ToggleTimerMode` | client/src/pages/tools/photo-finish-fullscreen-fixed.tsx:420 | the timer button switches timer mode on and off |
| `PhotoFinishViewer.Viewer.HandleCanvasClick` | client/src/pages/tools/photo-finish-fullscreen-fixed.tsx:205-226 | in timer mode a click appends one timer at the click's percentage position starting at the current time, makes it active and leaves timer mode; otherwise nothing changes |
| `PhotoFinishViewer.Viewer.TouchStart` | client/src/pages/tools/photo-finish-fullscreen-fixed.tsx:156-169 | two fingers start panning from their centre and distance; one finger changes nothing |
| `PhotoFinishViewer.Viewer.TouchMove` | client/src/pages/tools/photo-finish-fullscreen-fixed.tsx:171-198 | while panning with two fingers the zoom is scaled by the distance ratio and clamped (kept without a previous distance) and the offset follows the centre's movement; otherwise nothing changes |
| `PhotoFinishViewer.Viewer.TouchEnd` | client/src/pages/tools/photo-finish-fullscreen-fixed.tsx:200-202 | lifting the fingers ends panning |
| `PhotoFinishViewer.Viewer.Scrub` | client/src/pages/tools/photo-finish-fullscreen-fixed.tsx:228-238 | the current time becomes the scrubbed time where a seek happens and stays otherwise |
| `PhotoFinishViewer.PanFollowsFingers` | client/src/pages/tools/photo-finish-fullscreen-fixed.tsx:171-198 | during a two-finger move the video keeps its offset from the fingers' centre and the zoom stays within [0.5, 5] |
| `Practice.ClosestIndex` | client/src/pages/practice-page.tsx:81-84 | the position of a mark at least as close to the distance as every other, the first such on a tie |
| `Practice.MarkedDistanceIsKept` | client/src/pages/practice-page.tsx:67-84 | a distance that is itself a mark snaps to itself |
| `Practice.ClosestMarkInRange` | client/src/pages/practice-page.tsx:67-84 | the snapped distance is always a listed mark between 50 and 600 |
| `Practice.TieKeepsEarlierMark` | client/src/pages/practice-page.tsx:81-84 | a distance halfway between two marks, such as 105, snaps to the shorter one |
| `Practice.BestTime` | client/src/pages/practice-page.tsx:86 | the table's time for the mark when it is listed and non-zero, else the 100 m time scaled by the distance |
| `Practice.SnappedTimeFromTable` | client/src/pages/practice-page.tsx:45-86 | every mark has a positive table time, so the scaled fallback is never used |
| `Practice.Round2` | client/src/pages/practice-page.tsx:91 | the nearest value with two decimals, halves rounded up |
| `Practice.Round2Monotone` | client/src/pages/practice-page.tsx:91 | rounding to two decimals keeps the order |
| `Practice.ExactGoal` | client/src/pages/practice-page.tsx:89 | at an intensity of at most 100 % the goal is never faster than the best time |
| `Practice.GoalTime` | client/src/pages/practice-page.tsx:89-91 | no goal at 0 % and otherwise the best time divided by the intensity, rounded to two decimals |
| `Practice.FullIntensityIsBestTime` | client/src/pages/practice-page.tsx:89-91 | at 100 % the goal is the best time itself, rounded |
| `Practice.LowerIntensitySlower` | client/src/pages/practice-page.tsx:89-91 | a lower intensity never gives a faster goal |
| `Practice.CalculatedTime` | client/src/pages/practice-page.tsx:78-92 | the effect's goal time: none at 0 %, otherwise the goal for the snapped mark's best time |
| `Ambassador.GetTier` | client/src/pages/ambassador-landing-page.tsx:102-108 | Star from 500 000, Champ from 50 000, Pro from 10 000, Athlete from 5 000, and not eligible below, each exactly on its band |
| `Ambassador.GetTierMonotone` | client/src/pages/ambassador-landing-page.tsx:102-108 | a larger audience never gets a lower tier |
| `Ambassador.ValidYetNotEligible` | client/src/pages/ambassador-landing-page.tsx:22-31 | an application the form accepts with an audience below 5 000 is not eligible for any tier |
| `Ambassador.Submit` | client/src/pages/ambassador-landing-page.tsx:166-186 | nothing is submitted without a typed signature; otherwise the form's data with that signature and the tier of its audience |
| `CompetitionCalendar.StatusOf` | client/src/pages/competition-calendar-page.tsx:158-170 | upcoming exactly before the start, completed exactly when not before the start and after the end, ongoing otherwise |
| `CompetitionCalendar.OngoingBetweenDates` | client/src/pages/competition-calendar-page.tsx:158-170 | with valid dates a competition is ongoing exactly from its start to its end, both included |
| `CompetitionCalendar.InvalidDatesAreOngoing` | client/src/pages/competition-calendar-page.tsx:158-170 | with dates that do not parse every comparison fails, so the competition shows as ongoing |
| `CompetitionCalendar.Competitions` | client/src/pages/competition-calendar-page.tsx:111 | a plain list response is the list itself and a page response its competitions |
| `CompetitionCalendar.TotalCompetitions` | client/src/pages/competition-calendar-page.tsx:112 | the response's total when it is positive, otherwise the number of competitions received |
| `CompetitionCalendar.TotalPages` | client/src/pages/competition-calendar-page.tsx:113 | the fewest pages of the page size that hold every competition, and none exactly for none |
| `CompetitionCalendar.PageButtons` | client/src/pages/competition-calendar-page.tsx:571-572 | at most five consecutive page numbers starting from the window's first button |
| `CompetitionCalendar.ButtonsWithinPages` | client/src/pages/competition-calendar-page.tsx:571-572 | every page button names a page that exists |
| `CompetitionCalendar.CurrentPageHasButton` | client/src/pages/competition-calendar-page.tsx:571-572 | the current page always has its own button |
| `CompetitionCalendar.PreviousPage` | client/src/pages/competition-calendar-page.tsx:564 | one page back, never before page 1 |
| `CompetitionCalendar.NextPage` | client/src/pages/competition-calendar-page.tsx:590 | one page forward, never past the last page |
| `CompetitionCalendar.StepsStayOnPages` | client/src/pages/competition-calendar-page.tsx:564-591 | from an existing page both buttons stay on existing pages, and away from the ends each undoes the other |
| `CompetitionCalendar.ToggleAction` | client/src/pages/competition-calendar-page.tsx:172-179 | the toggle removes exactly when a favourite has the competition's id, and adds otherwise |
| `CompetitionCalendar.DisplayCompetitions` | client/src/pages/competition-calendar-page.tsx:181-186 | the favourites tab shows the favourites and every other tab the fetched page |
| `CompetitionCalendar.DisplayedFavoriteIsRemoved` | client/src/pages/competition-calendar-page.tsx:172-186 | toggling a competition shown on the favourites tab always removes it |
| `CommunityCarousel.FormatTimeAgo` | client/src/components/community-carousel.tsx:6-15 | the whole seconds elapsed, shown in seconds below a minute, otherwise in whole minutes below an hour, whole hours below a day and whole days beyond, each amount rounded down |
| `CommunityCarousel.TimeAgoText` | client/src/components/community-carousel.tsx:11-14 | the amount's digits followed by the unit's letter |
| `CommunityCarousel.JustNowIsZeroSeconds` | client/src/components/community-carousel.tsx:9-11 | an activity less than a second old reads '0s' |
| `CommunityCarousel.CurrentCardVisible` | client/src/components/community-carousel.tsx:205-222 | with the wrap applied only for several cards, the current card sits in the visible slot, the next card right of it, and no other card in view |
| `CommunityCarousel.AsWrittenAgreesForSeveral` | client/src/components/community-carousel.tsx:207-213 | with more than one activity the placement as written is the corrected one |
| `CommunityCarousel.SingleCardOffScreen` | client/src/components/community-carousel.tsx:207-213 | with a single activity the placement as written moves it one slot right, off screen, while the corrected placement shows it |
| `CommunityCarousel.Carousel.constructor` | client/src/components/community-carousel.tsx:41 | the carousel starts on the first activity |
| `CommunityCarousel.Carousel.Advance` | client/src/components/community-carousel.tsx:117-125 | each seven-second tick moves to the next activity, wrapping after the last, unless there are none or the carousel is paused |
| `CommunityCarousel.Carousel.SetPaused` | client/src/components/community-carousel.tsx:117-125 | pausing or resuming sets the flag the ticks test |
| `CommunityCarousel.Carousel.Render` | client/src/components/community-carousel.tsx:196-224 | nothing to place without activities; otherwise one offset per activity, the offset of its corrected slot |
| `CommunityCarousel.FullRound` | client/src/components/community-carousel.tsx:117-125 | as many ticks as activities bring the carousel back to the first one |
| `ProgramEditor.TotalWeeks` | client/src/pages/program-editor-page.tsx:175 | the fewest whole weeks that hold all the program's days |
| `ProgramEditor.WeekDates` | client/src/pages/program-editor-page.tsx:178-192 | seven days numbered w·7+1 to w·7+7 in order, each w·7+i days after the current week's Sunday, the first and last being the weekend |
| `ProgramEditor.WeekSessionsMatchWeekDates` | client/src/pages/program-editor-page.tsx:199-202 | a session is shown for a week exactly when its day number is one of that week's seven days |
| `ProgramEditor.DayColumn` | client/src/pages/program-editor-page.tsx:205-207 | a day's column shows exactly the program's sessions on that day |
| `ProgramEditor.MoveSession` | client/src/pages/program-editor-page.tsx:449-461 | nothing is sent for a move to the same day; otherwise the same session on the new day |
| `ProgramEditor.WeekNavigator.constructor` | client/src/pages/program-editor-page.tsx:110 | the editor opens on the first week |
| `ProgramEditor.WeekNavigator.GoToPreviousWeek` | client/src/pages/program-editor-page.tsx:406-410 | one week back, never before the first, and a week within the program stays within it |
| `ProgramEditor.WeekNavigator.GoToNextWeek` | client/src/pages/program-editor-page.tsx:412-416 | one week forward unless already on the last, and a week within the program stays within it |
| `ProgramEditor.WeekNavigator.SetStructure` | client/src/pages/program-editor-page.tsx:170-172 | the program's length becomes the macro-block size times the number of macro blocks times the micro-block size |
| `ProgramEditor.LastWeekHoldsLastDay` | client/src/pages/program-editor-page.tsx:175-192 | the last week shown contains the program's last day |
| `PreparationPlan.Replaced` | client/src/components/customize-preparation-modal.tsx:142 | the plan keeps its length, every step with the edited id replaced by the new step and every other step unchanged in its place |
| `PreparationPlan.RemoveStepExactly` | client/src/components/customize-preparation-modal.tsx:150-152 | after removal exactly the steps with other ids remain, and the plan keeps its length exactly when no step had the id |
| `PreparationPlan.FilterAll` | client/src/components/customize-preparation-modal.tsx:151 | removing an id no step has leaves the plan as it was |
| `PreparationPlan.FilterDrops` | client/src/components/customize-preparation-modal.tsx:151 | removing the id of a step in the plan shortens it |
| `PreparationPlan.FormatTiming` | client/src/components/customize-preparation-modal.tsx:202-212 | days and hours, only days or only hours before the meet, each unit pluralised by count |
| `PreparationPlan.AtMeetTimeIff` | client/src/components/customize-preparation-modal.tsx:202-212 | the timing reads 'At meet time' exactly when neither days nor hours are positive |
| `PreparationPlan.PluralOnlyAboveOne` | client/src/components/customize-preparation-modal.tsx:204-208 | a unit gets its 's' exactly for counts above one |
| `PreparationPlan.EarlierStepsRemindEarlier` | client/src/components/customize-preparation-modal.tsx:159-161 | a step timed further before the meet is reminded no later, and a step with no negative offsets no later than the meet |
| `PreparationPlan.RemindersOf` | client/src/components/customize-preparation-modal.tsx:157-171 | one reminder per step, in order, each for that step |
| `PreparationPlan.AfterSave` | client/src/components/customize-preparation-modal.tsx:141-146 | while editing, the plan keeps its length with the steps of the edited id replaced in place; otherwise the new step is appended |
| `PreparationPlan.SavedSteps` | client/src/components/customize-preparation-modal.tsx:122-148 | nothing is saved without a non-blank title and a category; otherwise the form's step, with trimmed texts and the edited step's id or a fresh one, is saved into the plan |
| `PreparationPlan.Planner.constructor` | client/src/components/customize-preparation-modal.tsx:86-95 | the planner opens with the default steps and a cleared form |
| `PreparationPlan.Planner.ResetForm` | client/src/components/customize-preparation-modal.tsx:97-105 | the form and the editing state are cleared |
| `PreparationPlan.Planner.StartEditing` | client/src/components/customize-preparation-modal.tsx:107-115 | the step becomes the one edited and the form holds its values |
| `PreparationPlan.Planner.StartAdding` | client/src/components/customize-preparation-modal.tsx:117-120 | a cleared form for a new step |
| `PreparationPlan.Planner.SaveStep` | client/src/components/customize-preparation-modal.tsx:122-148 | a refused save changes nothing; an accepted one stores `SavedSteps` and clears the form |
| `PreparationPlan.Planner.RemoveStep` | client/src/components/customize-preparation-modal.tsx:150-152 | the plan loses exactly the steps with the id |
| `PreparationPlan.Planner.SavePreparationPlan` | client/src/components/customize-preparation-modal.tsx:154-180 | every reminder is posted, in order, when the server accepts them all; otherwise posting stops at the first refused one |
| `ReminderDialog.UnitsAgree` | client/src/components/create-reminder-dialog.tsx:135-146 | minutes, hours and days convert to 60 000, 3 600 000 and 86 400 000 ms each, so n days, 24n hours and 1440n minutes before the meet are the same date |
| `ReminderDialog.LargerOffsetEarlier` | client/src/components/create-reminder-dialog.tsx:135-146 | a larger offset gives an earlier reminder, and a non-negative one a reminder no later than the meet |
| `ReminderDialog.DefaultOffset` | client/src/components/create-reminder-dialog.tsx:110 | the meet's warm-up time when it is set and non-zero, otherwise 60 |
| `ReminderDialog.CreateReminder` | client/src/components/create-reminder-dialog.tsx:52-66 | submitted exactly with a title and a category, carrying the form's user, meet, title and category, not completed, dated the offset before the meet |
| `ReminderDialog.TipIndex` | client/src/components/create-reminder-dialog.tsx:85-87 | the random tip index always names a tip |
| `ReminderDialog.CategoryOf` | client/src/components/create-reminder-dialog.tsx:83-98 | each of the six known categories is recognised by its name, and any other name is none of them |
| `ReminderDialog.SuggestionOf` | client/src/components/create-reminder-dialog.tsx:82-99 | a random tip exactly for nutrition and warm-up, a fixed text for hydration, rest, meal and exercise, and nothing for any other category |
| `ReminderDialog.SuggestionFor` | client/src/components/create-reminder-dialog.tsx:82-99 | an unknown category suggests the empty text |
| `ReminderDialog.FixedChoiceIgnoresRandom` | client/src/components/create-reminder-dialog.tsx:88-97 | outside nutrition and warm-up the suggestion does not depend on the random draw |
| `MarketplaceCart.PlatformFee` | client/src/pages/marketplace-cart.tsx:88-91 | 20 % of the subtotal rounded to the nearest cent, halves up, and for a non-negative subtotal between 0 and the subtotal |
| `MarketplaceCart.Total` | client/src/pages/marketplace-cart.tsx:93-95 | the total exceeds the subtotal by exactly the fee, and lies between one and two subtotals |
| `MarketplaceCart.Decrement` | client/src/pages/marketplace-cart.tsx:192-199 | the minus button never sets a quantity below 1 and, while enabled, lowers it by one |
| `MarketplaceCart.IncrementThenDecrement` | client/src/pages/marketplace-cart.tsx:192-210 | after the plus button the minus button is enabled and restores the quantity |
| `MarketplaceCart.SubtotalNonNegative` | client/src/pages/marketplace-cart.tsx:81-86 | with non-negative prices and positive quantities the subtotal is never negative |
| `MarketplaceCart.SubtotalAfterQuantityChange` | client/src/pages/marketplace-cart.tsx:81-86 | changing one item's quantity by d changes the subtotal by d times its price, a missing price counting 0 |
| `MarketplaceCart.SubtotalAppend` | client/src/pages/marketplace-cart.tsx:81-86 | one more item adds its price times its quantity to the subtotal |
| `MarketplaceCart.DisplayAmount` | client/src/pages/marketplace-cart.tsx:73-74 | the amount shown is the cents divided by 100 |
| `Subscriptions.FeePercentage` | client/src/pages/subscription-management-page.tsx:116-123 | 16 % exactly for star coaches, 18 % exactly for pro coaches, 22 % for everyone else including the signed-out |
| `Subscriptions.FeeFallsWithTier` | client/src/pages/subscription-management-page.tsx:116-123 | star pays less than pro and pro less than free, and every fee lies between 16 and 22 % |
| `Subscriptions.EarningsAfterFee` | client/src/pages/subscription-management-page.tsx:128-129 | the amount less the fee rounded to the nearest cent, halves up |
| `Subscriptions.EarningsWithinAmount` | client/src/pages/subscription-management-page.tsx:125-130 | with a fee between 0 and 100 % a coach earns between nothing and the whole price |
| `Subscriptions.EarningsFallWithFee` | client/src/pages/subscription-management-page.tsx:125-130 | a higher fee never leaves the coach more |
| `Subscriptions.CoachEarnings` | client/src/pages/subscription-management-page.tsx:125-130 | a dollar price is converted to cents first, and the coach keeps it less the tier's fee rounded to the cent |
| `Subscriptions.DollarsEarnAsCents` | client/src/pages/subscription-management-page.tsx:125-130 | a price in dollars earns exactly what the same price in cents earns |
| `Subscriptions.CoachEarningsCents` | client/src/components/SubscriptionManagementModal.tsx:122-126 | the dialog, working in cents, computes what the page computes for a price in cents |
| `Subscriptions.ToCents` | client/src/pages/subscription-management-page.tsx:76 | the dollar price times 100 rounded to the nearest cent, halves up |
| `Subscriptions.CentsRoundTrip` | client/src/pages/subscription-management-page.tsx:52-76 | cents shown as dollars and sent back are the same cents, and dollars sent as cents and shown again are within half a cent |
| `Subscriptions.AstralTitleTooLong` | client/src/pages/subscription-management-page.tsx:20 | the title bound counts UTF-16 code units, so sixty characters beyond the Basic Multilingual Plane are too long |
| `Subscriptions.PagePriceFitsDialog` | client/src/components/SubscriptionManagementModal.tsx:19-25 | an offering the page's form accepts, once converted to cents, is one the dialog's form accepts |
| `Subscriptions.IntervalTextIsPerInterval` | client/src/pages/subscription-management-page.tsx:107-114 | every interval, named or not, reads 'per' followed by the interval |
| `Subscriptions.PriceValue` | client/src/pages/subscription-management-page.tsx:102-105 | an amount in cents is shown divided by 100 and a dollar amount as it is |
| `Subscriptions.NetIncome` | client/src/pages/my-subscriptions-page.tsx:102 | the net income shown plus the active spending is the active earnings |
| `Subscriptions.EarningsCountActiveOnly` | client/src/pages/my-subscriptions-page.tsx:49-54 | one more subscriber adds its coach amount to the earnings exactly when active |
| `Subscriptions.ActiveEarningsAtMostMonthly` | client/src/components/SubscriptionManagementModal.tsx:178 | with non-negative amounts the active earnings lie between 0 and the dialog's sum over every subscriber |
| `StartGun.StatusOrder` | client/src/pages/tools/start-gun-page.tsx:595-669 | once a sequence shows 'set' it never shows 'on your marks' again, and after the gun only the gun or idle follow |
| `StartGun.GunDelaySeconds` | client/src/pages/tools/start-gun-page.tsx:631-637 | the set-to-gun delay is the setting itself without the randomiser, and with it within one second of the setting but never below 0.1 s |
| `StartGun.EstimatedDurationMs` | client/src/pages/tools/start-gun-page.tsx:225 | the muted stand-in durations of 2 s, 1 s and 0.5 s for the three clips |
| `StartGun.MutedCallbackDelay` | client/src/pages/tools/start-gun-page.tsx:221-229 | muted, a callback is still scheduled, exactly when one is given, after the clip's estimated duration |
| `StartGun.Playback.constructor` | client/src/pages/tools/start-gun-page.tsx:284 | a clip starts not completed, with no callback run |
| `StartGun.Playback.TriggerCompletion` | client/src/pages/tools/start-gun-page.tsx:287-306 | the callback runs only on the first completion and only when the sequence is not cancelled, so however many of the ended, error, pause and timer events arrive it runs at most once |
| `StartGun.Gun.constructor` | client/src/pages/tools/start-gun-page.tsx:30-80 | the gun starts idle, not playing, with sequence id 0 and no previous action |
| `StartGun.Gun.HandleStartClick` | client/src/pages/tools/start-gun-page.tsx:563-598 | a press is accepted exactly 600 ms or more after the last accepted action while no sequence runs; it records the time, locks the button and starts a sequence with a new id; a refused press changes nothing |
| `StartGun.Gun.UnlockDoneAsWritten` | client/src/pages/tools/start-gun-page.tsx:601-607 | as written, the end of the audio unlock shows 'on your marks' and clears the cancellation whether or not the sequence is still current |
| `StartGun.Gun.UnlockDone` | client/src/pages/tools/start-gun-page.tsx:601-610 | with the sequence check added, only the current sequence shows 'on your marks' and starts its first clip; a stale one changes nothing |
| `StartGun.Gun.MarksEnded` | client/src/pages/tools/start-gun-page.tsx:610-617 | the end of 'on your marks' starts the set delay only for the current, uncancelled sequence |
| `StartGun.Gun.SetTimerFired` | client/src/pages/tools/start-gun-page.tsx:620-624 | the set delay moves the current sequence from 'on your marks' to 'set'; a stale one changes nothing |
| `StartGun.Gun.SetEnded` | client/src/pages/tools/start-gun-page.tsx:626-637 | the end of 'set' fixes the gun delay for the current sequence and starts waiting; a stale one changes nothing |
| `StartGun.Gun.GunTimerFired` | client/src/pages/tools/start-gun-page.tsx:640-644 | the gun delay moves the current sequence from 'set' to the gun; a stale one changes nothing |
| `StartGun.Gun.BangEnded` | client/src/pages/tools/start-gun-page.tsx:646-650 | the end of the bang starts the final second only for the current sequence |
| `StartGun.Gun.FinalTimerFired` | client/src/pages/tools/start-gun-page.tsx:652-658 | one second after the bang the current sequence returns to idle and unlocks the button; a stale one changes nothing |
| `StartGun.Gun.ResetSequence` | client/src/pages/tools/start-gun-page.tsx:673-754 | a reset is accepted exactly 600 ms or more after the last accepted action; it records the time, invalidates every running sequence, cancels, and returns to idle and unlocked; a refused reset changes nothing |
| `StartGun.StaleUnlockShowsMarks` | client/src/pages/tools/start-gun-page.tsx:595-607 | a start, then a reset while the audio unlocks, then the unlock's end as written leaves the page showing 'on your marks' with no sequence running |
| `StartGun.FullSequence` | client/src/pages/tools/start-gun-page.tsx:563-669 | an accepted start with no interruption shows 'on your marks', 'set', the gun and idle, in that order, and ends unlocked |
| `RepStarter.CountDown` | client/src/pages/tools/rep-starter-page.tsx:117-150 | the numbers announced from a start count n: n, n−1, ..., 1 |
| `RepStarter.CountDownPrefix` | client/src/pages/tools/rep-starter-page.tsx:136-140 | announcing k after the numbers above it extends the countdown by one |
| `RepStarter.Countdown.constructor` | client/src/pages/tools/rep-starter-page.tsx:20-21 | the page starts not playing, with no count and no tick scheduled |
| `RepStarter.Countdown.DisplayText` | client/src/pages/tools/rep-starter-page.tsx:225-231 | 'Ready' exactly without a count, otherwise the count's digits |
| `RepStarter.Countdown.StartCountdown` | client/src/pages/tools/rep-starter-page.tsx:117-133 | a press while playing changes nothing; otherwise the start count is shown and announced, the interval is the speed in milliseconds, and the first tick is scheduled |
| `RepStarter.Countdown.Tick` | client/src/pages/tools/rep-starter-page.tsx:135-151 | each tick lowers the number by one; above zero it is shown and announced and another tick follows, at zero the count is cleared and playing stops |
| `RepStarter.Countdown.CancelCountdown` | client/src/pages/tools/rep-starter-page.tsx:202-210 | cancelling clears the pending tick and the count and stops playing |
| `RepStarter.RunCountdown` | client/src/pages/tools/rep-starter-page.tsx:117-151 | a countdown from n left to run announces exactly n, n−1, ..., 1 and ends showing 'Ready', no longer playing |
| `Stopwatch.RelativeLaps` | client/src/pages/tools/stopwatch-page.tsx:356-358 | the lap list shows for every lap its time minus the previous lap's, the first lap measured from 0 |
| `Stopwatch.LapRows` | client/src/pages/tools/stopwatch-page.tsx:356-376 | the lap list has one row per lap; the row at position k is lap n−1−k, numbered n−k, with its time and its relative lap |
| `Stopwatch.LapRowsNewestFirst` | client/src/pages/tools/stopwatch-page.tsx:356-376 | the newest lap is listed first and the row numbers fall down the list, and each lap i appears, numbered i + 1, with its recorded time and its relative lap |
| `Stopwatch.AscendingLapsNonNegative` | client/src/pages/tools/stopwatch-page.tsx:356-358 | with ascending, non-negative lap times no relative lap is negative |
| `Stopwatch.RelativeLapsPrefix` | client/src/pages/tools/stopwatch-page.tsx:356-358 | the relative laps of the first k laps are the first k relative laps: later laps never change earlier entries |
| `Stopwatch.PrefixLap` | client/src/pages/tools/stopwatch-page.tsx:356-358 | one relative lap depends only on the laps up to it |
| `Stopwatch.LapsAddUp` | client/src/pages/tools/stopwatch-page.tsx:203-205 | the relative laps add up to the last recorded lap time |
| `Stopwatch.RunningTotalIsLapTime` | client/src/pages/tools/stopwatch-page.tsx:203-205 | the relative laps up to lap k add up to the time recorded at lap k |
| `Stopwatch.Watch.constructor` | client/src/pages/tools/stopwatch-page.tsx:8-10 | the watch starts stopped at 0 with no laps |
| `Stopwatch.Watch.Tick` | client/src/pages/tools/stopwatch-page.tsx:44-48 | each 10 ms interval tick while running adds exactly 10 ms, keeping the time on the 10 ms grid |
| `Stopwatch.Watch.HandleStartStop` | client/src/pages/tools/stopwatch-page.tsx:170-172 | start/stop flips the running flag and leaves the time and laps alone |
| `Stopwatch.Watch.HandleReset` | client/src/pages/tools/stopwatch-page.tsx:197-201 | reset stops the watch at 0 and clears the laps |
| `Stopwatch.Watch.HandleLap` | client/src/pages/tools/stopwatch-page.tsx:203-205 | a lap appends the current time; the laps stay ascending and no later than the time |
| `Stopwatch.Watch.Display` | client/src/pages/tools/stopwatch-page.tsx:211-217 | below 100 minutes the clock reads as eight characters `mm:ss.cc` |
| `Stopwatch.Watch.CurrentLap` | client/src/pages/tools/stopwatch-page.tsx:237-241 | the line under the clock appears exactly once a lap exists and shows the time since the last lap, on the 10 ms grid |
| `Stopwatch.NewLapIsTimeSinceLast` | client/src/pages/tools/stopwatch-page.tsx:356-358 | after a lap the newest entry is the time since the previous lap and the earlier entries are unchanged |
| `TimeFormat.ClockParts` | client/src/pages/tools/stopwatch-page.tsx:211-214 | whole minutes, seconds below 60 and hundredths below 100 that together fall short of the milliseconds by less than 10 ms |
| `TimeFormat.FormatClock` | client/src/pages/tools/velocity-tracker.tsx:65-70 | below 100 minutes the display is eight characters with ':' and '.' in their places |
| `TimeFormat.ClockDisplayDeterminesTime` | client/src/pages/tools/stopwatch-page.tsx:211-217 | below 100 minutes two distinct times on the 10 ms grid never read the same |
| `TimeFormat.SplitSeconds` | client/src/pages/tools/photo-finish-fullscreen-fixed.tsx:86-88 | minutes, seconds below 60 and a fraction in units whose value lies within one unit below the time |
| `TimeFormat.FormatFinishTime` | client/src/pages/tools/photo-finish-fullscreen-fixed.tsx:83-90 | a leading '-' exactly for a negative time, then at least the `mm•ss•hh` fields |
| `TimeFormat.NegativeTimeIsSigned` | client/src/pages/tools/photo-finish-fullscreen-fixed.tsx:84-85 | a time before the start point reads as the same time after it with a minus sign in front |
| `TimeFormat.VideoTimeShape` | client/src/pages/tools/photo-finish-page.tsx:197-202 | the library display ends in a point followed by exactly three millisecond digits |
| `VelocityTracker.JsRem` | client/src/pages/tools/velocity-tracker.tsx:76 | JavaScript's `%`: a remainder below the modulus in magnitude with the sign of the dividend |
| `VelocityTracker.StandingPace` | client/src/pages/tools/velocity-tracker.tsx:73 | a speed of 0 reads as the pace '0:00' |
| `VelocityTracker.PaceOfPositiveSpeed` | client/src/pages/tools/velocity-tracker.tsx:74-77 | for a positive speed the pace text is the whole minutes and zero-padded whole seconds of the time per 100 m |
| `VelocityTracker.PaceIsWholeSeconds` | client/src/pages/tools/velocity-tracker.tsx:74-77 | the pace shown is the time per 100 m rounded down to a whole second, with seconds below 60 |
| `VelocityTracker.SplitMatchesJs` | client/src/pages/tools/velocity-tracker.tsx:75-76 | the minutes and seconds computed with floor and `%` are those of the shared clock split |
| `VelocityTracker.FasterIsNoSlowerPace` | client/src/pages/tools/velocity-tracker.tsx:72-78 | a higher speed never shows a slower pace |
| `VelocityTracker.MakeEntry` | client/src/pages/tools/velocity-tracker.tsx:101-113 | a new entry's speed times its time is its distance, and its pace is that speed's |
| `VelocityTracker.Reversed` | client/src/pages/tools/velocity-tracker.tsx:440 | `reverse()`: the same entries, last first |
| `VelocityTracker.ReversedTwice` | client/src/pages/tools/velocity-tracker.tsx:440 | reversing twice gives back the original order |
| `VelocityTracker.RecentSplits` | client/src/pages/tools/velocity-tracker.tsx:279 | the recent panel shows the last five entries at most, newest first |
| `VelocityTracker.RerenderShowsOldestFirst` | client/src/pages/tools/velocity-tracker.tsx:279-440 | after one render of the history as written, the recent panel starts with the oldest entry |
| `VelocityTracker.Tracker.constructor` | client/src/pages/tools/velocity-tracker.tsx:32-43 | stopped at 0, no entries, empty inputs and no required speed |
| `VelocityTracker.Tracker.Tick` | client/src/pages/tools/velocity-tracker.tsx:47-51 | each tick while running adds exactly 10 ms |
| `VelocityTracker.Tracker.HandleStart` | client/src/pages/tools/velocity-tracker.tsx:80-82 | start sets the running flag |
| `VelocityTracker.Tracker.HandlePause` | client/src/pages/tools/velocity-tracker.tsx:84-86 | pause clears the running flag |
| `VelocityTracker.Tracker.HandleReset` | client/src/pages/tools/velocity-tracker.tsx:88-92 | reset stops at 0 and clears the entries |
| `VelocityTracker.Tracker.HandleSplit` | client/src/pages/tools/velocity-tracker.tsx:94-114 | with time run and a non-empty numeric answer the split for that distance over the running seconds is appended; otherwise nothing changes |
| `VelocityTracker.Tracker.SetDistance` | client/src/pages/tools/velocity-tracker.tsx:326 | typing in the distance input replaces only that text |
| `VelocityTracker.Tracker.SetManualTime` | client/src/pages/tools/velocity-tracker.tsx:338 | typing in the manual time input replaces only that text |
| `VelocityTracker.Tracker.SetTargetDistance` | client/src/pages/tools/velocity-tracker.tsx:374 | typing in the target distance input replaces only that text |
| `VelocityTracker.Tracker.SetTargetTime` | client/src/pages/tools/velocity-tracker.tsx:386 | typing in the target time input replaces only that text |
| `VelocityTracker.Tracker.HandleManualEntry` | client/src/pages/tools/velocity-tracker.tsx:116-138 | two non-empty inputs whose numbers are positive append their entry and clear both inputs; anything else changes nothing |
| `VelocityTracker.Tracker.CalculateRequiredSpeed` | client/src/pages/tools/velocity-tracker.tsx:140-150 | for two positive numbers the required speed is distance over time; otherwise the previous result stays |
| `VelocityTracker.Tracker.ClearHistory` | client/src/pages/tools/velocity-tracker.tsx:152-154 | clearing removes every entry |
| `VelocityTracker.Tracker.RenderHistory` | client/src/pages/tools/velocity-tracker.tsx:440 | as written the history render shows the entries newest first and leaves the stored entries reversed |
| `VelocityTracker.Tracker.ShowHistory` | client/src/pages/tools/velocity-tracker.tsx:279-440 | the intended render: the full history newest first, the recent panel its first five, the entries untouched |
| `VelocityTracker.RenderTwice` | client/src/pages/tools/velocity-tracker.tsx:440 | two renders as written show opposite orders: the second shows the stored order again |
| `Tracklympics.FinishAtStep102` | client/src/pages/arcade/tracklympics-page.tsx:790-794 | at 6 pixels a step from x = 90 the finish line at 700 is reached exactly from step 102 on |
| `Tracklympics.UpdateStats` | client/src/pages/arcade/tracklympics-page.tsx:799-802 | a finish counts one more race; the best time is the first time, then the smaller of the old best and the new time |
| `Tracklympics.BestTimeIsFastest` | client/src/pages/arcade/tracklympics-page.tsx:799-802 | after any races with positive times every race is counted and the best time is one of them that none beats |
| `Tracklympics.RaceRating` | client/src/pages/arcade/tracklympics-page.tsx:834-840 | the five rating bands: below 10, 11, 12 and 15 seconds, and the rest |
| `Tracklympics.RatingMonotone` | client/src/pages/arcade/tracklympics-page.tsx:834-840 | a faster time never gets a lower rating |
| `Tracklympics.Race.constructor` | client/src/pages/arcade/tracklympics-page.tsx:27-37 | the splash screen, at the start, left foot first, not started, clock at 0, no races and no best time |
| `Tracklympics.Race.StartRaceSequence` | client/src/pages/arcade/tracklympics-page.tsx:756-760 | the runner is back at the start, not started or finished, and the clock is at 0 |
| `Tracklympics.Race.Go` | client/src/pages/arcade/tracklympics-page.tsx:767-769 | the 'GO!' timeout starts the race |
| `Tracklympics.Race.ClockTick` | client/src/pages/arcade/tracklympics-page.tsx:771-778 | as written every tick sets the clock to the seconds since the gun, also after the finish |
| `Tracklympics.Race.ClockTickAsIntended` | client/src/pages/arcade/tracklympics-page.tsx:773-777 | the intended tick: seconds since the gun until the finish, then the clock stays |
| `Tracklympics.Race.ShownRating` | client/src/pages/arcade/tracklympics-page.tsx:881-884 | the badge appears exactly after the finish with a best time, rating the clock's time |
| `Tracklympics.Race.HandleFootstep` | client/src/pages/arcade/tracklympics-page.tsx:813-821 | a tap with the expected foot during the race moves one step and swaps feet; any other tap changes nothing |
| `Tracklympics.Race.CheckFinish` | client/src/pages/arcade/tracklympics-page.tsx:782-811 | reaching the finish line during the race ends it and records the clock's time in the stats exactly once |
| `Tracklympics.Race.ResetGame` | client/src/pages/arcade/tracklympics-page.tsx:823-832 | back to the splash screen at the start, left foot first, not started, clock at 0; the stats are kept |
| `Tracklympics.RatingDriftsAfterFinish` | client/src/pages/arcade/tracklympics-page.tsx:771-778 | as written a 9.5 s finish shows 'World Record!' until a tick 16 s after the gun shows 'Keep Training!' |
| `Tracklympics.RatingKeptAfterFinish` | client/src/pages/arcade/tracklympics-page.tsx:881-884 | with the clock stopped at the finish later ticks change neither the time nor the rating shown |
| `Tracklympics.SameFootTwice` | client/src/pages/arcade/tracklympics-page.tsx:816-820 | tapping the same foot twice moves at most one step |
| `Tracklympics.RunAlternating` | client/src/pages/arcade/tracklympics-page.tsx:782-821 | perfectly alternating taps from the start line finish after exactly 102 steps, counted once in the stats |
| `ReactionTime.StartDelay` | client/src/pages/arcade/reaction-time-page.tsx:201 | the target's delay lies in [2000, 5000) ms |
| `ReactionTime.UpdateStats` | client/src/pages/arcade/reaction-time-page.tsx:174-187 | one more attempt with this reaction as the last; the first reaction is the average, later the running mean rounded to the nearest millisecond; the best is the first or the smaller |
| `ReactionTime.StatsSummarise` | client/src/pages/arcade/reaction-time-page.tsx:174-187 | after reactions all within [lo, hi] every attempt is counted, the rounded average stays within [lo, hi], the last is the latest and the best beats none |
| `ReactionTime.RatingOf` | client/src/pages/arcade/reaction-time-page.tsx:238-244 | the five rating bands: below 200, 250, 300 and 400 ms, and the rest |
| `ReactionTime.RatingMonotone` | client/src/pages/arcade/reaction-time-page.tsx:238-244 | a quicker reaction never gets a lower rating |
| `ReactionTime.Game.constructor` | client/src/pages/arcade/reaction-time-page.tsx:22-31 | waiting, with empty stats and nothing scheduled |
| `ReactionTime.Game.StartGame` | client/src/pages/arcade/reaction-time-page.tsx:197-207 | ready, with the target's timeout scheduled after the random delay |
| `ReactionTime.Game.GoTimeout` | client/src/pages/arcade/reaction-time-page.tsx:203-206 | the timeout starts the clock at its firing time and shows the target |
| `ReactionTime.Game.EarlyClick` | client/src/pages/arcade/reaction-time-page.tsx:209-215 | a click before the target cancels its timeout and fails the round |
| `ReactionTime.Game.TooEarlyTimeout` | client/src/pages/arcade/reaction-time-page.tsx:212-214 | two seconds after a failed round the game waits again |
| `ReactionTime.Game.ResultTimeout` | client/src/pages/arcade/reaction-time-page.tsx:191-193 | two seconds after a measured round the game is finished |
| `ReactionTime.Game.TargetClickAsWritten` | client/src/pages/arcade/reaction-time-page.tsx:98 | the handler registered once on mount tests the state of that first render, so a click counts only if that state was 'go' |
| `ReactionTime.Game.HandleTargetClick` | client/src/pages/arcade/reaction-time-page.tsx:167-195 | reading the current state, a click in 'go' measures the time since the target appeared and counts it; otherwise nothing changes |
| `ReactionTime.Game.ResetStats` | client/src/pages/arcade/reaction-time-page.tsx:229-236 | the stats are back to zero |
| `ReactionTime.LostTargetClick` | client/src/pages/arcade/reaction-time-page.tsx:98 | as written a 250 ms click on the target leaves the game at 'go' with no attempt counted |
| `ReactionTime.CountedTargetClick` | client/src/pages/arcade/reaction-time-page.tsx:167-195 | with the current state read, the same click counts one 250 ms attempt rated 'Good' |
| `VideoAnalysis.CheckFile` | client/src/pages/video-analysis-page.tsx:365-386 | a type outside the four video types is refused first; an allowed type above 100 MB is too large; otherwise accepted |
| `VideoAnalysis.SizeLimitInclusive` | client/src/pages/video-analysis-page.tsx:378-379 | a file of exactly 100 MB is accepted and one byte more is too large |
| `VideoAnalysis.LastIndex` | client/src/pages/video-analysis-page.tsx:389 | the last position of a character, or none when it does not occur |
| `VideoAnalysis.StripExtension` | client/src/pages/video-analysis-page.tsx:389 | `replace(/\.[^/.]+$/, "")`: a final dot followed by at least one character other than '/' and '.' is removed with what follows; otherwise the name is kept |
| `VideoAnalysis.ExtensionUnique` | client/src/pages/video-analysis-page.tsx:389 | a name has at most one such extension position |
| `VideoAnalysis.StripExamples` | client/src/pages/video-analysis-page.tsx:389 | 'clip.mp4' becomes 'clip', 'a.b.mov' 'a.b', while 'run.' and 'v.2/run' are kept |
| `VideoAnalysis.AutoUpload` | client/src/pages/video-analysis-page.tsx:396-404 | the delayed upload is sent exactly when the name without extension is not blank, with that name and no description |
| `VideoAnalysis.HiddenFileNotAutoUploaded` | client/src/pages/video-analysis-page.tsx:396-404 | a file named '.mp4' is never uploaded automatically |
| `VideoAnalysis.UntickThenTickReorders` | client/src/pages/video-analysis-page.tsx:323-329 | unticking and ticking an analysis type again moves it behind the others |
| `VideoAnalysis.Limits` | client/src/pages/video-analysis-page.tsx:237-255 | none when signed out, unlimited for star, 5 for pro and 1 for any other tier, always with full usage remaining |
| `VideoAnalysis.LimitReachedIffSignedOut` | client/src/pages/video-analysis-page.tsx:237-255 | the allowance is used up exactly when nobody is signed in |
| `VideoAnalysis.DecideAnalyze` | client/src/pages/video-analysis-page.tsx:257-280 | no video is refused first, then a used-up allowance naming its total; otherwise the analysis of that video and prompt starts |
| `VideoAnalysis.SignedInCanAnalyze` | client/src/pages/video-analysis-page.tsx:257-280 | any signed-in athlete with a video may start an analysis |
| `VideoAnalysis.RunChoice` | client/src/pages/video-analysis-page.tsx:442-457 | a non-blank custom prompt runs as 'custom'; otherwise the first ticked type, or nothing when none is ticked |
| `VideoAnalysis.DecideSubmit` | client/src/pages/video-analysis-page.tsx:413-440 | no file is refused first, then a blank name; otherwise the file with its name and description is uploaded |
| `VideoAnalysis.AnalysisPage.constructor` | client/src/pages/video-analysis-page.tsx:20-32 | the upload step with no file, name, video, ticked types, custom prompt or response |
| `VideoAnalysis.AnalysisPage.TogglePrompt` | client/src/pages/video-analysis-page.tsx:323-329 | a ticked type is removed and an unticked one appended, never listing a type twice |
| `VideoAnalysis.AnalysisPage.SelectFile` | client/src/pages/video-analysis-page.tsx:365-405 | a refused file changes nothing; an accepted one is kept with its name without extension and the delayed upload scheduled |
| `VideoAnalysis.AnalysisPage.Submit` | client/src/pages/video-analysis-page.tsx:413-440 | the manual upload follows the submit decision on the page's file, name and description |
| `VideoAnalysis.AnalysisPage.UploadSucceeded` | client/src/pages/video-analysis-page.tsx:141-150 | a finished upload selects its video and moves to the video step |
| `VideoAnalysis.AnalysisPage.Analyze` | client/src/pages/video-analysis-page.tsx:257-280 | a started analysis sets the analysing flag and clears the response; a refused one changes neither |
| `VideoAnalysis.AnalysisPage.RunSelectedAnalyses` | client/src/pages/video-analysis-page.tsx:442-457 | nothing is analysed without a choice; otherwise the chosen prompt goes through the analyse decision |
| `VideoAnalysis.AnalysisPage.AnalysisSucceeded` | client/src/pages/video-analysis-page.tsx:203-224 | the response is stored, the flag cleared and the results step shown |
| `VideoAnalysis.AnalysisPage.AnalysisFailed` | client/src/pages/video-analysis-page.tsx:225-226 | a failed analysis clears the analysing flag |
| `VideoAnalysis.AnalysisPage.ResetForm` | client/src/pages/video-analysis-page.tsx:282-297 | back to the upload step with no file, name, video, ticked types, custom prompt or response; the athlete and analysing flag stay |
| `VideoAnalysis.ResetThenAnalyze` | client/src/pages/video-analysis-page.tsx:257-297 | after a reset an analysis is refused for want of a video |
| `SprinthiaVideo.CanAnalyze` | client/src/pages/tools/sprinthia-video-analysis.tsx:155-163 | no usage record means no; star always; pro below the weekly and free below the monthly allowance; otherwise only with enough Spikes for one prompt |
| `SprinthiaVideo.PastAllowanceNeedsSpikes` | client/src/pages/tools/sprinthia-video-analysis.tsx:155-163 | past its tier's allowance an athlete may analyse exactly when the Spikes cover one prompt |
| `SprinthiaVideo.ProIgnoresMonthly` | client/src/pages/tools/sprinthia-video-analysis.tsx:159 | a pro athlete's monthly count never matters |
| `SprinthiaVideo.UsageText` | client/src/pages/tools/sprinthia-video-analysis.tsx:165-171 | empty without usage, 'Unlimited analysis' for star, the weekly count for pro and the monthly count for any other tier |
| `SprinthiaVideo.UsageTextStartsWithCount` | client/src/pages/tools/sprinthia-video-analysis.tsx:169-170 | below the star tier the usage line starts with the count used for that tier's period |
| `SprinthiaVideo.Submit` | client/src/pages/tools/sprinthia-video-analysis.tsx:137-153 | refused exactly when the link, title or type is empty; otherwise those three sent, with the custom prompt only when one was typed |
| `SprinthiaVideo.EnabledButtonSubmits` | client/src/pages/tools/sprinthia-video-analysis.tsx:314 | whenever the button is enabled a press sends a request |
| `SprinthiaVideo.ClearedForm` | client/src/pages/tools/sprinthia-video-analysis.tsx:123-126 | the form cleared after a started analysis sends nothing until refilled |
| `ExerciseLibrary.SubscriptionTier` | client/src/pages/exercise-library-page.tsx:207-212 | star exactly for a premium viewer, pro for a pro user who is not premium, free when signed out or neither |
| `ExerciseLibrary.CanShareLibrary` | client/src/pages/exercise-library-page.tsx:214-218 | pro and star may always share; a free viewer exactly with at least 100 Spikes, a missing balance counting as 0 |
| `ExerciseLibrary.ShareMonotoneInSpikes` | client/src/pages/exercise-library-page.tsx:214-218 | a signed-out viewer cannot share, and more Spikes never take the right away |
| `ExerciseLibrary.SizeTenths` | client/src/pages/exercise-library-page.tsx:222-223 | the size in megabytes of 2^20 bytes rounded to the nearest tenth, halves up |
| `ExerciseLibrary.FormatFileSize` | client/src/pages/exercise-library-page.tsx:220-224 | empty for a missing or zero size, otherwise the megabytes with one decimal and ' MB' |
| `ExerciseLibrary.WholeMegabytes` | client/src/pages/exercise-library-page.tsx:220-224 | k whole megabytes read as 'k.0 MB' |
| `ExerciseLibrary.LabelShape` | client/src/pages/exercise-library-page.tsx:220-224 | every non-empty label ends in ' MB' with a single digit after the point |
| `ExerciseLibrary.Thumbnail` | client/src/pages/exercise-library-page.tsx:226-231 | a YouTube item's stored thumbnail when it has one, the placeholder otherwise |
| `ExerciseLibrary.UploadShowsPlaceholder` | client/src/pages/exercise-library-page.tsx:226-231 | an uploaded file always shows the placeholder |
| `ExerciseLibrary.CheckboxChange` | client/src/pages/exercise-library-page-clean.tsx:535-542 | checking appends the contact; unchecking removes exactly that contact and keeps every other |
| `ExerciseLibrary.CheckboxIsToggle` | client/src/pages/exercise-library-page.tsx:634-639 | since the box shows whether the contact is chosen, its change is the full page's click toggle |
| `ExerciseLibrary.ChoosingKeepsRecipientsDistinct` | client/src/pages/exercise-library-page.tsx:634-639 | neither way of choosing recipients lists anyone twice |
| `ExerciseLibrary.SearchResults` | client/src/pages/exercise-library-page.tsx:192-205 | a query whose `.length` is at least 2 UTF-16 code units shows the server's matches, a shorter one clears them |
| `ExerciseLibrary.AstralCharacterSearched` | client/src/pages/exercise-library-page.tsx:192-205 | a single character outside the Basic Multilingual Plane is already a long enough query, since it counts two code units |
| `ExerciseLibrary.ShareInternal` | client/src/pages/exercise-library-page.tsx:172-180 | sent exactly with an exercise open and at least one recipient, carrying its id, the recipients and the message |
| `ExerciseLibrary.LibraryShare` | client/src/pages/exercise-library-page.tsx:182-189 | sent exactly with at least one recipient, carrying them and the Spikes choice |
| `ExerciseLibrary.ShareClearsRecipients` | client/src/pages/exercise-library-page.tsx:117-119 | after a successful share cleared the recipients a second press sends nothing |
| `ExerciseLibrary.ShareLabel` | client/src/pages/exercise-library-page.tsx:671 | 'Share with 1 person', otherwise 'Share with n people' |
| `Onboarding.StepRoute` | client/src/pages/onboarding/onboarding-container.tsx:262-267 | the address of each of the three steps |
| `Onboarding.StepOfPath` | client/src/pages/onboarding/onboarding-container.tsx:270-279 | the step an onboarding address opens, none for any other address |
| `Onboarding.RoutesBijective` | client/src/pages/onboarding/onboarding-container.tsx:262-279 | steps and addresses correspond one to one in both directions |
| `Onboarding.SwipeOf` | client/src/pages/onboarding/onboarding-container.tsx:238-245 | a swipe exactly when both touch points exist and the movement is mostly horizontal and longer than 50 pixels; a finger moving left is a left swipe |
| `Onboarding.SwipeStep` | client/src/pages/onboarding/onboarding-container.tsx:246-257 | a left swipe goes to the next step and a right swipe to the previous, stopping at the ends; no swipe keeps the step |
| `Onboarding.SwipesUndo` | client/src/pages/onboarding/onboarding-container.tsx:246-257 | away from the ends a left and a right swipe undo each other |
| `Onboarding.TapKeepsStep` | client/src/pages/onboarding/onboarding-container.tsx:223-245 | a tap, with no movement or none recorded, never changes the step |
| `Onboarding.ShownMonotone` | client/src/pages/onboarding/onboarding-container.tsx:52-59 | the count-up never goes down and never passes 100 |
| `Onboarding.PathEffect` | client/src/pages/onboarding/onboarding-container.tsx:270-279 | the path effect sets the step an onboarding address names and keeps the step for any other address |
| `Onboarding.MountAsWritten` | client/src/pages/onboarding/onboarding-container.tsx:16-279 | as written the mount always shows the welcome step at the welcome address: the URL effect, declared first, pushes step 0's address before the path effect reads it |
| `Onboarding.MountCorrected` | client/src/pages/onboarding/onboarding-container.tsx:262-279 | with the opening address read first, an onboarding address opens its own step and stays, and any other address opens the welcome step |
| `Onboarding.DeepLinkLost` | client/src/pages/onboarding/onboarding-container.tsx:262-279 | a page opened at '/onboarding/spikes' shows the welcome step as written, and the Spikes step when the address is read first |
| `Onboarding.OnboardingFlow.AsWritten` | client/src/pages/onboarding/onboarding-container.tsx:16-279 | the flow as mounted by the source: step 0 at the welcome address whatever the address opened, with no gesture, no claim and a count of 0 |
| `Onboarding.OnboardingFlow.constructor` | client/src/pages/onboarding/onboarding-container.tsx:16-279 | the corrected mount: the flow opens on the step of its address, or the first, with no gesture, no claim and a count of 0 |
| `Onboarding.OnboardingFlow.TouchStart` | client/src/pages/onboarding/onboarding-container.tsx:223-229 | a new gesture records its start and forgets the previous end |
| `Onboarding.OnboardingFlow.TouchMove` | client/src/pages/onboarding/onboarding-container.tsx:231-236 | the latest finger position is the gesture's end |
| `Onboarding.OnboardingFlow.TouchEnd` | client/src/pages/onboarding/onboarding-container.tsx:238-258 | the step after the gesture's swipe, if any, and always a valid step |
| `Onboarding.OnboardingFlow.GoToStep` | client/src/pages/onboarding/onboarding-container.tsx:304 | a navigation dot shows its step |
| `Onboarding.OnboardingFlow.Finish` | client/src/pages/onboarding/onboarding-container.tsx:93 | Skip, Get Started or Start Training records onboarding as done |
| `Onboarding.OnboardingFlow.ClaimSucceeded` | client/src/pages/onboarding/onboarding-container.tsx:30-59 | a successful claim counts up over 40 ticks of 2.5, showing the floor each tick, never decreasing, and ending at exactly 100 |
| `SprinthiaChat.FirstMatch` | tracklit-mobile/src/screens/SprinthiaScreen.tsx:78-106 | the position of the first rule one of whose keywords the text contains, every earlier rule failing; none exactly when no rule matches |
| `SprinthiaChat.ReplyIsFirstMatch` | tracklit-mobile/src/screens/SprinthiaScreen.tsx:78-106 | the lower-cased message gets the reply of the first matching keyword rule, and the general reply when none matches |
| `SprinthiaChat.ReplyIgnoresCase` | tracklit-mobile/src/screens/SprinthiaScreen.tsx:79 | capitals in the message never change the reply |
| `SprinthiaChat.NutritionPromptAnsweredAsTechnique` | tracklit-mobile/src/screens/SprinthiaScreen.tsx:30 | as written the quick prompt 'Nutrition advice for sprinters' gets the sprint technique reply, because 'sprinters' contains 'sprint' |
| `SprinthiaChat.CorrectedReply` | tracklit-mobile/src/screens/SprinthiaScreen.tsx:81-99 | with the nutrition rule tried right after the workout rule, the first matching rule of that order gives the reply |
| `SprinthiaChat.CorrectedNutritionPrompt` | tracklit-mobile/src/screens/SprinthiaScreen.tsx:30 | in the corrected order the nutrition quick prompt gets the nutrition reply |
| `SprinthiaChat.CorrectedAgreesElsewhere` | tracklit-mobile/src/screens/SprinthiaScreen.tsx:81-99 | the corrected order answers as written for any message that does not match both the nutrition rule and one of the three rules it moves ahead of |
| `SprinthiaChat.ChatScreen.constructor` | tracklit-mobile/src/screens/SprinthiaScreen.tsx:35-46 | the chat opens with the coach's welcome alone and an empty input |
| `SprinthiaChat.ChatScreen.QuickPrompt` | tracklit-mobile/src/screens/SprinthiaScreen.tsx:74-76 | a quick prompt becomes the input text |
| `SprinthiaChat.ChatScreen.SendMessage` | tracklit-mobile/src/screens/SprinthiaScreen.tsx:49-60 | input of white space only changes nothing; otherwise the text is appended as the athlete's message, the input cleared and the reply to that text scheduled |
| `SprinthiaChat.ChatScreen.ReplyArrived` | tracklit-mobile/src/screens/SprinthiaScreen.tsx:62-71 | the timer appends exactly one coach message, the reply to the sent text, keeping the welcome first |
| `SprinthiaChat.Exchange` | tracklit-mobile/src/screens/SprinthiaScreen.tsx:49-76 | a quick prompt sent and answered adds the athlete's message and then the coach's reply to it, and hides the quick prompts |
| `FeedPage.EditRights` | client/src/pages/feed-page.tsx:179-183 | whatever may be edited may be deleted, the edit window only closes as time passes, is closed an hour after posting and open at the moment of posting |
| `FeedPage.EditOfferedWithinServerWindow` | client/src/pages/feed-page.tsx:179-183 | the page offers editing only inside the window the feed router enforces |
| `FeedPage.CreatePost` | client/src/pages/feed-page.tsx:133-142 | the untrimmed text is sent exactly when its trimmed form has a `.length` of at least 5 UTF-16 code units |
| `FeedPage.AstralPostSent` | client/src/pages/feed-page.tsx:133-142 | three characters outside the Basic Multilingual Plane, with no white space around them, are sent unchanged |
| `FeedPage.BlankPostRefused` | client/src/pages/feed-page.tsx:133-142 | white space alone never makes a post |
| `FeedPage.CreatedPostAccepted` | client/src/pages/feed-page.tsx:133-142 | every post the page sends passes the router's validation |
| `FeedPage.EditStart` | client/src/pages/feed-page.tsx:144-147 | the edit box starts from the post's text, or empty without one |
| `FeedPage.SaveEdit` | client/src/pages/feed-page.tsx:149-159 | sent exactly with a post being edited and a trimmed text of at least 5 UTF-16 code units, carrying the post's id and the untrimmed text |
| `FeedPage.SavedEditAccepted` | client/src/pages/feed-page.tsx:149-159 | a saved edit has the length the router asks of new text |
| `FeedPage.Like` | client/src/pages/feed-page.tsx:167-171 | only a post is liked, by its own id |
| `FeedPage.ShowPost` | client/src/pages/feed-page.tsx:173-177 | only a post opens, at '/feed/' and its id |
| `FeedPage.LikeAndOpenAgree` | client/src/pages/feed-page.tsx:167-236 | liking and opening act on the same items, and an activity can be neither liked, edited nor deleted |
| `GroupsPage.GetGroupLimits` | client/src/pages/groups-page.tsx:167-175 | star athletes unlimited, coaches 10 groups of 50 members, and no allowance for anyone who may not create groups |
| `GroupsPage.CreationRights` | client/src/pages/groups-page.tsx:164-193 | whoever may not create groups has no allowance left; the button always shows for a star athlete and for a coach below star exactly while fewer than 10 groups are listed |
| `GroupsPage.FilterGroups` | client/src/pages/groups-page.tsx:70-73 | the search keeps exactly the groups whose lower-cased name or description contains the lower-cased query, in order |
| `GroupsPage.AccentedQueryFindsGroup` | client/src/pages/groups-page.tsx:70-73 | the lower-cased query 'é' finds a group named 'École', as Latin-1 capitals lower-case |
| `GroupsPage.EmptySearchKeepsAll` | client/src/pages/groups-page.tsx:70-73 | an empty search keeps every group |
| `GroupsPage.SearchIgnoresCase` | client/src/pages/groups-page.tsx:70-73 | capitals in the query never change the result |
| `GroupsPage.CreateGroup` | client/src/pages/groups-page.tsx:146-154 | nothing is sent without a non-blank name; otherwise the trimmed name and description and whether privacy is 'private' |
| `GroupsPage.IdeographicSpaceNameRefused` | client/src/pages/groups-page.tsx:146-154 | a name of ideographic spaces (U+3000) is blank to `trim` and creates nothing |
| `GroupsPage.SendMessage` | client/src/pages/groups-page.tsx:137-144 | nothing is sent with a blank message or without a chosen group; otherwise the trimmed message to that group |
| `GroupsPage.BlankMessageNotSent` | client/src/pages/groups-page.tsx:137-144 | a message of white space only is never sent |


## Left out

- Express routing, authentication, the Drizzle queries and `pool.query`: the tables are maps and sequences inside `Storage.Store` and the other classes, and fetched records are inputs.
- Google Sheets, World Athletics, OpenAI, Stripe, multer and sharp are outside the model. Their answers, success or failure, are parameters.
- MediaPipe inference, OpenCV video decoding, the KLT tracker and the cosmetic skeleton renderer are outside the model. Landmarks arrive as inputs.
- Canvas, pixi.js and SVG drawing, confetti, audio playback, camera, vibration and flashlight are not modelled. Only the state the drawing reads is.
- `setTimeout` and `setInterval` are not modelled as a scheduler. Each callback is a method that the caller invokes when the timer would fire, and the scheduled delay is recorded or returned.
- `Date.now()`, `new Date()`, the current hour and `Math.random()` are parameters. Times are integer milliseconds or day numbers.
- Calendar and time-zone semantics (`toDateString`, `getDay`, `setDate`, `toISOString`, daylight saving) are not modelled: days are integers.
- `Math.sqrt` and `Math.acos` (Python `np.arccos`, `math.sqrt`) are not computed. Angles, distances and standard deviations are parameters, or the property is stated on squared quantities, such as speed below 50 as vx² + vy² < 2500.
- Floating-point rounding is not modelled. Numeric values are exact `real`s; JavaScript `Math.round` is floor(x + 0.5), and Python `int()` truncates toward zero.
- `Number()`, `parseInt` and `parseFloat` of typed text are parameters of option type, with `None` for NaN.
- `toFixed`'s and `toLocaleString`'s digits are not generated as text where the value shown is what matters. The modules state that value.
- localStorage, sessionStorage, clipboard copying, object URLs for previews, toasts and navigation are not modelled, except where a page's state records the outcome (the onboarding completion flag).
- The simulated progress stages of the video analysis page are not modelled.
- The Sprinthia chat's reply texts are named by their topic, and its message timestamps are left out.
- Routes registered twice in `server/routes.ts`: only the first registration is modelled, because only it handles requests.
- `PhotoFinishLibrary.UsagePercentage`: requires a positive tier limit. A zero limit, where the source divides by zero, is not modelled.
- `getTierLimit` (client/src/pages/tools/photo-finish-page.tsx:34) is not part of this model. The photo-finish usage percentage takes the limit as a parameter.
- `PhotoFinishViewer.Viewer.HandleCanvasClick`: requires a positive canvas size. With a zero-size canvas the source stores non-finite percentages, which `real` cannot represent.
- `PhotoFinishViewer.ScrubTime`: requires a non-negative bar width, which a laid-out element always has. A zero width is the source's NaN and never seeks.
- `Practice.Round2`: models `parseFloat(x.toFixed(2))` as the exact nearest hundredth, halves up. It requires a non-negative time, which every entry of the best-time table is.
- `Practice.ExactGoal`: requires a positive percentage and a non-negative best time. Every table entry is positive, and `Practice.GoalTime` handles the slider's 0 %.
- `Practice.GoalTime`: a 0 % intensity gives JavaScript's `Infinity` in the source and `None` here.
- `VideoPose.AnalyzeVideo`: a frame rate of 0, where Python divides by zero, is returned as an error. An asymmetry that NumPy would make non-finite is `None`.
- `Subscriptions.PriceValue`: states the amount shown, not the `toFixed(2)` text or the currency symbol's placement.
- `PhotoFinishLibrary.FormatFileSize`: states the unit chosen and the value divided for it, not the one-decimal rounding.
- `Stopwatch.Watch.Display`: states the shape of the clock for times below 100 minutes. Its fields are those of `TimeFormat.ClockParts`, and `TimeFormat.ClockDisplayDeterminesTime` shows that the display identifies the time.
- `Tracklympics.Race.ClockTick`: the interval tests a `raceFinished` value captured when the clock started. The model takes that value as false, as it is for the first race. A sequence started from handlers installed while a finished race was shown would capture true and stop its clock at the first tick; that case is not modelled.
- `VelocityTracker.Tracker`: the `toFixed(2)` texts of times and speeds and each entry's timestamp are not modelled.
- `CommunityCarousel.Carousel`: the activity list is fixed once the carousel holds it. A refetch that shortens the list below the current index is not modelled.
- `FeedPage`: the browser's confirmation before a delete is not modelled. The deletion rules are those of `Feed`.
- `MediapipeSimple.FallbackAnalysis`: states which phrase each paragraph of the fallback report picks. The report's text and its `toFixed` figures are not generated, and neither is the prompt sent to the language model.
- `MediapipeSimple`: the Python process and the three-second timeout race are parameters: which one answered first, and with what output.
- `StartGun.Gun`: audio playback is not modelled. The end of the audio unlock, the end of each clip and each timer are event methods.
- `Common.ToLower`: lower-cases the ASCII and Latin-1 capitals only. JavaScript's full Unicode `toLowerCase` (Greek, Cyrillic and the other scripts, and 'İ', which lowers to two characters) is not modelled.
- `GroupsPage.FilterGroups`: the case-insensitive match is exact for names and queries in ASCII and Latin-1. Outside them it rests on `Common.ToLower`'s narrower lower-casing.
- `Routes.MatchesSearch`: the athlete search lower-cases with `Common.ToLower`, so names with capitals beyond Latin-1 are compared without that lower-casing.
- `SprinthiaChat.ReplyIsFirstMatch`: the keyword match lower-cases with `Common.ToLower`, so a message whose capitals lie beyond Latin-1 is compared without that lower-casing.
- `Sheets.SheetTitle`: the regular expression `/<title>(.*?)<\/title>/i` is not run on the fallback page. The text it captures is a parameter of the lookup.
- `Routes.CompetitionsPage`: the date, tab and name filters and the date sort (server/routes.ts:7246-7322), and the inserts of external competitions, are outside the model. Its list is the one they produce, and whether the fetch itself was empty is a parameter.

## Findings

| source | as written | input that shows it | evidently intended | confidence | as-written member | corrected member |
|---|---|---|---|---|---|---|
| server/notification-system.ts:400-408 | the broadcast insert refers to `notificationData`, which is never defined, so every call throws before inserting | any broadcast with at least one recipient | one unread notification per recipient | not executed | `Notifications.SendAdminBroadcastAsWritten`, with `Notifications.BroadcastDiscrepancy` | `Notifications.SendAdminBroadcast` |
| client/src/pages/tools/start-gun-page.tsx:601-607 | after the audio unlock the sequence shows 'on your marks' and clears the cancel flag without checking that it is still the current sequence | a start at 1000 ms, then a reset at 1600 ms while the unlock is pending | a reset sequence leaves the page idle | not executed | `StartGun.Gun.UnlockDoneAsWritten`, with `StartGun.StaleUnlockShowsMarks` | `StartGun.Gun.UnlockDone` |
| client/src/pages/arcade/reaction-time-page.tsx:98 | the click handler attached on mount keeps the game state of that first render, 'waiting', so it ignores a click on the shown target | a click at 3750 ms after the target appeared at 3500 ms | the click is recorded as a 250 ms reaction | not executed | `ReactionTime.Game.TargetClickAsWritten`, with `ReactionTime.LostTargetClick` | `ReactionTime.Game.HandleTargetClick`, with `ReactionTime.CountedTargetClick` |
| client/src/components/community-carousel.tsx:207-213 | with a single activity, the current card gets offset +1 and is placed to the right, out of view | a carousel of one activity | the only card is the centred one | not executed | `CommunityCarousel.SingleCardOffScreen` | `CommunityCarousel.CurrentCardVisible` |
| tracklit-mobile/src/screens/SprinthiaScreen.tsx:85-97 | the technique rule, keyword 'sprint', is tried before the nutrition rule | the quick prompt "Nutrition advice for sprinters" | the nutrition reply for the nutrition prompt | not executed | `SprinthiaChat.NutritionPromptAnsweredAsTechnique` | `SprinthiaChat.CorrectedNutritionPrompt` |
| client/src/pages/tools/velocity-tracker.tsx:440 | the history list calls `splits.reverse()`, which reverses the state array itself, so every render flips it and the recent-splits panel then shows the oldest split first | two splits, then two renders | the history newest first, state untouched | not executed | `VelocityTracker.RerenderShowsOldestFirst`, with `VelocityTracker.Tracker.RenderHistory` | `VelocityTracker.Tracker.ShowHistory` |
| client/src/pages/arcade/tracklympics-page.tsx:771-778 | the clock interval tests the `raceFinished` captured when it started, so it keeps counting after the finish and the rating badge rates the running clock | a finish at 9.5 s, then a tick at 16 s | the clock stops at the finish and the rating stays World Record | not executed | `Tracklympics.RatingDriftsAfterFinish` | `Tracklympics.RatingKeptAfterFinish`, with `Tracklympics.Race.ClockTickAsIntended` |
| client/src/pages/onboarding/onboarding-container.tsx:262-279 | the URL effect is declared before the path effect, so on mount it pushes '/onboarding/welcome' for the initial step 0, and the path effect then reads that address instead of the one the page was opened at | opening the page at '/onboarding/spikes' | the page opens on the step its address names, which is what the path effect is for | not executed | `Onboarding.MountAsWritten`, with `Onboarding.DeepLinkLost` | `Onboarding.MountCorrected` |
