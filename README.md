# YSC Lunch Soccer — a verified model of its core logic

This project models the logic of the YSC Lunch Soccer web application in Dafny
and proves what that logic promises. The application organises Monday and
Friday lunch-time football sessions.

The centre of the model is the team randomiser (`randomizeTeams`):
- it sorts the "yes" attendees of a session into five skill tiers;
- it shuffles each tier with Fisher-Yates;
- it deals the players, strongest tier first, to two, three or four teams in snake order.

Around it sit the smaller rules of the application:
- the RSVP counter of a session card;
- the picker of upcoming Monday/Friday sessions and its `YYYY-MM-DD` date strings;
- the nightly job that tops the session table up to eight future sessions;
- the signup/login routes over the user table;
- the chat routes over the message table;
- the CORS origin check of the API server;
- the home-page carousel;
- the two maintenance scripts: the test-user cleanup and the signup load test.

Each source file is one module:

| file | module | source |
|---|---|---|
| `team_randomizer.dfy` | `TeamRandomizer` | `frontend/src/lib/teamRandomizer.js` |
| `team_display.dfy` | `TeamDisplay` | `frontend/src/components/sessions/TeamDisplay.js` |
| `session_card.dfy` | `SessionCard` | `frontend/src/components/sessions/SessionCard.js` |
| `sessions.dfy` | `Sessions` | `frontend/src/lib/sessions.js` |
| `session_generator.dfy` | `SessionGenerator` | `backend/src/utils/sessionGenerator.js` |
| `auth.dfy` | `Auth` | `backend/src/routes/auth.js` |
| `messages.dfy` | `Messages` | `backend/src/routes/messages.js` |
| `cors.dfy` | `Cors` | `backend/src/server.js` |
| `image_slider.dfy` | `ImageSlider` | `frontend/src/components/ui/ImageSlider.js` |
| `cleanup_test_users.dfy` | `CleanupTestUsers` | `backend/cleanup-test-users.js` |
| `load_test_signup.dfy` | `LoadTestSignup` | `backend/load-test-signup.js` |

Shared modules:
- Wrappers: `Option` and `Result`.
- Seqs: flattening a list of lists.
- JsString: the JavaScript string operations the code relies on — `trim`, `String(n)`, `padStart`, string `<`, `parseInt(s, 10)` and `includes`.
- Calendar: day numbers and the Monday/Friday calendar.
  - A date is a day number counted from 1 January 1970.
  - `Weekday` is `getDay()`.
  - `SessionDays(start, n)` lists the first `n` Mondays and Fridays from `start`.
  - `Civil` gives a day's year, month and day.

What is an input:
- **Randomness.** `Math.random()` becomes injected swap choices. For a shuffle of `n` elements, `choices[k]` is the `j <= i` drawn when `i = n - 1 - k`.
- **Clocks.** `new Date()` and `Date.now()` become parameters: a day number, an hour and minute, or a clock reading.
- **Databases.** The Prisma and Supabase tables become fields of classes (`UserTable`, `MessageLog`, `SessionStore`) or sequence parameters.
- **Password hashing.** bcrypt becomes a hash function parameter, with `compare` taken as equality of hashes.
- **Network replies.** The outcome of each request the scripts send becomes a parameter.

Notes on the code:
- **A player without a skill goes to tier 1.** Every comparison in `teamRandomizer.js:31-41` is false for `undefined`, so the chain ends in the `else` branch.
- **There are four team colours.** `TeamDisplay.js:16` lists Black, White, Red and Blue, and the team count never exceeds 4.
- **The existence check before each created session never finds a row.** At `sessionGenerator.js:51-59` the cursor is always past every stored date. `SessionGenerator.CreateStep` proves this, and the model keeps the branch.

## Model

| member | source | states |
|---|---|---|
| TeamRandomizer.Tier | frontend/src/lib/teamRandomizer.js:29-41 | every skill, missing or not, lands in exactly one tier between 1 and 5 |
| TeamRandomizer.TierThresholds | frontend/src/lib/teamRandomizer.js:31-41 | tier 5 iff skill ≥ 8, tier 4 iff 6–7, tier 3 iff 4–5, tier 2 iff 2–3, tier 1 iff the skill is missing or below 2 |
| TeamRandomizer.ShuffleArray | frontend/src/lib/teamRandomizer.js:1-8 | the shuffle of a copy returns the Fisher-Yates result for the draws, with the same length and multiset as the input; the input is a value and cannot change |
| TeamRandomizer.SwapDown | frontend/src/lib/teamRandomizer.js:3-6 | the descending swap loop over the array leaves exactly the Fisher-Yates permutation of its old contents |
| TeamRandomizer.FisherYatesPermutes | frontend/src/lib/teamRandomizer.js:1-8 | whatever the draws, the shuffle result is a permutation of its input |
| TeamRandomizer.ShuffleFromPermutes | frontend/src/lib/teamRandomizer.js:3-6 | every remaining run of swaps keeps the length and the multiset |
| TeamRandomizer.SortIntoTiers | frontend/src/lib/teamRandomizer.js:27-42 | the tiering loop puts into each tier exactly the players of that tier, in input order |
| TeamRandomizer.TierMembersCount | frontend/src/lib/teamRandomizer.js:27-42 | each player occurs in its own tier as often as in the input, and in no other tier |
| TeamRandomizer.TierAndShuffle | frontend/src/lib/teamRandomizer.js:27-49 | `allTiers` is the five shuffled tiers, tier 5 first |
| TeamRandomizer.ShuffledTiers | frontend/src/lib/teamRandomizer.js:43-49 | there are five tiers, and entry `k` is the shuffle of tier `5 - k` |
| TeamRandomizer.SnakeTeam | frontend/src/lib/teamRandomizer.js:54-61 | the team index is always in `[0, numOfTeams)` |
| TeamRandomizer.RoundIsDivision | frontend/src/lib/teamRandomizer.js:54-55 | the round and position used by the deal are `Math.floor(playerIndex / numOfTeams)` and `playerIndex % numOfTeams` |
| TeamRandomizer.RoundStep | frontend/src/lib/teamRandomizer.js:54-64 | the next player moves one place along the round, or starts the next round at position 0 |
| TeamRandomizer.SnakeDeal | frontend/src/lib/teamRandomizer.js:51-66 | the nested dealing loops leave the teams array equal to the snake deal of the concatenated tiers |
| TeamRandomizer.DealNext | frontend/src/lib/teamRandomizer.js:53-64 | one inner iteration pushes the player onto the team its running index selects, and changes no other team |
| TeamRandomizer.DealSnoc | frontend/src/lib/teamRandomizer.js:54-63 | dealing one more player appends it to its snake team only |
| TeamRandomizer.EmptyTeamsDeal | frontend/src/lib/teamRandomizer.js:15-17 | `numOfTeams` empty lists are the deal of no players |
| TeamRandomizer.RandomizeTeams | frontend/src/lib/teamRandomizer.js:10-69 | the call fails exactly when fewer than 2 teams are asked for; otherwise the result is the tiered snake deal of the shuffled tiers and meets `GoodTeams` |
| TeamRandomizer.RandomizedTeamsGood | frontend/src/lib/teamRandomizer.js:10-69 | a successful result has exactly `numOfTeams` teams, holds every player exactly once, has team sizes within one of each other, and keeps tiers non-increasing inside each team |
| TeamRandomizer.DealPermutes | frontend/src/lib/teamRandomizer.js:51-66 | the teams together hold exactly the dealt players, each as often as dealt |
| TeamRandomizer.DealSizes | frontend/src/lib/teamRandomizer.js:51-66 | each team holds exactly its snake share of the players |
| TeamRandomizer.SnakeShareStep | frontend/src/lib/teamRandomizer.js:54-64 | one more player adds one to the share of its snake team and to no other |
| TeamRandomizer.SnakeShareBalanced | frontend/src/lib/teamRandomizer.js:51-65 | snake shares of any two teams differ by at most one |
| TeamRandomizer.DealMembers | frontend/src/lib/teamRandomizer.js:51-66 | every member of a team comes from the deal order |
| TeamRandomizer.DealKeepsTierOrder | frontend/src/lib/teamRandomizer.js:52-64 | dealing a tier-sorted order keeps every team tier-sorted |
| TeamRandomizer.DraftOrderPermutes | frontend/src/lib/teamRandomizer.js:27-49 | the concatenated shuffled tiers hold every input player exactly once |
| TeamRandomizer.ShuffledTiersPermute | frontend/src/lib/teamRandomizer.js:43-49 | each shuffled tier is a permutation of its tier |
| TeamRandomizer.TiersMultiset | frontend/src/lib/teamRandomizer.js:27-42 | the five tiers together hold exactly the players |
| TeamRandomizer.ShuffledTierMembers | frontend/src/lib/teamRandomizer.js:27-49 | shuffled tier `5 - k` holds only players of tier `5 - k` |
| TeamRandomizer.DraftOrderTierSorted | frontend/src/lib/teamRandomizer.js:43-49 | the deal order runs through tier 5, then 4, down to tier 1 |
| TeamRandomizer.FlattenTiered | frontend/src/lib/teamRandomizer.js:43-49 | concatenating blocks of tiers 5, 4, ... in turn is tier-non-increasing, and the first `m` blocks hold tiers above `5 - m` |
| TeamDisplay.AllAttendances | frontend/src/components/sessions/TeamDisplay.js:40-42 | the fetched list followed by the dummy list, or the dummy list alone when nothing was fetched; nothing else is in it |
| TeamDisplay.YesAttendances | frontend/src/components/sessions/TeamDisplay.js:44-46 | an attendance is kept iff its status is exactly "yes" |
| TeamDisplay.YesAttendancesCount | frontend/src/components/sessions/TeamDisplay.js:44-46 | the filter keeps each "yes" attendance as often as it occurs, and nothing else |
| TeamDisplay.TeamCount | frontend/src/components/sessions/TeamDisplay.js:16-58 | the team count is between 2 and the four colour labels |
| TeamDisplay.TeamCountBands | frontend/src/components/sessions/TeamDisplay.js:53-58 | 2 teams iff fewer than 23, 3 iff 23 to 28, 4 iff more than 28 |
| TeamDisplay.TeamCountMonotone | frontend/src/components/sessions/TeamDisplay.js:53-58 | more "yes" attendees never means fewer teams |
| TeamDisplay.TeamPanel.constructor | frontend/src/components/sessions/TeamDisplay.js:13 | `teamsArray` starts empty |
| TeamDisplay.TeamPanel.CalculateTeams | frontend/src/components/sessions/TeamDisplay.js:48-61 | with no "yes" attendance the teams are cleared; otherwise they are the randomiser's result for the banded team count, meet `GoodTeams`, number at most four, and hold only "yes" attendances |
| SessionCard.Step | frontend/src/components/sessions/SessionCard.js:13-31 | a null or repeated selection changes nothing; any other sets the previous selection and moves the count by -1, 0 or 1 |
| SessionCard.DeltaIsYesChange | frontend/src/components/sessions/SessionCard.js:18-28 | a real change of selection moves the count by the change in "yes"-ness |
| SessionCard.DeltaCases | frontend/src/components/sessions/SessionCard.js:18-28 | the count drops iff leaving "yes", rises iff choosing "yes", and is unchanged otherwise |
| SessionCard.StepKeepsCount | frontend/src/components/sessions/SessionCard.js:13-31 | each run of the effect keeps "count is 1 exactly while yes is selected" |
| SessionCard.ReplayCount | frontend/src/components/sessions/SessionCard.js:9-31 | from 0 and null, after any selections, the count is 1 exactly when "yes" is selected and 0 otherwise |
| SessionCard.StepIdempotent | frontend/src/components/sessions/SessionCard.js:16-30 | sending the same selection twice is sending it once |
| SessionCard.Card.constructor | frontend/src/components/sessions/SessionCard.js:9-11 | the count starts at 0 with no selection |
| SessionCard.Card.OnAttendanceFromChild | frontend/src/components/sessions/SessionCard.js:13-31 | the state fields move exactly as `Step` says |
| Calendar.Weekday | frontend/src/lib/sessions.js:15 | `getDay()` is between 0 and 6 |
| Calendar.SessionDayName | frontend/src/lib/sessions.js:38 | a Monday is labelled "Monday" and the other session day "Friday" |
| Calendar.SessionDaysFacts | frontend/src/lib/sessions.js:14-48 | the picked days are Mondays or Fridays from the start day on, strictly increasing, and the `k`-th is at most `4k` days after the first session day from the start |
| Calendar.SessionDaysComplete | frontend/src/lib/sessions.js:14-48 | no Monday or Friday between the start and the last picked day is skipped |
| Calendar.NextDay | frontend/src/lib/sessions.js:47 | `setDate(getDate() + 1)` gives a valid, later date in the same or the next year |
| Calendar.Civil | frontend/src/lib/sessions.js:54-56 | a day number gives a valid calendar date in 1970 or later |
| Calendar.CivilIncreasing | frontend/src/lib/sessions.js:54-56 | a later day number has a later calendar date |
| Calendar.DateStringLayout | frontend/src/lib/sessions.js:53-58 | for a 4-digit year the string is `YYYY-MM-DD` with fixed-width digit fields |
| Calendar.DateStringOrder | frontend/src/lib/sessions.js:30-58 | for 4-digit years, date strings compare with `<` exactly as the dates do, and are equal iff the dates are |
| Calendar.DateStringRoundTrip | frontend/src/lib/sessions.js:53-58 | the year, month and day read back from the string are the date's own |
| Sessions.GetUpcomingSessions | frontend/src/lib/sessions.js:2-51 | the list is the entries of the first `count` Mondays and Fridays from the first listable day |
| Sessions.CompareDateStrings | frontend/src/lib/sessions.js:18-30 | within the horizon, `isToday` and `isTomorrow` hold exactly on today and tomorrow, and the `<` check never fires |
| Sessions.CursorStrings | frontend/src/lib/sessions.js:18-30 | what the three date-string tests mean for a cursor between today and the horizon |
| Sessions.DayStrings | frontend/src/lib/sessions.js:30-58 | for days with 4-digit years, a later day never has a smaller date string, and strings are equal iff the days are |
| Sessions.UpcomingSessionsFacts | frontend/src/lib/sessions.js:14-48 | there are `count` entries (none for a non-positive count); each falls on a Monday or Friday, no earlier than today, with the matching label, time, availability and today/tomorrow flags; it is today only before 13:05; the days strictly increase |
| Sessions.UpcomingSessionsComplete | frontend/src/lib/sessions.js:14-48 | no Monday or Friday from the first listable day to the last listed one is missing |
| SessionGenerator.Kept | backend/src/utils/sessionGenerator.js:12-18 | a row survives the deletion iff it is dated today or later |
| SessionGenerator.MaxDate | backend/src/utils/sessionGenerator.js:20-36 | the latest remaining date is the date of a remaining row and no row is later |
| SessionGenerator.FirstDate | backend/src/utils/sessionGenerator.js:31-36 | the start is today with no future session left, else the day after the latest |
| SessionGenerator.StartDayAfterKept | backend/src/utils/sessionGenerator.js:31-36 | the start is no earlier than today and later than every remaining session |
| SessionGenerator.CreatedRows | backend/src/utils/sessionGenerator.js:41-73 | the run creates `8 - remaining` rows (none when 8 remain); each is a Monday or Friday with its label, 11:45 AM, 1:05 PM and EST, on or after today and after every remaining session; their dates strictly increase |
| SessionGenerator.AfterGenerationFacts | backend/src/utils/sessionGenerator.js:3-83 | afterwards no row is in the past, every future row is kept, and there are 8 rows, or all remaining ones if more |
| SessionGenerator.SessionStore.Generate | backend/src/utils/sessionGenerator.js:3-83 | the table becomes the remaining rows followed by the created ones |
| SessionGenerator.SessionStore.DeletePast | backend/src/utils/sessionGenerator.js:12-18 | the table keeps exactly its rows dated today or later, in order |
| SessionGenerator.SessionStore.TopUp | backend/src/utils/sessionGenerator.js:31-73 | the loop appends rows for the first `8 - remaining` Mondays and Fridays from the start day |
| SessionGenerator.CreateStep | backend/src/utils/sessionGenerator.js:44-69 | creating a row keeps the loop's invariants, including that every stored date is before the cursor, so `findFirst` finds nothing |
| Auth.Safe | backend/src/routes/auth.js:36-83 | the reply carries id, email, phone, name and createdAt, and no password |
| Auth.FindByPhone | backend/src/routes/auth.js:62-64 | the first row with that phone, or none when no row has it |
| Auth.Login | backend/src/routes/auth.js:52-90 | 400 iff a field is missing; 200 only for a stored user whose hash matches, returning its safe projection; otherwise 401 |
| Auth.SignupCases | backend/src/routes/auth.js:7-50 | 400 iff a field is missing; 409 iff the email or phone is on file; both leave the table unchanged; 201 iff every field is present and nothing conflicts, with exactly one row added, holding the hash |
| Auth.SignupKeepsUnique | backend/src/routes/auth.js:15-29 | signup keeps emails, phones and ids unique |
| Auth.LoginFailuresAlike | backend/src/routes/auth.js:66-75 | the reply is 401 iff no row with that phone has the matching hash, and unknown phone and wrong password give the same 401 reply |
| Auth.SignupThenLogin | backend/src/routes/auth.js:7-90 | after a successful signup, logging in with the same phone and password returns the new user |
| Auth.UserTable.HandleSignup | backend/src/routes/auth.js:7-50 | the reply and the new table are those of `Signup`, and uniqueness is kept |
| Auth.UserTable.HandleLogin | backend/src/routes/auth.js:52-90 | the reply is that of `Login`; the table is only read |
| Messages.OfSession | backend/src/routes/messages.js:19-20 | exactly the rows of that session, each as often as it is stored, and no row of another session |
| Messages.InsertSorted | backend/src/routes/messages.js:30-32 | inserting into a createdAt-sorted list keeps it sorted and adds exactly that row |
| Messages.SortByCreatedAt | backend/src/routes/messages.js:30-32 | sorting keeps every row as often as it occurs |
| Messages.SortByCreatedAtSorted | backend/src/routes/messages.js:30-32 | the result is ordered by createdAt ascending |
| Messages.GetMessagesFacts | backend/src/routes/messages.js:7-39 | an unknown session gets 404; a known one gets 200 with exactly its rows, each as often as it occurs in the table, oldest first |
| Messages.PostCases | backend/src/routes/messages.js:41-89 | validation (400), session (404) and user (404) are checked in order, and each failure stores nothing; 201 iff all three checks pass, and the success appends one row with the session, the database user id and the trimmed, non-empty content |
| Messages.PostThenGet | backend/src/routes/messages.js:7-89 | a stored message is listed by the next GET of its session |
| Messages.PostKeepsUniqueIds | backend/src/routes/messages.js:67-73 | a post keeps message ids unique, and a stored message takes the next id |
| Messages.MessageLog.HandlePost | backend/src/routes/messages.js:41-89 | the reply and the new table are those of `Post`, and ids stay unique |
| Messages.MessageLog.HandleGet | backend/src/routes/messages.js:7-39 | the reply is that of `GetMessages`; the table is only read |
| JsString.TrimIsCore | backend/src/routes/messages.js:72 | `trim` returns a contiguous slice that neither starts nor ends with white space, and drops only white space |
| JsString.TrimEmptyIffAllWhiteSpace | backend/src/routes/messages.js:46 | `trim() === ''` iff the text is all white space |
| JsString.TrimIdempotent | backend/src/routes/messages.js:72 | trimming twice is trimming once |
| JsString.PadStartZero | frontend/src/lib/sessions.js:55-56 | `padStart(width, '0')` keeps the text at the end, fills the front with '0' and has length `max(width, length)` |
| JsString.PaddedTwoDigits | frontend/src/lib/sessions.js:55-56 | a month or day number below 100 pads to its two-digit string |
| JsString.FixedDigitsOrder | frontend/src/lib/sessions.js:30 | fixed-width digit strings compare with `<` as the numbers they write |
| JsString.StrLessConcat | frontend/src/lib/sessions.js:30 | with equal-length prefixes, string `<` compares the prefixes first |
| JsString.DecimalStringValue | backend/load-test-signup.js:76 | the digits of `String(n)` read back as `n` |
| JsString.ParseIntDecimalString | backend/load-test-signup.js:35-44 | `parseInt(String(n), 10)` is `n` |
| JsString.ParseIntNegative | backend/load-test-signup.js:35-44 | `parseInt("-" + String(n), 10)` is `-n` |
| JsString.ParseInt | backend/load-test-signup.js:35-44 | the result is `NaN` exactly when no digit follows the leading white space and optional sign |
| Cors.AllowedOrigins | backend/src/server.js:16-20 | the frontend URL or its default, the Vercel pattern, and the production URL only when set |
| Cors.AnyMatches | backend/src/server.js:26-34 | `some` holds iff some entry matches |
| Cors.MatchesVercelIff | backend/src/server.js:18 | the end test accepts exactly "https://", a line without a line break, then ".vercel.app" |
| Cors.AnyMatchesServer | backend/src/server.js:26-34 | on the server's list, a match is the frontend URL, a set production URL, or the Vercel test |
| Cors.DecideServer | backend/src/server.js:24-40 | no Origin is allowed; otherwise allowed iff equal to the frontend URL (or its default), equal to a set production URL, or in the Vercel language; otherwise "Not allowed by CORS" |
| Cors.HttpVercelRejected | backend/src/server.js:18-40 | an http:// Vercel origin that is not an exact entry is rejected |
| ImageSlider.Next | frontend/src/components/ui/ImageSlider.js:25-42 | next stays within the slides |
| ImageSlider.Previous | frontend/src/components/ui/ImageSlider.js:36-38 | previous stays within the slides |
| ImageSlider.NextPreviousInverse | frontend/src/components/ui/ImageSlider.js:35-43 | previous after next, and next after previous, restore the index |
| ImageSlider.NextIterShift | frontend/src/components/ui/ImageSlider.js:24-43 | `k` steps forward move `k` places round the ring |
| ImageSlider.FullCycle | frontend/src/components/ui/ImageSlider.js:9-43 | as many steps forward as there are slides come back to the start |
| ImageSlider.Slider.constructor | frontend/src/components/ui/ImageSlider.js:18-19 | the index starts at 0, not paused |
| ImageSlider.Slider.GoToNext | frontend/src/components/ui/ImageSlider.js:41-43 | the index becomes the next one, within range |
| ImageSlider.Slider.GoToPrevious | frontend/src/components/ui/ImageSlider.js:35-39 | the index becomes the previous one, within range |
| ImageSlider.Slider.GoToSlide | frontend/src/components/ui/ImageSlider.js:31-122 | a dot click sets the index to that dot's slide, within range |
| ImageSlider.Slider.AutoAdvance | frontend/src/components/ui/ImageSlider.js:21-29 | a timer firing advances the index unless paused, when no timer is installed |
| ImageSlider.Slider.SetPaused | frontend/src/components/ui/ImageSlider.js:46-49 | hovering sets the pause flag and leaves the index alone |
| CleanupTestUsers.ParseArgs | backend/cleanup-test-users.js:27-72 | the loop ends in the parse of the arguments from the defaults |
| CleanupTestUsers.ParseFromMonotone | backend/cleanup-test-users.js:36-69 | no argument clears `--dry-run` or `--confirm`, or empties a pattern |
| CleanupTestUsers.PatternUntouched | backend/cleanup-test-users.js:38-40 | with no `--pattern` left, the email pattern stays as it is |
| CleanupTestUsers.LastPatternWins | backend/cleanup-test-users.js:38-40 | the last `--pattern <value>` decides the email pattern |
| CleanupTestUsers.FindTestUsers | backend/cleanup-test-users.js:74-100 | a user is found iff its email contains the email pattern or its name the name pattern |
| CleanupTestUsers.DecideDeletes | backend/cleanup-test-users.js:168-201 | deletion iff users matched, `--confirm` is set and `--dry-run` is not; preview iff matched and dry run; the prompt iff matched and neither flag |
| CleanupTestUsers.DeleteUser | backend/cleanup-test-users.js:131-148 | the record carries the user's email and name and the database result; without a Supabase id the Supabase step is skipped and counts as successful |
| CleanupTestUsers.CountSucceeded | backend/cleanup-test-users.js:212-213 | the success count never exceeds the number of records |
| CleanupTestUsers.ReportedIffFailed | backend/cleanup-test-users.js:212-240 | a listed failure was counted as failed, and every failure is listed unless its Supabase error text is empty |
| CleanupTestUsers.DeleteFound | backend/cleanup-test-users.js:204-227 | every found user gets its record in order, the success counter counts the successes, and the two counters add up to the users |
| LoadTestSignup.ParseArgs | backend/load-test-signup.js:23-69 | the loop ends in the parse of the arguments from the defaults |
| LoadTestSignup.ParseArg | backend/load-test-signup.js:33-65 | one pass of the loop body either ends in the help text or advances past the flag and its value exactly as the parse does |
| LoadTestSignup.UsersFlag | backend/load-test-signup.js:34-36 | `--users n` sets the user count to `n` and consumes the number |
| LoadTestSignup.ConcurrentFlag | backend/load-test-signup.js:37-39 | `--concurrent n` sets the batch size to `n` and consumes the number |
| LoadTestSignup.GenerateUsers | backend/load-test-signup.js:157-159 | there are `config.users` users |
| LoadTestSignup.GenerateUsersNumbering | backend/load-test-signup.js:76-159 | user `k` is number `k + 1`, named "Test User k+1", and no two users share a name |
| LoadTestSignup.TestUserNamesDiffer | backend/load-test-signup.js:76 | different user numbers give different names |
| LoadTestSignup.BatchesFacts | backend/load-test-signup.js:161-164 | the batches concatenate back to the users; none is empty or above `concurrent`, and all but the last hold exactly `concurrent` |
| LoadTestSignup.MakeBatches | backend/load-test-signup.js:161-164 | with a positive batch size the loop yields those batches; a `NaN` batch size gives one empty batch when there are users, and a non-positive one (with no users) gives none |
| LoadTestSignup.SignupUser | backend/load-test-signup.js:87-130 | the result keeps its index; success iff the server replied with a 2xx status; a failure, and only a failure, carries an error; a thrown request fails with status 0 and the exception message |
| LoadTestSignup.BatchResults | backend/load-test-signup.js:137-139 | result `k` of a batch carries index `first + k` |
| LoadTestSignup.AllResultsIndices | backend/load-test-signup.js:132-176 | with the corrected start index, result `k` carries index `k`, one per user |
| LoadTestSignup.AsWrittenIndexCollision | backend/load-test-signup.js:138 | with 7 users in batches of 5, the indices 2 and 3 are each given out twice |
| LoadTestSignup.CollectResults | backend/load-test-signup.js:169-176 | the batch loop pushes each batch's results in turn, numbered with the corrected start index `batchNumber * concurrent` (see Findings), so result `k` carries index `k` |
| LoadTestSignup.SuccessfulFailedPartition | backend/load-test-signup.js:180-181 | `successful` and `failed` split `allResults`: together they hold every result exactly once |
| LoadTestSignup.Successful | backend/load-test-signup.js:180 | exactly the successful results |
| LoadTestSignup.Failed | backend/load-test-signup.js:181 | exactly the failed results |
| LoadTestSignup.GroupErrors | backend/load-test-signup.js:187-191 | the `forEach` fills the error map as the fold over the failures' keys |
| LoadTestSignup.GroupedCounts | backend/load-test-signup.js:187-191 | each key counts its occurrences, and the keys are exactly those that occur |
| LoadTestSignup.GroupedSum | backend/load-test-signup.js:187-210 | the breakdown adds up to the number of failures |
| LoadTestSignup.DistinctKeys | backend/load-test-signup.js:210 | the listed keys are the keys that occur, each once |
| LoadTestSignup.ExitCode | backend/load-test-signup.js:237 | exit code 1 iff some request failed, 0 iff all succeeded |

## Left out

- Randomness, clocks and external services are parameters, as listed above. Database failures, network failures and the 500 replies of the routes are not modelled. The same goes for the catch-and-log of `sessionGenerator.js:80-82`, because the model's stores cannot fail.
- bcrypt: the hash is a function parameter, and `compare` is taken as equality of hashes.
- Locale formatting (`toLocaleDateString` in `sessions.js:60-67`) is not modelled: an entry carries its day number instead of the `date` text.
- Sessions.GetUpcomingSessions: reads `Date.now()` once for all ids, whereas the source reads it at each push.
- Sessions.GetUpcomingSessions: requires that the cursor stays within 4-digit years (`FourDigitHorizon`). String comparison misorders 5-digit years, so the date-string reasoning does not hold beyond year 9999.
- Dates before 1970 are not modelled: day numbers are natural numbers.
- Console output, `process.exit`, the help text and the timing statistics of the two scripts are not modelled. Neither are the `Promise.all` fan-out and the delay between batches.
- The random e-mail, phone and skill of `generateUserData` are not modelled, and neither is the `user` e-mail echoed on success (`load-test-signup.js:107`).
- LoadTestSignup.MakeBatches: requires a positive `concurrent` when there are users. With 0 or a negative number the source loop never ends.
- JsString.ParseInt: returns the exact integer, whereas `parseInt(s, 10)` returns a double. Values above 2^53 are rounded (`parseInt("9007199254740993", 10)` is 9007199254740992), and a digit string of about 309 or more digits gives `Infinity`. Neither is modelled, because the model's integers are unbounded; `NaN` is `None`.
- LoadTestSignup.UserCount: has no upper bound, whereas `Array.from({length: config.users})` throws a `RangeError` above 2^32 - 1; that failure is not modelled.
- LoadTestSignup.CollectResults: numbers each batch from `batchNumber * concurrent`, the corrected index, not from `batchNumber * batch.length` as `load-test-signup.js:138` does. The as-written numbering is `AsWrittenResults`, and the Findings table compares the two.
- Auth.Login: the 200 reply carries the safe user but not the `message: "Login successful"` text (`auth.js:85`).
- LoadTestSignup.DistinctKeys: `Object.entries` orders integer-like keys first. Only the first-seen order is modelled, which holds for the keys the script builds, since they are never integer-like.
- CleanupTestUsers.FindTestUsers: keeps table order instead of `orderBy: createdAt desc`. The order only affects the printed list.
- Messages.SortByCreatedAt: rows with equal `createdAt` keep table order (a stable sort). The database gives no such promise.
- The `include: user` projections of the chat routes are not modelled.
- Auth.LoginFailuresAlike: requires that phones are unique. The database's unique constraint guarantees this, and `SignupKeepsUnique` proves signup keeps it.
- `/logout` (`auth.js:92-94`) returns a fixed message and touches no state, so there is nothing to state about it.
- The React effect scheduling is not modelled. Each handler or effect run is one method call.

## Findings

| source | as written | input that shows it | evidently intended | confidence | as-written member | corrected member |
|---|---|---|---|---|---|---|
| backend/load-test-signup.js:138 | `batchNumber * batch.length + index` | 7 users with `--concurrent 5`: the second batch has length 2, so its requests get indices 2 and 3 again | `batchNumber * config.concurrent + index`, so that the indices run 0..n-1, one per user | high; not executed | LoadTestSignup.AsWrittenIndexCollision | LoadTestSignup.AllResultsIndices |
