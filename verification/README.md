# MindSpace core, modelled in Dafny

MindSpace is a mental-wellness web app. It has an Express/Mongoose backend and
a React frontend. This project models the decision rules of both halves as
immutable Dafny datatypes and pure transition functions, and proves properties
of them:

- **Support circles.** Creating, joining and leaving a circle on the server.
  On the client: the create and send guards, the chat message list, the
  selection after a leave, and the member label.
- **Roadmap progress.** The server merges the global steps with one user's
  `roadmapProgress` and upserts one progress entry. The client does an
  optimistic completion toggle with an in-flight id list and keeps per-step
  reminders.
- **Moods.** The name-to-number table is shared by `mood.js` and
  `MoodTracker.js`; it encodes names and decodes numbers, a lossy round trip.
  The model also covers adding, listing and deleting moods, the seven-day
  report graph, and the per-label counts and longest streak of the insights
  page.
- **Creative therapy.** The server stores and lists submissions and picks a
  prompt. The client toggles favourites, picks the mood's daily challenge and
  guards empty content.
- **Resources.** The curated resource list, its filter by type tab and search
  text, and the link each card opens.

Persistence is an in-memory value:
- a `map` from id to circle;
- a `map` from user id to progress;
- a `seq` of mood records or submissions, in insertion order.

Outside effects become parameters:
- a failed `save()` is `saved = false`;
- a fresh circle id is `id`;
- the current time is `now`;
- the random draw is `draw`;
- the outcome of an HTTP call is `ok`.

Each handler returns the next state together with its reply or outgoing
request, in a `Reply` (`Ok` or `Error(status, message)`) or an `Option`.

Modules, one per source file plus shared helpers:

| module | file | models |
|---|---|---|
| `Common` | common.dfy | `Option`, `Reply` and the HTTP status codes |
| `Text` | text.dfy | `trim`, ASCII case mapping, `includes`, `Number`, `parseInt`, and number printing |
| `Lists` | lists.dfy | `filter`, removing every copy of a value, and subsequence |
| `Sorting` | sorting.dfy | a stable sort on an integer key, standing in for the database's `.sort` |
| `CircleRoutes` | circle_routes.dfy | Backend/routes/supportCircle.js |
| `CircleClient` | circle_client.dfy | Frontend/src/components/SupportCircle.js |
| `RoadmapRoutes` | roadmap_routes.dfy | Backend/routes/roadmap.js |
| `RoadmapClient` | roadmap_client.dfy | Frontend/src/components/Roadmap.js |
| `Moods` | moods.dfy | the mood table of mood.js and MoodTracker.js |
| `MoodRoutes` | mood_routes.dfy | Backend/routes/mood.js |
| `MoodTracker` | mood_tracker.dfy | Frontend/src/components/MoodTracker.js |
| `Reports` | reports.dfy | Backend/routes/reports.js |
| `Insights` | insights.dfy | Frontend/src/components/InsightReports.js |
| `CreativeRoutes` | creative_routes.dfy | Backend/routes/creative.js |
| `CreativeClient` | creative_client.dfy | Frontend/src/components/CreativeTherapy.js |
| `Resources` | resources.dfy | Frontend/src/components/ResourceLocator.js |

## Model

| member | source | states |
|---|---|---|
| Text.Trim | Frontend/src/components/SupportCircle.js:113 | `trim()` is empty exactly for a whitespace-only string. Otherwise it neither starts nor ends with whitespace. It is an infix of the original with only whitespace before and after it. |
| Text.TrimIdempotent | Frontend/src/components/SupportCircle.js:117 | Trimming twice is trimming once. |
| Text.ParseIntOfNatToString | Backend/routes/reports.js:34 | `parseInt(s, 10)` reads back every printed natural number. |
| Text.ParseNumberOfNatToString | Frontend/src/components/InsightReports.js:123 | `Number(s)` reads back every printed natural number. |
| Lists.RemoveAll | Backend/routes/supportCircle.js:41-43 | Filtering out a value removes every copy of it. Every other value keeps its multiplicity and the relative order is kept (a subsequence). A missing value changes nothing. |
| Lists.RemoveAllAppended | Frontend/src/components/CreativeTherapy.js:106-110 | Removing a value that was just appended to a list not holding it gives the list back. |
| Lists.FilterCounts | Backend/routes/mood.js:60 | Filtering keeps each kept value exactly as often as it occurs and drops the others entirely. |
| Lists.FilterIsSubsequence | Frontend/src/components/ResourceLocator.js:179 | A filter's result is an order-preserving subsequence of its input. |
| Sorting.SortBy | Backend/routes/reports.js:25 | The sort returns as many records as it gets, in non-decreasing key order. |
| Sorting.SortByPermutes | Backend/routes/mood.js:46 | The sort is a permutation: every record is kept exactly as often as it occurs. |
| CircleRoutes.Create | Backend/routes/supportCircle.js:7-19 | A saved circle has exactly the creator as member and is stored under its new id. `isPrivate` is the request's value, or true when absent. A failed save answers 500 and stores nothing. |
| CircleRoutes.Join | Backend/routes/supportCircle.js:22-34 | An unknown id answers 404 and changes nothing. An existing member gets the circle back unchanged. Otherwise the user is appended at the end and the member list grows by one. Only the member list changes. A non-member's join whose save fails answers 500 and stores nothing. |
| CircleRoutes.Leave | Backend/routes/supportCircle.js:37-49 | An unknown id answers 404 and changes nothing. Leaving removes every occurrence of the user and keeps the others in order and multiplicity. A non-member gets the circle back unchanged, with no error. |
| CircleRoutes.JoinIdempotent | Backend/routes/supportCircle.js:26-29 | A second join changes nothing and answers the same as the first. |
| CircleRoutes.MembershipFrame | Backend/routes/supportCircle.js:22-49 | A join or leave on one circle leaves every other circle as it was. |
| CircleRoutes.JoinThenLeave | Backend/routes/supportCircle.js:26-43 | Join then leave leaves the user absent. For a user who was not a member, it restores the store exactly. |
| CircleRoutes.CreateKeepsDistinct | Backend/routes/supportCircle.js:9-13 | Creating keeps every member list free of duplicates. |
| CircleRoutes.JoinKeepsDistinct | Backend/routes/supportCircle.js:26-29 | Joining keeps every member list free of duplicates. |
| CircleRoutes.LeaveKeepsDistinct | Backend/routes/supportCircle.js:41-44 | Leaving keeps every member list free of duplicates. |
| CircleClient.StartCreate | Frontend/src/components/SupportCircle.js:66-77 | A whitespace-only name sets the error and posts nothing. Otherwise the error is cleared and the untrimmed name is posted. |
| CircleClient.FinishCreate | Frontend/src/components/SupportCircle.js:78-84 | Success clears the name input. Failure sets the failure message. |
| CircleClient.Send | Frontend/src/components/SupportCircle.js:112-121 | A message is emitted exactly when the trimmed text is non-empty and a socket and a selected circle exist. It carries the circle's id, the user's id and the trimmed text, and the input is cleared. Otherwise nothing changes. |
| CircleClient.SentTextIsTrimmed | Frontend/src/components/SupportCircle.js:117 | The text a send carries is already trimmed. |
| CircleClient.Receive | Frontend/src/components/SupportCircle.js:41-42 | An incoming message goes to the end of the list. Nothing else changes. |
| CircleClient.ReceiveAllAppends | Frontend/src/components/SupportCircle.js:41-44 | A run of incoming messages is appended in arrival order. |
| CircleClient.JoinLeaveSucceeded | Frontend/src/components/SupportCircle.js:87-96 | Leaving the selected circle clears the selection and its messages. Any other join or leave keeps the state. |
| CircleClient.LeaveSelectedStopsSending | Frontend/src/components/SupportCircle.js:87-96 | After leaving the open circle nothing can be sent and no message is shown. A join does not change what a send emits. |
| CircleClient.MembershipSeenByClient | Frontend/src/components/SupportCircle.js:110 | After a successful join `isUserMember` holds for the circle; after a leave it does not. |
| CircleClient.CreatedCircleShowsCreator | Frontend/src/components/SupportCircle.js:73-77 | A create that passes the guard makes a private circle with the typed name and the creator as its only member. The client lists it as joined, under "1 member". |
| CircleClient.MemberLabel | Frontend/src/components/SupportCircle.js:219-221 | The label is "1 member" exactly for one member, otherwise the count followed by " members". |
| CircleClient.MemberLabelCount | Frontend/src/components/SupportCircle.js:219 | The label starts with the member count, which reads back as the count. |
| RoadmapRoutes.FirstEntry | Backend/routes/roadmap.js:25-27 | `find` returns the first progress entry for the step: no earlier entry matches. |
| RoadmapRoutes.CompletedFlag | Backend/routes/roadmap.js:25-30 | A step with no progress entry is not completed. Otherwise it has the flag of its first matching entry. |
| RoadmapRoutes.Merge | Backend/routes/roadmap.js:24-32 | The merge has the steps' length and order. Each step keeps its fields and gets the user's completion flag. |
| RoadmapRoutes.GetRoadmap | Backend/routes/roadmap.js:17-36 | A missing user, and only a missing user, answers 404. Otherwise the merged list is returned. |
| RoadmapRoutes.Upsert | Backend/routes/roadmap.js:53-61 | An existing entry has only its flag overwritten, at the same index, and the length is kept. Without one, exactly one entry is appended. |
| RoadmapRoutes.PutProgress | Backend/routes/roadmap.js:43-68 | A missing user answers 404 and changes nothing. A failed save answers 500 "Failed to update roadmap step" and changes nothing. Otherwise the user's progress is upserted, the acknowledgement echoes the request, and every other user is untouched. |
| RoadmapRoutes.MergeAfterPut | Backend/routes/roadmap.js:24-61 | After a PUT the merge reports the written flag for that step and the earlier flag for every other step. |
| RoadmapRoutes.UpsertLookup | Backend/routes/roadmap.js:53-61 | After an upsert, the written step reads the new flag and every other step reads its old one. |
| RoadmapRoutes.PutIdempotent | Backend/routes/roadmap.js:53-63 | Repeating a PUT with the same value changes nothing further. |
| RoadmapClient.Loaded | Frontend/src/components/Roadmap.js:31-44 | A fetched list shows its first ten steps, in order. A failed fetch shows none. Nothing else changes. |
| RoadmapClient.Toggle | Frontend/src/components/Roadmap.js:46-57 | An index without a card, or a card without an id, changes nothing. Otherwise only that card's flag flips, its id joins the updating list, and the pending request remembers the old flag. |
| RoadmapClient.RequestOf | Frontend/src/components/Roadmap.js:58-63 | The request sends the flipped flag for the step's id. |
| RoadmapClient.ToggleDisables | Frontend/src/components/Roadmap.js:148 | While its request is in flight, a toggled card's checkbox is disabled. |
| RoadmapClient.SettleAsWritten | Frontend/src/components/Roadmap.js:51-77 | As written, settling keeps every card as it is, even after a failure. The step's id leaves the updating list. |
| RoadmapClient.FailedToggleKeepsFlip | Frontend/src/components/Roadmap.js:67-70 | As written, a failed request leaves the card showing the flipped flag. |
| RoadmapClient.Settle | Frontend/src/components/Roadmap.js:64-77 | On failure the card gets its pre-toggle flag back; on success the cards stay. The id leaves the updating list, other ids keep their multiplicity, and reminders are untouched. |
| RoadmapClient.FailedToggleRestores | Frontend/src/components/Roadmap.js:67-70 | A failed toggle ends with the cards as before. So does the updating list, when the id was not already in it. |
| RoadmapClient.SucceededToggleKeepsFlip | Frontend/src/components/Roadmap.js:64-66 | A successful toggle keeps the flipped flag. |
| RoadmapClient.ToggleAgreesWithServer | Frontend/src/components/Roadmap.js:58-63 | After a successful toggle, the server's merge reports the flag the card shows. |
| RoadmapClient.FailedPutDisagreesAsWritten | Frontend/src/components/Roadmap.js:51-70 | As written, after a PUT whose save fails the server keeps the old flag while the card shows the flipped one. |
| RoadmapClient.FailedPutAgrees | Frontend/src/components/Roadmap.js:51-70 | As intended, after a PUT whose save fails the store is unchanged and the card shows the flag the server holds. |
| RoadmapClient.SetReminder | Frontend/src/components/Roadmap.js:80-81 | The step's reminder becomes the chosen time. Every other reminder and the rest of the state stay. |
| RoadmapClient.SetReminderLastWins | Frontend/src/components/Roadmap.js:81 | Setting a step's reminder twice keeps the second time. |
| Moods.LookupFrom | Backend/routes/mood.js:21 | The lookup succeeds exactly for a table name and returns a value listed with it. |
| Moods.Encode | Backend/routes/mood.js:7-21 | A name encodes to a value in 0..5. It is 0 exactly when the lower-cased name is not in the table; otherwise it is the value listed with that name. |
| Moods.EncodeTable | Backend/routes/mood.js:7-14 | happy is 5, calm 4, neutral 3, angry and anxious 2, and sad 1. |
| Moods.EncodeIgnoresCase | Backend/routes/mood.js:21 | Encoding ignores letter case. |
| Moods.FindName | Frontend/src/components/MoodTracker.js:99-100 | The reverse search finds a name listed with the value, or none when no entry has it. |
| Moods.Decode | Frontend/src/components/MoodTracker.js:99-101 | `getMoodString` always returns a name of the table. |
| Moods.DecodeEncodeRoundTrip | Frontend/src/components/MoodTracker.js:31-38 | Decoding the value of every name except "anxious" gives the name back. |
| Moods.AnxiousDecodesAsAngry | Frontend/src/components/MoodTracker.js:35-37 | "anxious" and "angry" share the value 2, which decodes as "angry". |
| Moods.DecodeOutOfRange | Frontend/src/components/MoodTracker.js:99-101 | Numbers outside 1..5 decode to "neutral". |
| Moods.EncodeDecode | Frontend/src/components/MoodTracker.js:99-101 | Every value 1..5 decodes to a name that encodes back to it. |
| MoodRoutes.StoredMood | Backend/routes/mood.js:19-22 | A string is stored as its table value in 0..5. A non-string value is stored unchanged. |
| MoodRoutes.AddMood | Backend/routes/mood.js:17-35 | A saved mood is appended with the caller's id and the stored value. Its date is the body's date when truthy and `now` otherwise. A failed save answers 500 and stores nothing. |
| MoodRoutes.MoodsOf | Backend/routes/mood.js:45 | The query returns exactly the caller's records. |
| MoodRoutes.ListMoods | Backend/routes/mood.js:45-47 | The listing holds only the caller's records: newest first, at most 30, and as many as there are up to 30. No record is listed more often than it is stored. Every stored copy left out, including a second copy of a listed record, is no newer than every listed one. |
| MoodRoutes.DeleteMoods | Backend/routes/mood.js:60 | No record of the caller remains. Every other record keeps its multiplicity and the order is kept. |
| MoodRoutes.DeleteKeepsOthersListing | Backend/routes/mood.js:60 | Deleting one user's moods leaves another user's records exactly as they were. |
| MoodRoutes.AddThenDelete | Backend/routes/mood.js:17-60 | A saved mood belongs to its author. Deleting the author's moods afterwards leaves what deleting them before would have left. |
| MoodTracker.SubmitMood | Frontend/src/components/MoodTracker.js:67-75 | Nothing is posted for an empty mood or without a token. Otherwise the posted number lies in 0..5 and is 0 exactly for an unknown name. |
| MoodTracker.ShownNames | Frontend/src/components/MoodTracker.js:99-101 | Every listed mood is shown as a name of the table. |
| MoodTracker.SubmitStoresLikeServer | Frontend/src/components/MoodTracker.js:70 | The client's number is what the server would store for the name itself. |
| MoodTracker.SubmittedMoodShown | Frontend/src/components/MoodTracker.js:70 | A submitted known name is shown back with the same value. Every name but "anxious" is shown as itself. |
| MoodTracker.UnknownMoodShownNeutral | Frontend/src/components/MoodTracker.js:100-101 | An unknown name is posted as 0 and shown as "neutral". |
| MoodTracker.NewestMoodAsWritten | Frontend/src/components/MoodTracker.js:53-65 | As written, the callback is skipped without moods or without a callback, gets the lower-cased string of a newest string mood, and throws for a newest numeric mood. |
| MoodTracker.SubmittedMoodNeverReported | Frontend/src/components/MoodTracker.js:60-61 | As written, a listing whose newest mood was posted by this component throws before the callback runs. |
| MoodTracker.NewestMood | Frontend/src/components/MoodTracker.js:53-65 | As intended, the callback gets the table name shown for the newest mood, exactly when there is a mood and a callback. |
| MoodTracker.SubmittedMoodReported | Frontend/src/components/MoodTracker.js:60-61 | As intended, a listing whose newest mood is a submitted known name other than "anxious" reports that name in lower case. |
| Reports.WindowMoods | Backend/routes/reports.js:22-25 | The query returns exactly the caller's moods dated on or after the window's first day, in ascending date order. |
| Reports.LastIndexOn | Backend/routes/reports.js:29-36 | This is the index of the last mood on a day, or -1 exactly when no mood falls on it. |
| Reports.DayValuesLast | Backend/routes/reports.js:28-36 | A day has an entry in the per-day map exactly when a mood falls on it. The entry is the value of the last such mood (last write wins). |
| Reports.Graph | Backend/routes/reports.js:39-47 | There are seven values; each is the day's map entry, or 0 when the day has none. |
| Reports.Dates | Backend/routes/reports.js:41-45 | There are seven consecutive days starting at the window's first day. |
| Reports.GetReport | Backend/routes/reports.js:6-61 | A request without a user id, and only such a request, answers 400. Otherwise the summary and suggestions are the constant texts, and there are seven values and seven consecutive dates from the window start. |
| Reports.EmptyDayIsZero | Backend/routes/reports.js:46 | A day on which the caller has no mood reads 0. |
| Reports.DayValueIsLatest | Backend/routes/reports.js:25-35 | A day with moods shows the value of one of them, and none of that day's moods is dated later. |
| Reports.ReportIgnoresOutside | Backend/routes/reports.js:22-25 | Adding another user's mood, or one dated before the window, leaves the report unchanged. |
| Insights.LabelOf | Frontend/src/components/InsightReports.js:120-124 | A number in 1..5 is labelled from `numberToMood`; any other number is `undefined`. A string with a numeric value in 1..5 is labelled the same way; any other string shows with its first letter upper-cased. |
| Insights.IndexOfKey | Frontend/src/components/InsightReports.js:125 | This is the entry of a key in the count table, or -1 exactly when it has none. |
| Insights.Bump | Frontend/src/components/InsightReports.js:125 | Counting one more mood keeps one entry per key. |
| Insights.TallyCounts | Frontend/src/components/InsightReports.js:119-127 | Each key's count is the number of moods carrying it. |
| Insights.TallyTotal | Frontend/src/components/InsightReports.js:119-128 | The counts sum to the number of moods. |
| Insights.BumpCount | Frontend/src/components/InsightReports.js:125 | Counting a mood raises its key's count by one and leaves every other count. |
| Insights.LongestStreak | Frontend/src/components/InsightReports.js:134-152 | For a non-empty list the streak lies in 1..length. A run of that length with the reported label exists and is the earliest such run (the comparison is strict), and no run is longer. An empty list gives 0 and no label. |
| Insights.Render | Frontend/src/components/InsightReports.js:65-152 | No moods gives the empty state and nothing else. Otherwise the total is the number of moods and each count is its key's occurrences. The streak is the longest run of equal labels, with the label of the earliest such run. The streak line shows exactly when the streak exceeds 1. |
| Insights.RepeatShowsStreak | Frontend/src/components/InsightReports.js:138-152 | Two equal neighbouring labels make the streak longer than one. |
| Insights.NoRepeatNoStreak | Frontend/src/components/InsightReports.js:138-152 | Without equal neighbours the streak is one mood, with the first mood's label. |
| Insights.StoredNamesLabelled | Frontend/src/components/InsightReports.js:14-20 | The numbers stored for the table's names get their capitalised names back, except that "anxious" reads "Angry". |
| Insights.UnknownNameUnlabelled | Frontend/src/components/InsightReports.js:121-122 | An unknown name, stored as 0, has no label. |
| CreativeRoutes.PromptFor | Backend/routes/creative.js:37-43 | The prompt is always one of the three table entries. A missing or empty mood, and any mood outside the table, gets the neutral prompt. |
| CreativeRoutes.Submit | Backend/routes/creative.js:7-19 | A saved submission is appended with the caller's id and the request's fields. A failed save answers 500 and stores nothing. |
| CreativeRoutes.ListContent | Backend/routes/creative.js:25-27 | The listing holds exactly the caller's submissions, each as often as stored, newest first. |
| CreativeRoutes.SubmittedIsListed | Backend/routes/creative.js:7-27 | A saved submission appears in its author's listing. |
| CreativeClient.ToggleFavorite | Frontend/src/components/CreativeTherapy.js:105-111 | A favourite prompt is removed with every copy, keeping the others in order. Any other prompt is appended at the end. No other prompt's membership changes. |
| CreativeClient.ToggleFlipsFavorite | Frontend/src/components/CreativeTherapy.js:113 | A toggle flips whether the prompt is a favourite. |
| CreativeClient.ToggleTwiceRestores | Frontend/src/components/CreativeTherapy.js:106-110 | Toggling an absent prompt twice restores the list. |
| CreativeClient.ToggleKeepsDistinct | Frontend/src/components/CreativeTherapy.js:106-110 | A toggle keeps the favourites free of duplicates. |
| CreativeClient.ToggleAllDistinct | Frontend/src/components/CreativeTherapy.js:105-111 | Any run of toggles on a duplicate-free list keeps it duplicate-free. |
| CreativeClient.FavoritesNeverRepeat | Frontend/src/components/CreativeTherapy.js:53 | Starting from the empty list, the favourites never hold a duplicate. |
| CreativeClient.Challenge | Frontend/src/components/CreativeTherapy.js:59-69 | An empty mood gets the "Select a mood" text. A known mood, in any case, gets its daily challenge; an unknown one gets the generic challenge. |
| CreativeClient.ChallengeIgnoresCase | Frontend/src/components/CreativeTherapy.js:61 | The challenge ignores the letter case of the mood. |
| CreativeClient.SuggestedMoodsHaveChallenges | Frontend/src/components/CreativeTherapy.js:26-35 | Every mood chip has its own daily challenge. |
| CreativeClient.RandomPrompt | Frontend/src/components/CreativeTherapy.js:100-103 | A random draw picks one of the five prompts. |
| CreativeClient.StartSubmit | Frontend/src/components/CreativeTherapy.js:80-92 | Empty content sets the error and posts nothing. Otherwise the error is cleared and the form's type, content and mood are posted. |
| CreativeClient.FinishSubmit | Frontend/src/components/CreativeTherapy.js:93-97 | Success clears the content. Failure sets the failure message. |
| CreativeClient.BlankContentIsPosted | Frontend/src/components/CreativeTherapy.js:82 | The guard does not trim, so every non-empty whitespace-only content is posted unchanged. |
| CreativeClient.SubmissionStored | Frontend/src/components/CreativeTherapy.js:88-92 | A submission that passes the guard is stored by the server with the form's type, non-empty content and mood, under the author's id. |
| Resources.Needle | Frontend/src/components/ResourceLocator.js:178 | The search text is empty exactly when the query is blank. |
| Resources.FilterResources | Frontend/src/components/ResourceLocator.js:177-188 | A resource is listed exactly when it matches the tab (any under "All") and the lower-cased needle is empty or occurs in its lower-cased name, address or description. The result is an order-preserving subsequence. |
| Resources.Filtered | Frontend/src/components/ResourceLocator.js:179 | The shown list is an order-preserving subsequence of the curated list. |
| Resources.AllWithBlankQueryShowsEverything | Frontend/src/components/ResourceLocator.js:180-186 | "All" with a blank query shows every resource, in order. |
| Resources.InitialPageShowsAll | Frontend/src/components/ResourceLocator.js:157-158 | The initial page shows all nine resources. |
| Resources.MatchIgnoresFieldCase | Frontend/src/components/ResourceLocator.js:183-185 | A resource matches exactly when its lower-cased variant matches. |
| Resources.TypeTabNarrows | Frontend/src/components/ResourceLocator.js:180 | A type tab shows only resources that "All" shows with the same query. |
| Resources.MapsLink | Frontend/src/components/ResourceLocator.js:375-378 | The maps URL is used only when both coordinates are present; otherwise the website is used. |
| Resources.MapsCaption | Frontend/src/components/ResourceLocator.js:402 | The caption reads "OPEN IN MAPS" exactly when the latitude is present. |
| Resources.CaptionAgreesWithLink | Frontend/src/components/ResourceLocator.js:376-402 | On the curated list, an "OPEN IN MAPS" caption always opens the maps URL, and any other card opens its website. |

## Left out

- Backend/server.js: the Socket.IO server is not part of this model. It covers room routing, fan-out and connection lifecycle, which belong to the library and to concurrency.
- Backend/routes/auth.js is not part of this model. Password hashing and token signing are foreign calls.
- The `auth` middleware is not modelled; the caller's user id is a parameter.
- Mongoose schema validation (required fields, enums, defaults other than those the handlers set) is not modelled. ObjectId generation is a parameter.
- `GET /api/supportCircles` only returns the stored circles, so it is left out.
- The 500 answers of the read and delete handlers (a database failure) are not modelled. Only a failed `save()` is.
- CircleRoutes.Join, CircleRoutes.Leave: circle ids are taken to be well-formed ObjectIds. A malformed `:id` makes `findById` throw (supportCircle.js:24, 39), so the server answers 500 "Failed to join circle" or "Failed to leave circle". The model answers 404, as for any id not stored.
- The database's order among records with equal sort keys is unspecified. A stable sort stands in for it.
- Dates are integers (milliseconds), and a day is `date / 86400000`. Local midnight, time-zone offsets and ISO date strings are not modelled: the window start and the map keys share one day numbering here.
- A `null` mood date in the reports map (line 31) is not modelled, because every stored mood has a date here.
- Case mapping covers ASCII letters only.
- `Number(s)` is modelled for decimal digits with an optional sign, with whitespace trimmed and a blank string as 0. Fractions, exponents, hexadecimal and `Infinity` are not modelled.
- JavaScript prototype keys in object lookups (`moodMap["constructor"]`) are not modelled; the tables are finite maps.
- InsightReports.js:129-132: the floating-point percentages and `toFixed` are not modelled.
- The order of the insights counts is first occurrence. JavaScript lists integer-like keys first, which only the rendering sees.
- Register.js, Login.js, Dashboard.js, App.js, ThemeToggle.js, lib/api.js, seedRoadmap.js and routes/resources.js are not part of this model. They hold HTTP plumbing, navigation, rendering or static data.
- Rendering, styling, snackbars and `alert` calls are not modelled.

## Findings

| source | as written | input that shows it | evidently intended | confidence | as-written member | corrected member |
|---|---|---|---|---|---|---|
| Frontend/src/components/Roadmap.js:51-70 | `[...roadmap]` copies the array, not the steps, so `step` and `newRoadmap[idx]` are one object. The optimistic flip at line 52 also changes `step.completed`, and the "revert" at line 69 assigns the flipped flag to itself. | A card with an id and `completed: false`, toggled, whose PUT fails: the card keeps showing `true`. | A failed PUT puts back the flag the card had before the toggle. | not executed | RoadmapClient.FailedToggleKeepsFlip | RoadmapClient.FailedToggleRestores |
| Frontend/src/components/MoodTracker.js:60-61 | `fetchMoods` calls `res.data[0].mood.toLowerCase()`. The client posts moods as numbers (line 70), and mood.js:19-21 turns string moods into numbers too. Assuming the Mood schema keeps numbers (Backend/models/Mood.js is not part of this model), the newest mood is a number without `toLowerCase`. The `TypeError` is caught at lines 62-63 and `onMoodChange` never runs. | A user who submitted "happy" reloads: the list shows it, but the callback is not called. | The callback gets the mood's name, `getMoodString(res.data[0].mood)`. | not executed | MoodTracker.SubmittedMoodNeverReported | MoodTracker.SubmittedMoodReported |
