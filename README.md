# Backpackr core in Dafny

Backpackr is a React Native travel app. Most of it is presentation: screens, mock data and navigation. This project models the parts that hold logic:

- **The nearby-event notifier.** It tracks the time window of an imminent event and filters events by distance and imminence. A service keeps a de-duplication set so each event raises one alert at most, and `checkAndNotify` runs over the event list.
- **The Firestore list rules.** These are the attendee upsert of `updateEventAttendance` and the member append of `joinGroup`. Document reads become `Option` values. Writes are returned, not performed.
- **The event chat helpers.** These are the relative-time buckets, the avatar initials and the trimmed, reject-blank `sendMessage`.
- **The state rules of the screens.** Each screen keeps its `useState` slots in a state datatype, and each handler becomes one transition function over it:
  - Events: toggling attendance.
  - Rewards: redeeming points.
  - Packing: the packing list and its grouping.
  - Budget: totals and bars.
  - Community: recommendations and stars.
  - Emergency and Safety: contacts and the SOS switch.
  - Map: markers and their colours.
  - Photo blog: posts and likes.
  - Reviews: stars, filters and stats.
  - Route: sharing and sync.
  - Group and event creation: the validation order.
  - Eco: tip bookmarks.
  - Onboarding: the slide counter.
  - AI assistant: the chat.
  - `useUser`: the partial update.

Inputs the program takes from its environment become parameters:

- the current instant, a fresh `Date.now()` id and today's ISO date;
- the result of a random pick and the platform flag;
- the distance function, which is the haversine in the app.

Two modules are shared:

- `Text` models `String.prototype.trim`, `split` and `join` on the separator, ASCII lowercase and decimal rendering.
- `Lists` models `filter`, `reduce` sums, the include-or-remove toggle and grouping by key.

`Wrappers` gives `Option`.

Instants are integer milliseconds. Money is integer cents. Ratings and ratios are `real`, and JavaScript's NaN and infinities are spelled out where a division by zero can occur.

## Model

| member | source | states |
|---|---|---|
| Notification.CombineDateTime | src/services/NotificationService.ts:50-51 | the combined instant keeps the day and the seconds and milliseconds of the date, and takes only the hour and minute of the time |
| Notification.CombineSameInstant | src/services/NotificationService.ts:50-51 | combining an instant with itself gives that instant back |
| Notification.IsEventSoon | src/services/NotificationService.ts:48-57 | true exactly when the combined instant is strictly after now and at most 24 hours after it |
| Notification.ImminenceBoundaries | src/services/NotificationService.ts:53-56 | exactly +24h is still soon; +24h+1ms is not; the present and the past are not |
| Notification.CheckNearbyEvents | src/services/NotificationService.ts:106-119 | the result holds exactly the events within 5 km that are soon, and nothing else |
| Notification.Qualifies | src/services/NotificationService.ts:85 | an event qualifies when it is at most 5 km away and soon; the filter and the scheduler share this test |
| Notification.CheckNearbyEventsKeepsOrder | src/services/NotificationService.ts:110-118 | the filter distributes over concatenation, so it is the order-preserving subsequence; a single event is kept iff it qualifies |
| Notification.DistanceBoundary | src/services/NotificationService.ts:60 | for a soon event, a distance of exactly 5 km qualifies and anything beyond does not |
| Notification.ScheduleOutcomes | src/services/NotificationService.ts:74-104 | an already-notified or non-qualifying event changes nothing; otherwise the id joins the set and exactly one alert is appended; the set and the alert log only grow |
| Notification.Schedule | src/services/NotificationService.ts:74-104 | one call only adds: the set gains at most the event's id, and the alert log gains at most one alert at its end |
| Notification.NotifyAll | src/services/NotificationService.ts:153-155 | the scheduler applied to each event in turn, which the lemmas below characterise |
| Notification.ScheduleKeepsConsistent | src/services/NotificationService.ts:87-91 | alerted ids are exactly the set's ids, with no id alerted twice, and scheduling preserves this |
| Notification.NotifyAllKeepsConsistent | src/services/NotificationService.ts:153-155 | any sequence of schedule calls keeps at most one alert per event id |
| Notification.NotifyAllOnlyGrows | src/services/NotificationService.ts:61-91 | `notifiedEvents` never loses an id, and earlier alerts are never changed |
| Notification.NotifyAllRemembers | src/services/NotificationService.ts:87-91 | after a pass, the set is the old set plus the ids of the qualifying events |
| Notification.NotifyAllWhenAllNotified | src/services/NotificationService.ts:87-89 | when every event was already notified, a pass changes nothing |
| Notification.NotifyAllIdempotent | src/services/NotificationService.ts:148-156 | a second pass over the nearby events raises no further alert |
| Notification.NotificationService.constructor | src/services/NotificationService.ts:58-60 | the service starts with an empty set and no alerts |
| Notification.NotificationService.ScheduleEventNotification | src/services/NotificationService.ts:74-104 | the set and the alert log change only for a qualifying event that was not yet notified, which gains its id and exactly one alert |
| Notification.CheckAndNotify | src/services/NotificationService.ts:148-156 | with no location or no events nothing changes; otherwise the nearby events are scheduled in order, so the invariant of one alert per id still holds |
| Firestore.FirstIndexOf | src/lib/firestore.ts:89 | the first index whose id matches, or -1 when no entry matches |
| Firestore.Upsert | src/lib/firestore.ts:89-100 | an existing attendee keeps the length, a new one adds one entry at the end, and every entry other than the first match is unchanged |
| Firestore.FindIndex | src/lib/firestore.ts:89 | the linear search returns that first matching index, or -1 |
| Firestore.UpdateEventAttendance | src/lib/firestore.ts:82-105 | no write for a missing event; otherwise the list written is the upsert of the stored attendees, with a missing list read as empty |
| Firestore.UpsertUpdatesFirstMatch | src/lib/firestore.ts:89-93 | an existing attendee: the first matching entry changes only its status and `responseAt`, every other entry is kept and the length is unchanged |
| Firestore.UpsertAppendsNew | src/lib/firestore.ts:94-100 | a new attendee: one entry `{id, status, responseAt}` is pushed at the end |
| Firestore.UpsertRecordsStatus | src/lib/firestore.ts:89-100 | afterwards some entry carries the user's id with the given status |
| Firestore.UpsertKeepsUniqueIds | src/lib/firestore.ts:89-100 | attendee ids that were unique stay unique |
| Firestore.UpsertTwice | src/lib/firestore.ts:89-93 | repeating the update equals doing it once at the later instant |
| Firestore.JoinGroup | src/lib/firestore.ts:32-50 | no write for a missing group; otherwise one member is appended after the unchanged existing members, and `memberCount` is the new length |
| Firestore.JoinGroupTwiceCountsTwice | src/lib/firestore.ts:38-44 | joining twice lists the user twice and counts two more members |
| EventChat.FormatTimestamp | src/components/EventChat.tsx:85-98 | each bucket holds exactly its range of ages, and its number is the age rounded down to whole units (1 to 59 minutes, 1 to 23 hours, 1 to 6 days) |
| EventChat.StampText | src/components/EventChat.tsx:92-97 | the rendered bucket: 'Just now', or the count followed by 'm ago', 'h ago' or 'd ago', or the date text |
| EventChat.FormatTimestampBoundaries | src/components/EventChat.tsx:88-97 | the texts at each unit boundary and one millisecond before it, such as 60000 ms giving "1m ago" |
| EventChat.FutureIsJustNow | src/components/EventChat.tsx:88-92 | any age below one minute, including a negative one, reads "Just now" |
| EventChat.FormatTimestampMonotone | src/components/EventChat.tsx:88-97 | an older message never gets a more recent bucket, nor a smaller count within the same bucket |
| EventChat.FirstChars | src/components/EventChat.tsx:111 | at most one character comes from each part |
| EventChat.Initials | src/components/EventChat.tsx:111 | the first character of each space-separated part of the name, joined; its lemmas below give the shape |
| EventChat.FirstCharsOfNonEmptyParts | src/components/EventChat.tsx:111 | with all parts non-empty, the result is exactly the first character of each part |
| EventChat.InitialsOfTwoNames | src/components/EventChat.tsx:111 | "First Last" yields the two initials |
| EventChat.InitialsOfMockUsers | src/components/EventChat.tsx:22-111 | "Sarah Johnson" gives "SJ" and the empty name gives "" |
| EventChat.InitialsShape | src/components/EventChat.tsx:111 | no initial is a space, and there is at most one per space-separated part |
| EventChat.FirstCharsAvoidSeparator | src/components/EventChat.tsx:111 | pieces without the separator give initials without it |
| EventChat.RenderMessage | src/components/EventChat.tsx:100-129 | the avatar and the sender's name show exactly for other users' messages; the avatar shows the initials and the stamp is the bucket of the age |
| EventChat.LoadedAges | src/components/EventChat.tsx:22-59 | right after loading, the messages read one hour, 30 minutes and 15 minutes old |
| EventChat.MockMessages | src/components/EventChat.tsx:22-46 | three demonstration messages, in time order, all within the hour before loading |
| EventChat.Load | src/components/EventChat.tsx:50-59 | the load effect replaces the messages with the demonstration messages |
| EventChat.SendMessage | src/components/EventChat.tsx:61-83 | blank input changes nothing; otherwise exactly one message with the trimmed text and the current user's id and name, the fresh id, the current instant as its timestamp and no avatar is appended, and the input is cleared |
| EventChat.SentMessageReadsJustNow | src/components/EventChat.tsx:66-92 | a message just sent reads "Just now" for the rest of that minute |
| EventChat.SendKeepsClean | src/components/EventChat.tsx:62-72 | every stored text stays non-blank and trimmed |
| EventChat.SendTwiceSendsOnce | src/components/EventChat.tsx:75-76 | the cleared input makes an immediate second send do nothing |
| EventChat.WhitespaceIsNotSent | src/components/EventChat.tsx:62 | input of only white space is never sent |
| EventsScreen.FilteredEvents | src/screens/Events/EventsScreen.tsx:76-78 | with no filter (null or "") every event is listed; otherwise exactly the events of that type |
| EventsScreen.FilteredEventsKeepsOrder | src/screens/Events/EventsScreen.tsx:76-78 | filtering distributes over concatenation and keeps a single event exactly when it passes, so order and multiplicity are kept |
| EventsScreen.ToggleAttendance | src/screens/Events/EventsScreen.tsx:80-85 | matching events flip `isAttending` and move `attendees` by one in the matching direction; every other event and field is unchanged and the length is kept |
| EventsScreen.ToggleAttendanceTwice | src/screens/Events/EventsScreen.tsx:80-85 | toggling the same id twice restores the list |
| EventsScreen.ToggleAttendanceIsolated | src/screens/Events/EventsScreen.tsx:81-85 | an event with another id is untouched |
| EventsScreen.CardFollowsAttendance | src/screens/Events/EventsScreen.tsx:212-223 | "including you" and "Cancel" show exactly when the user attends, and toggling swaps the button |
| EventsScreen.AttendeeText | src/screens/Events/EventsScreen.tsx:212 | the suffix after the attendee count and 'people' reads 'including you' exactly when the user attends |
| EventsScreen.ButtonLabel | src/screens/Events/EventsScreen.tsx:223 | reads 'Cancel' exactly when the user attends |
| Rewards.RedeemReward | src/screens/RewardsScreen.js:94-102 | enough points: exactly the cost is subtracted and success is reported; otherwise the balance stays and the positive shortfall is the cost minus the balance |
| Rewards.RedeemAllStaysNonNegative | src/screens/RewardsScreen.js:95-96 | over any sequence of presses, a non-negative balance stays non-negative and never grows |
| Rewards.RedeemButton | src/screens/RewardsScreen.js:122-130 | the button is disabled exactly when the balance is short, and its label matches |
| Rewards.EnabledButtonRedeems | src/screens/RewardsScreen.js:95-130 | the button is enabled exactly when a press would redeem |
| Rewards.FilteredRewards | src/screens/RewardsScreen.js:90-92 | 'all' lists every reward; otherwise exactly the rewards whose type is the selected value |
| Rewards.FilteredRewardsKeepsOrder | src/screens/RewardsScreen.js:90-92 | the filter distributes over concatenation and keeps a single reward exactly for 'all' or its type, so order and multiplicity are kept |
| Rewards.FilterChipsOnCatalogue | src/screens/RewardsScreen.js:18-92 | the filter is by type: 'discount' finds the hotel and gear rewards, while the category 'travel' finds nothing |
| Rewards.CategoryColor | src/screens/RewardsScreen.js:137-147 | '#666' exactly for a category outside the table |
| Rewards.HistoryDisplay | src/screens/RewardsScreen.js:238-242 | '+' and green exactly for a gain; otherwise the plain number in red |
| Rewards.HistorySigns | src/screens/RewardsScreen.js:240-242 | the text starts with '+' iff a gain and with '-' iff a loss |
| Packing.TogglePacked | src/screens/Packing/PackingScreen.tsx:65-69 | only matching items change, and only `packed`; order and length are kept |
| Packing.TogglePackedTwice | src/screens/Packing/PackingScreen.tsx:65-69 | toggling the same id twice restores the list |
| Packing.TogglePackedKeepsEssentials | src/screens/Packing/PackingScreen.tsx:65-69 | toggling never changes how many items are essential |
| Packing.AddCustomItem | src/screens/Packing/PackingScreen.tsx:71-84 | an empty name changes nothing; otherwise one non-essential, unpacked item of quantity 1 with the form's name and category is appended, the form is reset and the dialog closed |
| Packing.AddCustomItemKeepsEssentials | src/screens/Packing/PackingScreen.tsx:76-77 | adding a custom item keeps the essential count |
| Packing.InitialHasEssentials | src/screens/Packing/PackingScreen.tsx:31-60 | the starting list has seventeen essential items |
| Packing.HandlersKeepEssentials | src/screens/Packing/PackingScreen.tsx:65-121 | both handlers keep at least one essential item, so the essential ratio never divides by zero |
| Packing.CategoryIcon | src/screens/Packing/PackingScreen.tsx:87-97 | 'package-variant' exactly for an unknown category |
| Packing.CategoryColor | src/screens/Packing/PackingScreen.tsx:99-109 | '#666' exactly for an unknown category |
| Packing.GroupItems | src/screens/Packing/PackingScreen.tsx:111-117 | the reduce yields one group per category in order of first appearance, each holding exactly that category's items in list order |
| Packing.ItemInItsGroup | src/screens/Packing/PackingScreen.tsx:111-117 | every item is in its own category's group and in no other |
| Packing.GroupSizesCountOnes | src/screens/Packing/PackingScreen.tsx:111-117 | the group sizes are the key-wise counts of the items |
| Packing.GroupingPartitions | src/screens/Packing/PackingScreen.tsx:111-117 | the group sizes sum to the list length |
| Packing.HeaderCount | src/screens/Packing/PackingScreen.tsx:207 | the header shows the number of packed items in the group over the group size, and the first never exceeds the second |
| Packing.HeaderCountAppend | src/screens/Packing/PackingScreen.tsx:207 | one more item in a group adds one to its size, and one to its packed count exactly when that item is packed |
| Packing.Ratio | src/screens/Packing/PackingScreen.tsx:119-121 | NaN exactly for 0/0; otherwise a value in [0, 1] that times the denominator gives the numerator |
| Packing.PackingProgress | src/screens/Packing/PackingScreen.tsx:119 | NaN exactly for an empty list; otherwise the packed count over the list length, which lies in [0, 1] |
| Packing.EssentialProgress | src/screens/Packing/PackingScreen.tsx:120-121 | NaN exactly when no item is essential; otherwise the packed essential count over the essential count, which lies in [0, 1] |
| Packing.AllPackedIsComplete | src/screens/Packing/PackingScreen.tsx:119 | a fully packed, non-empty list has progress 1 |
| Budget.TodayExpenses | src/screens/Budget/BudgetScreen.tsx:76-78 | exactly the expenses dated today |
| Budget.TodayTotal | src/screens/Budget/BudgetScreen.tsx:76-80 | the sum of today's amounts; TodayWithinTotal bounds it |
| Budget.TotalSpent | src/screens/Budget/BudgetScreen.tsx:81 | the sum of all amounts; CategoryTotalsSumToTotal splits it by category |
| Budget.TodayWithinTotal | src/screens/Budget/BudgetScreen.tsx:76-81 | with no negative amount, 0 <= today's total <= the total spent |
| Budget.CategoryTotals | src/screens/Budget/BudgetScreen.tsx:122-125 | the reduce has a key exactly for each occurring category, in order of first appearance, holding that category's sum |
| Budget.CategoryTotalExtend | src/screens/Budget/BudgetScreen.tsx:123 | one more expense adds its amount to its own category only |
| Budget.CategoryTotalIsGroupSum | src/screens/Budget/BudgetScreen.tsx:122-125 | a category's running total equals the sum of the amounts of exactly that category's expenses |
| Budget.SummarizesStep | src/screens/Budget/BudgetScreen.tsx:122-125 | one reduce step keeps the entries in first-appearance order and keeps each entry equal to its category's total |
| Budget.CategoryTotalsSumToTotal | src/screens/Budget/BudgetScreen.tsx:81-125 | the category totals add up to the total spent |
| Budget.AddExpense | src/screens/Budget/BudgetScreen.tsx:86-99 | an empty description or amount text changes nothing; otherwise one expense dated today with the form's category and currency is appended, the form is reset and the dialog closed |
| Budget.AddExpenseRaisesTotals | src/screens/Budget/BudgetScreen.tsx:76-96 | an added expense raises both the total and today's total by its amount |
| Budget.Divide | src/screens/Budget/BudgetScreen.tsx:83-84 | a JavaScript quotient: finite for a non-zero budget, and signed infinity or NaN for a zero one |
| Budget.ProgressBar | src/screens/Budget/BudgetScreen.tsx:150-177 | the over-budget style and red apply exactly for a ratio above 1; the bar value is min(ratio, 1) and NaN stays NaN |
| Budget.RedIffOverBudget | src/screens/Budget/BudgetScreen.tsx:150-158 | with a positive budget, the bar is red exactly when spending exceeds the budget |
| Budget.RecentExpenses | src/screens/Budget/BudgetScreen.tsx:211 | the first five entries, or the whole list when it is shorter |
| Community.ParseTagsShape | src/screens/Community/CommunityScreen.tsx:101 | one tag more than there are commas; each tag is trimmed and comma-free; empty input gives one empty tag |
| Community.ParseTags | src/screens/Community/CommunityScreen.tsx:101 | the comma-split input with each piece trimmed; ParseTagsShape gives its shape |
| Community.AddRecommendation | src/screens/Community/CommunityScreen.tsx:90-116 | an empty name or description changes nothing; otherwise a recommendation with rating 0, no reviews, author 'You' and the parsed tags is placed first, the form is reset to 'restaurant' and the dialog closed |
| Community.Filtered | src/screens/Community/CommunityScreen.tsx:86-88 | no filter (null or "") lists everything; otherwise exactly that type |
| Community.FilteredKeepsOrder | src/screens/Community/CommunityScreen.tsx:86-88 | the filter distributes over concatenation and keeps a single recommendation exactly with no filter or of that type, so order and multiplicity are kept |
| Community.AddedShowsFirst | src/screens/Community/CommunityScreen.tsx:86-105 | a new recommendation heads both the full list and the list filtered to its type |
| Community.PrependedMatches | src/screens/Community/CommunityScreen.tsx:86-88 | a prepended item of the filtered type heads the filtered list |
| Community.TypeIcon | src/screens/Community/CommunityScreen.tsx:118-125 | 'map-marker' exactly for an unknown type |
| Community.TypeColor | src/screens/Community/CommunityScreen.tsx:127-134 | '#2196F3' exactly for an unknown type |
| Community.RenderStars | src/screens/Community/CommunityScreen.tsx:136-146 | five icons: star i is full iff i < floor(rating), half iff floor(rating) <= i < rating, and an outline otherwise |
| Community.StarsInOrder | src/screens/Community/CommunityScreen.tsx:136-146 | full stars come first and only outlines follow a half, so there is at most one half star |
| Community.StarExamples | src/screens/Community/CommunityScreen.tsx:136-146 | 4.6, 3.0 and 0.0 render as expected |
| Emergency.AddEmergencyContact | src/screens/EmergencyScreen.js:123-140 | a blank trimmed name or phone changes nothing; otherwise a contact is appended with the untrimmed fields, id and priority equal to the old length + 1 and relationship defaulting to 'Emergency Contact', and the form is reset and closed |
| Emergency.AddKeepsNumbered | src/screens/EmergencyScreen.js:130 | ids stay exactly 1..n, starting from the initial ids 1 and 2 |
| Emergency.NumberedIdsAreUnique | src/screens/EmergencyScreen.js:130 | numbered contacts have distinct ids |
| Emergency.AddAllKeepsNumbered | src/screens/EmergencyScreen.js:123-140 | any sequence of additions keeps the numbering and only extends the list |
| Emergency.BlankNameIsRefused | src/screens/EmergencyScreen.js:124-127 | a name of only spaces is refused |
| Emergency.UntrimmedNameIsStored | src/screens/EmergencyScreen.js:124-132 | " Ann " passes the trimmed check and is stored with its spaces |
| Safety.ActivateSos | src/screens/Safety/SafetyScreen.tsx:62-78 | 'Keep Active' sets the flag and 'Cancel SOS' clears it; nothing else changes |
| Safety.CaptionFollowsChoice | src/screens/Safety/SafetyScreen.tsx:62-146 | the button reads 'Deactivate SOS' exactly after 'Keep Active', and 'Activate SOS' after a cancel |
| Safety.SosButtonCaption | src/screens/Safety/SafetyScreen.tsx:146 | reads 'Deactivate SOS' exactly while SOS is active |
| Safety.AddEmergencyContact | src/screens/Safety/SafetyScreen.tsx:80-90 | an empty name or phone changes nothing; otherwise one contact with the form's name, phone and email is appended, the form is cleared and the dialog closed |
| Safety.AddContactKeepsOthers | src/screens/Safety/SafetyScreen.tsx:86 | existing contacts stay |
| Safety.SpacesPassTheCheck | src/screens/Safety/SafetyScreen.tsx:81 | the check does not trim, so a name and phone of one space add a contact |
| Safety.CategoryIcon | src/screens/Safety/SafetyScreen.tsx:92-99 | 'information' exactly for an unknown category |
| Safety.CategoryColor | src/screens/Safety/SafetyScreen.tsx:101-108 | '#FF9800' exactly for an unknown category |
| MapScreen.MapPress | src/screens/MapScreen.js:88-91 | a press selects the coordinate and opens the dialog, keeping the markers and the form |
| MapScreen.AddNewMarker | src/screens/MapScreen.js:93-112 | a blank title or no selection changes nothing; otherwise a marker with id length + 1, the selected coordinate and rating 0 is appended, and the form, the selection and the dialog are reset |
| MapScreen.AddKeepsNumbered | src/screens/MapScreen.js:11-99 | marker ids stay 1..n |
| MapScreen.MarkerColor | src/screens/MapScreen.js:114-119 | green iff the rating is at least 4.5, orange iff in [4.0, 4.5), yellow iff in [3.0, 4.0), red iff below 3.0 |
| MapScreen.MarkerColorMonotone | src/screens/MapScreen.js:114-119 | a higher rating never gives a lower tier, and the type plays no part |
| MapScreen.NewMarkerIsRed | src/screens/MapScreen.js:99-118 | a newly added marker is red |
| MapScreen.MarkerIcon | src/screens/MapScreen.js:121-129 | 'location' exactly for an unknown type |
| PhotoBlog.CreatePost | src/screens/PhotoBlogScreen.js:108-130 | a blank trimmed title or content changes nothing; otherwise a post with id length + 1, no likes or comments, author 'You' and the form's image and location is placed first, and the form is reset and closed |
| PhotoBlog.CreateKeepsWellNumbered | src/screens/PhotoBlogScreen.js:114-126 | post ids stay distinct and within 1..n |
| PhotoBlog.PrependFreshId | src/screens/PhotoBlogScreen.js:115-126 | prepending the id n + 1 keeps the numbering |
| PhotoBlog.LikePost | src/screens/PhotoBlogScreen.js:132-138 | matching posts gain exactly one like; every other post and field is unchanged and the length is kept |
| PhotoBlog.LikePostTotal | src/screens/PhotoBlogScreen.js:132-138 | the total grows by the number of posts with the id |
| PhotoBlog.DistinctIdsCountOnce | src/screens/PhotoBlogScreen.js:132-138 | in a well-numbered list each id occurs once, so a like adds exactly one to the total |
| Reviews.StarRating | src/screens/ReviewsScreen.js:7-22 | star k+1 is filled iff k+1 <= rating |
| Reviews.PressStar | src/screens/ReviewsScreen.js:234-237 | pressing a star sets the rating to its number and nothing else |
| Reviews.PressedStarFillsUpTo | src/screens/ReviewsScreen.js:10-16 | after pressing star s, exactly the first s stars are filled |
| Reviews.FilledCountOfStarRating | src/screens/ReviewsScreen.js:10-15 | the filled count is the rating clamped to 0..5 |
| Reviews.FilteredReviews | src/screens/ReviewsScreen.js:103-105 | 'all' lists everything; otherwise exactly the selected category |
| Reviews.FilteredReviewsKeepsOrder | src/screens/ReviewsScreen.js:103-105 | the filter distributes over concatenation and keeps a single review exactly for 'all' or its category, so order and multiplicity are kept |
| Reviews.HandleSubmitReview | src/screens/ReviewsScreen.js:107-122 | a blank trimmed title, content or location changes nothing; otherwise the form resets to rating 5 and 'destination' and the dialog closes, while the list is unchanged |
| Reviews.SubmitDisabled | src/screens/ReviewsScreen.js:108-111 | a required field is blank after trimming; ButtonMatchesHandler ties it to the button and the handler |
| Reviews.ButtonMatchesHandler | src/screens/ReviewsScreen.js:108-256 | the button is disabled exactly when submitting would be refused, and the empty form is disabled |
| Reviews.AverageRating | src/screens/ReviewsScreen.js:293-306 | NaN exactly for no reviews; otherwise the mean rating |
| Reviews.AverageInRange | src/screens/ReviewsScreen.js:293-306 | ratings of 1 to 5 give an average in [1, 5] |
| Reviews.RatingSumBounds | src/screens/ReviewsScreen.js:293-306 | n <= the rating sum <= 5n |
| Reviews.StatsBounds | src/screens/ReviewsScreen.js:291-306 | 0 <= verified <= shown <= all reviews |
| Reviews.ReviewCount | src/screens/ReviewsScreen.js:293 | the number of reviews shown: all of them for 'all', otherwise the number in the selected category |
| Reviews.VerifiedCount | src/screens/ReviewsScreen.js:304 | the number of reviews that are verified and shown (in the selected category, or any for 'all'), at most the number shown |
| Reviews.VerifiedCountIsCount | src/screens/ReviewsScreen.js:304 | counting the verified entries of the filtered list equals counting the reviews that are both verified and shown |
| Reviews.StatsOnScreenData | src/screens/ReviewsScreen.js:36-92 | the screen's data shows 4 reviews, 3 verified, and no transport reviews |
| RouteSharing.AppendPartner | src/screens/Route/RouteScreen.tsx:56-83 | the matching routes get the name appended to `syncedWith` (and `shared` set when sharing); the others are unchanged and length and order are kept |
| RouteSharing.ShareRoute | src/screens/Route/RouteScreen.tsx:49-52 | selects the route and opens the dialog |
| RouteSharing.HandleShare | src/screens/Route/RouteScreen.tsx:54-70 | no selection or an empty email changes nothing; otherwise the selected route is shared with the email appended, and the email is cleared and the dialog closed |
| RouteSharing.SyncRoute | src/screens/Route/RouteScreen.tsx:72-84 | one "TravelBuddy_n" name is appended to the target, `shared` is unchanged and nothing else changes |
| RouteSharing.ShareThenCaption | src/screens/Route/RouteScreen.tsx:56-126 | a shared route reads 'Share More' and ends with the email |
| RouteSharing.ShareCaption | src/screens/Route/RouteScreen.tsx:126 | reads 'Share More' exactly for a shared route |
| RouteSharing.SyncKeepsCaptions | src/screens/Route/RouteScreen.tsx:72-126 | syncing never changes a share button |
| RouteSharing.OtherRoutesUntouched | src/screens/Route/RouteScreen.tsx:56-83 | routes with another id are unchanged by both handlers |
| CreateGroup.ToggleInterest | app/groups/create.tsx:28-34 | an absent interest is appended; a present one is removed everywhere; other interests keep their membership |
| CreateGroup.ToggleInterestProperties | app/groups/create.tsx:28-120 | the chip flips; other chips keep their state; toggling twice restores the selection; no duplicates arise |
| CreateGroup.HandleCreateGroup | app/groups/create.tsx:36-58 | the name is checked before the description, each refusing with its own message; only when both pass does `loading` become true |
| CreateGroup.LoadingOnlyAfterChecks | app/groups/create.tsx:37-47 | `loading` is set iff creation starts; a refusal changes nothing |
| CreateGroup.NameCheckedFirst | app/groups/create.tsx:37-40 | an empty form reports the name whatever the description |
| CreateGroup.CreationFinished | app/groups/create.tsx:50-57 | `loading` is cleared and nothing else changes |
| Eco.TipId | src/screens/Eco/EcoFriendlyScreen.tsx:123 | the id is "section-tip" in decimal |
| Eco.TipIdInjective | src/screens/Eco/EcoFriendlyScreen.tsx:123 | distinct (section, tip) pairs give distinct ids |
| Eco.PressTip | src/screens/Eco/EcoFriendlyScreen.tsx:124-128 | an unbookmarked tip is appended; a bookmarked one is removed |
| Eco.PressFlipsOnlyThatTip | src/screens/Eco/EcoFriendlyScreen.tsx:124-134 | the pressed tip's icon flips and every other tip's stays |
| Eco.TipIdExample | src/screens/Eco/EcoFriendlyScreen.tsx:123 | (0, 1) and (1, 0) give "0-1" and "1-0" |
| Eco.CarbonColor | src/screens/Eco/EcoFriendlyScreen.tsx:43-50 | red exactly for a level other than Zero, Low and Medium |
| Eco.CarbonColorsDistinct | src/screens/Eco/EcoFriendlyScreen.tsx:43-50 | Zero, Low and Medium have pairwise distinct colours |
| CreateEvent.HandleDateChange | app/events/create.tsx:42-47 | the picker stays open only on iOS, and the date changes only when a value is supplied |
| CreateEvent.HandleTimeChange | app/events/create.tsx:49-54 | the same for the time |
| CreateEvent.DismissedPickerKeepsValues | app/events/create.tsx:42-54 | a dismissed picker keeps the value |
| CreateEvent.SelectGroup | app/events/create.tsx:98-107 | sets the group id and closes the menu |
| CreateEvent.FindGroup | app/events/create.tsx:140 | the first group with that id, as `find` returns it, or none when no group has it |
| CreateEvent.GroupCaption | app/events/create.tsx:138-141 | 'Select Group' when none is selected, the selected group's name otherwise, and an empty caption for an unknown id |
| CreateEvent.PickedGroupIsShown | app/events/create.tsx:98-141 | the caption shows the group just picked |
| CreateEvent.QuickTitle | app/events/create.tsx:271-291 | the three quick actions set the three titles, and nothing else |
| CreateEvent.HandleCreateEvent | app/events/create.tsx:64-96 | title, group, description and location are checked in that order, and the first failing check reports its message; creation starts, with `loading` set, iff all four pass |
| CreateEvent.QuickTitleThenGroupAsksDescription | app/events/create.tsx:65-83 | a quick title plus a group stops at the description |
| CreateEvent.CreationFinished | app/events/create.tsx:88-95 | `loading` is cleared and nothing else changes |
| Onboarding.HandleNext | app/onboarding.tsx:48-60 | below the last index the index grows by exactly 1; at the last it navigates to the tabs and keeps the index |
| Onboarding.HandleSkip | app/onboarding.tsx:62-64 | navigates to the tabs from any index |
| Onboarding.PressNextFromStart | app/onboarding.tsx:44-60 | n presses from the start reach index min(n, last), and navigate iff n >= the slide count |
| Onboarding.PressNextFrom | app/onboarding.tsx:48-60 | the same from any in-range index |
| Onboarding.PressNextStays | app/onboarding.tsx:49-59 | once at the last slide and navigated, further presses change nothing |
| Onboarding.NextKeepsIndexInRange | app/onboarding.tsx:49-51 | the index stays within the slides |
| Onboarding.OneActiveIndicator | app/onboarding.tsx:101-111 | exactly the current indicator is wide |
| Onboarding.IndicatorWidth | app/onboarding.tsx:108 | an indicator is 20 wide exactly at the current index |
| Onboarding.NextCaption | app/onboarding.tsx:124 | 'Get Started' iff at the last slide, 'Next' otherwise |
| Onboarding.CaptionMatchesNext | app/onboarding.tsx:48-124 | the button reads 'Get Started' exactly when pressing it navigates |
| AiAssistant.ResponseList | src/screens/AIAssistantScreen.js:54-84 | a known category's replies, or the default replies for no category or an unknown one |
| AiAssistant.GenerateAiResponse | src/screens/AIAssistantScreen.js:54-84 | the reply is a member of that list |
| AiAssistant.ScreenCategoriesHaveReplies | src/screens/AIAssistantScreen.js:19-77 | every category on the screen has its own replies and never falls back |
| AiAssistant.HandleSendMessage | src/screens/AIAssistantScreen.js:27-52 | blank input changes nothing; otherwise the raw input is appended as a user message with id n + 1 followed by the reply with id n + 2, and the input is cleared |
| AiAssistant.HandleCategorySelect | src/screens/AIAssistantScreen.js:86-106 | appends "I need help with " + the lowercased label as message n + 1, followed by the category's reply as n + 2 |
| AiAssistant.HandlersKeepNumbered | src/screens/AIAssistantScreen.js:8-99 | message ids stay 1..n |
| AiAssistant.AppendPairKeepsNumbered | src/screens/AIAssistantScreen.js:30-43 | appending ids n + 1 and n + 2 keeps the numbering |
| AiAssistant.CategoryMessageInLowerCase | src/screens/AIAssistantScreen.js:88-94 | a shortcut sends "I need help with " followed by the label, same length, with no upper-case letter left |
| CurrentUser.Loaded | src/hooks/useUser.ts:17-22 | after the load step the user is the mock user and `loading` is false |
| CurrentUser.Merge | src/hooks/useUser.ts:27 | every supplied field is overwritten and every other field is kept |
| CurrentUser.UpdateUser | src/hooks/useUser.ts:25-29 | no change while there is no user; otherwise the user is merged with the patch |
| CurrentUser.MergeLaws | src/hooks/useUser.ts:27 | the empty patch is the identity, two updates compose into one, and repeating an update changes nothing |
| CurrentUser.UpdateBeforeAndAfterLoad | src/hooks/useUser.ts:14-29 | an update before loading is lost; after loading it merges into the mock user |

## Left out

- `calculateDistance` (the haversine) is floating-point trigonometry. Distance is a function parameter.
- The distance in an alert message is kept as a number. Its `toFixed` rendering is left out.
- The following platform calls are outside the model:
  - `Alert.alert` and `alert`;
  - `Linking.openURL`;
  - `expo-location` and `expo-image-picker`;
  - permission requests;
  - `router` navigation, recorded only as the route replaced to;
  - Firebase reads and writes;
  - the `requestNotificationPermissions` mock.

  Only some handlers report their alerts, as outcome values: CreateGroup.HandleCreateGroup and CreateEvent.HandleCreateEvent return the refusal message, Rewards.RedeemReward returns the redemption or the shortfall, and Safety.ActivateSos takes the chosen alert button as its input. The refusal and success alerts of the other screens are left out: PhotoBlog.CreatePost, Reviews.HandleSubmitReview, Emergency.AddEmergencyContact, MapScreen.AddNewMarker, Packing.AddCustomItem, Budget.AddExpense, Community.AddRecommendation and Safety.AddEmergencyContact change state or leave it unchanged, and show nothing.
- Within one `checkAndNotify` pass, each call is modelled at a single instant `now`. The awaits between events are not modelled.
- Notification.CheckAndNotify: the effect and timer that call it are not modelled.
- `setTimeout` delays become explicit steps, with `CreationFinished` marking the timer's end. The AI reply is appended together with the user's message. Interleaved timers, and the duplicate ids they could produce, are not modelled.
- `Math.random` and `Date.now()` are parameters, as a pick below the range and a fresh id.
- Locale formatting is left out: `toLocaleDateString`, `toLocaleTimeString` and `toFixed`. The "date" bucket of the chat takes the rendered text as a parameter.
- Budget.AddExpense: `parseFloat` is not modelled; the handler receives the parsed amount as an integer number of cents. A non-numeric amount text such as "abc" passes the source's emptiness check and is stored as NaN, which makes every total NaN; such amounts, and the NaN totals they cause, are outside the model.
- Reviews.AllReviews: each review's `content` is shortened to its first sentence and `authorAvatar` is dropped, since no rule of the screen reads either.
- Instants carry a fixed local offset. Time zones and daylight saving time are left out.
- Firestore.UpdateEventAttendance works on a local copy of the attendee list, and so does the source before writing it back. There is no aliasing to model.
- Characters are Unicode scalar values, not UTF-16 code units. `toLowerCase` is modelled for ASCII letters only.
- Rewards.CategoryColor: inherited keys such as `constructor` in the `colors[category]` lookup are not modelled.
- AiAssistant.ResponseList: inherited keys such as `constructor` in the `responses[category?.label]` lookup are not modelled; for such a label the source replies `undefined`, while the model picks one of the default replies.
- CurrentUser.Merge: a patch field explicitly set to `undefined` is not modelled, only absent fields.
- Budget: the budget edit dialog and `getCategoryIcon`/`getCategoryColor` hold no rule beyond a lookup, and are left out.
- Budget.RedIffOverBudget: a zero or negative budget gives infinity or NaN. This appears in Budget.ProgressBar but not in the lemma.
- The onboarding scroll handler, animations and the `StyleSheet` objects are left out.
- The static-data screens, the navigation shells and the type declarations are left out. The types file's shapes are reused as datatypes.
- React render and batching semantics are not modelled. Every handler is one atomic transition.
- The imminence window: the comment at src/services/NotificationService.ts:47 says only "within next 24 hours" and leaves the 24-hour point open. The code's comparison `hoursDiff <= 24` (line 56) counts an event exactly 24 hours ahead as soon, and the model follows it (Notification.ImminenceBoundaries).
