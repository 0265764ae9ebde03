# alive-next inactivity monitor — a Dafny model

alive-next is a personal-safety web service. A phone app checks in with
a location and a motion status. A periodic job finds users who have not
checked in for a while and texts their emergency contacts ("recipients").
This project models the core of that service and proves what it promises:

- **the inactivity check and notification engine** (`POST /api/check-activity`):
  - the inactivity filter;
  - the per-recipient send/skip rule with its `notifiedForCurrentInactivity` flag;
  - the per-user and batch counts;
  - the threshold derived from the environment;
- **the activity history** (`ActivityService`): the newest-first bounded list of
  check-ins and the `lastActiveState` field;
- **the motion-status enum**, its "active" subset and the configuration limits;
- **location validation**: the latitude/longitude ranges and the
  `latitude,longitude` string pattern, as a recognizer;
- **the alert text** of `formatInactivityMessage`;
- **the recipients routes** (GET owner filter, POST record construction,
  DELETE 400/404/403 chain) and **the legacy activity route** (field checks,
  location split, whole-document overwrite).

Firestore is the class `Store.Db`:

- two collections held as maps, `userActivity` and `recipients`;
- the order in which each collection lists its documents;
- `Valid()`, which ties the maps to their listing orders.

The routes and the service are methods that change `Db`. Each is proved
against a function that states the resulting state, and the properties are
lemmas about those functions.

Request bodies and recipient documents are `Json.Doc` (maps to JSON values).
JavaScript truthiness is modelled by `Json.Truthy`.

Timestamps are integer milliseconds. Several things the service gets from
its environment are parameters instead:

- JavaScript `Number()`: `num: string -> Option<real>`, where `None` stands for NaN;
- the date and number printing of the alert text: `Twilio.Formatters`;
- the SMS provider: `provider: Value -> SendOutcome`, which gives the outcome
  for a phone number;
- the clock (`now`, the ISO strings);
- the new document id of an `add`;
- the caller uid that session verification yields.

`Promise.all` runs sequentially, one element after the other. When no stored
recipient carries an `id` field of its own, the dispatches of one user address
distinct documents (`CheckActivity.CorrectedTextsEach`), and the order does
not change the outcome of any of them. The POST route stores the client's
fields as they come (src/app/api/recipients/route.ts:52-59), so a recipient
can carry an `id` naming another document. Two dispatches can then address the
same document; see "## Left out".

Three facts about the code shape the model:

- Inactivity looks only at `activities[0]`. Nothing reads `lastActiveState`,
  looks back over older samples or marks an inactivity episode.
- The flag `notifiedForCurrentInactivity` is set but never cleared. After a
  successful notification, every later dispatch to that recipient is skipped
  (`CheckActivity.SecondDispatchSkipped`, `CheckActivity.NotifiedStays`). A
  recipient whose SMS went out but whose flag update failed is never flagged,
  so every run texts it again (`CheckActivity.NestedPathSentThenFails`).
- The threshold defaults to 18 hours (`CheckActivity.DefaultThreshold`),
  while the configuration says 24 and the alert always says "over 24 hours".

The check route dispatches each recipient with `doc.data()`, which carries no
`id` (src/app/api/check-activity/route.ts:127-134). The argument is a choice
in `CheckActivity.Setup`:

- `DataOnly` is the code as written. Then every dispatch fails before sending,
  and the whole check sends nothing and raises no flag
  (`CheckActivity.AsWrittenCheckSendsNothing`).
- `WithId` passes `{ id: doc.id, ...doc.data() }`, evidently what was intended
  (see "## Findings"). The properties of a single dispatch hold for any
  argument. The ones about reaching each recipient are proved for `WithId`.

## Model

| member | source | states |
|---|---|---|
| Constants.Parse | src/config/constants.ts:6-14 | a status string parses only to the enum member whose wire text it is |
| Constants.ParseText | src/config/constants.ts:6-14 | every enum member's wire text parses back to that member |
| Constants.ActiveSetExact | src/config/constants.ts:6-22 | a status is active iff it is neither `stationary` nor `inactive`; `unknown` is active |
| LocationDto.RangeIssues | src/dtos/common/location.dto.ts:4-5 | no issue iff the value lies in the inclusive range; every issue names the checked field |
| LocationDto.ValidateLocation | src/dtos/common/location.dto.ts:3-6 | accepted iff lat ∈ [-90, 90] and lng ∈ [-180, 180], both ends included; on success the coordinates are returned unchanged; each issue names a field that is out of range |
| LocationDto.DigitRun | src/dtos/common/location.dto.ts:13 | the `\d+` scan: the longest run of digits at the front |
| LocationDto.WhitespaceRun | src/dtos/common/location.dto.ts:13 | the `\s*` scan: the longest run of whitespace at the front |
| LocationDto.ScanFraction | src/dtos/common/location.dto.ts:13 | the optional `(\.\d+)` group: either nothing is consumed, or a dot and a non-empty digit run |
| LocationDto.ScanDecimal | src/dtos/common/location.dto.ts:13 | a scanned number `-?\d+(\.\d+)?` is well formed and its text is exactly the consumed prefix |
| LocationDto.ScanDecimalText | src/dtos/common/location.dto.ts:13 | the scanner reads back any well-formed number followed by any rest |
| LocationDto.ParseLocationText | src/dtos/common/location.dto.ts:12-13 | whatever the anchored recognizer accepts is a well-formed `number,\s*number` that renders to exactly the input |
| LocationDto.ParseRender | src/dtos/common/location.dto.ts:12-13 | the recognizer accepts every rendering of a well-formed location text and recovers it |
| LocationDto.MatchesIff | src/dtos/common/location.dto.ts:12-13 | a string matches the pattern iff it is the rendering of some well-formed latitude, whitespace gap and longitude |
| LocationDto.RenderShape | src/dtos/common/location.dto.ts:13 | a matching string starts with `-` or a digit, ends with a digit, uses only digits, `-`, `.`, `,` and whitespace, and has its only comma right after the latitude |
| LocationDto.AcceptedShape | src/dtos/common/location.dto.ts:12-13 | an accepted string has exactly one comma position, preceded by a digit |
| LocationDto.AcceptedExcludes | src/dtos/common/location.dto.ts:13 | an accepted string has no leading `+`, no trailing `.`, no whitespace before the comma and no exponent |
| LocationDto.ExactlyOneComma | src/dtos/common/location.dto.ts:13 | every accepted string holds exactly one comma, so a third component is rejected |
| Json.MissingFields | src/app/api/recipients/route.ts:43-44 | the missing fields are exactly the required ones whose value is falsy; none missing iff all are truthy |
| Json.MissingFieldsInOrder | src/app/api/recipients/route.ts:44 | missing fields are listed in the order they are required |
| Store.Without | src/app/api/recipients/route.ts:119 | removing an id from a listing keeps every other id and no duplicates appear |
| Store.Owned | src/app/api/recipients/route.ts:9-12 | the `where("userId", "==", uid)` query: exactly the listed documents whose `userId` is the string uid, without duplicates |
| Store.OwnedAppend | src/app/api/recipients/route.ts:9-12 | the query keeps listing order: the answer for a listing in two parts is the two answers one after the other |
| Store.Db.SetUserActivity | src/services/activity.service.ts:49 | writes one `userActivity` document, lists a new user last and keeps the order otherwise, and leaves the recipients untouched |
| Store.Db.AddRecipient | src/app/api/recipients/route.ts:61 | adds one recipient under a fresh id, listed last; nothing else changes |
| Store.Db.DeleteRecipient | src/app/api/recipients/route.ts:119 | removes exactly that recipient from the map and from the listing; nothing else changes |
| Store.Db.UpdateRecipient | src/app/api/check-activity/route.ts:79-81 | an `update` succeeds iff the document exists, and it changes that one field of that one document |
| ActivityService.IndexOf | src/services/activity.service.ts:10 | the first occurrence of the separator, or the length when there is none |
| ActivityService.Split | src/services/activity.service.ts:10 | `String.split(",")`: at least one part, and no part contains the separator |
| ActivityService.SplitJoin | src/services/activity.service.ts:10 | joining the parts with the separator gives back the string |
| ActivityService.SplitCount | src/services/activity.service.ts:10 | there is one more part than there are separators |
| ActivityService.SplitAtOnly | src/services/activity.service.ts:10 | a string with a single separator splits into what lies before and after it |
| ActivityService.SplitRender | src/services/activity.service.ts:10 | a string that matches the location pattern splits into the latitude text and the longitude text with its leading whitespace |
| ActivityService.ParseLocation | src/services/activity.service.ts:9-15 | a result exists only when the first two parts convert to numbers, and it is those two numbers |
| ActivityService.ParseLocationIff | src/services/activity.service.ts:9-15 | `parseLocation` succeeds iff there are at least two parts and both convert to numbers; otherwise it throws |
| ActivityService.NoCommaRejected | src/services/activity.service.ts:10-13 | a location without a comma is rejected |
| ActivityService.ThirdPartIgnored | src/services/activity.service.ts:10 | parts after the second one are ignored |
| ActivityService.ParseAccepted | src/services/activity.service.ts:9-15 | on a string the pattern accepts, the parse is the conversion of the latitude and longitude texts |
| ActivityService.PushRecent | src/services/activity.service.ts:35-38 | the new list has length min(old + 1, 10), starts with the new sample and continues with a prefix of the old list |
| ActivityService.MergeActivity | src/services/activity.service.ts:35-49 | the merge write: the sample first, length min(old + 1, 10), the rest a prefix of the old history, so only the oldest is dropped; `lastActiveState` becomes the sample iff its status is active and is kept otherwise; legacy fields kept |
| ActivityService.HistoryWindow | src/services/activity.service.ts:35-38 | after any run of check-ins the history is the newest 10 of (check-ins newest first, then the old history) |
| ActivityService.PushTruncated | src/services/activity.service.ts:35-38 | pushing onto the trimmed history equals pushing onto the whole history |
| ActivityService.LastActiveIsLatest | src/services/activity.service.ts:42-49 | after any run of check-ins `lastActiveState` is the latest active check-in, or the old value when none was active |
| ActivityService.LegacyKept | src/services/activity.service.ts:49 | check-ins never change the fields written by the legacy activity route |
| ActivityService.Service.constructor | src/services/activity.service.ts:7 | the service is bound to its store |
| ActivityService.Service.GetActivities | src/services/activity.service.ts:54-61 | a user without a document has no activities |
| ActivityService.Service.CreateActivity | src/services/activity.service.ts:17-52 | an invalid location fails with "Invalid location format" and leaves the store unchanged; otherwise the returned sample is the new `activities[0]`, the list length is min(old + 1, 10), the rest is a prefix of the old list, the document is the merge of the old one, and no other document or listing changes |
| Twilio.GreetingAndSignature | src/app/lib/twilio.ts:33-41 | the message starts with `Dear <recipientName>,` and ends with the fixed signature line |
| Twilio.ReportStated | src/app/lib/twilio.ts:35 | the inactivity sentence with the user name and the time text follows the introduction |
| Twilio.AdviceNamesUser | src/app/lib/twilio.ts:39 | the closing advice asks to reach out to the user by name |
| Twilio.LocationOnlyAddsSentence | src/app/lib/twilio.ts:29-35 | a location only inserts its sentence after the inactivity sentence; without one nothing is added |
| Twilio.SentReport | src/app/lib/twilio.ts:18-35 | with the system's wording, the report says "over 24 hours" whatever the threshold, and a missing timestamp reads "an unknown time" |
| CheckActivity.NoHistoryInactive | src/app/api/check-activity/route.ts:39-47 | a user whose `activities` list is missing or empty is always inactive |
| CheckActivity.ThresholdIsStrict | src/app/api/check-activity/route.ts:45-48 | a gap of exactly the threshold is not inactive; one millisecond more is |
| CheckActivity.OnlyNewestSampleMatters | src/app/api/check-activity/route.ts:39-48 | two documents with the same newest sample are classified alike, whatever their older samples and `lastActiveState` |
| CheckActivity.InactivityPersists | src/app/api/check-activity/route.ts:45-48 | a user inactive now is still inactive later without a check-in |
| CheckActivity.CheckInResets | src/app/api/check-activity/route.ts:39-48 | after a check-in the user is inactive iff the time since that check-in exceeds the threshold |
| CheckActivity.InactiveUsers | src/app/api/check-activity/route.ts:34-50 | exactly the listed users that are inactive at the one `now`, without duplicates; nobody inactive gives an empty list |
| CheckActivity.InactiveUsersAppend | src/app/api/check-activity/route.ts:34-50 | the filter keeps scan order: filtering a scan in two parts gives the two filtered parts one after the other |
| CheckActivity.ThresholdHours | src/app/api/check-activity/route.ts:163 | the setting when it is a non-zero number, otherwise 18 |
| CheckActivity.DefaultThreshold | src/app/api/check-activity/route.ts:163-164 | the default threshold is 64 800 000 ms, not the configured 24 hours |
| CheckActivity.NonEmpty | src/app/api/check-activity/route.ts:58 | the path segments kept are exactly the non-empty ones |
| CheckActivity.Segments | src/app/api/check-activity/route.ts:58 | every segment of a path is non-empty and holds no `/` |
| CheckActivity.DocRef | src/app/api/check-activity/route.ts:58 | a reference exists only for an id string, and then it is the id's segments joined by `/`, an odd number of them, so that the path with the collection names a document |
| CheckActivity.PlainIdRef | src/app/api/check-activity/route.ts:58 | a non-empty id without `/` refers to the document of that id |
| CheckActivity.NestedPathSentThenFails | src/app/api/check-activity/route.ts:58-96 | an id naming a subcollection document is accepted by `doc`, so the SMS is sent, and then the flag update fails with "not found", recipients unchanged |
| CheckActivity.SkipWhenNotified | src/app/api/check-activity/route.ts:63-70 | a recipient already flagged is skipped: nothing sent, nothing written |
| CheckActivity.SuccessIff | src/app/api/check-activity/route.ts:58-87 | success iff the reference is valid and exists, the flag is not set and the provider delivers; then the SMS was sent and exactly that flag was set |
| CheckActivity.FailureWritesNothing | src/app/api/check-activity/route.ts:72-96 | any outcome other than success writes nothing; a provider error also sends nothing and leaves the flag unset |
| CheckActivity.SecondDispatchSkipped | src/app/api/check-activity/route.ts:63-81 | dispatching to the same recipient again is skipped, whatever the provider does, because nothing clears the flag |
| CheckActivity.DispatchOnlyRaisesFlag | src/app/api/check-activity/route.ts:52-97 | a dispatch changes no recipient except by setting its flag |
| CheckActivity.OnlyFlagsRaisedTransitive | src/app/api/check-activity/route.ts:125-136 | "only flags raised" composes over successive dispatches |
| CheckActivity.SendNotification | src/app/api/check-activity/route.ts:52-97 | the store method performs exactly the dispatch step |
| CheckActivity.NotifiedStays | src/app/api/check-activity/route.ts:63-81 | once set, a flag stays set under any change that only raises flags |
| CheckActivity.RecipientArg | src/app/api/check-activity/route.ts:126-134 | the corrected dispatch argument carries the document id, so its reference is that document |
| CheckActivity.MessageForIsFormat | src/app/api/check-activity/route.ts:128-133 | each recipient's message is `formatInactivityMessage` of the user name, the newest sample's time and location, and the recipient's name |
| CheckActivity.DispatchAll | src/app/api/check-activity/route.ts:125-136 | one result per recipient; the recipient collection keeps its documents |
| CheckActivity.DispatchAllOnlyRaisesFlags | src/app/api/check-activity/route.ts:125-136 | dispatching to all recipients only raises flags |
| CheckActivity.SucceededAreFlagged | src/app/api/check-activity/route.ts:79-136 | every recipient whose dispatch succeeded is flagged when the user is done |
| CheckActivity.UnaddressedNeverSent | src/app/api/check-activity/route.ts:58-96 | recipients passed without an id all fail with an invalid document path: nothing sent, nothing written |
| CheckActivity.CountSucceeded | src/app/api/check-activity/route.ts:143-144 | `successCount` ≤ `totalRecipients`; equal iff every dispatch succeeded; 0 iff none did |
| CheckActivity.UserName | src/app/api/check-activity/route.ts:112 | the display name when it is non-empty, otherwise "User"; never empty |
| CheckActivity.Attempts | src/app/api/check-activity/route.ts:125-134 | one dispatch per recipient returned by the query, in query order, each with the setup's argument for that recipient and that recipient's message |
| CheckActivity.ProcessUser | src/app/api/check-activity/route.ts:99-146 | no result iff the user lookup fails, and then nothing is written or sent; the result names the user and the newest sample |
| CheckActivity.NoRecipientsNoMessages | src/app/api/check-activity/route.ts:114-123 | a user without recipients gets an empty list and 0/0, and nothing is written or sent |
| CheckActivity.AsWrittenNeverTexts | src/app/api/check-activity/route.ts:125-134 | with `DataOnly`, the code as written, no SMS is sent, nothing is written and nothing succeeds |
| CheckActivity.CorrectedAddressesEach | src/app/api/check-activity/route.ts:58-134 | with `WithId`, dispatch `i` addresses exactly recipient document `i` |
| CheckActivity.DeliverOne | src/app/api/check-activity/route.ts:58-87 | a dispatch to a stored, unflagged document the provider delivers to succeeds, sends the SMS and flags exactly that document |
| CheckActivity.AllDelivered | src/app/api/check-activity/route.ts:58-136 | dispatches to distinct stored, unflagged, deliverable documents all succeed, send their SMS in order, and flag exactly those documents |
| CheckActivity.CorrectedTextsEach | src/app/api/check-activity/route.ts:99-146 | with `WithId`, a known user whose recipients store no `id` and are unflagged and deliverable has each of them texted once, in query order, with its own message; successes = recipients = number owned, and exactly the owned recipients are flagged |
| CheckActivity.AsWrittenUserSendsNothing | src/app/api/check-activity/route.ts:99-146 | with `DataOnly`, processing a user sends nothing, writes nothing and counts no success |
| CheckActivity.ProcessInactiveUser | src/app/api/check-activity/route.ts:99-146 | the store method performs exactly the per-user processing |
| CheckActivity.DispatchEach | src/app/api/check-activity/route.ts:125-136 | the loop performs exactly the dispatches over all recipients |
| CheckActivity.CalculateTotals | src/app/api/check-activity/route.ts:148-156 | total successful ≤ total notifications; no results give 0/0 |
| CheckActivity.TotalsAdd | src/app/api/check-activity/route.ts:148-156 | totals are sums: the totals of two lists of users add up |
| CheckActivity.ProcessAll | src/app/api/check-activity/route.ts:177-179 | one result per inactive user; the recipient collection keeps its documents |
| CheckActivity.ProcessAllSnoc | src/app/api/check-activity/route.ts:177-179 | processing one more user extends the run by that user's processing |
| CheckActivity.ProcessAllOnlyRaisesFlags | src/app/api/check-activity/route.ts:177-179 | processing all inactive users only raises flags |
| CheckActivity.ReportsMatchSnoc | src/app/api/check-activity/route.ts:177-179 | adding a user's matching result keeps results and users in step |
| CheckActivity.ProcessAllReports | src/app/api/check-activity/route.ts:107-179 | result `i` is missing iff the lookup of user `i` failed, and otherwise belongs to user `i` |
| CheckActivity.Reports | src/app/api/check-activity/route.ts:187 | the reported results are the users' results in order |
| CheckActivity.RunCheck | src/app/api/check-activity/route.ts:159-196 | the whole check keeps the recipient collection's documents |
| CheckActivity.CheckOnlyRaisesFlags | src/app/api/check-activity/route.ts:159-196 | the whole check changes no recipient except by raising its flag |
| CheckActivity.AllFoundIff | src/app/api/check-activity/route.ts:107-179 | every lookup succeeds iff every inactive user has an authentication record |
| CheckActivity.FailsIffLookupFails | src/app/api/check-activity/route.ts:177-194 | the request fails iff some inactive user has no authentication record |
| CheckActivity.NobodyInactiveNothingSent | src/app/api/check-activity/route.ts:169-174 | with nobody inactive the response is "No inactive users found", and nothing is sent or written |
| CheckActivity.TotalsNoSuccess | src/app/api/check-activity/route.ts:148-156 | users with no successful notification total no successful notification |
| CheckActivity.AsWrittenRunSendsNothing | src/app/api/check-activity/route.ts:177-179 | with `DataOnly`, processing all inactive users sends nothing, writes nothing and every user counts no success |
| CheckActivity.AsWrittenCheckSendsNothing | src/app/api/check-activity/route.ts:159-196 | with `DataOnly`, the whole check sends nothing, writes nothing, and a processed response reports 0 successful notifications |
| CheckActivity.ProcessNext | src/app/api/check-activity/route.ts:177-179 | processing the next user extends the run by exactly that user's processing and keeps the listings |
| CheckActivity.ProcessEach | src/app/api/check-activity/route.ts:177-179 | the loop performs exactly the processing of all inactive users |
| CheckActivity.RunInactivityCheck | src/app/api/check-activity/route.ts:159-196 | the store method performs exactly the whole check |
| RecipientsRoute.ListRecipients | src/app/api/recipients/route.ts:9-17 | GET returns, in query order, each owned recipient with its id |
| RecipientsRoute.ListExactlyOwn | src/app/api/recipients/route.ts:9-17 | GET lists only the caller's recipients, lists every one of them, and each carries its document id |
| RecipientsRoute.RecipientRecord | src/app/api/recipients/route.ts:52-59 | the stored record forces `userId` to the caller; `email` and `relationship` default to "" when falsy; timestamps are set; every other client field is kept |
| RecipientsRoute.PostRecipient | src/app/api/recipients/route.ts:35-84 | a falsy `name` or `phoneNumber` gives 400 listing the missing fields and stores nothing; otherwise exactly the record is added, listed last, and 201 returns it with its id |
| RecipientsRoute.PostValidation | src/app/api/recipients/route.ts:43-50 | the missing fields are listed in the order name, phoneNumber |
| RecipientsRoute.DeleteDecision | src/app/api/recipients/route.ts:89-121 | deleted iff an id is given, exists and belongs to the caller; 400 iff no id is given; 404 iff the given id does not exist; 403 iff it exists and belongs to someone else |
| RecipientsRoute.DeleteRecipient | src/app/api/recipients/route.ts:86-135 | when the decision is to delete, removes exactly the requested recipient from the map and the listing; otherwise the store is unchanged |
| RecipientsRoute.CreatedIsOwned | src/app/api/recipients/route.ts:52-117 | a created recipient is listed for its creator, and only its creator may delete it; anyone else gets 403 |
| ActivityRoute.Validate | src/app/api/activity/route.ts:20-53 | missing fields give 400 in the order location, motionStatus; success iff the status is truthy and the location string parses; the record holds the caller uid, the parsed coordinates, the status as sent and the time |
| ActivityRoute.PostActivity | src/app/api/activity/route.ts:15-66 | a valid request replaces the user's whole document with the record and changes nothing else; an invalid one leaves the store unchanged |
| ActivityRoute.AnyMotionStatusStored | src/app/api/activity/route.ts:48-53 | the motion status is not checked against the enum: any truthy value is stored as sent |
| ActivityRoute.OverwriteLooksInactive | src/app/api/activity/route.ts:56 | the overwritten document has no `activities`, so the check classes the user inactive |
| ActivityRoute.SameLocationParse | src/app/api/activity/route.ts:31-46 | the route accepts a location iff the service's `parseLocation` does |

## Left out

- Session verification (`verifySession`, the 401/500 mapping from error text) and the Firebase Admin and Twilio client setup are not modelled. The caller uid is an input.
- Firestore I/O failures other than the ones modelled are not modelled: the missing document in the flag update, and the failed user lookup that fails the whole check.
- Conversion between `Timestamp`, ISO strings and `new Date(...)` is not modelled. Timestamps are integer milliseconds. The legacy route's ISO time is an opaque string.
- `Number()`/`isNaN` are the `num` parameter. `toLocaleString` and number printing are `Twilio.Formatters`. Floating point itself is not modelled.
- `Promise.all` runs sequentially. Interleavings are not modelled. When two dispatches address the same document (a stored `id` field naming another recipient), the sequential run sends once and skips the second. Run concurrently, both could read the flag as unset and both send.
- Store.Db.AddRecipient: lists the new document last. Firestore orders listings and query results by document id, so GET's order can differ from the model's. No proved property depends on where a new document is listed.
- Store.Db.SetUserActivity: lists a new user last, in insertion order, while Firestore lists by document id. No proved property depends on the scan order of the users.
- The SMS provider's outcome depends only on the phone number. Its error texts are opaque strings.
- Request bodies that are not JSON objects are not modelled.
- A `DELETE` id containing `/`, which Firestore reads as a nested path, is not modelled. The model treats it as an id that does not exist.
- Documents in subcollections are not held by `Store.Db`. An id naming one is accepted by `CheckActivity.DocRef` and then not found.
- `CheckActivity.DocRef` checks the path rules of the client library only. Ids the server rejects (".", "..", ids of the form `__x__`) are not modelled.
- `Twilio.Interpolate`: arrays and objects both render as "[object Object]". Arrays are not modelled separately.
- `CheckActivity.RunCheck`: its own ensures states only that the recipient collection keeps its documents. The response and the flags are stated by `FailsIffLookupFails`, `NobodyInactiveNothingSent` and `CheckOnlyRaisesFlags`.
- `CheckActivity.ProcessAll`: its own ensures states only lengths and keys. The per-user results are stated by `ProcessAllReports` and `AllFoundIff`.
- The success response's summary text is built from the totals and not proved further.
- `ACTIVITY_CONFIG.INACTIVITY_THRESHOLD_HOURS` (24) appears only in `DefaultThreshold`, because no code path reads it.
- src/dtos/activity/activity.dto.ts contributes only the shape of `Store.Sample`. src/app/api/recipients/[recipientId]/route.ts is not part of this model.

## Findings

| source | as written | input that shows it | evidently intended | confidence | as-written member | corrected member |
|---|---|---|---|---|---|---|
| src/app/api/check-activity/route.ts:58-134 | each recipient is dispatched with `doc.data()`, which has no `id`, so `collection("recipients").doc(recipient.id)` receives `undefined` and throws | an inactive user with one recipient `{name, phoneNumber, userId}`: the dispatch fails with an invalid document path, no SMS is sent and the flag is never set | dispatch `{ id: doc.id, ...doc.data() }` so each recipient is looked up, texted and flagged | medium, not executed | CheckActivity.AsWrittenNeverTexts | CheckActivity.CorrectedTextsEach |
