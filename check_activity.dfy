/**
 * The inactivity check (`POST /api/check-activity`): find the users whose newest check-in is
 * older than the threshold, and text each of their emergency contacts once per inactivity
 * period, remembered by the recipient's `notifiedForCurrentInactivity` flag.
 */
module CheckActivity {
  import opened Wrappers
  import opened Json
  import opened Store
  import Twilio
  import ActivityService

  // ---------------------------------------------------------------------------------------
  // Which users are inactive
  // ---------------------------------------------------------------------------------------

  /** The filter of `getInactiveUsers`: no newest sample, or one older than the threshold.
      Only `activities[0]` is read. */
  predicate IsInactive(d: UserDoc, now: int, thresholdMs: real)
  {
    var activities := ActivitiesOf(d);
    activities == [] || (now - activities[0].timestamp) as real > thresholdMs
  }

  /** Users with no history are always inactive. */
  lemma NoHistoryInactive(d: UserDoc, now: int, thresholdMs: real)
    requires ActivitiesOf(d) == []
    ensures IsInactive(d, now, thresholdMs)
  {
  }

  /** A gap of exactly the threshold is not inactivity: the comparison is strict. */
  lemma ThresholdIsStrict(d: UserDoc, gap: int)
    requires ActivitiesOf(d) != []
    ensures !IsInactive(d, ActivitiesOf(d)[0].timestamp + gap, gap as real)
    ensures IsInactive(d, ActivitiesOf(d)[0].timestamp + gap + 1, gap as real)
  {
  }

  /** Only the timestamp of the newest sample matters: older samples, `lastActiveState` and
      the legacy fields never change the verdict. */
  lemma OnlyNewestSampleMatters(d: UserDoc, e: UserDoc, now: int, thresholdMs: real)
    requires ActivitiesOf(d) != [] && ActivitiesOf(e) != []
    requires ActivitiesOf(d)[0].timestamp == ActivitiesOf(e)[0].timestamp
    ensures IsInactive(d, now, thresholdMs) == IsInactive(e, now, thresholdMs)
  {
  }

  /** Once inactive, a user stays inactive as time passes without a check-in. */
  lemma InactivityPersists(d: UserDoc, now: int, later: int, thresholdMs: real)
    requires now <= later && IsInactive(d, now, thresholdMs)
    ensures IsInactive(d, later, thresholdMs)
  {
  }

  /** A check-in resets inactivity: right after one, the user is inactive exactly when more
      than the threshold has passed since it. */
  lemma CheckInResets(d: UserDoc, s: Sample, now: int, thresholdMs: real)
    ensures IsInactive(ActivityService.MergeActivity(d, s), now, thresholdMs)
      <==> (now - s.timestamp) as real > thresholdMs
  {
  }

  /** `getInactiveUsers`: the documents of `ids` (in scan order) that are inactive at the one
      `now` taken for the whole scan. */
  function InactiveUsers(ids: seq<string>, docs: map<string, UserDoc>, now: int, thresholdMs: real)
    : (r: seq<string>)
    requires forall k :: k in ids ==> k in docs
    ensures forall k :: k in r <==> k in ids && IsInactive(docs[k], now, thresholdMs)
    ensures NoDuplicates(ids) ==> NoDuplicates(r)
    ensures |r| <= |ids|
    ensures (forall k :: k in ids ==> !IsInactive(docs[k], now, thresholdMs)) ==> r == []
  {
    if ids == [] then []
    else
      var rest := InactiveUsers(ids[..|ids| - 1], docs, now, thresholdMs);
      var k := ids[|ids| - 1];
      assert forall x :: x in ids <==> x in ids[..|ids| - 1] || x == k;
      if IsInactive(docs[k], now, thresholdMs) then rest + [k] else rest
  }

  /** One more scanned document extends the filtered list by that document when it is inactive. */
  lemma InactiveSnoc(ids: seq<string>, k: string, docs: map<string, UserDoc>, now: int, thresholdMs: real)
    requires forall x :: x in ids ==> x in docs
    requires k in docs
    ensures forall x :: x in ids + [k] ==> x in docs
    ensures InactiveUsers(ids + [k], docs, now, thresholdMs)
      == InactiveUsers(ids, docs, now, thresholdMs) + (if IsInactive(docs[k], now, thresholdMs) then [k] else [])
  {
    assert (ids + [k])[..|ids|] == ids;
  }

  /** The filter keeps the scan order: filtering a scan in two parts gives the two filtered
      parts one after the other. */
  lemma {:induction false} InactiveUsersAppend(a: seq<string>, b: seq<string>, docs: map<string, UserDoc>,
                                               now: int, thresholdMs: real)
    requires forall k :: k in a ==> k in docs
    requires forall k :: k in b ==> k in docs
    ensures forall k :: k in a + b ==> k in docs
    ensures InactiveUsers(a + b, docs, now, thresholdMs)
      == InactiveUsers(a, docs, now, thresholdMs) + InactiveUsers(b, docs, now, thresholdMs)
    decreases |b|
  {
    if b == [] {
      assert a + b == a;
    } else {
      var b', k := b[..|b| - 1], b[|b| - 1];
      assert b == b' + [k];
      assert a + b == (a + b') + [k];
      InactiveUsersAppend(a, b', docs, now, thresholdMs);
      InactiveSnoc(a + b', k, docs, now, thresholdMs);
      InactiveSnoc(b', k, docs, now, thresholdMs);
    }
  }

  /** `Number(process.env.INACTIVITY_THRESHOLD_HOURS) || 18`: the setting as JavaScript's
      `Number` reads it (`None` is `NaN`); `NaN` and `0` fall back to 18 hours. */
  function ThresholdHours(setting: Option<real>): (hours: real)
    ensures setting.Some? && setting.value != 0.0 ==> hours == setting.value
    ensures setting.None? || setting.value == 0.0 ==> hours == 18.0
  {
    if setting.Some? && setting.value != 0.0 then setting.value else 18.0
  }

  /** The threshold in milliseconds. */
  function ThresholdMs(setting: Option<real>): real
  {
    ThresholdHours(setting) * 3600000.0
  }

  /** Without a usable setting the check uses 18 hours, not the 24 of the shared constants
      and of the message text. */
  lemma DefaultThreshold()
    ensures ThresholdMs(None) == 64800000.0 && ThresholdMs(Some(0.0)) == 64800000.0
    ensures ThresholdMs(None) != (Constants.InactivityThresholdHours * 3600000) as real
  {
  }

  // ---------------------------------------------------------------------------------------
  // One notification
  // ---------------------------------------------------------------------------------------

  const Flag := "notifiedForCurrentInactivity"

  datatype Status = Succeeded | Failed | Skipped

  /** Why a notification was not sent or not recorded. Other errors of the store are the
      client library's and are not modelled. */
  datatype Reason = AlreadyNotified | InvalidDocumentPath | ProviderError(message: string) | NotFound

  /** `NotificationResult`. */
  datatype NotificationResult = NotificationResult(recipientId: Value, status: Status, phoneNumber: Value, error: Option<Reason>)

  /** What the SMS provider does with one message. */
  datatype SendOutcome = Delivered | Rejected(message: string)

  /** An SMS handed to the provider. */
  datatype Sms = Sms(to: Value, body: string)

  /** The effect of one `sendNotification`: its result, the `recipients` collection after it,
      and the SMS it sent, if any. */
  datatype Step = Step(result: NotificationResult, recipients: map<string, Doc>, sent: Option<Sms>)

  /** The parts of `parts` that are not empty. */
  function NonEmpty(parts: seq<string>): (r: seq<string>)
    ensures forall x :: x in r <==> x in parts && x != ""
  {
    if parts == [] then []
    else
      assert forall x :: x in parts <==> x == parts[0] || x in parts[1..];
      (if parts[0] == "" then [] else [parts[0]]) + NonEmpty(parts[1..])
  }

  /** The segments of a document path: the parts between `/`, without the empty ones a
      leading or trailing `/` leaves. */
  function Segments(path: string): (r: seq<string>)
    ensures forall x :: x in r ==> x != "" && '/' !in x
  {
    NonEmpty(ActivityService.Split(path, '/'))
  }

  predicate HasDoubleSlash(path: string)
  {
    exists i :: 0 <= i < |path| - 1 && path[i] == '/' && path[i + 1] == '/'
  }

  /** The document `collection("recipients").doc(recipient.id)` refers to, as its path below
      `recipients`. `doc` throws unless the id is a non-empty string without `//` whose
      segments, with the collection's, are of even number. One segment names a document of
      the collection; three or more name a document of a subcollection. */
  function DocRef(recipient: Doc): (r: Option<string>)
    ensures r.Some? ==> Field(recipient, "id").Str? && r.value == Json.Join(Segments(Field(recipient, "id").s), "/")
    ensures r.Some? ==> |Segments(Field(recipient, "id").s)| % 2 == 1
  {
    match Field(recipient, "id")
    case Str(s) =>
      if s == "" || HasDoubleSlash(s) || |Segments(s)| % 2 == 0 then None
      else Some(Json.Join(Segments(s), "/"))
    case _ => None
  }

  /** A plain document id names that document of the collection. */
  lemma PlainIdRef(recipient: Doc, id: string)
    requires Field(recipient, "id") == Str(id) && id != "" && '/' !in id
    ensures DocRef(recipient) == Some(id)
  {
    var i := ActivityService.IndexOf(id, '/');
    assert i == |id|;
    assert ActivityService.Split(id, '/') == [id];
    assert NonEmpty([id]) == [id];
    assert !HasDoubleSlash(id) by {
      forall i | 0 <= i < |id| - 1 ensures id[i] != '/' {
        assert id[i] in id;
      }
    }
  }

  /** A path of three or more segments names a document of a subcollection: its path holds
      a `/`, so no document id of the collection equals it. */
  lemma NestedRefHasSlash(recipient: Doc)
    requires DocRef(recipient).Some? && |Segments(Field(recipient, "id").s)| > 1
    ensures '/' in DocRef(recipient).value
  {
    var parts := Segments(Field(recipient, "id").s);
    assert Json.Join(parts, "/") == parts[0] + "/" + Json.Join(parts[1..], "/");
    assert Json.Join(parts, "/")[|parts[0]|] == '/';
  }

  /** `sendNotification(recipient, message)` against the stored recipients, with the
      provider's answer for each phone number given by `provider`. */
  function Dispatch(recipients: map<string, Doc>, recipient: Doc, message: string,
                    provider: Value -> SendOutcome): Step
  {
    var recipientId, phone := Field(recipient, "id"), Field(recipient, "phoneNumber");
    var ref := DocRef(recipient);
    if ref.None? then
      Step(NotificationResult(recipientId, Failed, phone, Some(InvalidDocumentPath)), recipients, None)
    else
      var id := ref.value;
      var flag := if id in recipients then Field(recipients[id], Flag) else Undefined;
      if Truthy(flag) then
        Step(NotificationResult(recipientId, Skipped, phone, Some(AlreadyNotified)), recipients, None)
      else if provider(phone).Rejected? then
        Step(NotificationResult(recipientId, Failed, phone, Some(ProviderError(provider(phone).message))), recipients, None)
      else if id !in recipients then
        Step(NotificationResult(recipientId, Failed, phone, Some(NotFound)), recipients, Some(Sms(phone, message)))
      else
        Step(NotificationResult(recipientId, Succeeded, phone, None),
             recipients[id := recipients[id][Flag := Bool(true)]], Some(Sms(phone, message)))
  }

  /** The stored flag of the recipient `recipient.id` names. */
  predicate Notified(recipients: map<string, Doc>, recipient: Doc)
  {
    DocRef(recipient).Some? && DocRef(recipient).value in recipients
    && Truthy(Field(recipients[DocRef(recipient).value], Flag))
  }

  /** An already-notified recipient is skipped: nothing is sent and nothing is written. */
  lemma SkipWhenNotified(recipients: map<string, Doc>, recipient: Doc, message: string,
                         provider: Value -> SendOutcome)
    requires Notified(recipients, recipient)
    ensures var s := Dispatch(recipients, recipient, message, provider);
      s.result.status == Skipped && s.result.error == Some(AlreadyNotified)
      && s.sent == None && s.recipients == recipients
  {
  }

  /** Success exactly when the recipient's document exists, is not yet flagged and the
      provider delivers; the flag is then set, after the SMS went out. */
  lemma SuccessIff(recipients: map<string, Doc>, recipient: Doc, message: string,
                   provider: Value -> SendOutcome)
    ensures var s := Dispatch(recipients, recipient, message, provider);
      s.result.status == Succeeded <==>
        DocRef(recipient).Some? && DocRef(recipient).value in recipients
        && !Notified(recipients, recipient) && provider(Field(recipient, "phoneNumber")) == Delivered
    ensures var s := Dispatch(recipients, recipient, message, provider);
      s.result.status == Succeeded ==>
        && s.recipients == recipients[DocRef(recipient).value := recipients[DocRef(recipient).value][Flag := Bool(true)]]
        && s.sent == Some(Sms(Field(recipient, "phoneNumber"), message))
        && Notified(s.recipients, recipient)
  {
  }

  /** An id naming a document of a subcollection (`a/b/c`) passes `doc`, but the document is
      not one of the collection's: its flag reads as unset, the SMS goes out, and the flag
      update then fails. */
  lemma NestedPathSentThenFails(recipients: map<string, Doc>, recipient: Doc, message: string,
                                provider: Value -> SendOutcome)
    requires forall k :: k in recipients ==> '/' !in k
    requires DocRef(recipient).Some? && |Segments(Field(recipient, "id").s)| > 1
    requires provider(Field(recipient, "phoneNumber")) == Delivered
    ensures var s := Dispatch(recipients, recipient, message, provider);
      s.result.status == Failed && s.result.error == Some(NotFound)
      && s.sent == Some(Sms(Field(recipient, "phoneNumber"), message)) && s.recipients == recipients
  {
    NestedRefHasSlash(recipient);
  }

  /** The store changes only on success; a rejected SMS leaves the flag as it was, so the
      next check tries again. */
  lemma FailureWritesNothing(recipients: map<string, Doc>, recipient: Doc, message: string,
                             provider: Value -> SendOutcome)
    ensures var s := Dispatch(recipients, recipient, message, provider);
      s.result.status != Succeeded ==> s.recipients == recipients
    ensures var s := Dispatch(recipients, recipient, message, provider);
      s.result.status == Failed && s.result.error.value.ProviderError? ==>
        s.sent == None && !Notified(s.recipients, recipient)
  {
  }

  /** Nothing clears the flag: dispatching to the same recipient again after a success is
      skipped, whatever the provider would do. */
  lemma SecondDispatchSkipped(recipients: map<string, Doc>, recipient: Doc, message: string,
                              message': string, provider: Value -> SendOutcome,
                              provider': Value -> SendOutcome)
    requires Dispatch(recipients, recipient, message, provider).result.status == Succeeded
    ensures var s := Dispatch(recipients, recipient, message, provider);
      var s' := Dispatch(s.recipients, recipient, message', provider');
      s'.result.status == Skipped && s'.sent == None && s'.recipients == s.recipients
  {
    SuccessIff(recipients, recipient, message, provider);
  }

  /** `after` differs from `before` only by flags raised to `true`. */
  ghost predicate OnlyFlagsRaised(before: map<string, Doc>, after: map<string, Doc>)
  {
    && before.Keys == after.Keys
    && forall k :: k in before ==> after[k] == before[k] || after[k] == before[k][Flag := Bool(true)]
  }

  lemma OnlyFlagsRaisedTransitive(a: map<string, Doc>, b: map<string, Doc>, c: map<string, Doc>)
    requires OnlyFlagsRaised(a, b) && OnlyFlagsRaised(b, c)
    ensures OnlyFlagsRaised(a, c)
  {
    forall k | k in a ensures c[k] == a[k] || c[k] == a[k][Flag := Bool(true)] {
      if b[k] != a[k] {
        assert b[k][Flag := Bool(true)] == a[k][Flag := Bool(true)];
      }
    }
  }

  /** A dispatch changes at most the flag of one recipient, and only raises it. */
  lemma DispatchOnlyRaisesFlag(recipients: map<string, Doc>, recipient: Doc, message: string,
                               provider: Value -> SendOutcome)
    ensures OnlyFlagsRaised(recipients, Dispatch(recipients, recipient, message, provider).recipients)
  {
  }

  /** `sendNotification`, over the store. */
  method SendNotification(db: Db, recipient: Doc, message: string, provider: Value -> SendOutcome)
    returns (result: NotificationResult, sent: Option<Sms>)
    requires db.Valid()
    modifies db
    ensures db.Valid()
    ensures Step(result, db.recipients, sent) == Dispatch(old(db.recipients), recipient, message, provider)
    ensures db.recipientIds == old(db.recipientIds)
    ensures db.userActivity == old(db.userActivity) && db.activityIds == old(db.activityIds)
  {
    var recipientId, phone := Field(recipient, "id"), Field(recipient, "phoneNumber");
    var ref := DocRef(recipient);
    if ref.None? {
      return NotificationResult(recipientId, Failed, phone, Some(InvalidDocumentPath)), None;
    }
    var id := ref.value;
    var flag := if id in db.recipients then Field(db.recipients[id], Flag) else Undefined;
    if Truthy(flag) {
      return NotificationResult(recipientId, Skipped, phone, Some(AlreadyNotified)), None;
    }
    var outcome := provider(phone);
    if outcome.Rejected? {
      return NotificationResult(recipientId, Failed, phone, Some(ProviderError(outcome.message))), None;
    }
    sent := Some(Sms(phone, message));
    var ok := db.UpdateRecipient(id, Flag, Bool(true));
    if ok {
      result := NotificationResult(recipientId, Succeeded, phone, None);
    } else {
      result := NotificationResult(recipientId, Failed, phone, Some(NotFound));
    }
  }

  /** `notifiedForCurrentInactivity` is never cleared, so a raised flag stays raised. */
  lemma NotifiedStays(before: map<string, Doc>, after: map<string, Doc>, recipient: Doc)
    requires OnlyFlagsRaised(before, after) && Notified(before, recipient)
    ensures Notified(after, recipient)
  {
  }

  // ---------------------------------------------------------------------------------------
  // All recipients of one user
  // ---------------------------------------------------------------------------------------

  /** The argument `sendNotification` receives for recipient `id` with stored data `data`:
      `doc.data()` as written, which has no `id` field. */
  function AsWrittenRecipientArg(id: string, data: Doc): Doc
  {
    data
  }

  /** The intended argument, `{ id: doc.id, ...doc.data() }` as the recipients list builds it. */
  function RecipientArg(id: string, data: Doc): (r: Doc)
    ensures "id" !in data && id != "" && '/' !in id ==> DocRef(r) == Some(id)
  {
    var r := map["id" := Str(id)] + data;
    if "id" !in data && id != "" && '/' !in id then
      PlainIdRef(r, id);
      r
    else r
  }

  /** Which argument `processInactiveUser` hands `sendNotification`: `DataOnly` is
      `doc.data()` as the route is written, `WithId` the intended `{ id: doc.id, ...doc.data() }`. */
  datatype Argument = DataOnly | WithId

  function ArgumentFor(argument: Argument, id: string, data: Doc): Doc
  {
    match argument
    case DataOnly => AsWrittenRecipientArg(id, data)
    case WithId => RecipientArg(id, data)
  }

  lemma MessageForIsFormat(userName: string, lastActivity: Option<Sample>, data: Doc, setup: Setup)
    requires setup.wording == Twilio.MessageWording
    ensures MessageFor(userName, lastActivity, data, setup) ==
      Twilio.FormatInactivityMessage(userName,
        if lastActivity.Some? then Some(lastActivity.value.timestamp) else None,
        if lastActivity.Some? then lastActivity.value.location else None,
        Field(data, "name"), setup.fmt)
  {
  }

  /** One call of `sendNotification`. */
  datatype Attempt = Attempt(recipient: Doc, message: string)

  /** The effect of a run of dispatches: their results in order, the recipients after them and
      the SMS sent, in order. */
  datatype Batch = Batch(results: seq<NotificationResult>, recipients: map<string, Doc>, sent: seq<Sms>)

  function SentList(s: Option<Sms>): seq<Sms>
  {
    if s.Some? then [s.value] else []
  }

  /** The dispatches of `attempts`, one after the other. */
  function DispatchAll(recipients: map<string, Doc>, attempts: seq<Attempt>,
                       provider: Value -> SendOutcome): (b: Batch)
    ensures |b.results| == |attempts|
    ensures b.recipients.Keys == recipients.Keys
  {
    if attempts == [] then Batch([], recipients, [])
    else
      var b := DispatchAll(recipients, attempts[..|attempts| - 1], provider);
      var a := attempts[|attempts| - 1];
      var s := Dispatch(b.recipients, a.recipient, a.message, provider);
      Batch(b.results + [s.result], s.recipients, b.sent + SentList(s.sent))
  }

  /** However the provider behaves, a run of dispatches only raises flags. */
  lemma {:induction false} DispatchAllOnlyRaisesFlags(recipients: map<string, Doc>, attempts: seq<Attempt>,
                                                      provider: Value -> SendOutcome)
    ensures OnlyFlagsRaised(recipients, DispatchAll(recipients, attempts, provider).recipients)
  {
    if attempts != [] {
      var b := DispatchAll(recipients, attempts[..|attempts| - 1], provider);
      var a := attempts[|attempts| - 1];
      DispatchAllOnlyRaisesFlags(recipients, attempts[..|attempts| - 1], provider);
      DispatchOnlyRaisesFlag(b.recipients, a.recipient, a.message, provider);
      OnlyFlagsRaisedTransitive(recipients, b.recipients,
        Dispatch(b.recipients, a.recipient, a.message, provider).recipients);
    }
  }

  /** Every recipient notified successfully in a run is flagged at its end, so the next run
      skips it. */
  lemma {:induction false} SucceededAreFlagged(recipients: map<string, Doc>, attempts: seq<Attempt>,
                                               provider: Value -> SendOutcome, i: nat)
    requires i < |attempts| && DispatchAll(recipients, attempts, provider).results[i].status == Succeeded
    ensures Notified(DispatchAll(recipients, attempts, provider).recipients, attempts[i].recipient)
  {
    var init := attempts[..|attempts| - 1];
    var b := DispatchAll(recipients, init, provider);
    var a := attempts[|attempts| - 1];
    if i < |init| {
      assert b.results[i] == DispatchAll(recipients, attempts, provider).results[i];
      SucceededAreFlagged(recipients, init, provider, i);
      DispatchOnlyRaisesFlag(b.recipients, a.recipient, a.message, provider);
      NotifiedStays(b.recipients, Dispatch(b.recipients, a.recipient, a.message, provider).recipients, attempts[i].recipient);
    } else {
      SuccessIff(b.recipients, a.recipient, a.message, provider);
    }
  }

  /** Recipients whose argument names no document all fail before the provider is called:
      nothing is sent and nothing is written. */
  lemma {:induction false} UnaddressedNeverSent(recipients: map<string, Doc>, attempts: seq<Attempt>,
                                                provider: Value -> SendOutcome)
    requires forall i :: 0 <= i < |attempts| ==> DocRef(attempts[i].recipient).None?
    ensures var b := DispatchAll(recipients, attempts, provider);
      b.sent == [] && b.recipients == recipients
      && forall i :: 0 <= i < |b.results| ==>
           b.results[i].status == Failed && b.results[i].error == Some(InvalidDocumentPath)
  {
    if attempts != [] {
      UnaddressedNeverSent(recipients, attempts[..|attempts| - 1], provider);
    }
  }

  /** `successCount`: the results with status `success`. */
  function CountSucceeded(results: seq<NotificationResult>): (n: nat)
    ensures n <= |results|
    ensures n == |results| <==> forall i :: 0 <= i < |results| ==> results[i].status == Succeeded
    ensures n == 0 <==> forall i :: 0 <= i < |results| ==> results[i].status != Succeeded
  {
    if results == [] then 0
    else
      var rest := CountSucceeded(results[..|results| - 1]);
      assert forall i :: 0 <= i < |results| - 1 ==> results[..|results| - 1][i] == results[i];
      rest + (if results[|results| - 1].status == Succeeded then 1 else 0)
  }

  /** A Firebase Authentication user record. */
  datatype AuthUser = AuthUser(displayName: Option<string>)

  /** `user.displayName || "User"`. */
  function UserName(user: AuthUser): (name: string)
    ensures name != ""
    ensures user.displayName.Some? && user.displayName.value != "" ==> name == user.displayName.value
  {
    if user.displayName.Some? && user.displayName.value != "" then user.displayName.value else "User"
  }

  /** `UserNotificationResult`. Its two counts are derived from its notifications, as the
      report computes them. */
  datatype UserNotificationResult = UserNotificationResult(
    userId: string, userName: string, lastActivity: Option<Sample>, notifications: seq<NotificationResult>)
  {
    function SuccessCount(): nat
    {
      CountSucceeded(notifications)
    }

    function TotalRecipients(): nat
    {
      |notifications|
    }
  }

  /** How the check builds each dispatch: the formatters and the wording of the message
      (`Twilio.MessageWording` for the system as built), and the argument it hands
      `sendNotification` (`DataOnly` for the route as written). */
  datatype Setup = Setup(fmt: Twilio.Formatters, wording: Twilio.Wording, argument: Argument)

  /** The SMS of one recipient, from the snapshot of its stored data: with the system's
      wording, exactly `formatInactivityMessage`. */
  function MessageFor(userName: string, lastActivity: Option<Sample>, data: Doc, setup: Setup): string
  {
    Twilio.Compose(setup.wording, userName,
      Twilio.TimeText(if lastActivity.Some? then Some(lastActivity.value.timestamp) else None, setup.fmt),
      Twilio.LocationText(if lastActivity.Some? then lastActivity.value.location else None, setup.fmt),
      Twilio.Interpolate(Field(data, "name"), setup.fmt))
  }

  /** The dispatches of `processInactiveUser`, one per recipient the query returned. */
  function Attempts(snapshot: map<string, Doc>, owned: seq<string>, userName: string,
                    lastActivity: Option<Sample>, setup: Setup): (r: seq<Attempt>)
    requires forall k :: k in owned ==> k in snapshot
    ensures |r| == |owned|
    ensures forall i :: 0 <= i < |owned| ==>
      r[i] == Attempt(ArgumentFor(setup.argument, owned[i], snapshot[owned[i]]),
                      MessageFor(userName, lastActivity, snapshot[owned[i]], setup))
  {
    seq(|owned|, i requires 0 <= i < |owned| =>
      Attempt(ArgumentFor(setup.argument, owned[i], snapshot[owned[i]]),
              MessageFor(userName, lastActivity, snapshot[owned[i]], setup)))
  }

  /** The effect of `processInactiveUser` for one user: `None` when the user lookup fails,
      which fails the whole request. */
  datatype UserOutcome = UserOutcome(result: Option<UserNotificationResult>, recipients: map<string, Doc>, sent: seq<Sms>)

  function NewestSample(d: UserDoc): Option<Sample>
  {
    if ActivitiesOf(d) == [] then None else Some(ActivitiesOf(d)[0])
  }

  function ProcessUser(recipients: map<string, Doc>, recipientIds: seq<string>, userId: string,
                       doc: UserDoc, users: map<string, AuthUser>, setup: Setup,
                       provider: Value -> SendOutcome): (o: UserOutcome)
    requires forall k :: k in recipientIds ==> k in recipients
    ensures o.result.Some? ==>
      && o.result.value.userId == userId
      && o.result.value.lastActivity == NewestSample(doc)
    ensures o.result.None? <==> userId !in users
    ensures o.result.None? ==> o.recipients == recipients && o.sent == []
    ensures o.recipients.Keys == recipients.Keys
  {
    if userId !in users then UserOutcome(None, recipients, [])
    else
      var userName := UserName(users[userId]);
      var owned := Owned(recipientIds, recipients, userId);
      var attempts := Attempts(recipients, owned, userName, NewestSample(doc), setup);
      var b := DispatchAll(recipients, attempts, provider);
      UserOutcome(Some(UserNotificationResult(userId, userName, NewestSample(doc), b.results)),
                  b.recipients, b.sent)
  }

  /** A user without recipients gets an empty report, and nothing is sent or written. */
  lemma NoRecipientsNoMessages(recipients: map<string, Doc>, recipientIds: seq<string>, userId: string,
                               doc: UserDoc, users: map<string, AuthUser>, setup: Setup,
                               provider: Value -> SendOutcome)
    requires forall k :: k in recipientIds ==> k in recipients
    requires userId in users
    requires forall k :: k in recipientIds ==> Field(recipients[k], "userId") != Str(userId)
    ensures var o := ProcessUser(recipients, recipientIds, userId, doc, users, setup, provider);
      o.result.value.notifications == [] && o.result.value.SuccessCount() == 0
      && o.result.value.TotalRecipients() == 0 && o.recipients == recipients && o.sent == []
  {
    assert Owned(recipientIds, recipients, userId) == [];
  }

  /** As written, `processInactiveUser` hands `sendNotification` stored data without an `id`,
      so no recipient is ever texted or flagged: every result is `failed`. */
  lemma AsWrittenNeverTexts(recipients: map<string, Doc>, owned: seq<string>, userName: string,
                            lastActivity: Option<Sample>, setup: Setup,
                            provider: Value -> SendOutcome)
    requires setup.argument == DataOnly
    requires forall k :: k in owned ==> k in recipients && "id" !in recipients[k]
    ensures var b := DispatchAll(recipients, Attempts(recipients, owned, userName, lastActivity, setup), provider);
      b.sent == [] && b.recipients == recipients && CountSucceeded(b.results) == 0
  {
    var attempts := Attempts(recipients, owned, userName, lastActivity, setup);
    forall i | 0 <= i < |attempts| ensures DocRef(attempts[i].recipient).None? {
      assert owned[i] in owned;
    }
    UnaddressedNeverSent(recipients, attempts, provider);
  }

  /** With the intended argument every owned recipient is addressed by its own document. */
  lemma CorrectedAddressesEach(recipients: map<string, Doc>, owned: seq<string>, userName: string,
                               lastActivity: Option<Sample>, setup: Setup)
    requires setup.argument == WithId
    requires forall k :: k in owned ==> k in recipients && "id" !in recipients[k] && k != "" && '/' !in k
    ensures var attempts := Attempts(recipients, owned, userName, lastActivity, setup);
      forall i :: 0 <= i < |owned| ==> DocRef(attempts[i].recipient) == Some(owned[i])
  {
    var attempts := Attempts(recipients, owned, userName, lastActivity, setup);
    forall i | 0 <= i < |owned| ensures DocRef(attempts[i].recipient) == Some(owned[i]) {
      assert owned[i] in owned;
    }
  }

  /** The SMS each attempt would send, in order. */
  function Texts(attempts: seq<Attempt>): (r: seq<Sms>)
    ensures |r| == |attempts|
    ensures forall i :: 0 <= i < |attempts| ==>
      r[i] == Sms(Field(attempts[i].recipient, "phoneNumber"), attempts[i].message)
  {
    if attempts == [] then []
    else
      var a := attempts[|attempts| - 1];
      Texts(attempts[..|attempts| - 1]) + [Sms(Field(a.recipient, "phoneNumber"), a.message)]
  }

  /** Dispatches carry the plain ids of distinct stored documents, none flagged yet, and the
      provider delivers to every number. */
  predicate Deliverable(recipients: map<string, Doc>, attempts: seq<Attempt>, ids: seq<string>,
                        provider: Value -> SendOutcome)
  {
    && |ids| == |attempts| && NoDuplicates(ids)
    && (forall i :: 0 <= i < |ids| ==>
          && Field(attempts[i].recipient, "id") == Str(ids[i]) && ids[i] != "" && '/' !in ids[i]
          && ids[i] in recipients && !Truthy(Field(recipients[ids[i]], Flag))
          && provider(Field(attempts[i].recipient, "phoneNumber")) == Delivered)
  }

  /** Dropping the last dispatch keeps the run deliverable, and its target is not among the
      earlier ones. */
  lemma DeliverableInit(recipients: map<string, Doc>, attempts: seq<Attempt>, ids: seq<string>,
                        provider: Value -> SendOutcome)
    requires Deliverable(recipients, attempts, ids, provider) && attempts != []
    ensures Deliverable(recipients, attempts[..|attempts| - 1], ids[..|ids| - 1], provider)
    ensures ids[|ids| - 1] !in ids[..|ids| - 1]
    ensures forall x :: x in ids <==> x in ids[..|ids| - 1] || x == ids[|ids| - 1]
  {
    var n := |ids| - 1;
    assert forall i :: 0 <= i < n ==> attempts[..n][i] == attempts[i] && ids[..n][i] == ids[i];
    assert forall j :: 0 <= j < n ==> ids[..n][j] != ids[n];
  }

  /** `after` is `before` with exactly the documents `ids` flagged. */
  predicate FlaggedExactly(before: map<string, Doc>, after: map<string, Doc>, ids: seq<string>)
  {
    forall k :: k in before ==>
      k in after && after[k] == if k in ids then before[k][Flag := Bool(true)] else before[k]
  }

  /** A dispatch to a plain id of a stored, unflagged document the provider delivers to
      succeeds, flags that document and sends the SMS. */
  lemma DeliverOne(recipients: map<string, Doc>, recipient: Doc, message: string, k: string,
                   provider: Value -> SendOutcome)
    requires Field(recipient, "id") == Str(k) && k != "" && '/' !in k
    requires k in recipients && !Truthy(Field(recipients[k], Flag))
    requires provider(Field(recipient, "phoneNumber")) == Delivered
    ensures Dispatch(recipients, recipient, message, provider)
      == Step(NotificationResult(Str(k), Succeeded, Field(recipient, "phoneNumber"), None),
              recipients[k := recipients[k][Flag := Bool(true)]],
              Some(Sms(Field(recipient, "phoneNumber"), message)))
  {
    PlainIdRef(recipient, k);
  }

  /** Flagging one more document, not flagged by the earlier ones, extends the set flagged. */
  lemma FlaggedSnoc(recipients: map<string, Doc>, mid: map<string, Doc>, ids: seq<string>, k: string)
    requires FlaggedExactly(recipients, mid, ids) && k in recipients && k !in ids
    ensures FlaggedExactly(recipients, mid[k := mid[k][Flag := Bool(true)]], ids + [k])
  {
    assert forall x :: x in ids + [k] <==> x in ids || x == k;
  }

  /** One more deliverable dispatch succeeds, flags its own document and sends its SMS. */
  lemma DeliverStep(recipients: map<string, Doc>, attempts: seq<Attempt>, ids: seq<string>,
                    provider: Value -> SendOutcome)
    requires Deliverable(recipients, attempts, ids, provider) && attempts != []
    requires var b := DispatchAll(recipients, attempts[..|attempts| - 1], provider);
      && CountSucceeded(b.results) == |attempts| - 1 && b.recipients.Keys == recipients.Keys
      && FlaggedExactly(recipients, b.recipients, ids[..|ids| - 1])
    ensures var b := DispatchAll(recipients, attempts[..|attempts| - 1], provider);
      var w := DispatchAll(recipients, attempts, provider);
      && CountSucceeded(w.results) == |attempts|
      && FlaggedExactly(recipients, w.recipients, ids)
      && w.sent == b.sent + [Sms(Field(attempts[|attempts| - 1].recipient, "phoneNumber"), attempts[|attempts| - 1].message)]
  {
    var n := |attempts| - 1;
    DeliverableInit(recipients, attempts, ids, provider);
    var b := DispatchAll(recipients, attempts[..n], provider);
    var a, k := attempts[n], ids[n];
    assert b.recipients[k] == recipients[k];
    DeliverOne(b.recipients, a.recipient, a.message, k, provider);
    FlaggedSnoc(recipients, b.recipients, ids[..n], k);
    assert ids[..n] + [k] == ids;
  }

  /** A deliverable run succeeds at every dispatch, sends each attempt's SMS in order, and
      flags exactly the addressed documents. */
  lemma {:induction false} AllDelivered(recipients: map<string, Doc>, attempts: seq<Attempt>,
                                        ids: seq<string>, provider: Value -> SendOutcome)
    requires Deliverable(recipients, attempts, ids, provider)
    ensures var b := DispatchAll(recipients, attempts, provider);
      && CountSucceeded(b.results) == |attempts|
      && b.sent == Texts(attempts)
      && FlaggedExactly(recipients, b.recipients, ids)
    decreases |attempts|
  {
    if attempts != [] {
      var n := |attempts| - 1;
      DeliverableInit(recipients, attempts, ids, provider);
      AllDelivered(recipients, attempts[..n], ids[..n], provider);
      DeliverStep(recipients, attempts, ids, provider);
    }
  }

  /** With the intended argument, a known user whose recipients are all unflagged and all
      reachable by the provider has every one of them texted, in query order, with its own
      message; every notification succeeds, and exactly those recipients are flagged. */
  lemma CorrectedTextsEach(recipients: map<string, Doc>, recipientIds: seq<string>, userId: string,
                           doc: UserDoc, users: map<string, AuthUser>, setup: Setup,
                           provider: Value -> SendOutcome)
    requires setup.argument == WithId && userId in users && NoDuplicates(recipientIds)
    requires forall k :: k in recipientIds ==> k in recipients && "id" !in recipients[k] && k != "" && '/' !in k
    requires forall k :: k in recipientIds && Field(recipients[k], "userId") == Str(userId) ==>
      !Truthy(Field(recipients[k], Flag)) && provider(Field(recipients[k], "phoneNumber")) == Delivered
    ensures var o := ProcessUser(recipients, recipientIds, userId, doc, users, setup, provider);
      var owned := Owned(recipientIds, recipients, userId);
      && o.result.Some?
      && o.result.value.SuccessCount() == o.result.value.TotalRecipients() == |owned|
      && |o.sent| == |owned|
      && (forall i :: 0 <= i < |owned| ==>
            o.sent[i] == Sms(Field(recipients[owned[i]], "phoneNumber"),
                             MessageFor(UserName(users[userId]), NewestSample(doc), recipients[owned[i]], setup)))
      && (forall k :: k in recipients ==>
            o.recipients[k] == if k in owned then recipients[k][Flag := Bool(true)] else recipients[k])
  {
    var owned := Owned(recipientIds, recipients, userId);
    var attempts := Attempts(recipients, owned, UserName(users[userId]), NewestSample(doc), setup);
    CorrectedAttemptsDeliver(recipients, owned, UserName(users[userId]), NewestSample(doc), setup, provider);
    AllDelivered(recipients, attempts, owned, provider);
  }

  /** The dispatches the intended argument builds for unflagged, deliverable owned recipients
      form a deliverable run, each to its recipient's own number. */
  lemma CorrectedAttemptsDeliver(recipients: map<string, Doc>, owned: seq<string>, userName: string,
                                 lastActivity: Option<Sample>, setup: Setup, provider: Value -> SendOutcome)
    requires setup.argument == WithId && NoDuplicates(owned)
    requires forall k :: k in owned ==> k in recipients && "id" !in recipients[k] && k != "" && '/' !in k
    requires forall k :: k in owned ==>
      !Truthy(Field(recipients[k], Flag)) && provider(Field(recipients[k], "phoneNumber")) == Delivered
    ensures var attempts := Attempts(recipients, owned, userName, lastActivity, setup);
      && Deliverable(recipients, attempts, owned, provider)
      && forall i :: 0 <= i < |attempts| ==>
           Field(attempts[i].recipient, "phoneNumber") == Field(recipients[owned[i]], "phoneNumber")
  {
    var attempts := Attempts(recipients, owned, userName, lastActivity, setup);
    forall i | 0 <= i < |owned|
      ensures Field(attempts[i].recipient, "id") == Str(owned[i])
      ensures Field(attempts[i].recipient, "phoneNumber") == Field(recipients[owned[i]], "phoneNumber")
    {
      assert owned[i] in owned;
    }
  }

  /** As written, processing a user whose recipients store no `id` field sends nothing and
      writes nothing; the report, if any, counts no success. */
  lemma AsWrittenUserSendsNothing(recipients: map<string, Doc>, recipientIds: seq<string>, userId: string,
                                  doc: UserDoc, users: map<string, AuthUser>, setup: Setup,
                                  provider: Value -> SendOutcome)
    requires setup.argument == DataOnly
    requires forall k :: k in recipientIds ==> k in recipients && "id" !in recipients[k]
    ensures var o := ProcessUser(recipients, recipientIds, userId, doc, users, setup, provider);
      o.recipients == recipients && o.sent == [] && (o.result.Some? ==> o.result.value.SuccessCount() == 0)
  {
    if userId in users {
      var owned := Owned(recipientIds, recipients, userId);
      AsWrittenNeverTexts(recipients, owned, UserName(users[userId]), NewestSample(doc), setup, provider);
    }
  }

  /** `processInactiveUser` over the store; `users` stands for `auth.getUser`. */
  method ProcessInactiveUser(db: Db, userId: string, doc: UserDoc, users: map<string, AuthUser>,
                             setup: Setup, provider: Value -> SendOutcome)
    returns (result: Option<UserNotificationResult>, sent: seq<Sms>)
    requires db.Valid()
    modifies db
    ensures db.Valid()
    ensures UserOutcome(result, db.recipients, sent)
      == ProcessUser(old(db.recipients), old(db.recipientIds), userId, doc, users, setup, provider)
    ensures db.recipientIds == old(db.recipientIds)
    ensures db.userActivity == old(db.userActivity) && db.activityIds == old(db.activityIds)
  {
    if userId !in users {
      return None, [];
    }
    var userName := UserName(users[userId]);
    var lastActivity := NewestSample(doc);
    var owned := Owned(db.recipientIds, db.recipients, userId);
    var snapshot := db.recipients;
    var attempts := Attempts(snapshot, owned, userName, lastActivity, setup);
    var notifications;
    notifications, sent := DispatchEach(db, attempts, provider);
    result := Some(UserNotificationResult(userId, userName, lastActivity, notifications));
  }

  /** The `Promise.all` of `sendNotification` calls, one recipient after the other. */
  method DispatchEach(db: Db, attempts: seq<Attempt>, provider: Value -> SendOutcome)
    returns (notifications: seq<NotificationResult>, sent: seq<Sms>)
    requires db.Valid()
    modifies db
    ensures db.Valid()
    ensures Batch(notifications, db.recipients, sent) == DispatchAll(old(db.recipients), attempts, provider)
    ensures db.recipientIds == old(db.recipientIds)
    ensures db.userActivity == old(db.userActivity) && db.activityIds == old(db.activityIds)
  {
    notifications, sent := [], [];
    var i := 0;
    while i < |attempts|
      invariant 0 <= i <= |attempts|
      invariant db.Valid()
      invariant Batch(notifications, db.recipients, sent) == DispatchAll(old(db.recipients), attempts[..i], provider)
      invariant db.recipientIds == old(db.recipientIds)
      invariant db.userActivity == old(db.userActivity) && db.activityIds == old(db.activityIds)
    {
      var r, s := SendNotification(db, attempts[i].recipient, attempts[i].message, provider);
      assert attempts[..i + 1][..i] == attempts[..i];
      notifications := notifications + [r];
      sent := sent + SentList(s);
      i := i + 1;
    }
    assert attempts[..i] == attempts;
  }

  // ---------------------------------------------------------------------------------------
  // The whole check
  // ---------------------------------------------------------------------------------------

  /** The summed counts of `calculateTotals`. */
  datatype Totals = Totals(totalNotifications: nat, totalSuccessful: nat)

  /** `calculateTotals`: the left fold adding up every user's counts. */
  function CalculateTotals(results: seq<UserNotificationResult>): (t: Totals)
    ensures t.totalSuccessful <= t.totalNotifications
    ensures results == [] ==> t == Totals(0, 0)
  {
    if results == [] then Totals(0, 0)
    else
      var acc := CalculateTotals(results[..|results| - 1]);
      var r := results[|results| - 1];
      Totals(acc.totalNotifications + r.TotalRecipients(), acc.totalSuccessful + r.SuccessCount())
  }

  /** The totals are the sums over any split of the reports. */
  lemma {:induction false} TotalsAdd(a: seq<UserNotificationResult>, b: seq<UserNotificationResult>)
    ensures CalculateTotals(a + b).totalNotifications ==
      CalculateTotals(a).totalNotifications + CalculateTotals(b).totalNotifications
    ensures CalculateTotals(a + b).totalSuccessful ==
      CalculateTotals(a).totalSuccessful + CalculateTotals(b).totalSuccessful
    decreases |b|
  {
    if b == [] {
      assert a + b == a;
    } else {
      var b' := b[..|b| - 1];
      assert (a + b)[..|a + b| - 1] == a + b';
      TotalsAdd(a, b');
    }
  }

  /** The effect of processing several users: each user's report (`None` for a failed user
      lookup), the recipients after all of them and every SMS sent. */
  datatype Run = Run(results: seq<Option<UserNotificationResult>>, recipients: map<string, Doc>, sent: seq<Sms>)

  /** The `Promise.all` over `processInactiveUser`, one user after the other. A failed lookup
      does not stop the other users' processing. */
  function ProcessAll(recipients: map<string, Doc>, recipientIds: seq<string>, userIds: seq<string>,
                      docs: map<string, UserDoc>, users: map<string, AuthUser>, setup: Setup,
                      provider: Value -> SendOutcome): (r: Run)
    requires forall k :: k in recipientIds ==> k in recipients
    requires forall k :: k in userIds ==> k in docs
    ensures |r.results| == |userIds|
    ensures r.recipients.Keys == recipients.Keys
  {
    if userIds == [] then Run([], recipients, [])
    else
      var init := userIds[..|userIds| - 1];
      var u := userIds[|userIds| - 1];
      assert forall k :: k in init ==> k in userIds;
      var b := ProcessAll(recipients, recipientIds, init, docs, users, setup, provider);
      var o := ProcessUser(b.recipients, recipientIds, u, docs[u], users, setup, provider);
      Run(b.results + [o.result], o.recipients, b.sent + o.sent)
  }

  /** One more user extends a run by that user's processing. */
  lemma ProcessAllSnoc(recipients: map<string, Doc>, recipientIds: seq<string>, userIds: seq<string>, i: nat,
                       docs: map<string, UserDoc>, users: map<string, AuthUser>, setup: Setup,
                       provider: Value -> SendOutcome)
    requires forall k :: k in recipientIds ==> k in recipients
    requires forall k :: k in userIds ==> k in docs
    requires i < |userIds|
    ensures forall k :: k in userIds[..i] ==> k in docs
    ensures var b := ProcessAll(recipients, recipientIds, userIds[..i], docs, users, setup, provider);
      var o := ProcessUser(b.recipients, recipientIds, userIds[i], docs[userIds[i]], users, setup, provider);
      ProcessAll(recipients, recipientIds, userIds[..i + 1], docs, users, setup, provider)
        == Run(b.results + [o.result], o.recipients, b.sent + o.sent)
  {
    assert forall k :: k in userIds[..i] ==> k in userIds;
    assert userIds[..i + 1][..i] == userIds[..i];
  }

  /** Processing users, whatever the provider does, only raises flags. */
  lemma {:induction false} ProcessAllOnlyRaisesFlags(recipients: map<string, Doc>, recipientIds: seq<string>,
                                                     userIds: seq<string>, docs: map<string, UserDoc>,
                                                     users: map<string, AuthUser>, setup: Setup,
                                                     provider: Value -> SendOutcome)
    requires forall k :: k in recipientIds ==> k in recipients
    requires forall k :: k in userIds ==> k in docs
    ensures OnlyFlagsRaised(recipients, ProcessAll(recipients, recipientIds, userIds, docs, users, setup, provider).recipients)
  {
    if userIds != [] {
      var init := userIds[..|userIds| - 1];
      var u := userIds[|userIds| - 1];
      assert forall k :: k in init ==> k in userIds;
      ProcessAllOnlyRaisesFlags(recipients, recipientIds, init, docs, users, setup, provider);
      var b := ProcessAll(recipients, recipientIds, init, docs, users, setup, provider);
      var o := ProcessUser(b.recipients, recipientIds, u, docs[u], users, setup, provider);
      if u in users {
        var userName := UserName(users[u]);
        var owned := Owned(recipientIds, b.recipients, u);
        DispatchAllOnlyRaisesFlags(b.recipients, Attempts(b.recipients, owned, userName, NewestSample(docs[u]), setup), provider);
      }
      OnlyFlagsRaisedTransitive(recipients, b.recipients, o.recipients);
    }
  }

  /** Report `i` is missing exactly when the lookup of user `i` failed, and belongs to that
      user otherwise. */
  predicate ReportsMatch(results: seq<Option<UserNotificationResult>>, userIds: seq<string>,
                         users: map<string, AuthUser>)
    requires |results| == |userIds|
  {
    forall i :: 0 <= i < |userIds| ==>
      (results[i].None? <==> userIds[i] !in users)
      && (results[i].Some? ==> results[i].value.userId == userIds[i])
  }

  lemma ReportsMatchSnoc(results: seq<Option<UserNotificationResult>>, userIds: seq<string>,
                         users: map<string, AuthUser>, result: Option<UserNotificationResult>, u: string)
    requires |results| == |userIds|
    requires ReportsMatch(results, userIds, users)
    requires result.None? <==> u !in users
    requires result.Some? ==> result.value.userId == u
    ensures ReportsMatch(results + [result], userIds + [u], users)
  {
    var rs, us := results + [result], userIds + [u];
    forall i | 0 <= i < |us|
      ensures (rs[i].None? <==> us[i] !in users) && (rs[i].Some? ==> rs[i].value.userId == us[i])
    {
      if i < |userIds| {
        assert rs[i] == results[i] && us[i] == userIds[i];
      }
    }
  }

  /** A user's report is missing exactly when the user lookup failed; every report present
      belongs to its user. */
  lemma {:induction false} ProcessAllReports(recipients: map<string, Doc>, recipientIds: seq<string>,
                                             userIds: seq<string>, docs: map<string, UserDoc>,
                                             users: map<string, AuthUser>, setup: Setup,
                                             provider: Value -> SendOutcome)
    requires forall k :: k in recipientIds ==> k in recipients
    requires forall k :: k in userIds ==> k in docs
    ensures ReportsMatch(ProcessAll(recipients, recipientIds, userIds, docs, users, setup, provider).results, userIds, users)
  {
    if userIds != [] {
      var init := userIds[..|userIds| - 1];
      var u := userIds[|userIds| - 1];
      assert forall k :: k in init ==> k in userIds;
      ProcessAllReports(recipients, recipientIds, init, docs, users, setup, provider);
      var b := ProcessAll(recipients, recipientIds, init, docs, users, setup, provider);
      var o := ProcessUser(b.recipients, recipientIds, u, docs[u], users, setup, provider);
      ReportsMatchSnoc(b.results, init, users, o.result, u);
      assert init + [u] == userIds;
    }
  }

  /** The reports of a run in which every lookup succeeded. */
  function Reports(results: seq<Option<UserNotificationResult>>): (r: seq<UserNotificationResult>)
    requires forall i :: 0 <= i < |results| ==> results[i].Some?
    ensures |r| == |results| && forall i :: 0 <= i < |r| ==> Some(r[i]) == results[i]
  {
    seq(|results|, i requires 0 <= i < |results| => results[i].value)
  }

  /** What `POST /api/check-activity` answers (after a successful session check). */
  datatype CheckResponse =
    | NoInactiveUsers
    | Processed(message: string, results: seq<UserNotificationResult>)
    | CheckFailed   // 500 "Failed to check activity"

  /** `${n}` for a natural number. */
  function NatText(n: nat): string
  {
    if n < 10 then ["0123456789"[n]] else NatText(n / 10) + ["0123456789"[n % 10]]
  }

  function Summary(inactiveCount: nat, t: Totals): string
  {
    "Processed " + NatText(inactiveCount) + " inactive users. Successfully sent "
      + NatText(t.totalSuccessful) + " out of " + NatText(t.totalNotifications) + " notifications."
  }

  /** The outcome of the whole check: the response, the recipients afterwards and every SMS. */
  datatype Check = Check(response: CheckResponse, recipients: map<string, Doc>, sent: seq<Sms>)

  /** Every user lookup succeeded. */
  predicate AllFound(results: seq<Option<UserNotificationResult>>)
  {
    forall i :: 0 <= i < |results| ==> results[i].Some?
  }

  function RunCheck(recipients: map<string, Doc>, recipientIds: seq<string>,
                    docs: map<string, UserDoc>, activityIds: seq<string>,
                    setting: Option<real>, now: int, users: map<string, AuthUser>,
                    setup: Setup, provider: Value -> SendOutcome): (c: Check)
    requires forall k :: k in recipientIds ==> k in recipients
    requires forall k :: k in activityIds ==> k in docs
    ensures c.recipients.Keys == recipients.Keys
  {
    var inactive := InactiveUsers(activityIds, docs, now, ThresholdMs(setting));
    if inactive == [] then Check(NoInactiveUsers, recipients, [])
    else
      var run := ProcessAll(recipients, recipientIds, inactive, docs, users, setup, provider);
      if !AllFound(run.results) then Check(CheckFailed, run.recipients, run.sent)
      else
        var reports := Reports(run.results);
        Check(Processed(Summary(|inactive|, CalculateTotals(reports)), reports), run.recipients, run.sent)
  }

  /** The whole check only raises `notifiedForCurrentInactivity` flags: no recipient is added,
      removed or otherwise changed. */
  lemma CheckOnlyRaisesFlags(recipients: map<string, Doc>, recipientIds: seq<string>,
                             docs: map<string, UserDoc>, activityIds: seq<string>,
                             setting: Option<real>, now: int, users: map<string, AuthUser>,
                             setup: Setup, provider: Value -> SendOutcome)
    requires forall k :: k in recipientIds ==> k in recipients
    requires forall k :: k in activityIds ==> k in docs
    ensures OnlyFlagsRaised(recipients,
      RunCheck(recipients, recipientIds, docs, activityIds, setting, now, users, setup, provider).recipients)
  {
    var inactive := InactiveUsers(activityIds, docs, now, ThresholdMs(setting));
    ProcessAllOnlyRaisesFlags(recipients, recipientIds, inactive, docs, users, setup, provider);
  }

  /** Every lookup of a run succeeds exactly when every user has an authentication record. */
  lemma AllFoundIff(recipients: map<string, Doc>, recipientIds: seq<string>, userIds: seq<string>,
                    docs: map<string, UserDoc>, users: map<string, AuthUser>, setup: Setup,
                    provider: Value -> SendOutcome)
    requires forall k :: k in recipientIds ==> k in recipients
    requires forall k :: k in userIds ==> k in docs
    ensures AllFound(ProcessAll(recipients, recipientIds, userIds, docs, users, setup, provider).results)
      <==> forall u :: u in userIds ==> u in users
  {
    ProcessAllReports(recipients, recipientIds, userIds, docs, users, setup, provider);
    assert (forall i :: 0 <= i < |userIds| ==> userIds[i] in users) <==> (forall u :: u in userIds ==> u in users);
  }

  /** A failed user lookup fails the whole request, exactly when some inactive user has no
      authentication record. */
  lemma FailsIffLookupFails(recipients: map<string, Doc>, recipientIds: seq<string>,
                            docs: map<string, UserDoc>, activityIds: seq<string>,
                            setting: Option<real>, now: int, users: map<string, AuthUser>,
                            setup: Setup, provider: Value -> SendOutcome)
    requires forall k :: k in recipientIds ==> k in recipients
    requires forall k :: k in activityIds ==> k in docs
    ensures RunCheck(recipients, recipientIds, docs, activityIds, setting, now, users, setup, provider).response.CheckFailed?
      <==> exists u :: u in InactiveUsers(activityIds, docs, now, ThresholdMs(setting)) && u !in users
  {
    var inactive := InactiveUsers(activityIds, docs, now, ThresholdMs(setting));
    AllFoundIff(recipients, recipientIds, inactive, docs, users, setup, provider);
  }

  /** With nobody inactive, nothing is sent and nothing is written. */
  lemma NobodyInactiveNothingSent(recipients: map<string, Doc>, recipientIds: seq<string>,
                                  docs: map<string, UserDoc>, activityIds: seq<string>,
                                  setting: Option<real>, now: int, users: map<string, AuthUser>,
                                  setup: Setup, provider: Value -> SendOutcome)
    requires forall k :: k in recipientIds ==> k in recipients
    requires forall k :: k in activityIds ==> k in docs
    requires forall k :: k in activityIds ==> !IsInactive(docs[k], now, ThresholdMs(setting))
    ensures RunCheck(recipients, recipientIds, docs, activityIds, setting, now, users, setup, provider)
      == Check(NoInactiveUsers, recipients, [])
  {
    assert InactiveUsers(activityIds, docs, now, ThresholdMs(setting)) == [];
  }

  /** No report counts a success. */
  predicate NoneSucceeded(results: seq<Option<UserNotificationResult>>)
  {
    forall i :: 0 <= i < |results| && results[i].Some? ==> results[i].value.SuccessCount() == 0
  }

  lemma {:induction false} TotalsNoSuccess(reports: seq<UserNotificationResult>)
    requires forall i :: 0 <= i < |reports| ==> reports[i].SuccessCount() == 0
    ensures CalculateTotals(reports).totalSuccessful == 0
  {
    if reports != [] {
      TotalsNoSuccess(reports[..|reports| - 1]);
    }
  }

  /** As written, processing any inactive users whose recipients store no `id` field sends
      nothing, writes nothing and counts no success. */
  lemma {:induction false} AsWrittenRunSendsNothing(recipients: map<string, Doc>, recipientIds: seq<string>,
                                                    userIds: seq<string>, docs: map<string, UserDoc>,
                                                    users: map<string, AuthUser>, setup: Setup,
                                                    provider: Value -> SendOutcome)
    requires setup.argument == DataOnly
    requires forall k :: k in recipientIds ==> k in recipients && "id" !in recipients[k]
    requires forall k :: k in userIds ==> k in docs
    ensures var r := ProcessAll(recipients, recipientIds, userIds, docs, users, setup, provider);
      r.recipients == recipients && r.sent == [] && NoneSucceeded(r.results)
  {
    if userIds != [] {
      var init := userIds[..|userIds| - 1];
      var u := userIds[|userIds| - 1];
      assert forall k :: k in init ==> k in userIds;
      AsWrittenRunSendsNothing(recipients, recipientIds, init, docs, users, setup, provider);
      var b := ProcessAll(recipients, recipientIds, init, docs, users, setup, provider);
      AsWrittenUserSendsNothing(recipients, recipientIds, u, docs[u], users, setup, provider);
      var o := ProcessUser(b.recipients, recipientIds, u, docs[u], users, setup, provider);
      var results := b.results + [o.result];
      forall i | 0 <= i < |results| && results[i].Some? ensures results[i].value.SuccessCount() == 0 {
        if i < |b.results| {
          assert results[i] == b.results[i];
        }
      }
    }
  }

  /** As written, the whole check texts nobody and flags nobody, whoever is inactive, and a
      processed response reports no successful notification. */
  lemma AsWrittenCheckSendsNothing(recipients: map<string, Doc>, recipientIds: seq<string>,
                                   docs: map<string, UserDoc>, activityIds: seq<string>,
                                   setting: Option<real>, now: int, users: map<string, AuthUser>,
                                   setup: Setup, provider: Value -> SendOutcome)
    requires setup.argument == DataOnly
    requires forall k :: k in recipientIds ==> k in recipients && "id" !in recipients[k]
    requires forall k :: k in activityIds ==> k in docs
    ensures var c := RunCheck(recipients, recipientIds, docs, activityIds, setting, now, users, setup, provider);
      c.recipients == recipients && c.sent == []
      && (c.response.Processed? ==> CalculateTotals(c.response.results).totalSuccessful == 0)
  {
    var inactive := InactiveUsers(activityIds, docs, now, ThresholdMs(setting));
    if inactive != [] {
      AsWrittenRunSendsNothing(recipients, recipientIds, inactive, docs, users, setup, provider);
      var run := ProcessAll(recipients, recipientIds, inactive, docs, users, setup, provider);
      if AllFound(run.results) {
        var reports := Reports(run.results);
        forall i | 0 <= i < |reports| ensures reports[i].SuccessCount() == 0 {
          assert Some(reports[i]) == run.results[i];
        }
        TotalsNoSuccess(reports);
      }
    }
  }

  /** `processInactiveUser` for every inactive user, one after the other. */
  method ProcessEach(db: Db, userIds: seq<string>, docs: map<string, UserDoc>,
                     users: map<string, AuthUser>, setup: Setup, provider: Value -> SendOutcome)
    returns (results: seq<Option<UserNotificationResult>>, sent: seq<Sms>)
    requires db.Valid()
    requires forall k :: k in userIds ==> k in docs
    modifies db
    ensures db.Valid()
    ensures Run(results, db.recipients, sent)
      == ProcessAll(old(db.recipients), old(db.recipientIds), userIds, docs, users, setup, provider)
    ensures db.recipientIds == old(db.recipientIds)
    ensures db.userActivity == old(db.userActivity) && db.activityIds == old(db.activityIds)
  {
    results, sent := [], [];
    var i := 0;
    while i < |userIds|
      invariant 0 <= i <= |userIds|
      invariant db.Valid()
      invariant Run(results, db.recipients, sent)
        == ProcessAll(old(db.recipients), old(db.recipientIds), userIds[..i], docs, users, setup, provider)
      invariant db.recipientIds == old(db.recipientIds)
      invariant db.userActivity == old(db.userActivity) && db.activityIds == old(db.activityIds)
    {
      results, sent := ProcessNext(db, userIds, i, docs, users, setup, provider,
                                   old(db.recipients), results, sent);
      i := i + 1;
    }
    assert userIds[..i] == userIds;
  }

  /** One more step of `ProcessEach`: user `i` processed after users `0..i`, which left the
      store as `results` and `sent` say. */
  method ProcessNext(db: Db, userIds: seq<string>, i: nat, docs: map<string, UserDoc>,
                     users: map<string, AuthUser>, setup: Setup, provider: Value -> SendOutcome,
                     ghost initial: map<string, Doc>,
                     results: seq<Option<UserNotificationResult>>, sent: seq<Sms>)
    returns (results': seq<Option<UserNotificationResult>>, sent': seq<Sms>)
    requires db.Valid() && i < |userIds|
    requires forall k :: k in userIds ==> k in docs
    requires forall k :: k in db.recipientIds ==> k in initial
    requires Run(results, db.recipients, sent)
      == ProcessAll(initial, db.recipientIds, userIds[..i], docs, users, setup, provider)
    modifies db
    ensures db.Valid()
    ensures db.recipientIds == old(db.recipientIds)
    ensures forall k :: k in userIds[..i + 1] ==> k in docs
    ensures Run(results', db.recipients, sent')
      == ProcessAll(initial, db.recipientIds, userIds[..i + 1], docs, users, setup, provider)
    ensures db.userActivity == old(db.userActivity) && db.activityIds == old(db.activityIds)
  {
    assert userIds[i] in userIds;
    assert forall k :: k in userIds[..i + 1] ==> k in userIds;
    var r, s := ProcessInactiveUser(db, userIds[i], docs[userIds[i]], users, setup, provider);
    ProcessAllSnoc(initial, db.recipientIds, userIds, i, docs, users, setup, provider);
    results', sent' := results + [r], sent + s;
  }

  /** `POST /api/check-activity` after the session check: `setting` is
      `Number(process.env.INACTIVITY_THRESHOLD_HOURS)`, `now` the one clock reading. */
  method RunInactivityCheck(db: Db, setting: Option<real>, now: int, users: map<string, AuthUser>,
                            setup: Setup, provider: Value -> SendOutcome)
    returns (response: CheckResponse, sent: seq<Sms>)
    requires db.Valid()
    modifies db
    ensures db.Valid()
    ensures Check(response, db.recipients, sent) == RunCheck(old(db.recipients), old(db.recipientIds),
      old(db.userActivity), old(db.activityIds), setting, now, users, setup, provider)
    ensures db.recipientIds == old(db.recipientIds)
    ensures db.userActivity == old(db.userActivity) && db.activityIds == old(db.activityIds)
  {
    var docs := db.userActivity;
    var inactive := InactiveUsers(db.activityIds, docs, now, ThresholdMs(setting));
    if inactive == [] {
      return NoInactiveUsers, [];
    }
    var results;
    results, sent := ProcessEach(db, inactive, docs, users, setup, provider);
    if !AllFound(results) {
      response := CheckFailed;
    } else {
      var reports := Reports(results);
      response := Processed(Summary(|inactive|, CalculateTotals(reports)), reports);
    }
  }
}
