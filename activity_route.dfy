/**
 * The legacy `POST /api/activity`: validates a check-in and overwrites the caller's
 * `userActivity` document with a single record.
 */
module ActivityRoute {
  import opened Wrappers
  import opened Json
  import opened Store
  import ActivityService
  import CheckActivity

  const RequiredFields := ["location", "motionStatus"]

  const InvalidLocationMessage := "Invalid location format. Expected format: \"latitude,longitude\""

  /** The checks of the route in order; on success, the record it writes. A `location` that
      is not a string has no `split`, which throws inside the same `try`. */
  function Validate(data: Doc, uid: string, nowIso: string, num: string -> Option<real>)
    : (r: Result<LegacyActivity, string>)
    ensures MissingFields(data, RequiredFields) != [] ==>
      r == Failure(MissingFieldsMessage(MissingFields(data, RequiredFields)))
    ensures r.Success? <==>
      && Truthy(Field(data, "motionStatus"))
      && Field(data, "location").Str?
      && ActivityService.ParseLocation(Field(data, "location").s, num).Some?
    ensures r.Success? ==> r.value == LegacyActivity(uid,
      ActivityService.ParseLocation(Field(data, "location").s, num).value, Field(data, "motionStatus"), nowIso)
  {
    var missing := MissingFields(data, RequiredFields);
    if |missing| > 0 then Failure(MissingFieldsMessage(missing))
    else if !Field(data, "location").Str? then Failure(InvalidLocationMessage)
    else
      var coordinates := ActivityService.ParseLocation(Field(data, "location").s, num);
      if coordinates.None? then Failure(InvalidLocationMessage)
      else Success(LegacyActivity(uid, coordinates.value, Field(data, "motionStatus"), nowIso))
  }

  /** `POST`: answers 400 with the error, or writes the record over the whole document
      (`set` without merge) and answers with it. */
  method PostActivity(db: Db, uid: string, data: Doc, nowIso: string, num: string -> Option<real>)
    returns (response: Result<LegacyActivity, string>)
    requires db.Valid()
    modifies db
    ensures db.Valid()
    ensures response == Validate(data, uid, nowIso, num)
    ensures response.Failure? ==> unchanged(db)
    ensures response.Success? ==>
      && db.userActivity == old(db.userActivity)[uid := UserDoc(None, None, Some(response.value))]
      && db.activityIds == (if uid in old(db.userActivity) then old(db.activityIds) else old(db.activityIds) + [uid])
    ensures db.recipients == old(db.recipients) && db.recipientIds == old(db.recipientIds)
  {
    response := Validate(data, uid, nowIso, num);
    if response.Success? {
      db.SetUserActivity(uid, UserDoc(None, None, Some(response.value)));
    }
  }

  /** The motion status is not checked against the enumeration: any truthy value is stored. */
  lemma AnyMotionStatusStored(data: Doc, uid: string, nowIso: string, num: string -> Option<real>, v: Value)
    requires Truthy(v) && MissingFields(data, RequiredFields) == []
    requires Validate(data, uid, nowIso, num).Success?
    ensures Validate(data["motionStatus" := v], uid, nowIso, num)
      == Success(Validate(data, uid, nowIso, num).value.(motionStatus := v))
  {
  }

  /** The overwrite drops the history, so the check counts the user inactive at any time
      and threshold, even just after the write. */
  lemma OverwriteLooksInactive(record: LegacyActivity, now: int, thresholdMs: real)
    ensures ActivitiesOf(UserDoc(None, None, Some(record))) == []
    ensures CheckActivity.IsInactive(UserDoc(None, None, Some(record)), now, thresholdMs)
  {
  }

  /** The legacy route and the service read a location string the same way. */
  lemma SameLocationParse(data: Doc, uid: string, nowIso: string, num: string -> Option<real>)
    requires Truthy(Field(data, "motionStatus")) && Field(data, "location").Str?
    ensures Validate(data, uid, nowIso, num).Success?
      <==> ActivityService.ParseLocation(Field(data, "location").s, num).Some?
  {
  }
}
