/**
 * `ActivityService`: the check-in history of a user. A new sample goes to the front of the
 * user's `activities` list, which keeps at most `MaxActivities` entries, and becomes
 * `lastActiveState` when its motion status counts as active.
 */
module ActivityService {
  import opened Wrappers
  import opened Constants
  import opened LocationDto
  import opened Store
  import Json

  function Min(a: int, b: int): int
  {
    if a <= b then a else b
  }

  // ---------------------------------------------------------------------------------------
  // `locationString.split(",").map(Number)`
  // ---------------------------------------------------------------------------------------

  /** Index of the first `c` in `s`, or `|s|` when there is none. */
  function IndexOf(s: string, c: char): (i: nat)
    ensures i <= |s| && c !in s[..i]
    ensures forall j :: 0 <= j < i ==> s[j] != c
    ensures i < |s| ==> s[i] == c
  {
    if s == [] then 0
    else if s[0] == c then 0
    else
      var j := IndexOf(s[1..], c);
      assert s[..j + 1] == [s[0]] + s[1..][..j];
      j + 1
  }

  /** JavaScript's `s.split(c)` for a one-character separator. */
  function Split(s: string, c: char): (r: seq<string>)
    ensures |r| >= 1
    ensures forall i :: 0 <= i < |r| ==> c !in r[i]
    decreases |s|
  {
    var i := IndexOf(s, c);
    if i == |s| then
      assert s == s[..i];
      [s]
    else [s[..i]] + Split(s[i + 1..], c)
  }

  /** Joining the parts with the separator gives back the string. */
  lemma {:induction false} SplitJoin(s: string, c: char)
    ensures Json.Join(Split(s, c), [c]) == s
    decreases |s|
  {
    var i := IndexOf(s, c);
    if i < |s| {
      var rest := Split(s[i + 1..], c);
      SplitJoin(s[i + 1..], c);
      assert Split(s, c) == [s[..i]] + rest;
      assert s == s[..i] + [c] + s[i + 1..];
    }
  }

  /** There is one part more than there are separators. */
  lemma {:induction false} SplitCount(s: string, c: char)
    ensures |Split(s, c)| == CountChar(s, c) + 1
    decreases |s|
  {
    var i := IndexOf(s, c);
    CountNone(s[..i], c);
    CountAppend(s[..i], s[i..], c);
    assert s == s[..i] + s[i..];
    if i < |s| {
      SplitCount(s[i + 1..], c);
      assert s[i..][1..] == s[i + 1..];
    }
  }

  lemma {:induction false} CountNone(s: string, c: char)
    requires c !in s
    ensures CountChar(s, c) == 0
  {
    if s != [] {
      assert s[0] != c;
      assert forall x :: x in s[1..] ==> x in s;
      CountNone(s[1..], c);
    }
  }

  lemma {:induction false} CountAppend(a: string, b: string, c: char)
    ensures CountChar(a + b, c) == CountChar(a, c) + CountChar(b, c)
  {
    if a != [] {
      assert (a + b)[1..] == a[1..] + b;
      CountAppend(a[1..], b, c);
    } else {
      assert a + b == b;
    }
  }

  /** A string whose only separator is at `k` splits into the two sides of `k`. */
  lemma SplitAtOnly(s: string, c: char, k: nat)
    requires k < |s| && s[k] == c
    requires forall i :: 0 <= i < |s| && s[i] == c ==> i == k
    ensures Split(s, c) == [s[..k], s[k + 1..]]
  {
    var i := IndexOf(s, c);
    assert i == k;
    var rest := s[k + 1..];
    assert c !in rest by {
      forall j | 0 <= j < |rest| ensures rest[j] != c { assert rest[j] == s[k + 1 + j]; }
    }
    assert IndexOf(rest, c) == |rest|;
  }

  /** A string of the accepted location pattern splits into exactly two parts: the latitude
      text and the longitude text with the whitespace before it. */
  lemma SplitRender(t: LocationText)
    requires WellFormedText(t)
    ensures Split(Render(t), ',') == [DecimalText(t.lat), t.gap + DecimalText(t.lng)]
  {
    var s := Render(t);
    var k := |DecimalText(t.lat)|;
    RenderShape(t);
    SplitAtOnly(s, ',', k);
    assert s[..k] == DecimalText(t.lat);
    assert s[k + 1..] == t.gap + DecimalText(t.lng);
  }

  /** `parseLocation`: the first two comma-separated parts through JavaScript's `Number`,
      which `num` stands for (`None` is `NaN`). A single part leaves `lng` undefined, which
      `Number` also turns into `NaN`. */
  function ParseLocation(s: string, num: string -> Option<real>): (r: Option<Coords>)
    ensures r.Some? ==> (|Split(s, ',')| >= 2 && num(Split(s, ',')[0]).Some? && num(Split(s, ',')[1]).Some?
      && r.value == Coords(num(Split(s, ',')[0]).value, num(Split(s, ',')[1]).value))
  {
    var parts := Split(s, ',');
    if |parts| < 2 then None
    else
      var lat, lng := num(parts[0]), num(parts[1]);
      if lat.None? || lng.None? then None else Some(Coords(lat.value, lng.value))
  }

  /** Coordinates come back exactly when both of the first two parts are numbers. */
  lemma ParseLocationIff(s: string, num: string -> Option<real>)
    ensures ParseLocation(s, num).Some? <==>
      |Split(s, ',')| >= 2 && num(Split(s, ',')[0]).Some? && num(Split(s, ',')[1]).Some?
  {
  }

  /** A string without a comma is never a location. */
  lemma NoCommaRejected(s: string, num: string -> Option<real>)
    requires ',' !in s
    ensures ParseLocation(s, num) == None
  {
    assert IndexOf(s, ',') == |s|;
  }

  /** Parts after the second are ignored. */
  lemma ThirdPartIgnored(a: string, b: string, rest: string, num: string -> Option<real>)
    requires ',' !in a && ',' !in b
    ensures ParseLocation(a + "," + b + "," + rest, num) == ParseLocation(a + "," + b, num)
  {
    var s, s' := a + "," + b + "," + rest, a + "," + b;
    assert s[..|a|] == a && s[|a|] == ',';
    assert s'[..|a|] == a && s'[|a|] == ',';
    assert IndexOf(s, ',') == |a| && IndexOf(s', ',') == |a|;
    var u, u' := s[|a| + 1..], s'[|a| + 1..];
    assert u == b + "," + rest && u' == b;
    assert u[..|b|] == b && u[|b|] == ',';
    assert IndexOf(u, ',') == |b|;
    assert IndexOf(u', ',') == |b|;
    assert Split(s, ',') == [a] + Split(u, ',');
    assert Split(u, ',') == [b] + Split(u[|b| + 1..], ',');
    assert Split(s', ',') == [a] + Split(u', ',');
    assert Split(u', ',') == [b];
  }

  /** On a string of the accepted pattern the parser reads the latitude text and the
      longitude text (leading whitespace included, which `Number` skips). */
  lemma ParseAccepted(t: LocationText, num: string -> Option<real>)
    requires WellFormedText(t)
    ensures ParseLocation(Render(t), num) ==
      var lat, lng := num(DecimalText(t.lat)), num(t.gap + DecimalText(t.lng));
      if lat.Some? && lng.Some? then Some(Coords(lat.value, lng.value)) else None
  {
    SplitRender(t);
  }

  // ---------------------------------------------------------------------------------------
  // The history buffer
  // ---------------------------------------------------------------------------------------

  /** `[newActivity, ...activities].slice(0, MAX_ACTIVITIES)`. */
  function PushRecent(history: seq<Sample>, s: Sample): (r: seq<Sample>)
    ensures |r| == Min(|history| + 1, MaxActivities) && r[0] == s
    ensures r[1..] == history[..|r| - 1]
  {
    ([s] + history)[..Min(|history| + 1, MaxActivities)]
  }

  /** The document a user has before the first check-in. */
  const NoDoc := UserDoc(None, None, None)

  /** The `set(updateData, { merge: true })` of `createActivity` applied to the stored
      document: `activities` replaced, `lastActiveState` replaced only for an active motion
      status, every other field kept. */
  function MergeActivity(d: UserDoc, s: Sample): (r: UserDoc)
    ensures 0 < |ActivitiesOf(r)| <= MaxActivities && ActivitiesOf(r)[0] == s
    ensures |ActivitiesOf(r)| == Min(|ActivitiesOf(d)| + 1, MaxActivities)
    ensures ActivitiesOf(r)[1..] <= ActivitiesOf(d)
    ensures IsActiveMotion(s.motionStatus) ==> r.lastActiveState == Some(s)
    ensures !IsActiveMotion(s.motionStatus) ==> r.lastActiveState == d.lastActiveState
    ensures r.legacy == d.legacy
  {
    var activities := PushRecent(ActivitiesOf(d), s);
    d.(activities := Some(activities),
       lastActiveState := if IsActiveMotion(s.motionStatus) then Some(s) else d.lastActiveState)
  }

  /** The stored document of `uid`, or `NoDoc` when it does not exist. */
  function StoredDoc(docs: map<string, UserDoc>, uid: string): UserDoc
  {
    if uid in docs then docs[uid] else NoDoc
  }

  /** Check-ins `ss` in the order they were made, applied to `d`. */
  function MergeAll(d: UserDoc, ss: seq<Sample>): UserDoc
  {
    if ss == [] then d else MergeActivity(MergeAll(d, ss[..|ss| - 1]), ss[|ss| - 1])
  }

  function Reversed(ss: seq<Sample>): (r: seq<Sample>)
    ensures |r| == |ss|
  {
    if ss == [] then [] else [ss[|ss| - 1]] + Reversed(ss[..|ss| - 1])
  }

  /** The most recent check-in with an active motion status. */
  function LatestActive(ss: seq<Sample>): Option<Sample>
  {
    if ss == [] then None
    else if IsActiveMotion(ss[|ss| - 1].motionStatus) then Some(ss[|ss| - 1])
    else LatestActive(ss[..|ss| - 1])
  }

  /** After any run of check-ins the history holds the newest `MaxActivities` samples,
      newest first, followed by what was there before, oldest dropped. */
  lemma {:induction false} HistoryWindow(d: UserDoc, ss: seq<Sample>)
    requires |ActivitiesOf(d)| <= MaxActivities
    ensures ActivitiesOf(MergeAll(d, ss)) ==
      (Reversed(ss) + ActivitiesOf(d))[..Min(|ss| + |ActivitiesOf(d)|, MaxActivities)]
  {
    if ss != [] {
      var init, s := ss[..|ss| - 1], ss[|ss| - 1];
      var a := ActivitiesOf(d);
      HistoryWindow(d, init);
      var x := Reversed(init) + a;
      var m := Min(|x|, MaxActivities);
      assert ActivitiesOf(MergeAll(d, init)) == x[..m];
      var n := Min(|x| + 1, MaxActivities);
      assert Reversed(ss) + a == [s] + x;
      assert ActivitiesOf(MergeAll(d, ss)) == PushRecent(x[..m], s);
      PushTruncated(x, m, s);
    }
  }

  /** Pushing onto a history cut to the window is pushing onto the whole history. */
  lemma PushTruncated(x: seq<Sample>, m: nat, s: Sample)
    requires m == Min(|x|, MaxActivities)
    ensures PushRecent(x[..m], s) == ([s] + x)[..Min(|x| + 1, MaxActivities)]
  {
    var n := Min(|x| + 1, MaxActivities);
    assert n <= m + 1;
    assert ([s] + x[..m])[..n] == ([s] + x)[..n];
  }

  /** `lastActiveState` is the most recent active check-in, or what it was before when no
      check-in since was active. */
  lemma {:induction false} LastActiveIsLatest(d: UserDoc, ss: seq<Sample>)
    ensures MergeAll(d, ss).lastActiveState ==
      if LatestActive(ss).Some? then LatestActive(ss) else d.lastActiveState
  {
    if ss != [] {
      LastActiveIsLatest(d, ss[..|ss| - 1]);
    }
  }

  /** Check-ins never touch the fields the legacy route wrote. */
  lemma {:induction false} LegacyKept(d: UserDoc, ss: seq<Sample>)
    ensures MergeAll(d, ss).legacy == d.legacy
  {
    if ss != [] {
      LegacyKept(d, ss[..|ss| - 1]);
    }
  }

  /** The service over the `userActivity` collection. */
  class Service {
    const db: Db

    constructor (db: Db)
      ensures this.db == db
    {
      this.db := db;
    }

    /** `getActivities`: the stored history, or `[]` when the user has no document. */
    function GetActivities(userId: string): (r: seq<Sample>)
      reads db
      ensures userId !in db.userActivity ==> r == []
    {
      ActivitiesOf(StoredDoc(db.userActivity, userId))
    }

    /** `createActivity`, with `Timestamp.now()` given as `now`. An unparsable location fails
        before the store is read, and nothing changes; otherwise the new sample is merged into
        the user's document and returned. */
    method CreateActivity(userId: string, location: string, motionStatus: MotionStatus, now: int,
                          num: string -> Option<real>)
      returns (r: Result<Sample, string>)
      requires db.Valid()
      modifies db
      ensures db.Valid()
      ensures ParseLocation(location, num).None? ==> r == Failure("Invalid location format") && unchanged(db)
      ensures ParseLocation(location, num).Some? ==>
        && r == Success(Sample(ParseLocation(location, num), motionStatus, now))
        && db.userActivity == old(db.userActivity)[userId := MergeActivity(StoredDoc(old(db.userActivity), userId), r.value)]
        && db.activityIds == (if userId in old(db.userActivity) then old(db.activityIds) else old(db.activityIds) + [userId])
        && db.recipients == old(db.recipients) && db.recipientIds == old(db.recipientIds)
      ensures r.Success? ==>
        && |GetActivities(userId)| == Min(|old(GetActivities(userId))| + 1, MaxActivities)
        && GetActivities(userId)[0] == r.value
        && GetActivities(userId)[1..] <= old(GetActivities(userId))
    {
      var coordinates := ParseLocation(location, num);
      if coordinates.None? {
        return Failure("Invalid location format");
      }
      var sample := Sample(coordinates, motionStatus, now);
      var current := if userId in db.userActivity then db.userActivity[userId] else NoDoc;
      var updated := MergeActivity(current, sample);
      db.SetUserActivity(userId, updated);
      r := Success(sample);
    }
  }
}
