/**
 * The Firestore state the core reads and writes: the `userActivity` collection (one document
 * per user) and the `recipients` collection, each with the order in which a query lists it.
 */
module Store {
  import opened Wrappers
  import opened Json
  import Constants
  import LocationDto

  /** `ActivityDto`: one check-in. Timestamps are milliseconds since the epoch. */
  datatype Sample = Sample(location: Option<LocationDto.Coords>, motionStatus: Constants.MotionStatus, timestamp: int)

  /** The record the legacy `POST /api/activity` route writes. Its motion status is whatever
      truthy value the client sent; its timestamp is an ISO string. */
  datatype LegacyActivity = LegacyActivity(userId: string, location: LocationDto.Coords, motionStatus: Value, timestamp: string)

  /** A `userActivity/{uid}` document. Every field is optional: the service writes `activities`
      and `lastActiveState` with a merge, the legacy route overwrites the whole document. */
  datatype UserDoc = UserDoc(activities: Option<seq<Sample>>, lastActiveState: Option<Sample>, legacy: Option<LegacyActivity>)

  /** `doc.data()?.activities || []`. */
  function ActivitiesOf(d: UserDoc): seq<Sample>
  {
    if d.activities.Some? then d.activities.value else []
  }

  predicate NoDuplicates(s: seq<string>)
  {
    forall i, j :: 0 <= i < j < |s| ==> s[i] != s[j]
  }

  /** `s` without `x`. */
  function Without(s: seq<string>, x: string): (r: seq<string>)
    ensures forall y :: y in r <==> y in s && y != x
    ensures NoDuplicates(s) ==> NoDuplicates(r)
  {
    if s == [] then []
    else
      var rest := Without(s[1..], x);
      assert forall y :: y in s <==> y == s[0] || y in s[1..];
      if s[0] == x then rest
      else
        assert forall i :: 0 <= i < |rest| ==> rest[i] in s[1..];
        [s[0]] + rest
  }

  /** `collection("recipients").where("userId", "==", uid)`: the recipients owned by `uid`,
      in the order the collection lists them. */
  function Owned(ids: seq<string>, recipients: map<string, Doc>, uid: string): (r: seq<string>)
    requires forall k :: k in ids ==> k in recipients
    ensures forall k :: k in r <==> k in ids && Field(recipients[k], "userId") == Str(uid)
    ensures NoDuplicates(ids) ==> NoDuplicates(r)
    ensures |r| <= |ids|
    ensures (forall k :: k in ids ==> Field(recipients[k], "userId") != Str(uid)) ==> r == []
  {
    if ids == [] then []
    else
      var rest := Owned(ids[..|ids| - 1], recipients, uid);
      var k := ids[|ids| - 1];
      assert forall x :: x in ids <==> x in ids[..|ids| - 1] || x == k;
      if Field(recipients[k], "userId") == Str(uid) then rest + [k] else rest
  }

  /** One more listed document extends the answer by that document when `uid` owns it. */
  lemma OwnedSnoc(ids: seq<string>, k: string, recipients: map<string, Doc>, uid: string)
    requires forall x :: x in ids ==> x in recipients
    requires k in recipients
    ensures forall x :: x in ids + [k] ==> x in recipients
    ensures Owned(ids + [k], recipients, uid)
      == Owned(ids, recipients, uid) + (if Field(recipients[k], "userId") == Str(uid) then [k] else [])
  {
    assert (ids + [k])[..|ids|] == ids;
  }

  /** The query keeps the listing order: querying a listing in two parts gives the two
      answers one after the other. */
  lemma {:induction false} OwnedAppend(a: seq<string>, b: seq<string>, recipients: map<string, Doc>, uid: string)
    requires forall k :: k in a ==> k in recipients
    requires forall k :: k in b ==> k in recipients
    ensures forall k :: k in a + b ==> k in recipients
    ensures Owned(a + b, recipients, uid) == Owned(a, recipients, uid) + Owned(b, recipients, uid)
    decreases |b|
  {
    if b == [] {
      assert a + b == a;
    } else {
      var b', k := b[..|b| - 1], b[|b| - 1];
      assert b == b' + [k];
      assert a + b == (a + b') + [k];
      OwnedAppend(a, b', recipients, uid);
      OwnedSnoc(a + b', k, recipients, uid);
      OwnedSnoc(b', k, recipients, uid);
    }
  }

  /** The database: both collections, keyed by document id. */
  class Db {
    var userActivity: map<string, UserDoc>
    /** The order in which a scan of `userActivity` lists its documents. */
    var activityIds: seq<string>
    var recipients: map<string, Doc>
    /** The order in which a query on `recipients` lists its documents. */
    var recipientIds: seq<string>

    ghost predicate Valid()
      reads this
    {
      && (forall k :: k in userActivity <==> k in activityIds)
      && NoDuplicates(activityIds)
      && (forall k :: k in recipients <==> k in recipientIds)
      && NoDuplicates(recipientIds)
      && (forall k :: k in recipients ==> k != "" && '/' !in k)
    }

    constructor ()
      ensures Valid()
      ensures userActivity == map[] && recipients == map[]
    {
      userActivity, activityIds := map[], [];
      recipients, recipientIds := map[], [];
    }

    /** `collection("userActivity").doc(uid).set(doc)`: creates or replaces the document. */
    method SetUserActivity(uid: string, doc: UserDoc)
      requires Valid()
      modifies this
      ensures Valid()
      ensures userActivity == old(userActivity)[uid := doc]
      ensures activityIds == if uid in old(userActivity) then old(activityIds) else old(activityIds) + [uid]
      ensures recipients == old(recipients) && recipientIds == old(recipientIds)
    {
      if uid !in userActivity {
        activityIds := activityIds + [uid];
      }
      userActivity := userActivity[uid := doc];
    }

    /** `collection("recipients").add(doc)` under the fresh id the store generated (generated
        ids are never empty and hold no `/`). */
    method AddRecipient(id: string, doc: Doc)
      requires Valid() && id !in recipients && id != "" && '/' !in id
      modifies this
      ensures Valid()
      ensures recipients == old(recipients)[id := doc]
      ensures recipientIds == old(recipientIds) + [id]
      ensures userActivity == old(userActivity) && activityIds == old(activityIds)
    {
      recipientIds := recipientIds + [id];
      recipients := recipients[id := doc];
    }

    /** `collection("recipients").doc(id).delete()`. */
    method DeleteRecipient(id: string)
      requires Valid()
      modifies this
      ensures Valid()
      ensures recipients == old(recipients) - {id}
      ensures recipientIds == Without(old(recipientIds), id)
      ensures userActivity == old(userActivity) && activityIds == old(activityIds)
    {
      recipientIds := Without(recipientIds, id);
      recipients := recipients - {id};
    }

    /** `collection("recipients").doc(id).update({ field: v })`: fails when the document does
        not exist, and then changes nothing. */
    method UpdateRecipient(id: string, field: string, v: Value) returns (ok: bool)
      requires Valid()
      modifies this
      ensures Valid()
      ensures ok <==> id in old(recipients)
      ensures recipients == if ok then old(recipients)[id := old(recipients)[id][field := v]] else old(recipients)
      ensures recipientIds == old(recipientIds)
      ensures userActivity == old(userActivity) && activityIds == old(activityIds)
    {
      ok := id in recipients;
      if ok {
        recipients := recipients[id := recipients[id][field := v]];
      }
    }
  }
}
