/**
 * `/api/recipients`: list, create and delete a user's emergency contacts. The caller's uid is
 * the one the session check verified.
 */
module RecipientsRoute {
  import opened Wrappers
  import opened Json
  import opened Store

  // ---------------------------------------------------------------------------------------
  // GET
  // ---------------------------------------------------------------------------------------

  /** One listed recipient: `{ id: doc.id, ...doc.data() }` (a stored `id` field wins). */
  function Listed(id: string, data: Doc): Doc
  {
    map["id" := Str(id)] + data
  }

  /** `GET`: the caller's recipients, in collection order. */
  function ListRecipients(recipients: map<string, Doc>, ids: seq<string>, uid: string): (r: seq<Doc>)
    requires forall k :: k in ids ==> k in recipients
    ensures |r| == |Owned(ids, recipients, uid)|
    ensures forall i :: 0 <= i < |r| ==>
      r[i] == Listed(Owned(ids, recipients, uid)[i], recipients[Owned(ids, recipients, uid)[i]])
  {
    var owned := Owned(ids, recipients, uid);
    seq(|owned|, i requires 0 <= i < |owned| => Listed(owned[i], recipients[owned[i]]))
  }

  /** Every listed entry belongs to the caller, and every recipient of the caller is listed,
      under its own id unless its data carries one. */
  lemma ListExactlyOwn(recipients: map<string, Doc>, ids: seq<string>, uid: string)
    requires forall k :: k in ids ==> k in recipients
    ensures forall e :: e in ListRecipients(recipients, ids, uid) ==> Field(e, "userId") == Str(uid)
    ensures forall k :: k in ids && Field(recipients[k], "userId") == Str(uid) ==>
      Listed(k, recipients[k]) in ListRecipients(recipients, ids, uid)
    ensures forall k :: k in ids && "id" !in recipients[k] ==> Field(Listed(k, recipients[k]), "id") == Str(k)
  {
    var owned := Owned(ids, recipients, uid);
    var r := ListRecipients(recipients, ids, uid);
    forall e | e in r ensures Field(e, "userId") == Str(uid) {
      var i :| 0 <= i < |r| && r[i] == e;
      assert owned[i] in owned;
    }
    forall k | k in ids && Field(recipients[k], "userId") == Str(uid)
      ensures Listed(k, recipients[k]) in r
    {
      var i :| 0 <= i < |owned| && owned[i] == k;
      assert r[i] == Listed(k, recipients[k]);
    }
  }

  // ---------------------------------------------------------------------------------------
  // POST
  // ---------------------------------------------------------------------------------------

  const RequiredFields := ["name", "phoneNumber"]

  /** `recipientData`: the body with `email` and `relationship` defaulted to `""`, the owner
      forced to the caller and both time stamps set (two clock readings). */
  function RecipientRecord(data: Doc, uid: string, createdAt: string, updatedAt: string): (r: Doc)
    ensures r.Keys == data.Keys + {"email", "relationship", "userId", "createdAt", "updatedAt"}
    ensures r["userId"] == Str(uid)
    ensures r["email"] == (if Truthy(Field(data, "email")) then data["email"] else Str(""))
    ensures r["relationship"] == (if Truthy(Field(data, "relationship")) then data["relationship"] else Str(""))
    ensures r["createdAt"] == Str(createdAt) && r["updatedAt"] == Str(updatedAt)
    ensures forall k :: k in data && k !in {"email", "relationship", "userId", "createdAt", "updatedAt"} ==> r[k] == data[k]
  {
    data["email" := if Truthy(Field(data, "email")) then data["email"] else Str("")]
        ["relationship" := if Truthy(Field(data, "relationship")) then data["relationship"] else Str("")]
        ["userId" := Str(uid)]["createdAt" := Str(createdAt)]["updatedAt" := Str(updatedAt)]
  }

  datatype PostResponse =
    | PostBadRequest(error: string)   // 400
    | Created(body: Doc)              // 201

  /** `POST`, with `newId` the id the store generates for the new document. */
  method PostRecipient(db: Db, uid: string, data: Doc, newId: string, createdAt: string, updatedAt: string)
    returns (response: PostResponse)
    requires db.Valid() && newId !in db.recipients && newId != "" && '/' !in newId
    modifies db
    ensures db.Valid()
    ensures MissingFields(data, RequiredFields) != [] ==>
      response == PostBadRequest(MissingFieldsMessage(MissingFields(data, RequiredFields)))
      && db.recipients == old(db.recipients) && db.recipientIds == old(db.recipientIds)
    ensures MissingFields(data, RequiredFields) == [] ==>
      && response == Created(Listed(newId, RecipientRecord(data, uid, createdAt, updatedAt)))
      && db.recipients == old(db.recipients)[newId := RecipientRecord(data, uid, createdAt, updatedAt)]
      && db.recipientIds == old(db.recipientIds) + [newId]
    ensures db.userActivity == old(db.userActivity) && db.activityIds == old(db.activityIds)
  {
    var missing := MissingFields(data, RequiredFields);
    if |missing| > 0 {
      return PostBadRequest(MissingFieldsMessage(missing));
    }
    var record := RecipientRecord(data, uid, createdAt, updatedAt);
    db.AddRecipient(newId, record);
    response := Created(Listed(newId, record));
  }

  /** The 400 lists exactly the falsy required fields, `name` before `phoneNumber`. */
  lemma PostValidation(data: Doc)
    ensures MissingFields(data, RequiredFields) ==
      (if Truthy(Field(data, "name")) then [] else ["name"])
      + (if Truthy(Field(data, "phoneNumber")) then [] else ["phoneNumber"])
  {
    MissingFieldsInOrder(data, "name", "phoneNumber");
  }

  // ---------------------------------------------------------------------------------------
  // DELETE
  // ---------------------------------------------------------------------------------------

  datatype DeleteResponse =
    | IdRequired     // 400 "Recipient ID is required"
    | NotFound       // 404 "Recipient not found"
    | Unauthorized   // 403 "Unauthorized to delete this recipient"
    | Deleted        // 200 "Recipient deleted successfully"

  /** The checks of `DELETE` in order; `id` is `searchParams.get("id")`. */
  function DeleteDecision(recipients: map<string, Doc>, id: Option<string>, uid: string): (r: DeleteResponse)
    ensures r == Deleted <==>
      id.Some? && id.value != "" && id.value in recipients && Field(recipients[id.value], "userId") == Str(uid)
    ensures r == IdRequired <==> id.None? || id.value == ""
    ensures r == NotFound <==> id.Some? && id.value != "" && id.value !in recipients
    ensures r == Unauthorized <==>
      id.Some? && id.value != "" && id.value in recipients && Field(recipients[id.value], "userId") != Str(uid)
  {
    if id.None? || id.value == "" then IdRequired
    else if id.value !in recipients then NotFound
    else if Field(recipients[id.value], "userId") != Str(uid) then Unauthorized
    else Deleted
  }

  /** `DELETE`: removes the one recipient named, and only when the caller owns it. */
  method DeleteRecipient(db: Db, uid: string, id: Option<string>) returns (response: DeleteResponse)
    requires db.Valid()
    modifies db
    ensures db.Valid()
    ensures response == DeleteDecision(old(db.recipients), id, uid)
    ensures db.recipients == if response == Deleted then old(db.recipients) - {id.value} else old(db.recipients)
    ensures response == Deleted ==> db.recipientIds == Without(old(db.recipientIds), id.value)
    ensures response != Deleted ==> unchanged(db)
    ensures db.userActivity == old(db.userActivity) && db.activityIds == old(db.activityIds)
  {
    if id.None? || id.value == "" {
      return IdRequired;
    }
    var recipientId := id.value;
    if recipientId !in db.recipients {
      return NotFound;
    }
    if Field(db.recipients[recipientId], "userId") != Str(uid) {
      return Unauthorized;
    }
    db.DeleteRecipient(recipientId);
    response := Deleted;
  }

  /** A created recipient is listed for its creator, and only its creator can delete it: the
      client cannot claim another owner through the body. */
  lemma CreatedIsOwned(recipients: map<string, Doc>, ids: seq<string>, data: Doc, uid: string,
                       other: string, newId: string, createdAt: string, updatedAt: string)
    requires forall k :: k in ids ==> k in recipients
    requires newId !in recipients && newId != ""
    ensures var after := recipients[newId := RecipientRecord(data, uid, createdAt, updatedAt)];
      && newId in Owned(ids + [newId], after, uid)
      && DeleteDecision(after, Some(newId), other) == (if other == uid then Deleted else Unauthorized)
  {
    var after := recipients[newId := RecipientRecord(data, uid, createdAt, updatedAt)];
    assert newId in ids + [newId];
    assert forall k :: k in ids + [newId] ==> k in after;
  }
}
