/**
 * The route handlers of app.py over the store: `add_user`, `get_users`,
 * `update_user` and `delete_user`.  The request body is the parsed JSON
 * object; a response is the JSON message or the 404 of `abort`.
 */
module App {
  import opened Wrappers
  import opened Records
  import opened Store

  datatype Response = Message(text: string) | NotFound(description: string)

  // The reply literals character for character as app.py holds them: the
  // emoji prefixes are UTF-8 bytes that were read back as Mac Roman text.
  const Added := "\U{201A}\U{FA}\U{D6} Document added successfully"
  const Updated := "\U{201A}\U{FA}\U{E8}\U{D4}\U{220F}\U{E8} Document updated successfully"
  const Deleted := "\U{F8FF}\U{FC}\U{F3}\U{EB}\U{D4}\U{220F}\U{E8} Document deleted successfully"
  const Missing := "\U{201A}\U{F9}\U{E5} Document not found"

  /** Every stored record has the shape this code writes. */
  ghost predicate AllShaped(records: seq<Document>) {
    forall i :: 0 <= i < |records| ==> Shaped(records[i])
  }

  /** `POST /add-user`: store the full record built from the request. */
  method AddUser(db: UserStore, data: Document) returns (resp: Response)
    modifies db
    ensures db.records == old(db.records) + [NewRecord(data)]
    ensures resp == Message(Added)
    ensures AllShaped(old(db.records)) ==> AllShaped(db.records)
  {
    var rec := NewRecord(data);
    db.InsertOne(rec);
    resp := Message(Added);
  }

  /**
   * `GET /get-users`: the outbound item of every stored record, in store
   * order, or `None` when building one of them raises.
   */
  method GetUsers(db: UserStore) returns (docs: Option<seq<Document>>)
    ensures docs.Some? <==> forall i :: 0 <= i < |db.records| ==> Outbound(db.records[i]).Some?
    ensures docs.Some? ==> |docs.value| == |db.records|
    ensures docs.Some? ==> forall i :: 0 <= i < |db.records| ==> Outbound(db.records[i]) == Some(docs.value[i])
    ensures AllShaped(db.records) ==> docs.Some?
  {
    var out: seq<Document> := [];
    for i := 0 to |db.records|
      invariant |out| == i
      invariant forall j :: 0 <= j < i ==> Outbound(db.records[j]) == Some(out[j])
    {
      var item := ProjectRecord(db.records[i]);
      if item.None? {
        docs := None;
        return;
      }
      out := out + [item.value];
    }
    docs := Some(out);
    forall i | 0 <= i < |db.records| && Shaped(db.records[i])
      ensures Outbound(db.records[i]).Some?
    {
      ShapedLists(db.records[i]);
    }
  }

  /**
   * `POST /update-user`: merge the patch into the first record with the
   * request's `id`, or answer 404 and change nothing.
   */
  method UpdateUser(db: UserStore, data: Document) returns (resp: Response)
    modifies db
    ensures match FirstMatch(old(db.records), Get(data, "id"))
      case None => resp == NotFound(Missing) && db.records == old(db.records)
      case Some(i) =>
        && resp == Message(Updated)
        && db.records == old(db.records)[i := Merge(old(db.records)[i], Patch(data))]
    ensures AllShaped(old(db.records)) ==> AllShaped(db.records)
  {
    var update := BuildPatch(data);
    var matched := db.UpdateOne(Get(data, "id"), update);
    if matched != 0 {
      resp := Message(Updated);
    } else {
      resp := NotFound(Missing);
    }
    if FirstMatch(old(db.records), Get(data, "id")).Some? && AllShaped(old(db.records)) {
      ghost var i := FirstMatch(old(db.records), Get(data, "id")).value;
      ShapedMerge(old(db.records)[i], data);
    }
  }

  /**
   * `POST /delete-user`: remove the first record with the request's `id`, or
   * answer 404 and change nothing.
   */
  method DeleteUser(db: UserStore, data: Document) returns (resp: Response)
    modifies db
    ensures match FirstMatch(old(db.records), Get(data, "id"))
      case None => resp == NotFound(Missing) && db.records == old(db.records)
      case Some(i) => resp == Message(Deleted) && db.records == RemoveAt(old(db.records), i)
    ensures |db.records| == |old(db.records)| - (if resp.NotFound? then 0 else 1)
    ensures AllShaped(old(db.records)) ==> AllShaped(db.records)
  {
    var deleted := db.DeleteOne(Get(data, "id"));
    if deleted != 0 {
      resp := Message(Deleted);
    } else {
      resp := NotFound(Missing);
    }
  }
}
