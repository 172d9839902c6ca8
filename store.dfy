/**
 * An in-memory stand-in for the `db.users` collection.  It is not code of
 * app.py: it states the two assumptions the handlers rely on, that
 * `update_one` / `delete_one` act on the first record whose `id` equals the
 * filter value (a missing `id` compares as `null`), and that `$set` merges
 * the patch into that record.
 */
module Store {
  import opened Wrappers
  import opened Records

  /** The equality filter `{'id': id}`. */
  predicate Matches(rec: Document, id: Value) {
    Get(rec, "id") == id
  }

  /** The position of the first record the filter matches. */
  function FirstMatch(records: seq<Document>, id: Value): (r: Option<nat>)
    ensures r.None? <==> forall j :: 0 <= j < |records| ==> !Matches(records[j], id)
    ensures r.Some? ==> r.value < |records| && Matches(records[r.value], id)
    ensures r.Some? ==> forall j :: 0 <= j < r.value ==> !Matches(records[j], id)
  {
    if |records| == 0 then None
    else if Matches(records[0], id) then Some(0)
    else
      match FirstMatch(records[1..], id)
      case None => None
      case Some(i) => Some(i + 1)
  }

  /** The records with the one at `i` taken out. */
  function RemoveAt(records: seq<Document>, i: nat): (r: seq<Document>)
    requires i < |records|
    ensures |r| == |records| - 1
    ensures forall j :: 0 <= j < i ==> r[j] == records[j]
    ensures forall j :: i <= j < |r| ==> r[j] == records[j + 1]
  {
    records[..i] + records[i + 1..]
  }

  class UserStore {
    /** The documents in iteration order of `find()`. */
    var records: seq<Document>

    constructor ()
      ensures records == []
    {
      records := [];
    }

    /** `insert_one(rec)` */
    method InsertOne(rec: Document)
      modifies this
      ensures records == old(records) + [rec]
    {
      records := records + [rec];
    }

    /** `update_one({'id': id}, {'$set': patch})`, returning `matched_count`. */
    method UpdateOne(id: Value, patch: Document) returns (matchedCount: nat)
      modifies this
      ensures matchedCount == if FirstMatch(old(records), id).Some? then 1 else 0
      ensures match FirstMatch(old(records), id)
        case None => records == old(records)
        case Some(i) => records == old(records)[i := Merge(old(records)[i], patch)]
    {
      match FirstMatch(records, id)
      case None =>
        matchedCount := 0;
      case Some(i) =>
        records := records[i := Merge(records[i], patch)];
        matchedCount := 1;
    }

    /** `delete_one({'id': id})`, returning `deleted_count`. */
    method DeleteOne(id: Value) returns (deletedCount: nat)
      modifies this
      ensures deletedCount == if FirstMatch(old(records), id).Some? then 1 else 0
      ensures match FirstMatch(old(records), id)
        case None => records == old(records)
        case Some(i) => records == RemoveAt(old(records), i)
    {
      match FirstMatch(records, id)
      case None =>
        deletedCount := 0;
      case Some(i) =>
        records := RemoveAt(records, i);
        deletedCount := 1;
    }
  }
}
