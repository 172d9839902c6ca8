/**
 * The record shapes of app.py: the full record `add_user` stores, the
 * outbound item `get_users` builds from a stored record, and the `$set`
 * patch `update_user` builds from a request.
 */
module Records {
  import opened Wrappers
  import opened DataUri

  /**
   * A JSON value of a request, or a value of a stored document.  Only stored
   * documents hold an `Attachment`; JSON numbers are integers here.
   */
  datatype Value = Null | Bool(b: bool) | Num(n: int) | Str(s: string) | Attachment(image: Image)

  /** A request body, a stored document, an outbound item or a patch. */
  type Document = map<string, Value>

  /** The scalar fields `get_users` copies out, in its order. */
  const ScalarKeys: seq<string> := [
    "id", "metaDocumentNumber", "metaNotarySrNo", "metaDocumentType",
    "scheduleOfProperty", "consideration",
    "purchaserName", "purchaserAge", "purchaserOccupation", "purchaserAddress", "purchaserContact", "purchaserIdNumber",
    "sellerName", "sellerAge", "sellerOccupation", "sellerAddress", "sellerContact", "sellerIdNumber",
    "witnessName", "witnessAge", "witnessOccupation", "witnessAddress", "witnessContact", "witnessIdNumber"
  ]

  /** The scalar fields `update_user` may overwrite: all but `id`. */
  const UpdateKeys: seq<string> := [
    "metaDocumentNumber", "metaNotarySrNo", "metaDocumentType", "scheduleOfProperty", "consideration",
    "purchaserName", "purchaserAge", "purchaserOccupation", "purchaserAddress", "purchaserContact", "purchaserIdNumber",
    "sellerName", "sellerAge", "sellerOccupation", "sellerAddress", "sellerContact", "sellerIdNumber",
    "witnessName", "witnessAge", "witnessOccupation", "witnessAddress", "witnessContact", "witnessIdNumber"
  ]

  const PhotoKeys: seq<string> := ["photoP", "photoS", "photoW"]
  const ThumbKeys: seq<string> := ["thumbP", "thumbS", "thumbW"]

  /** The attachment fields: the photos, then the thumbnails. */
  const ImageKeys: seq<string> := PhotoKeys + ThumbKeys

  lemma ImageKeyLengths()
    ensures forall k :: k in ImageKeys ==> |k| == 6
  {
  }

  lemma ScalarKeyLengths()
    ensures forall k :: k in ScalarKeys ==> |k| != 6
  {
  }

  /** No field is both a scalar and an attachment field: only the attachment fields have six letters. */
  lemma KeysDisjoint()
    ensures forall k :: k in ScalarKeys ==> k !in ImageKeys
    ensures forall k :: k in UpdateKeys ==> k !in ImageKeys
  {
    ImageKeyLengths();
    ScalarKeyLengths();
    UpdateKeysAreScalarKeysButId();
  }

  /** `update_user` never writes `id`. */
  lemma IdNotPatched()
    ensures "id" !in UpdateKeys && "id" !in ImageKeys
  {
  }

  lemma UpdateKeysTail()
    ensures ScalarKeys == ["id"] + UpdateKeys
  {
  }

  /** `update_user`'s list is `get_users`' list without its leading `id`. */
  lemma UpdateKeysAreScalarKeysButId()
    ensures forall k :: k in UpdateKeys <==> k in ScalarKeys && k != "id"
  {
    UpdateKeysTail();
    IdNotPatched();
  }

  /** `dict.get(k)`: a missing key reads as `None`. */
  function Get(m: Document, k: string): Value {
    if k in m then m[k] else Null
  }

  /** Python truthiness of a value. */
  predicate Truthy(v: Value) {
    match v
    case Null => false
    case Bool(b) => b
    case Num(n) => n != 0
    case Str(s) => s != ""
    case Attachment(_) => true
  }

  /**
   * `parse_base64_image(v)`: falsy values are rejected up front, and a truthy
   * value that is not a string fails inside the `try` (it has no `split`).
   */
  function ParseImage(v: Value): (r: Option<Image>)
    ensures r.Some? ==> v.Str? && v.s != "" && Parse(v.s) == r
    ensures v.Str? ==> r == Parse(v.s)
    ensures r.Some? ==> SafeContentType(r.value.contentType)
  {
    if !Truthy(v) then None
    else
      match v
      case Str(s) => Parse(s)
      case _ => None
  }

  /** The stored value of a parsed attachment: the dict, or `None`. */
  function Stored(p: Option<Image>): Value {
    match p
    case None => Null
    case Some(img) => Attachment(img)
  }

  /**
   * What this code ever writes into an attachment field: `None`, or an
   * attachment whose content type came out of the parser.
   */
  predicate Shaped(rec: Document) {
    forall k :: k in ImageKeys && k in rec ==>
      rec[k].Null? || (rec[k].Attachment? && SafeContentType(rec[k].image.contentType))
  }

  // add_user

  /** The record literal of `add_user`: every scalar and attachment field, `None` where nothing usable came in. */
  function NewRecord(data: Document): (rec: Document)
    ensures forall k :: k in rec <==> k in ScalarKeys || k in ImageKeys
    ensures forall k :: k in ScalarKeys ==> rec[k] == Get(data, k)
    ensures forall k :: k in ScalarKeys && k !in data ==> rec[k] == Null
    ensures forall k :: k in ImageKeys ==> (rec[k] == Null <==> ParseImage(Get(data, k)).None?)
    ensures forall k :: k in ImageKeys && rec[k] != Null ==> rec[k] == Attachment(ParseImage(Get(data, k)).value)
    ensures Shaped(rec)
  {
    KeysDisjoint();
    map k | k in ScalarKeys + ImageKeys :: if k in ScalarKeys then Get(data, k) else Stored(ParseImage(Get(data, k)))
  }

  // get_users

  /** `img and img.get('data')`: an attachment with a non-empty payload. */
  predicate Renders(v: Value) {
    v.Attachment? && |v.image.data| > 0
  }

  /** A truthy value with no `get`: `img.get('data')` raises and the request fails. */
  predicate Breaks(v: Value) {
    Truthy(v) && !v.Attachment?
  }

  function ScalarPart(rec: Document): Document {
    map k | k in ScalarKeys && k in rec && rec[k] != Null :: rec[k]
  }

  function ImagePart(rec: Document): Document {
    map k | k in ImageKeys && k in rec && Renders(rec[k]) :: Str(Render(rec[k].image))
  }

  /**
   * The item `get_users` builds from one stored record, or `None` when
   * building it raises.
   */
  function Outbound(rec: Document): (r: Option<Document>)
    ensures r.None? <==> exists k :: k in ImageKeys && k in rec && Breaks(rec[k])
    ensures r.Some? ==> forall k :: k in r.value ==> k in ScalarKeys || k in ImageKeys
    ensures r.Some? ==> forall k :: k in ScalarKeys ==> (k in r.value <==> k in rec && rec[k] != Null)
    ensures r.Some? ==> forall k :: k in ScalarKeys && k in r.value ==> r.value[k] == rec[k]
    ensures r.Some? ==> forall k :: k in ImageKeys ==> (k in r.value <==> k in rec && Renders(rec[k]))
    ensures r.Some? ==> forall k :: k in ImageKeys && k in rec && Renders(rec[k]) ==> r.value[k] == Str(Render(rec[k].image))
  {
    KeysDisjoint();
    if exists k :: k in ImageKeys && k in rec && Breaks(rec[k]) then None
    else Some(ScalarPart(rec) + ImagePart(rec))
  }

  /** The body of `get_users`' loop over one stored record. */
  method ProjectRecord(rec: Document) returns (item: Option<Document>)
    ensures item == Outbound(rec)
  {
    var scalars := CopyScalars(rec);
    item := AddImages(rec, scalars);
  }

  /** The first loop of `get_users`: the scalar fields that are set. */
  method CopyScalars(rec: Document) returns (m: Document)
    ensures m == ScalarPart(rec)
  {
    m := map[];
    for i := 0 to |ScalarKeys|
      invariant m == map k | k in ScalarKeys[..i] && k in rec && rec[k] != Null :: rec[k]
    {
      var k := ScalarKeys[i];
      assert ScalarKeys[..i + 1] == ScalarKeys[..i] + [k];
      if Get(rec, k) != Null {
        m := m[k := rec[k]];
      }
    }
    assert ScalarKeys[..|ScalarKeys|] == ScalarKeys;
  }

  /** The rendered attachments among the first `n` attachment fields. */
  function ImagesUpTo(rec: Document, n: nat): Document
    requires n <= |ImageKeys|
  {
    map k | k in ImageKeys[..n] && k in rec && Renders(rec[k]) :: Str(Render(rec[k].image))
  }

  lemma ImagesUpToStep(rec: Document, n: nat)
    requires n < |ImageKeys|
    ensures var k := ImageKeys[n];
      ImagesUpTo(rec, n + 1) ==
        if k in rec && Renders(rec[k]) then ImagesUpTo(rec, n)[k := Str(Render(rec[k].image))] else ImagesUpTo(rec, n)
  {
    assert ImageKeys[..n + 1] == ImageKeys[..n] + [ImageKeys[n]];
  }

  /** The photo and thumbnail loops of `get_users`, which may raise. */
  method AddImages(rec: Document, scalars: Document) returns (item: Option<Document>)
    ensures item == if exists k :: k in ImageKeys && k in rec && Breaks(rec[k]) then None else Some(scalars + ImagePart(rec))
  {
    var images: Document := map[];
    for j := 0 to |ImageKeys|
      invariant images == ImagesUpTo(rec, j)
      invariant forall k :: k in ImageKeys[..j] && k in rec ==> !Breaks(rec[k])
    {
      var k := ImageKeys[j];
      ImagesUpToStep(rec, j);
      assert ImageKeys[..j + 1] == ImageKeys[..j] + [k];
      var img := Get(rec, k);
      if Truthy(img) {
        if !img.Attachment? {
          return None;
        }
        if |img.image.data| > 0 {
          images := images[k := Str(Render(img.image))];
        }
      }
    }
    assert ImageKeys[..|ImageKeys|] == ImageKeys;
    item := Some(scalars + images);
  }

  // update_user

  function UpdatePart(data: Document): Document {
    map k | k in UpdateKeys && k in data :: data[k]
  }

  function ParsedPart(data: Document): Document {
    map k | k in ImageKeys && ParseImage(Get(data, k)).Some? :: Attachment(ParseImage(Get(data, k)).value)
  }

  /** The `$set` document of `update_user`. */
  function Patch(data: Document): (p: Document)
    ensures forall k :: k in p ==> k in UpdateKeys || k in ImageKeys
    ensures "id" !in p
    ensures forall k :: k in UpdateKeys ==> (k in p <==> k in data)
    ensures forall k :: k in UpdateKeys && k in data ==> p[k] == data[k]
    ensures forall k :: k in ImageKeys ==> (k in p <==> ParseImage(Get(data, k)).Some?)
    ensures forall k :: k in ImageKeys && ParseImage(Get(data, k)).Some? ==> p[k] == Attachment(ParseImage(Get(data, k)).value)
  {
    IdNotPatched();
    KeysDisjoint();
    UpdatePart(data) + ParsedPart(data)
  }

  /** The loops of `update_user` that fill its `update` dict. */
  method BuildPatch(data: Document) returns (patch: Document)
    ensures patch == Patch(data)
  {
    var scalars := CopyUpdates(data);
    patch := AddParsedImages(data, scalars);
  }

  /** The scalar loop of `update_user`: every listed field the request has, `null` included. */
  method CopyUpdates(data: Document) returns (patch: Document)
    ensures patch == UpdatePart(data)
  {
    patch := map[];
    for i := 0 to |UpdateKeys|
      invariant patch == map k | k in UpdateKeys[..i] && k in data :: data[k]
    {
      var k := UpdateKeys[i];
      assert UpdateKeys[..i + 1] == UpdateKeys[..i] + [k];
      if k in data {
        patch := patch[k := data[k]];
      }
    }
    assert UpdateKeys[..|UpdateKeys|] == UpdateKeys;
  }

  /** The parsed attachments among the first `n` attachment fields. */
  function ParsedUpTo(data: Document, n: nat): Document
    requires n <= |ImageKeys|
  {
    map k | k in ImageKeys[..n] && ParseImage(Get(data, k)).Some? :: Attachment(ParseImage(Get(data, k)).value)
  }

  lemma ParsedUpToStep(data: Document, n: nat)
    requires n < |ImageKeys|
    ensures var k := ImageKeys[n];
      ParsedUpTo(data, n + 1) ==
        match ParseImage(Get(data, k))
        case None => ParsedUpTo(data, n)
        case Some(img) => ParsedUpTo(data, n)[k := Attachment(img)]
  {
    assert ImageKeys[..n + 1] == ImageKeys[..n] + [ImageKeys[n]];
  }

  /** The photo and thumbnail loops of `update_user`: only attachments that parse. */
  method AddParsedImages(data: Document, scalars: Document) returns (patch: Document)
    ensures patch == scalars + ParsedPart(data)
  {
    var images: Document := map[];
    for j := 0 to |ImageKeys|
      invariant images == ParsedUpTo(data, j)
    {
      var k := ImageKeys[j];
      ParsedUpToStep(data, j);
      var parsed := ParseImage(Get(data, k));
      if parsed.Some? {
        images := images[k := Attachment(parsed.value)];
      }
    }
    assert ImageKeys[..|ImageKeys|] == ImageKeys;
    patch := scalars + images;
  }

  /** `{'$set': patch}` applied to a stored record: the patch's fields win, the rest stay. */
  function Merge(rec: Document, patch: Document): (r: Document)
    ensures r.Keys == rec.Keys + patch.Keys
    ensures forall k :: k in patch ==> r[k] == patch[k]
    ensures forall k :: k in rec && k !in patch ==> r[k] == rec[k]
  {
    rec + patch
  }

  // Properties that relate the three shapes

  /**
   * A record this code wrote lists without raising, and each data URI it lists
   * parses back to the stored attachment.
   */
  lemma ShapedLists(rec: Document)
    requires Shaped(rec)
    ensures Outbound(rec).Some?
    ensures forall k :: k in ImageKeys && k in Outbound(rec).value ==> ParseImage(Outbound(rec).value[k]) == Some(rec[k].image)
  {
    assert forall k :: k in ImageKeys && k in rec ==> !Breaks(rec[k]);
    var item := Outbound(rec).value;
    forall k | k in ImageKeys && k in item
      ensures ParseImage(item[k]) == Some(rec[k].image)
    {
      RenderParse(rec[k].image);
    }
  }

  /** Applying an `update_user` patch keeps a record in the shape this code writes. */
  lemma ShapedMerge(rec: Document, data: Document)
    requires Shaped(rec)
    ensures Shaped(Merge(rec, Patch(data)))
  {
  }

  /**
   * Listing a freshly added record shows exactly the submitted scalar fields
   * that are not `null`, and exactly the submitted attachments that parsed to
   * a non-empty payload, each as a data URI that parses to what was submitted.
   */
  lemma ListAfterAdd(data: Document)
    ensures Outbound(NewRecord(data)).Some?
    ensures var item := Outbound(NewRecord(data)).value;
      && (forall k :: k in item ==> k in ScalarKeys || k in ImageKeys)
      && (forall k :: k in ScalarKeys ==> (k in item <==> k in data && data[k] != Null))
      && (forall k :: k in ScalarKeys && k in item ==> item[k] == data[k])
      && (forall k :: k in ImageKeys ==>
            (k in item <==> ParseImage(Get(data, k)).Some? && |ParseImage(Get(data, k)).value.data| > 0))
      && (forall k :: k in ImageKeys && k in item ==> ParseImage(item[k]) == ParseImage(Get(data, k)))
  {
    var rec := NewRecord(data);
    ShapedLists(rec);
    var item := Outbound(rec).value;
    forall k | k in ImageKeys
      ensures k in item <==> ParseImage(Get(data, k)).Some? && |ParseImage(Get(data, k)).value.data| > 0
    {
      if ParseImage(Get(data, k)).Some? {
        assert rec[k] == Attachment(ParseImage(Get(data, k)).value);
      }
    }
  }

  /**
   * An update changes only what its patch names: scalar fields absent from the
   * request, attachments that did not parse, and `id` keep their stored value.
   */
  lemma MergeKeepsUnpatched(rec: Document, data: Document)
    ensures var merged := Merge(rec, Patch(data));
      && Get(merged, "id") == Get(rec, "id")
      && (forall k :: k in UpdateKeys && k !in data ==> Get(merged, k) == Get(rec, k))
      && (forall k :: k in ImageKeys && ParseImage(Get(data, k)).None? ==> Get(merged, k) == Get(rec, k))
      && (forall k :: k in UpdateKeys && k in data ==> Get(merged, k) == data[k])
  {
  }
}
