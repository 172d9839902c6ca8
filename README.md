# Sale-deed record store: image codec and record shapes

This project models the Flask back end in `app.py`. The back end stores sale-deed records in a
MongoDB collection `users`. Each record has 24 scalar fields: `id`, document metadata, and
purchaser, seller and witness details. It also has six photographs, `photoP`/`photoS`/`photoW`
and their thumbnails `thumbP`/`thumbS`/`thumbW`.

The model has four parts.

- **The attachment codec.** `parse_base64_image` reads a data URI (RFC 2397) into a stored
  attachment `{data, contentType}`. It never raises; every failure is `None`. `get_users`
  renders an attachment back as `data:<contentType>;base64,<payload>`. Base64 is the encoding
  of section 4 of RFC 4648, defined here in full (`Base64`). Decoding undoes encoding
  (`Base64.DecodeEncode`), parsing undoes rendering for content types without `,` `;` `:`
  (`DataUri.RenderParse`), and rendering a parsed attachment parses back to the same
  attachment (`DataUri.ParseRender`).
- **The record shapes** (`Records`).
  - `add_user` builds a record with all 30 fields, and `None` wherever nothing usable came in.
  - `get_users` projects a stored record to its outbound item, key by key, in loops.
  - `update_user` builds a `$set` patch in loops.
  - The loops are methods proved equal to specification functions. The functions state which
    keys appear and with what values.
- **The store** (`Store.UserStore`). This is an in-memory stand-in for `db.users`. It holds
  a sequence of records and is not code of the repository. Two MongoDB behaviours are
  ASSUMED here, not modelled from source:
  - `update_one`/`delete_one` act on the first record whose `id` equals the filter value. A
    missing `id` compares equal to `null`.
  - `$set` is a map union in which the patch wins.
- **The handlers** (`App`). `AddUser`, `GetUsers`, `UpdateUser` and `DeleteUser` work over the
  store. They answer 404 and change nothing when no record has the requested `id`. Every
  handler keeps the store "shaped": each attachment field holds `None` or an attachment with a
  parseable content type. `GetUsers` is proved never to fail on a shaped store.

Behaviours of `app.py` worth knowing:

- `delete_user` with no `id` in the body does not answer with a client error. It deletes with
  the filter `{'id': None}`. Under the store assumption, that removes the first record whose
  `id` is `null` or missing, such as one added without an `id`.
- `get_users` in `app.py` has no `offset`/`limit` paging. The model has none either.
- A content type round-trips only when it has no `,`, no `;` and no `:`. `;` matters too,
  because the parser cuts the header at its first `;`. A `:` anywhere in the content type is
  enough to break the round trip.
- `add_user` does not omit missing attachments. It stores every attachment field, with
  `None` when the input is absent or malformed.

A consequence the model makes visible: an update carrying `data:image/png;base64,` (an empty
payload) parses. It then overwrites the stored picture with an empty one, which `get_users`
no longer lists.

## Model

| member | source | states |
|---|---|---|
| Base64.Encode | app.py:79 | `b64encode(...).decode()`: the output has 4·⌈n/3⌉ characters, all from the RFC 4648 alphabet or `=` |
| Base64.Decode | app.py:46 | `b64decode`, strict: it succeeds only on a length that is a multiple of four and alphabet characters, with `=` only among the last two characters and a second-to-last `=` only before a last one; the byte count is three per quantum less the number of trailing `=` |
| Base64.DecodeGroup | app.py:46 | a four-character quantum decodes exactly when every character is in the alphabet, and then gives three bytes |
| Base64.DecodeEncode | app.py:46 | decoding undoes encoding for every byte sequence, including the empty one |
| DataUri.IndexOf | app.py:44 | the split point of `split(',', 1)`: the first occurrence of the character, `None` exactly when there is none |
| DataUri.BeforeFirst | app.py:45 | `split(';')[0]`: a prefix with no separator that is all of the string or ends at the first separator |
| DataUri.SecondField | app.py:45 | `split(':')[1]`: fails (IndexError) exactly when there is no `:`; otherwise the result has no `:` |
| DataUri.Parse | app.py:40-48 | `parse_base64_image` on a string: `None` for `""` and for input without a comma; on success the input has a comma and a colon, and the content type has no `,` `;` or `:` |
| DataUri.ParseFields | app.py:44-46 | a header whose pre-`;` segment is `scheme:mime[:more]` yields content type `mime` and data = the base64 decoding of everything after the first comma, or `None` when that payload is not valid base64 |
| DataUri.ParseNoColon | app.py:45-48 | a header whose pre-`;` segment has no `:` gives `None` and raises nothing |
| DataUri.ParseBadPayload | app.py:46-48 | a payload that is not valid base64 gives `None`, whatever the header |
| DataUri.Render | app.py:79 | the f-string `data:<contentType>;base64,<b64>`: its length is 13 + the content type's length + the encoded length |
| DataUri.RenderParse | app.py:84 | parsing `data:ct;base64,b64(b)` returns exactly `{data: b, contentType: ct}` for every `b` and every `ct` without `,` `;` `:` |
| DataUri.ParseRender | app.py:44-46 | re-rendering a parsed attachment and parsing again gives the same attachment |
| Records.ParseImage | app.py:41-42 | `parse_base64_image(data.get(k))`: `None` for `None`, `""` and every non-string value; a success comes from a non-empty string, and its content type is one the parser reads back |
| Records.NewRecord | app.py:100-121 | the `add_user` record has exactly the 24 scalar and 6 attachment keys; an absent scalar is `None`; an attachment is `None` exactly when its input is absent or malformed, otherwise the parsed attachment; the record is shaped |
| Records.KeysDisjoint | app.py:66-84 | no key is both a scalar field and an attachment field |
| Records.UpdateKeysAreScalarKeysButId | app.py:131-136 | `update_user`'s key list is `get_users`' list without `id` |
| Records.Outbound | app.py:64-84 | the item fails exactly when an attachment field holds a truthy non-dict; otherwise it has scalar key k iff the stored value is present and not `None`, copied unchanged (so `""` and `0` stay); it has attachment key k iff the stored attachment has non-empty data, rendered as a data URI; it has no other keys |
| Records.ProjectRecord | app.py:64-85 | the key-by-key loops of `get_users` build exactly `Outbound(rec)` |
| Records.CopyScalars | app.py:66-74 | the scalar loop keeps exactly the fields that are present and not `None` |
| Records.AddImages | app.py:76-84 | the photo and thumbnail loops render exactly the non-empty attachments, and fail on the first truthy non-dict |
| Records.Patch | app.py:129-145 | the `$set` patch has scalar key k iff k is in the request, even when the value is `null`, with that value; it never has `id`; it has attachment key k iff parsing succeeded, and then holds the parsed attachment |
| Records.BuildPatch | app.py:129-145 | the loops of `update_user` build exactly `Patch(data)` |
| Records.CopyUpdates | app.py:131-138 | the scalar loop copies exactly the listed fields the request has |
| Records.AddParsedImages | app.py:140-145 | the image loops add exactly the attachments that parse |
| Records.Merge | app.py:146 | assumed `$set` semantics: the patch's fields win, and every other stored field stays |
| Records.MergeKeepsUnpatched | app.py:129-146 | an update keeps `id`, every scalar field absent from the request and every attachment that did not parse; it sets every requested scalar field to the requested value |
| Records.ShapedLists | app.py:76-84 | a record written by this code lists without raising, and each listed data URI parses back to the stored attachment |
| Records.ShapedMerge | app.py:139-146 | applying an update patch keeps a record shaped |
| Records.ListAfterAdd | app.py:64-121 | listing a freshly added record shows exactly the non-null submitted scalars, unchanged, and exactly the submitted images that parsed to non-empty data, each as a URI that parses to the submitted attachment |
| Store.FirstMatch | app.py:146 | assumed filter semantics: the first record whose `id` equals the filter value, `None` exactly when no record matches |
| Store.RemoveAt | app.py:155 | the records with exactly the one at `i` removed, the others in order |
| Store.UserStore.InsertOne | app.py:122 | `insert_one` appends the record |
| Store.UserStore.UpdateOne | app.py:146 | `matched_count` is 1 iff some record matches; only the first match is merged with the patch; with no match nothing changes |
| Store.UserStore.DeleteOne | app.py:155 | `deleted_count` is 1 iff some record matches; only the first match is removed; with no match nothing changes |
| App.AddUser | app.py:89-123 | the store gains exactly `NewRecord(data)` at the end; the reply is the success message; shape is preserved |
| App.GetUsers | app.py:59-86 | one item per stored record, in store order, each equal to `Outbound` of that record; the request fails iff some record's projection fails, which never happens on a shaped store |
| App.UpdateUser | app.py:126-149 | with no record matching the request's `id`: 404 and an unchanged store; otherwise only the first match is replaced by its merge with `Patch(data)`; shape is preserved |
| App.DeleteUser | app.py:152-158 | with no record matching the request's `id`: 404 and an unchanged store; otherwise only the first match is removed and the count drops by one; shape is preserved |

## Left out

- Base64.Decode: decoding is strict RFC 4648 section 4. Python's `b64decode` without `validate=True` first discards characters outside the alphabet. Inputs with embedded whitespace or junk therefore parse in the source and give `None` here. Python is also lenient about `=`: `b64decode("QQ==QUFB")` gives `b'A'` and `b64decode("QUFB====")` gives `b'AAA'`, while the model gives `None` for both. Like Python, non-zero bits in the final padded quantum are accepted.
- Records.AddImages and Records.AddParsedImages: the source's two identical loops (photos, then thumbnails) are one loop over the six keys. These methods collect the images in their own map and then join it to the scalars. The source writes into one dict, which gives the same final map. Dict insertion order, and with it the key order of the JSON output, is not modelled.
- Loading the environment, the `quote_plus` build of the MongoDB URI, and the RFC 3986 claim: configuration and a library call.
- Flask setup, routing, `jsonify`, `abort`, `request.get_json` and `app.run`: HTTP plumbing. A body is taken to be a JSON object. A non-object body makes `data.get` raise, and that path is not modelled.
- Static file serving (`os.path.exists`, `send_from_directory`): filesystem I/O.
- MongoDB beyond the two assumptions above: how `find()` orders records, type-aware equality (`1` against `1.0`), `_id`, and failures of `insert_one`/`update_one`/`delete_one`. An empty `$set` is assumed to be accepted as a no-op.
- `bson.binary.Binary` is a plain byte sequence.
- JSON floats, arrays and nested objects are not values of the model. Scalars are copied unchanged whatever their kind. Every non-string attachment input fails to parse either way.
- The reply texts are the literals of `app.py` character for character, including their garbled emoji prefixes (UTF-8 read back as Mac Roman); the JSON wrapping `{'message': ...}` is left out.
- server.js: an Express/Mongoose variant whose only logic is `|| ""` defaulting and a `Date.now()` id fallback, which reads the clock.
- Concurrency between requests and last-write-wins ordering: these belong to the host server and the database.
