/**
 * The image attachment codec of app.py: `parse_base64_image` reads a data URI
 * (RFC 2397) into a stored attachment, and the f-string of `get_users` writes
 * one back out as `data:<contentType>;base64,<payload>`.
 */
module DataUri {
  import opened Wrappers
  import opened Base64

  /** A stored attachment: `{'data': Binary(...), 'contentType': mime}`. */
  datatype Image = Image(data: seq<byte>, contentType: string)

  /** The position of the first `c` in `s`, as `s.find(c)` when it is found. */
  function IndexOf(s: string, c: char): (r: Option<nat>)
    ensures r.None? <==> c !in s
    ensures r.Some? ==> r.value < |s| && s[r.value] == c && c !in s[..r.value]
  {
    if |s| == 0 then None
    else if s[0] == c then Some(0)
    else
      match IndexOf(s[1..], c)
      case None => None
      case Some(i) =>
        assert s[..i + 1] == [s[0]] + s[1..][..i];
        Some(i + 1)
  }

  /** `s.split(c)[0]`: everything before the first `c`, or all of `s`. */
  function BeforeFirst(s: string, c: char): (r: string)
    ensures c !in r
    ensures r <= s
    ensures r == s || s[|r|] == c
  {
    match IndexOf(s, c)
    case None => s
    case Some(i) => s[..i]
  }

  /** `s.split(c)[1]`: the text between the first and the second `c`; an IndexError when `c` is absent. */
  function SecondField(s: string, c: char): (r: Option<string>)
    ensures r.None? <==> c !in s
    ensures r.Some? ==> c !in r.value
  {
    match IndexOf(s, c)
    case None => None
    case Some(i) => Some(BeforeFirst(s[i + 1..], c))
  }

  /**
   * `parse_base64_image` on a string: split on the first comma, take the
   * MIME type as the second ':'-field of the header's segment before its
   * first ';', and base64-decode the payload.  Every failure is `None`.
   */
  function Parse(s: string): (r: Option<Image>)
    ensures s == "" ==> r.None?
    ensures ',' !in s ==> r.None?
    ensures r.Some? ==> ',' in s && ':' in s
    ensures r.Some? ==> SafeContentType(r.value.contentType)
  {
    if s == "" then None
    else
      match IndexOf(s, ',')
      case None => None
      case Some(i) =>
        var header, payload := s[..i], s[i + 1..];
        match SecondField(BeforeFirst(header, ';'), ':')
        case None => None
        case Some(mime) =>
          match Decode(payload)
          case None => None
          case Some(bytes) =>
            assert forall ch :: ch in mime ==> ch in header;
            Some(Image(bytes, mime))
  }

  /** A content type the parser reads back unchanged. */
  predicate SafeContentType(ct: string) {
    ',' !in ct && ';' !in ct && ':' !in ct
  }

  /** `f"data:{contentType};base64," + b64encode(data).decode()` */
  function Render(img: Image): (s: string)
    ensures |s| == 13 + |img.contentType| + (|img.data| + 2) / 3 * 4
  {
    "data:" + img.contentType + ";base64," + Encode(img.data)
  }

  /** The first `c` in `a + [c] + b` is the one after `a` when `a` has none. */
  lemma IndexOfAfter(a: string, c: char, b: string)
    requires c !in a
    ensures IndexOf(a + [c] + b, c) == Some(|a|)
  {
    var s := a + [c] + b;
    assert s[|a|] == c;
    assert s[..|a|] == a;
  }

  /** `(a + rest).split(c)[0] == a` when `a` has no `c` and `rest` is empty or starts with one. */
  lemma BeforeFirstAt(a: string, c: char, rest: string)
    requires c !in a
    requires rest == [] || rest[0] == c
    ensures BeforeFirst(a + rest, c) == a
  {
    if rest == [] {
      assert a + rest == a;
    } else {
      assert a + rest == a + [c] + rest[1..];
      IndexOfAfter(a, c, rest[1..]);
    }
  }

  /** `(a + [c] + b + rest).split(c)[1] == b` when neither `a` nor `b` has a `c`. */
  lemma SecondFieldAt(a: string, c: char, b: string, rest: string)
    requires c !in a && c !in b
    requires rest == [] || rest[0] == c
    ensures SecondField(a + [c] + b + rest, c) == Some(b)
  {
    var s := a + [c] + b + rest;
    assert s == a + [c] + (b + rest);
    IndexOfAfter(a, c, b + rest);
    assert s[|a| + 1..] == b + rest;
    BeforeFirstAt(b, c, rest);
  }

  /** The first comma of `header + "," + payload` ends the header when the header has none. */
  lemma CommaSplit(header: string, payload: string)
    requires ',' !in header
    ensures var s := header + [','] + payload;
      IndexOf(s, ',') == Some(|header|) && s[..|header|] == header && s[|header| + 1..] == payload
  {
    IndexOfAfter(header, ',', payload);
  }

  /**
   * A data URI whose header's segment before the first ';' is
   * `scheme:mime[:more]` parses to the decoded payload with content type
   * `mime`, or to `None` when the payload is not valid base64.
   */
  lemma ParseFields(scheme: string, mime: string, more: string, params: string, payload: string)
    requires ',' !in scheme && ';' !in scheme && ':' !in scheme
    requires SafeContentType(mime)
    requires ',' !in more && ';' !in more && (more == [] || more[0] == ':')
    requires ',' !in params && (params == [] || params[0] == ';')
    ensures Parse(scheme + ":" + mime + more + params + "," + payload) ==
      match Decode(payload)
      case None => None
      case Some(bytes) => Some(Image(bytes, mime))
  {
    var segment := scheme + ":" + mime + more;
    var header := segment + params;
    var s := scheme + ":" + mime + more + params + "," + payload;
    assert s == header + [','] + payload;
    assert ',' !in header by {
      assert forall i :: 0 <= i < |header| ==> header[i] != ',' by {
        assert header == scheme + [':'] + mime + more + params;
      }
    }
    CommaSplit(header, payload);
    assert ';' !in segment by {
      assert segment == scheme + [':'] + mime + more;
    }
    BeforeFirstAt(segment, ';', params);
    assert segment == scheme + [':'] + mime + more;
    SecondFieldAt(scheme, ':', mime, more);
  }

  /** A header whose segment before the first ';' has no ':' makes the parse fail. */
  lemma ParseNoColon(segment: string, params: string, payload: string)
    requires ',' !in segment && ';' !in segment && ':' !in segment
    requires ',' !in params && (params == [] || params[0] == ';')
    ensures Parse(segment + params + "," + payload) == None
  {
    var header := segment + params;
    assert segment + params + "," + payload == header + [','] + payload;
    CommaSplit(header, payload);
    BeforeFirstAt(segment, ';', params);
  }

  /** A payload that is not valid base64 makes the parse fail, whatever the header. */
  lemma ParseBadPayload(header: string, payload: string)
    requires ',' !in header
    requires Decode(payload).None?
    ensures Parse(header + "," + payload) == None
  {
    assert header + "," + payload == header + [','] + payload;
    CommaSplit(header, payload);
  }

  /** Parsing a rendered attachment gives it back when its content type is safe. */
  lemma RenderParse(img: Image)
    requires SafeContentType(img.contentType)
    ensures Parse(Render(img)) == Some(img)
  {
    assert Render(img) == "data" + ":" + img.contentType + "" + ";base64" + "," + Encode(img.data);
    ParseFields("data", img.contentType, "", ";base64", Encode(img.data));
    DecodeEncode(img.data);
  }

  /** Re-rendering what was parsed parses to the same attachment. */
  lemma ParseRender(s: string)
    requires Parse(s).Some?
    ensures Parse(Render(Parse(s).value)) == Parse(s)
  {
    RenderParse(Parse(s).value);
  }
}
