/** The record shape of a stored bookmark and the schema that a create
    request body must satisfy (demos/src/types.ts). */
module Types {

  datatype Option<+T> = None | Some(value: T)

  /** A stored bookmark with its server-generated fields `id` and `createdAt`. */
  datatype Bookmark = Bookmark(
    id: string,
    url: string,
    title: string,
    tags: seq<string>,
    createdAt: string)

  /** A request body as the JSON body parser hands it over. A key missing
      from an object is a field the client did not send. */
  datatype Json =
    | JNull
    | JBool(b: bool)
    | JNumber(n: int)
    | JString(s: string)
    | JArray(items: seq<Json>)
    | JObject(members: map<string, Json>)

  /** What the create schema yields: the URL, the title when one was sent,
      and the tags, defaulted to the empty list. */
  datatype CreateInput = CreateInput(url: string, title: Option<string>, tags: seq<string>)

  /** The outcome of checking a body against the create schema. A rejection
      names the fields that failed their check; a body that is not an
      object at all fails as a whole and names no field. */
  datatype Validation = Accepted(input: CreateInput) | Rejected(fields: set<string>)

  /** The outcome of checking one field. */
  datatype Check<+T> = Pass(value: T) | Fail

  /** The values of a JSON array whose items are all strings. */
  function Strings(items: seq<Json>): (r: Option<seq<string>>)
    ensures r.Some? <==> forall k :: 0 <= k < |items| ==> items[k].JString?
    ensures r.Some? ==> |r.value| == |items|
    ensures r.Some? ==> forall k :: 0 <= k < |items| ==> items[k] == JString(r.value[k])
  {
    if items == [] then Some([])
    else if !items[0].JString? then None
    else match Strings(items[1..])
      case None => None
      case Some(rest) => Some([items[0].s] + rest)
  }

  /** A list of strings as a JSON array's items. */
  function Encoded(ss: seq<string>): (items: seq<Json>)
    ensures |items| == |ss|
    ensures forall k :: 0 <= k < |ss| ==> items[k] == JString(ss[k])
  {
    seq(|ss|, k requires 0 <= k < |ss| => JString(ss[k]))
  }

  /** `url`: required, a string, and a URL by the parser's judgement. */
  function UrlCheck(m: map<string, Json>, isValidUrl: string -> bool): (r: Check<string>)
    ensures r.Pass? ==> "url" in m && m["url"] == JString(r.value) && isValidUrl(r.value)
    ensures r.Fail? ==> "url" !in m || !m["url"].JString? || !isValidUrl(m["url"].s)
  {
    if "url" in m && m["url"].JString? && isValidUrl(m["url"].s) then Pass(m["url"].s) else Fail
  }

  /** `title`: optional; when sent, a string. */
  function TitleCheck(m: map<string, Json>): (r: Check<Option<string>>)
    ensures r.Fail? <==> "title" in m && !m["title"].JString?
    ensures r.Pass? ==> (r.value.None? <==> "title" !in m)
    ensures r.Pass? && r.value.Some? ==> m["title"] == JString(r.value.value)
  {
    if "title" !in m then Pass(None)
    else if m["title"].JString? then Pass(Some(m["title"].s))
    else Fail
  }

  /** `tags`: optional and defaulting to the empty list; when sent, an array of strings. */
  function TagsCheck(m: map<string, Json>): (r: Check<seq<string>>)
    ensures "tags" !in m ==> r == Pass([])
    ensures r.Fail? <==> "tags" in m && !(m["tags"].JArray? && forall k :: 0 <= k < |m["tags"].items| ==> m["tags"].items[k].JString?)
    ensures r.Pass? && "tags" in m ==> m["tags"] == JArray(Encoded(r.value))
  {
    if "tags" !in m then Pass([])
    else if !m["tags"].JArray? then Fail
    else match Strings(m["tags"].items)
      case Some(ss) =>
        assert m["tags"].items == Encoded(ss);
        Pass(ss)
      case None => Fail
  }

  /** The create schema (CreateBookmarkSchema.safeParse): the body must be
      an object whose `url`, `title` and `tags` each pass their check; every
      field that fails is reported. `isValidUrl` stands for the schema
      library's URL test. */
  function Validate(body: Json, isValidUrl: string -> bool): (r: Validation)
    ensures r.Accepted? ==> body.JObject? && isValidUrl(r.input.url)
    ensures r.Accepted? ==> "url" in body.members && body.members["url"] == JString(r.input.url)
    ensures r.Accepted? <==>
      && body.JObject?
      && "url" in body.members && body.members["url"].JString? && isValidUrl(body.members["url"].s)
      && ("title" in body.members ==> body.members["title"].JString?)
      && ("tags" in body.members ==> body.members["tags"].JArray? && Strings(body.members["tags"].items).Some?)
    ensures r.Rejected? ==> r.fields <= {"url", "title", "tags"}
    ensures r.Rejected? ==> (r.fields == {} <==> !body.JObject?)
    ensures body.JObject? && "url" !in body.members ==> r.Rejected? && "url" in r.fields
    ensures r.Rejected? && body.JObject? ==>
      var m := body.members;
      && ("url" in r.fields <==> !("url" in m && m["url"].JString? && isValidUrl(m["url"].s)))
      && ("title" in r.fields <==> "title" in m && !m["title"].JString?)
      && ("tags" in r.fields <==> "tags" in m && !(m["tags"].JArray? && Strings(m["tags"].items).Some?))
  {
    if !body.JObject? then Rejected({})
    else
      var m := body.members;
      var url, title, tags := UrlCheck(m, isValidUrl), TitleCheck(m), TagsCheck(m);
      if url.Pass? && title.Pass? && tags.Pass? then
        Accepted(CreateInput(url.value, title.value, tags.value))
      else
        Rejected((if url.Fail? then {"url"} else {})
               + (if title.Fail? then {"title"} else {})
               + (if tags.Fail? then {"tags"} else {}))
  }

  /** Keys outside the schema are ignored: adding one to an object body
      changes neither acceptance nor the input nor the failing fields. */
  lemma ExtraKeyIgnored(m: map<string, Json>, key: string, v: Json, isValidUrl: string -> bool)
    requires key !in {"url", "title", "tags"}
    ensures Validate(JObject(m[key := v]), isValidUrl) == Validate(JObject(m), isValidUrl)
  {
    var m' := m[key := v];
    assert UrlCheck(m', isValidUrl) == UrlCheck(m, isValidUrl);
    assert TitleCheck(m') == TitleCheck(m);
    assert TagsCheck(m') == TagsCheck(m);
  }

  /** A create request body that sends exactly the fields of `input`. */
  function Encode(input: CreateInput): (body: Json)
    ensures body.JObject? && "url" in body.members && "tags" in body.members
    ensures ("title" in body.members) == input.title.Some?
  {
    var fields := map["url" := JString(input.url), "tags" := JArray(Encoded(input.tags))];
    match input.title
    case None => JObject(fields)
    case Some(t) => JObject(fields["title" := JString(t)])
  }

  /** Every well-formed input is accepted, unchanged, from the body that sends it. */
  lemma EncodeAccepted(input: CreateInput, isValidUrl: string -> bool)
    requires isValidUrl(input.url)
    ensures Validate(Encode(input), isValidUrl) == Accepted(input)
  {
    var m := Encode(input).members;
    var ss := Strings(Encoded(input.tags));
    assert ss.Some? && ss.value == input.tags;
    assert TagsCheck(m) == Pass(input.tags);
  }

  /** What the schema accepts is drawn from the body: the URL and the title
      are the strings sent, the tags are the strings sent or empty when none
      were sent; so re-encoding the input loses nothing the schema reads. */
  lemma AcceptedFromBody(body: Json, isValidUrl: string -> bool)
    requires Validate(body, isValidUrl).Accepted?
    ensures var input := Validate(body, isValidUrl).input;
      && (input.title.None? <==> "title" !in body.members)
      && (input.title.Some? ==> body.members["title"] == JString(input.title.value))
      && ("tags" in body.members ==> body.members["tags"] == JArray(Encoded(input.tags)))
      && ("tags" !in body.members ==> input.tags == [])
      && Validate(Encode(input), isValidUrl) == Accepted(input)
  {
    var input := Validate(body, isValidUrl).input;
    var m := body.members;
    if "tags" in m {
      var items := m["tags"].items;
      assert Strings(items) == Some(input.tags);
      assert items == Encoded(input.tags);
    }
    EncodeAccepted(input, isValidUrl);
  }
}
