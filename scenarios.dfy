/** The request sequences of demos/tests/bookmarks.test.ts, each on a fresh
    router over `[]`, with their expected answers derived from the
    handlers' contracts alone. The URL test and the hostname function are
    left open except for the URLs the tests send. */
module Scenarios {
  import opened Types
  import opened Bookmarks

  /** POST with url, title and tags answers the record with those fields. */
  method CreateWithAllFields(isValidUrl: string -> bool, hostname: string -> string)
    requires isValidUrl("https://example.com")
  {
    var router := new BookmarkRouter([]);
    var input := CreateInput("https://example.com", Some("Example"), ["test"]);
    EncodeAccepted(input, isValidUrl);
    var r := router.Create(Encode(input), "id-1", "t1", isValidUrl, hostname);
    assert r == Ok(Bookmark("id-1", "https://example.com", "Example", ["test"], "t1"));
  }

  /** POST with "not-a-url" is invalid input and stores nothing. */
  method CreateWithBadUrl(isValidUrl: string -> bool, hostname: string -> string)
    requires !isValidUrl("not-a-url")
  {
    var router := new BookmarkRouter([]);
    var body := JObject(map["url" := JString("not-a-url")]);
    assert UrlCheck(body.members, isValidUrl).Fail?;
    var r := router.Create(body, "id-1", "t1", isValidUrl, hostname);
    assert r.Invalid? && "url" in r.fields;
    assert router.bookmarks == [];
  }

  /** POST with a URL and no title takes the hostname as the title. */
  method CreateWithoutTitle(isValidUrl: string -> bool, hostname: string -> string)
    requires isValidUrl("https://github.com/features/copilot")
    requires hostname("https://github.com/features/copilot") == "github.com"
  {
    var router := new BookmarkRouter([]);
    var body := JObject(map["url" := JString("https://github.com/features/copilot")]);
    AcceptedFromBody(body, isValidUrl);
    var r := router.Create(body, "id-1", "t1", isValidUrl, hostname);
    assert r.Ok? && r.value.title == "github.com" && r.value.tags == [];
  }

  /** POST with a title and no URL is invalid input. */
  method CreateWithoutUrl(isValidUrl: string -> bool, hostname: string -> string)
  {
    var router := new BookmarkRouter([]);
    var body := JObject(map["title" := JString("No URL")]);
    var r := router.Create(body, "id-1", "t1", isValidUrl, hostname);
    assert r.Invalid? && router.bookmarks == [];
  }

  /** GET on a fresh store answers the empty list. */
  method ListEmpty()
  {
    var router := new BookmarkRouter([]);
    assert router.List(None) == [];
  }

  /** GET after one POST answers one bookmark. */
  method ListAfterCreate(isValidUrl: string -> bool, hostname: string -> string)
    requires isValidUrl("https://example.com")
  {
    var router := new BookmarkRouter([]);
    var body := JObject(map["url" := JString("https://example.com")]);
    var created := router.Create(body, "id-1", "t1", isValidUrl, hostname);
    assert created.Ok? && router.List(None) == [created.value];
  }

  /** GET `?tag=ai` after bookmarks tagged "ai" and "web" answers the first only. */
  method ListByTag(isValidUrl: string -> bool, hostname: string -> string)
    requires isValidUrl("https://a.com") && isValidUrl("https://b.com")
  {
    var router := new BookmarkRouter([]);
    var ai := CreateInput("https://a.com", None, ["ai"]);
    var web := CreateInput("https://b.com", None, ["web"]);
    EncodeAccepted(ai, isValidUrl);
    EncodeAccepted(web, isValidUrl);
    var a := router.Create(Encode(ai), "id-a", "t1", isValidUrl, hostname);
    assert a.Ok? && a.value.tags == ["ai"];
    var b := router.Create(Encode(web), "id-b", "t2", isValidUrl, hostname);
    assert b.Ok? && b.value.tags == ["web"];
    assert router.bookmarks == [a.value, b.value];
    var listed := router.List(Some("ai"));
    TagFilterFirstOfTwo(a.value, b.value, "ai", listed);
    assert listed == [a.value];
  }

  /** The only tag filter of two bookmarks of which only the first carries
      the tag is the first alone. */
  lemma TagFilterFirstOfTwo(x: Bookmark, y: Bookmark, tag: string, r: seq<Bookmark>)
    requires tag in x.tags && tag !in y.tags
    requires IsTagFilter([x, y], tag, r)
    ensures r == [x]
  {
    assert TaggedPositions([x, y], tag, [x], [0]);
    TagFilterUnique([x, y], tag, r, [x]);
  }

  /** DELETE of a created bookmark answers it; DELETE of an id never issued
      finds nothing. This sequence goes beyond the tests: it adds a second
      DELETE and a GET of the deleted id, and the last DELETE runs on the
      emptied router instead of a fresh one. */
  method DeleteCreated(isValidUrl: string -> bool, hostname: string -> string)
    requires isValidUrl("https://example.com")
  {
    var router := new BookmarkRouter([]);
    var body := JObject(map["url" := JString("https://example.com")]);
    var created := router.Create(body, "id-1", "t1", isValidUrl, hostname);
    assert created.Ok? && router.bookmarks == [created.value];

    var d1 := router.Delete("id-1");
    assert d1 == created && router.bookmarks == [];
    var d2 := router.Delete("id-1");
    assert d2 == NotFound;
    assert router.Get("id-1") == NotFound;
    var d3 := router.Delete("non-existent-id");
    assert d3 == NotFound;
  }
}
