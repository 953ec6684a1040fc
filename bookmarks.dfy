/** The bookmark router (demos/src/routes/bookmarks.ts): one shared, ordered
    list of bookmarks and the four request handlers that read and change it. */
module Bookmarks {
  import opened Types

  /** What a handler answers, without the HTTP status and JSON framing:
      the value (200/201), "Bookmark not found" (404), or "Invalid input"
      with the fields that failed (400). */
  datatype Response<+T> = Ok(value: T) | NotFound | Invalid(fields: set<string>)

  // ---------------------------------------------------------------------
  // Specification of the store's contents
  // ---------------------------------------------------------------------

  /** Some bookmark in `bs` has identifier `id`. */
  predicate HasId(bs: seq<Bookmark>, id: string)
  {
    exists b | b in bs :: b.id == id
  }

  /** Position `i` holds the first bookmark of `bs` with identifier `id`. */
  ghost predicate FirstWithId(bs: seq<Bookmark>, id: string, i: int)
  {
    0 <= i < |bs| && bs[i].id == id && forall j :: 0 <= j < i ==> bs[j].id != id
  }

  /** No two bookmarks of `bs` share an identifier. */
  ghost predicate UniqueIds(bs: seq<Bookmark>)
  {
    forall i, j :: 0 <= i < j < |bs| ==> bs[i].id != bs[j].id
  }

  /** `idx` lists, in increasing order, exactly the positions of `bs` whose
      bookmark carries `tag`, and `r` holds the bookmarks at those positions. */
  ghost predicate TaggedPositions(bs: seq<Bookmark>, tag: string, r: seq<Bookmark>, idx: seq<int>)
  {
    && |idx| == |r|
    && (forall k :: 0 <= k < |idx| ==> 0 <= idx[k] < |bs| && bs[idx[k]] == r[k] && tag in r[k].tags)
    && (forall k, l :: 0 <= k < l < |idx| ==> idx[k] < idx[l])
    && (forall i :: 0 <= i < |bs| && tag in bs[i].tags ==> i in idx)
  }

  /** `r` is `bs` with every bookmark that does not carry `tag` dropped:
      the tagged bookmarks, each once, in store order. */
  ghost predicate IsTagFilter(bs: seq<Bookmark>, tag: string, r: seq<Bookmark>)
  {
    exists idx :: TaggedPositions(bs, tag, r, idx)
  }

  /** Whether a `?tag=` value asks for filtering: it must be truthy, so
      neither absent nor the empty string. */
  predicate IsFilterTag(tag: Option<string>)
  {
    tag.Some? && tag.value != ""
  }

  /** `bookmarks.filter((b) => b.tags.includes(tag))`. */
  function FilterByTag(bs: seq<Bookmark>, tag: string): (r: seq<Bookmark>)
    ensures |r| <= |bs|
    ensures forall b :: b in r ==> b in bs && tag in b.tags
  {
    if bs == [] then []
    else
      var init := FilterByTag(bs[..|bs| - 1], tag);
      if tag in bs[|bs| - 1].tags then init + [bs[|bs| - 1]] else init
  }

  /** `bookmarks.findIndex((b) => b.id === id)`: the position of the first
      bookmark with identifier `id`, or -1 when there is none. */
  function FirstIndex(bs: seq<Bookmark>, id: string): (i: int)
    ensures -1 <= i < |bs|
    ensures 0 <= i ==> FirstWithId(bs, id, i)
    ensures i < 0 <==> !HasId(bs, id)
  {
    if bs == [] then -1
    else if bs[0].id == id then 0
    else
      var k := FirstIndex(bs[1..], id);
      assert bs == [bs[0]] + bs[1..];
      if k < 0 then -1 else k + 1
  }

  /** `bs.splice(i, 1)`: the store without position `i`. */
  function RemoveAt(bs: seq<Bookmark>, i: int): (r: seq<Bookmark>)
    requires 0 <= i < |bs|
    ensures |r| == |bs| - 1
    ensures forall j :: 0 <= j < i ==> r[j] == bs[j]
    ensures forall j :: i <= j < |r| ==> r[j] == bs[j + 1]
  {
    bs[..i] + bs[i + 1..]
  }

  // ---------------------------------------------------------------------
  // The router and its store
  // ---------------------------------------------------------------------

  /** `createBookmarkRouter(store)`: the handlers share the one list
      `bookmarks`, which POST appends to and DELETE splices. */
  class BookmarkRouter {
    var bookmarks: seq<Bookmark>

    /** A router over the given store; the tests start from `[]`. */
    constructor (store: seq<Bookmark>)
      ensures bookmarks == store
    {
      bookmarks := store;
    }

    /** GET `/` with an optional `?tag=`: the whole store when the tag is
        absent or empty, otherwise the bookmarks carrying exactly that tag,
        in store order. */
    function List(tag: Option<string>): (r: seq<Bookmark>)
      reads this
      ensures !IsFilterTag(tag) ==> r == bookmarks
      ensures IsFilterTag(tag) ==> IsTagFilter(bookmarks, tag.value, r)
    {
      if IsFilterTag(tag) then
        FilterSelects(bookmarks, tag.value);
        FilterByTag(bookmarks, tag.value)
      else bookmarks
    }

    /** GET `/:id`: the first bookmark with that identifier, or not found. */
    function Get(id: string): (r: Response<Bookmark>)
      reads this
      ensures r.Ok? || r.NotFound?
      ensures r.NotFound? <==> !HasId(bookmarks, id)
      ensures r.Ok? ==> exists i :: FirstWithId(bookmarks, id, i) && bookmarks[i] == r.value
    {
      var i := FirstIndex(bookmarks, id);
      if i < 0 then NotFound else Ok(bookmarks[i])
    }

    /** POST `/`: validate the body; on failure answer Invalid and leave
        the store alone; otherwise build the record (title from the body,
        or the URL's hostname when none was sent) and append it. The
        identifier, the timestamp, the URL test and the hostname come from
        outside. */
    method Create(body: Json, id: string, createdAt: string,
                  isValidUrl: string -> bool, hostname: string -> string)
      returns (r: Response<Bookmark>)
      modifies this
      ensures Validate(body, isValidUrl).Rejected? ==>
        r == Invalid(Validate(body, isValidUrl).fields) && bookmarks == old(bookmarks)
      ensures Validate(body, isValidUrl).Accepted? ==>
        var input := Validate(body, isValidUrl).input;
        && r == Ok(Bookmark(id, input.url, TitleFor(input, hostname), input.tags, createdAt))
        && bookmarks == old(bookmarks) + [r.value]
      ensures r.Ok? && UniqueIds(old(bookmarks)) && !HasId(old(bookmarks), id) ==>
        UniqueIds(bookmarks) && Get(id) == r
    {
      var result := Validate(body, isValidUrl);
      if result.Rejected? {
        return Invalid(result.fields);
      }
      var input := result.input;
      var bookmark := Bookmark(id, input.url, TitleFor(input, hostname), input.tags, createdAt);
      AppendFresh(bookmarks, bookmark);
      bookmarks := bookmarks + [bookmark];
      r := Ok(bookmark);
    }

    /** `bookmarks.findIndex(...)` as the loop it runs. */
    method FindIndex(id: string) returns (index: int)
      ensures index == FirstIndex(bookmarks, id)
    {
      index := 0;
      while index < |bookmarks|
        invariant 0 <= index <= |bookmarks|
        invariant forall j :: 0 <= j < index ==> bookmarks[j].id != id
      {
        if bookmarks[index].id == id {
          return;
        }
        index := index + 1;
      }
      index := -1;
    }

    /** DELETE `/:id`: remove the first bookmark with that identifier and
        answer it, or answer not found and leave the store alone. */
    method Delete(id: string) returns (r: Response<Bookmark>)
      modifies this
      ensures var i := FirstIndex(old(bookmarks), id);
        if i < 0 then r == NotFound && bookmarks == old(bookmarks)
        else r == Ok(old(bookmarks)[i]) && bookmarks == RemoveAt(old(bookmarks), i)
      ensures UniqueIds(old(bookmarks)) ==> UniqueIds(bookmarks) && !HasId(bookmarks, id)
    {
      var index := FindIndex(id);
      if index == -1 {
        return NotFound;
      }
      var deleted := bookmarks[index];
      RemoveFirstUnique(bookmarks, id);
      bookmarks := RemoveAt(bookmarks, index);
      r := Ok(deleted);
    }
  }

  /** The title a new bookmark gets: the title sent, otherwise the URL's
      hostname. An empty title is a title sent, so it is kept: `??` only
      replaces a missing title. */
  function TitleFor(input: CreateInput, hostname: string -> string): (t: string)
    ensures input.title.Some? ==> t == input.title.value
    ensures input.title.None? ==> t == hostname(input.url)
  {
    match input.title
    case Some(title) => title
    case None => hostname(input.url)
  }

  // ---------------------------------------------------------------------
  // Properties
  // ---------------------------------------------------------------------

  /** Filtering selects exactly the tagged bookmarks, in store order. */
  lemma {:induction false} FilterSelects(bs: seq<Bookmark>, tag: string)
    ensures IsTagFilter(bs, tag, FilterByTag(bs, tag))
  {
    if bs == [] {
      assert TaggedPositions(bs, tag, [], []);
    } else {
      var n := |bs| - 1;
      var init := bs[..n];
      FilterSelects(init, tag);
      var r0 := FilterByTag(init, tag);
      var idx0 :| TaggedPositions(init, tag, r0, idx0);
      if tag in bs[n].tags {
        ExtendPositions(bs, tag, r0, idx0);
        assert TaggedPositions(bs, tag, r0 + [bs[n]], idx0 + [n]);
      } else {
        SkipPositions(bs, tag, r0, idx0);
      }
    }
  }

  /** One step of FilterSelects: an untagged last bookmark adds no position. */
  lemma SkipPositions(bs: seq<Bookmark>, tag: string, r0: seq<Bookmark>, idx0: seq<int>)
    requires |bs| > 0 && tag !in bs[|bs| - 1].tags
    requires TaggedPositions(bs[..|bs| - 1], tag, r0, idx0)
    ensures TaggedPositions(bs, tag, r0, idx0)
  {
    var n := |bs| - 1;
    forall k | 0 <= k < |idx0|
      ensures 0 <= idx0[k] < |bs| && bs[idx0[k]] == r0[k]
    {
      assert bs[..n][idx0[k]] == bs[idx0[k]];
    }
    forall i | 0 <= i < |bs| && tag in bs[i].tags
      ensures i in idx0
    {
      assert i < n && bs[..n][i] == bs[i];
    }
  }

  /** One step of FilterSelects: a tagged last bookmark extends the
      positions of the tagged bookmarks before it. */
  lemma ExtendPositions(bs: seq<Bookmark>, tag: string, r0: seq<Bookmark>, idx0: seq<int>)
    requires |bs| > 0 && tag in bs[|bs| - 1].tags
    requires TaggedPositions(bs[..|bs| - 1], tag, r0, idx0)
    ensures TaggedPositions(bs, tag, r0 + [bs[|bs| - 1]], idx0 + [|bs| - 1])
  {
    var n := |bs| - 1;
    var r, idx := r0 + [bs[n]], idx0 + [n];
    forall k | 0 <= k < |idx|
      ensures 0 <= idx[k] < |bs| && bs[idx[k]] == r[k] && tag in r[k].tags
    {
      if k < |idx0| {
        assert bs[..n][idx0[k]] == bs[idx0[k]];
      }
    }
    forall i | 0 <= i < |bs| && tag in bs[i].tags
      ensures i in idx
    {
      if i < n {
        assert bs[..n][i] == bs[i];
        assert i in idx0;
      } else {
        assert idx[|idx0|] == i;
      }
    }
  }

  /** Two strictly increasing lists of positions with the same elements are equal. */
  lemma {:induction false} IncreasingUnique(a: seq<int>, b: seq<int>)
    requires forall k, l :: 0 <= k < l < |a| ==> a[k] < a[l]
    requires forall k, l :: 0 <= k < l < |b| ==> b[k] < b[l]
    requires forall x :: x in a <==> x in b
    ensures a == b
  {
    assert |a| > 0 ==> a[0] in a;
    assert |b| > 0 ==> b[0] in b;
    if a == [] || b == [] {
    } else {
      assert a[0] == b[0] by {
        assert a[0] in b;
        assert b[0] in a;
      }
      forall x
        ensures x in a[1..] <==> x in b[1..]
      {
        if x in a[1..] {
          assert x in b && x != b[0];
        }
        if x in b[1..] {
          assert x in a && x != a[0];
        }
      }
      IncreasingUnique(a[1..], b[1..]);
      assert a == [a[0]] + a[1..] && b == [b[0]] + b[1..];
    }
  }

  /** The positions of a tag filter are exactly the tagged positions. */
  lemma PositionsAreTagged(bs: seq<Bookmark>, tag: string, r: seq<Bookmark>, idx: seq<int>, x: int)
    requires TaggedPositions(bs, tag, r, idx)
    ensures x in idx <==> 0 <= x < |bs| && tag in bs[x].tags
  {
    if x in idx {
      var k :| 0 <= k < |idx| && idx[k] == x;
      assert bs[x] == r[k];
    }
  }

  /** The tag filter is a full specification: it allows one result only,
      so the filter's result is the only one it could be. */
  lemma TagFilterUnique(bs: seq<Bookmark>, tag: string, r1: seq<Bookmark>, r2: seq<Bookmark>)
    requires IsTagFilter(bs, tag, r1) && IsTagFilter(bs, tag, r2)
    ensures r1 == r2
  {
    var idx1 :| TaggedPositions(bs, tag, r1, idx1);
    var idx2 :| TaggedPositions(bs, tag, r2, idx2);
    forall x
      ensures x in idx1 <==> x in idx2
    {
      PositionsAreTagged(bs, tag, r1, idx1, x);
      PositionsAreTagged(bs, tag, r2, idx2, x);
    }
    IncreasingUnique(idx1, idx2);
    assert |r1| == |r2|;
    forall k | 0 <= k < |r1|
      ensures r1[k] == r2[k]
    {
      assert r1[k] == bs[idx1[k]];
    }
  }

  /** A bookmark is listed under `tag` exactly when it is stored and
      carries that tag (exact, case-sensitive match). */
  lemma FilterMembership(bs: seq<Bookmark>, tag: string, b: Bookmark)
    ensures b in FilterByTag(bs, tag) <==> b in bs && tag in b.tags
  {
    FilterSelects(bs, tag);
    var r := FilterByTag(bs, tag);
    var idx :| TaggedPositions(bs, tag, r, idx);
    if b in bs && tag in b.tags {
      var i :| 0 <= i < |bs| && bs[i] == b;
      var k :| 0 <= k < |idx| && idx[k] == i;
      assert r[k] == b;
    }
  }

  /** Appending a bookmark with a fresh identifier keeps identifiers unique,
      and a lookup of that identifier then finds the new bookmark. */
  lemma AppendFresh(bs: seq<Bookmark>, b: Bookmark)
    ensures UniqueIds(bs) && !HasId(bs, b.id) ==> UniqueIds(bs + [b])
    ensures !HasId(bs, b.id) ==> FirstIndex(bs + [b], b.id) == |bs|
  {
    var s := bs + [b];
    if !HasId(bs, b.id) {
      forall i, j | 0 <= i < j < |s| && UniqueIds(bs)
        ensures s[i].id != s[j].id
      {
        if j == |bs| {
          assert s[i] in bs;
        }
      }
      assert FirstWithId(s, b.id, |bs|) by {
        forall j | 0 <= j < |bs|
          ensures s[j].id != b.id
        {
          assert s[j] in bs;
        }
      }
    }
  }

  /** Appending never changes which bookmark a lookup of a stored
      identifier finds. */
  lemma AppendKeepsLookup(bs: seq<Bookmark>, b: Bookmark, id: string)
    requires HasId(bs, id)
    ensures FirstIndex(bs + [b], id) == FirstIndex(bs, id)
  {
    var i := FirstIndex(bs, id);
    assert FirstWithId(bs + [b], id, i);
  }

  /** Deleting from a store with unique identifiers removes the only
      bookmark with that identifier, so it can no longer be found, and the
      identifiers stay unique. */
  lemma RemoveFirstUnique(bs: seq<Bookmark>, id: string)
    requires HasId(bs, id)
    ensures var i := FirstIndex(bs, id);
      0 <= i && (UniqueIds(bs) ==> UniqueIds(RemoveAt(bs, i)) && !HasId(RemoveAt(bs, i), id))
  {
    var i := FirstIndex(bs, id);
    var s := RemoveAt(bs, i);
    if UniqueIds(bs) {
      forall b | b in s
        ensures b.id != id
      {
        var j :| 0 <= j < |s| && s[j] == b;
        if j >= i {
          assert s[j] == bs[j + 1];
        }
      }
      forall k, l | 0 <= k < l < |s|
        ensures s[k].id != s[l].id
      {
        var k' := if k < i then k else k + 1;
        var l' := if l < i then l else l + 1;
        assert s[k] == bs[k'] && s[l] == bs[l'];
      }
    }
  }

  /** Without unique identifiers, deleting removes only the first match:
      any later bookmark with the same identifier stays in the store, so the
      identifier can still be found. */
  lemma RemoveFirstOnly(bs: seq<Bookmark>, id: string, j: int)
    requires 0 <= j < |bs| && bs[j].id == id
    requires FirstIndex(bs, id) < j
    ensures var s := RemoveAt(bs, FirstIndex(bs, id));
      HasId(s, id) && bs[j] in s
  {
    var i := FirstIndex(bs, id);
    var s := RemoveAt(bs, i);
    assert s[j - 1] == bs[j];
  }
}
