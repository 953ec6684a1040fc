# Bookmark store

A Dafny model of the bookmark API's router (`createBookmarkRouter` in
`demos/src/routes/bookmarks.ts`). The router keeps one ordered, in-memory list of
bookmarks. Four request handlers work on it:

- **list**: `GET /`, with an optional `?tag=` filter;
- **get**: `GET /:id`;
- **create**: `POST /`, which validates the body with the create schema of `demos/src/types.ts`;
- **delete**: `DELETE /:id`.

Files:

- `types.dfy` (module `Types`) holds the `Bookmark` record and the JSON request body.
  It also holds the create schema as a function `Validate`, with a round trip to an
  encoding of its output.
- `bookmarks.dfy` (module `Bookmarks`) holds the store specification, the class
  `BookmarkRouter` and the lemmas about the store.
  - The store specification is a set of functions and predicates over `seq<Bookmark>`:
    tag filter, first index of an id, removal at a position, id uniqueness.
  - The class has one field, `bookmarks: seq<Bookmark>`. `List` and `Get` are
    functions that read it. `Create` appends to it and `Delete` splices it; both are
    methods.
  - `Delete` first runs `FindIndex`, the `findIndex` loop, which is proved against
    `FirstIndex`.
- `scenarios.dfy` (module `Scenarios`) replays the request sequences of
  `demos/tests/bookmarks.test.ts` on a fresh router, with the bodies the tests send. It derives the expected answers
  from the handlers' contracts. `DeleteCreated` extends the tests: it joins the two DELETE tests into one
  sequence, adds a second DELETE and a GET of the deleted id, and sends the DELETE of a never-issued id to the
  emptied router rather than to a fresh one.

Handler answers are the datatype `Response`:

| constructor | meaning | HTTP status |
|---|---|---|
| `Ok(value)` | success | 200 or 201 |
| `NotFound` | "Bookmark not found" | 404 |
| `Invalid(fields)` | "Invalid input", with the names of the fields that failed | 400 |

Some inputs come from outside the router and are parameters of `Create`:

- `id` (from `randomUUID()`);
- `createdAt` (the ISO timestamp);
- `isValidUrl`, the schema library's URL test;
- `hostname`, the `URL` parser's hostname.

Behaviour that follows the code:

- An empty `title` is kept as sent. The `??` at `demos/src/routes/bookmarks.ts:69`
  replaces only a missing title. Only a missing title becomes the URL's hostname.
- There is no internal-error (500) path. `hostname` is a total function in the model.
  At `demos/src/routes/bookmarks.ts:69`, `new URL(...)` has no guard, so a URL it could
  not parse would throw; Express would then answer 500 and the store would stay
  unchanged. The model leaves this path out because the schema's URL test has already
  parsed the same string before line 69 runs. That relies on the two parsers agreeing.
- Ids are unique only if each supplied id is fresh. Nothing in the router checks this.
  So uniqueness is stated conditionally: if the store had unique ids and the new id is
  fresh, the ids stay unique.

## Model

| member | source | states |
|---|---|---|
| `Types.Strings` | demos/src/types.ts:7 | `tags` items: accepted exactly when every item is a string, and then the strings are the items, in order |
| `Types.UrlCheck` | demos/src/types.ts:5 | `url` passes only when sent as a string that the URL test accepts, and then yields that string; otherwise it fails |
| `Types.TitleCheck` | demos/src/types.ts:6 | `title` fails exactly when it is sent and is not a string; a pass yields no title exactly when none was sent, else the string sent |
| `Types.TagsCheck` | demos/src/types.ts:7 | `tags` yields `[]` when not sent; fails exactly when it is sent and is not an array of strings; a pass of a sent array yields exactly its strings |
| `Types.Validate` | demos/src/types.ts:4-8 | a body is accepted exactly when it is an object whose `url` is a string passing the URL test, whose `title`, if sent, is a string and whose `tags`, if sent, is an array of strings; accepted input has a valid URL taken from the body's `url` string; a rejection names only fields of the schema, names none exactly when the body is not an object, and a missing `url` is always rejected naming `url`; for an object body, a rejection names `url` exactly when `url` is missing, not a string or not a URL, `title` exactly when it is sent and not a string, and `tags` exactly when it is sent and not an array of strings |
| `Types.ExtraKeyIgnored` | demos/src/types.ts:4-8 | a key outside `url`, `title` and `tags` changes nothing about the outcome of validation |
| `Types.EncodeAccepted` | demos/src/types.ts:4-8 | every input with a valid URL is accepted, unchanged, from the body that sends it (title only when present, tags always) |
| `Types.AcceptedFromBody` | demos/src/types.ts:4-8 | an accepted input's title is absent exactly when the body sends none and otherwise is the string sent; its tags are the strings sent, or `[]` when none were sent; re-encoding it is accepted as the same input |
| `Bookmarks.FilterByTag` | demos/src/routes/bookmarks.ts:25 | `filter` by tag: never longer than the store, and everything it returns is stored and carries the tag |
| `Bookmarks.TitleFor` | demos/src/routes/bookmarks.ts:69 | the `??` default: the title sent when there is one (an empty title stays empty), otherwise the URL's hostname |
| `Bookmarks.FirstIndex` | demos/src/routes/bookmarks.ts:83 | `findIndex` by id: -1 exactly when no bookmark has the id, otherwise a position holding the id with no earlier position holding it |
| `Bookmarks.RemoveAt` | demos/src/routes/bookmarks.ts:90 | `splice(i, 1)`: one entry shorter, entries before `i` unchanged and entries after `i` moved down by one, in order |
| `Bookmarks.BookmarkRouter.constructor` | demos/src/routes/bookmarks.ts:13-15 | the router's store is the store it is given (the tests give `[]`) |
| `Bookmarks.BookmarkRouter.List` | demos/src/routes/bookmarks.ts:21-31 | with no tag or the empty tag (`IsFilterTag`, the truthiness test of `if (tag)`), the whole store in order; with a non-empty tag, exactly the stored bookmarks carrying that tag, in store order |
| `Bookmarks.BookmarkRouter.Get` | demos/src/routes/bookmarks.ts:37-46 | never invalid; not found exactly when no stored bookmark has the id; otherwise the bookmark at the first position holding the id |
| `Bookmarks.BookmarkRouter.Create` | demos/src/routes/bookmarks.ts:55-76 | a rejected body answers Invalid with the failing fields and leaves the store unchanged; an accepted body answers the new record (given id, the body's url and tags, title as sent or else the hostname, given timestamp) and appends exactly it; with a fresh id, ids stay unique and a get of the id finds the new record |
| `Bookmarks.BookmarkRouter.FindIndex` | demos/src/routes/bookmarks.ts:83 | the scanning loop returns exactly `FirstIndex` of the store |
| `Bookmarks.BookmarkRouter.Delete` | demos/src/routes/bookmarks.ts:82-92 | with no match, NotFound and the store unchanged; otherwise answers the first matching bookmark and the store loses exactly that position, the rest in order; with unique ids, ids stay unique and the id is gone |
| `Bookmarks.FilterSelects` | demos/src/routes/bookmarks.ts:24-26 | the filter keeps exactly the positions whose tags contain the tag (exact match), each once, in increasing order |
| `Bookmarks.TagFilterUnique` | demos/src/routes/bookmarks.ts:25 | the tag-filter description admits only one result, so it fully specifies the list answer |
| `Bookmarks.FilterMembership` | demos/src/routes/bookmarks.ts:25 | a bookmark is listed under a tag exactly when it is stored and its tags contain that tag |
| `Bookmarks.AppendFresh` | demos/src/routes/bookmarks.ts:67-74 | appending a record with a fresh id makes the first position with that id the new last one, and keeps ids unique when they were unique before |
| `Bookmarks.AppendKeepsLookup` | demos/src/routes/bookmarks.ts:74 | appending never changes which position a lookup of an already stored id finds |
| `Bookmarks.RemoveFirstUnique` | demos/src/routes/bookmarks.ts:83-90 | when the id is present, its first position exists; in a store with unique ids, removing that position leaves ids unique and the id no longer present |
| `Bookmarks.RemoveFirstOnly` | demos/src/routes/bookmarks.ts:83-90 | with duplicate ids, delete removes only the first match and a later bookmark with the same id stays findable |

## Left out

- HTTP framing is not modelled: `Router`, reading `req.query`/`req.params`/`req.body`,
  status codes and JSON serialisation. Handlers return `Response` values instead.
- The schema library's URL test (`z.string().url()`) is the parameter `isValidUrl`.
  Its rules are not modelled.
- The error `details` (`flatten().fieldErrors`) are reduced to the set of failing field
  names. Messages are not modelled. A body that is not an object fails as a whole with
  no field named.
- `new URL(url).hostname` is the parameter `hostname`. URL parsing is not modelled.
  Nor is the 500 answer that would follow if it threw on a URL the schema accepted.
- `randomUUID()` is the parameter `id` and `new Date().toISOString()` is the parameter
  `createdAt`. They are nondeterministic, so they are inputs.
- The module-level default store `defaultBookmarks` and the router `bookmarkRouter` are
  left out. So are the server in `demos/src/server.ts` (port, health endpoint,
  `listen`). They are wiring and I/O.
- Bookmarks.BookmarkRouter.constructor: the source router shares the caller's array,
  and the model copies it. Changes the caller makes to that array later are not seen.
- Bookmarks.BookmarkRouter.List: `?tag=` is modelled as absent or one string. Express
  can also parse it into an array or an object (`?tag=a&tag=b`). Such a value is
  truthy, and `includes` never matches it.
- JSON numbers are integers in the model. The schema rejects every number in every
  field, so fractions change nothing.
