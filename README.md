# Image store: connection query and like toggle

A model of the logic in the GraphQL image server's `index.js`: an in-memory,
ordered array of image records (seeded with two records at start-up) behind
two resolvers.

- `Query.images` presents the whole collection as a *connection*: one edge
  `{cursor, node}` per record, with the record's id as cursor; `nodes`, the
  collection itself; and `pageInfo`, whose `startCursor`/`endCursor` are the
  first and last ids (JavaScript `|| null` turns a missing record or an empty
  id into null) and whose `hasNextPage`/`hasPreviousPage` are always false.
- `Mutation.likeImage` finds the first record whose id equals
  `input.imageId`, throws "Image not found" when there is none, and
  otherwise negates `liked` and moves `likesCount` by +1 (now liked) or -1
  (now unliked), with no floor, returning the input's `clientMutationId`
  and the updated record.

Modules:

- `Wrappers` (wrappers.dfy): `Option` (null) and `Result` (thrown error).
- `Images` (images.dfy): the `Image` record, the sample `Seed`, and `Ids`.
- `Query` (query.dfy): the connection, as pure functions and lemmas.
- `Mutation` (mutation.dfy): `likeImage` on values — collection in,
  response and new collection out — with its lemmas.
- `Service` (service.dfy): the class `ImageStore`, whose constant `images`
  array field is the server's module-level array. Its `LikeImage` updates one
  element in place. Its `modifies` clause and its `ensures` tie the new
  array contents to `Mutation.LikeImage`.

The JavaScript `throw` becomes a `Failure(IMAGE_NOT_FOUND)` result. The
array's `find` becomes `FindIndex`. It returns the position of the match
instead of the object, because Dafny writes the updated record back into the
array by position.

## Model

| member | source | states |
|---|---|---|
| `Images.Seed` | index.js:57-80 | the two sample records, with distinct ids; the four clock timestamps are parameters |
| `Query.NullIfEmpty` | index.js:93-94 | `id \|\| null` is null exactly when the id is the empty string, and the id itself otherwise |
| `Query.EdgesOf` | index.js:87-90 | `images.map` yields one edge per record, in order, each with the record as node and the record's id as cursor |
| `Query.ImagesConnection` | index.js:85-98 | one edge per record in collection order, each edge's cursor equal to its node's id and its node the record; `nodes` is exactly the collection; `startCursor` is present iff there is a first edge with a non-empty cursor, and then equals it; likewise `endCursor` with the last edge; `hasNextPage` and `hasPreviousPage` are false for every collection |
| `Query.EdgesOfRecover` | index.js:87-91 | reading the nodes back off the edges gives the collection, and reading the cursors gives its ids in order |
| `Query.EdgesAgreeWithNodes` | index.js:87-91 | the connection's edges carry the same records, in the same order, as its `nodes`, and the edge cursors are the collection's ids |
| `Query.SingleRecordPage` | index.js:93-94 | for a one-record collection `startCursor` equals `endCursor` |
| `Query.PageInfoDependsOnIds` | index.js:92-97 | the page information depends only on the records' ids: two collections with the same ids get the same `pageInfo` |
| `Mutation.FirstIndex` | index.js:103 | `find` by id: None exactly when no record has the id; otherwise a position holding the id with no earlier record holding it |
| `Mutation.Toggle` | index.js:106-107 | `liked` is negated; `likesCount` goes up by one when the record becomes liked and down by one when it becomes unliked, with no floor; all other fields are unchanged |
| `Mutation.ToggleTwice` | index.js:106-107 | toggling a record twice gives it back unchanged |
| `Mutation.LikeImage` | index.js:102-113 | fails exactly when no record has the requested id, and then with "Image not found" and the collection untouched; on success the payload carries the input's `clientMutationId` and a record that is in the new collection; the collection's length never changes |
| `Mutation.LikeImageUpdatesFirstMatch` | index.js:103-112 | on success only the first record with the id changes, and in it only `liked` (negated) and `likesCount` (+1 if now liked, -1 otherwise); every other record is unchanged; the payload's image is the record as now stored |
| `Mutation.LikeImageKeepsIds` | index.js:106-107 | a like never changes any id, so the collection's ids are the same afterwards |
| `Mutation.LikeImageTwiceRestores` | index.js:103-107 | two likes of the same id restore the whole collection; both calls fail or both succeed; the second response carries the original record |
| `Service.ImageStore.constructor` | index.js:57-80 | the store starts out holding the given records in order, in a new array |
| `Service.ImageStore.Images` | index.js:85-98 | the query returns the connection over the current array contents and modifies nothing |
| `Service.ImageStore.FindIndex` | index.js:103 | the scan from the front returns exactly `FirstIndex` over the current contents |
| `Service.ImageStore.LikeImage` | index.js:102-113 | the in-place update leaves the array holding exactly the collection `Mutation.LikeImage` computes from the old contents, and returns its response; on failure the array is unchanged; on success the returned image is in the array |
| `Service.QueryAfterLike` | index.js:85-113 | after a successful like, a query shows the updated record as node and edge at the mutated position; cursors and page information stay the same |
| `Service.SeedScenarios` | index.js:57-113 | on the sample data the query lists cursors "1", "2" with page boundaries "1" and "2" and no further pages; liking "1" gives liked and 11 likes, liking it again gives unliked and 10 likes and the original data; liking "999" fails and changes nothing |
| `Service.SeedWalkthrough` | index.js:57-113 | the same three likes run on an `ImageStore` object return the same results |

## Left out

- The Apollo server construction, `server.listen()` and the start-up log line (index.js:118-123): network and I/O.
- The GraphQL schema text (index.js:4-54). It is mirrored only as the `Image`, `Edge`, `PageInfo`, `Connection`, `LikeImageInput` and `LikeImagePayload` datatypes.
- Nullability of record fields: the schema allows null for every field except `id`. The stored records always have every field, and no code path creates records. So fields are plain strings, integers and booleans, and JavaScript's coercions of a null `liked` or `likesCount` are not modelled.
- The start-up clock (`new Date().toISOString()`, index.js:61, 67, 72, 78). The four timestamps are parameters of `Seed` and are treated as opaque strings.
- Pagination arguments (`after`, `limit`), title filtering and cursor decoding do not exist in this code. The query takes no arguments, so none of these is modelled.
- Object identity: in JavaScript, `nodes` is the very array the store holds, and the payload's `image` is the stored object itself. Here records are values. A connection or payload returned earlier does not follow later mutations. What is stated is equality with the stored records at the moment the call returns.
- Concurrency: the server runs each resolver to completion on one thread. The model has one caller at a time.
- Mutation.Toggle: models `likesCount` as an unbounded integer. JavaScript numbers are exact only up to 2^53, and GraphQL's 32-bit `Int` rejects larger values when the response is serialized. Neither limit is modelled.
