/** The image record the server keeps in memory (the Image type of the
    schema and the sample data of index.js). */
module Images {

  /** One stored image. The timestamps are opaque strings produced by the
      clock when the server starts. */
  datatype Image = Image(
    id: string,
    author: string,
    createdAt: string,
    liked: bool,
    likesCount: int,
    picture: string,
    price: int,
    title: string,
    updatedAt: string)

  /** `b` equals `a` in every field except possibly `liked` and `likesCount`. */
  predicate SameExceptLikes(a: Image, b: Image) {
    a.(liked := b.liked, likesCount := b.likesCount) == b
  }

  /** The ids of a collection, in collection order. */
  function Ids(s: seq<Image>): seq<string> {
    if s == [] then [] else [s[0].id] + Ids(s[1..])
  }

  /** The two records the server starts with; the four timestamps are
      whatever the clock said at start-up. */
  function Seed(created1: string, updated1: string, created2: string, updated2: string): (s: seq<Image>)
    ensures |s| == 2
    ensures forall i, j :: 0 <= i < j < |s| ==> s[i].id != s[j].id
  {
    [ Image("1", "John Doe", created1, false, 10, "https://example.com/image1.jpg", 100, "Beautiful Sunset", updated1),
      Image("2", "Jane Smith", created2, true, 25, "https://example.com/image2.jpg", 150, "Mountain View", updated2) ]
  }

  /** `Ids` lists exactly the `id` fields, position by position. */
  lemma {:induction false} IdsAt(s: seq<Image>)
    ensures |Ids(s)| == |s|
    ensures forall i :: 0 <= i < |s| ==> Ids(s)[i] == s[i].id
  {
    if s != [] {
      IdsAt(s[1..]);
    }
  }

  /** Replacing one record by one with the same id leaves the ids alone. */
  lemma {:induction false} IdsUnchangedByUpdate(s: seq<Image>, i: nat, x: Image)
    requires i < |s| && x.id == s[i].id
    ensures Ids(s[i := x]) == Ids(s)
  {
    if i > 0 {
      assert s[i := x][1..] == s[1..][i - 1 := x];
      IdsUnchangedByUpdate(s[1..], i - 1, x);
    }
  }
}
