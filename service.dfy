/** The server's state and its two resolvers: the module-level `images`
    array of index.js:57-80 becomes the array field of an ImageStore, the
    query reads it, and the mutation overwrites one element in place. */
module Service {
  import opened Wrappers
  import opened Images
  import Query
  import Mutation

  class ImageStore {
    /** The stored records, in presentation order. */
    const images: array<Image>

    /** A store holding `seed`, in order. */
    constructor (seed: seq<Image>)
      ensures fresh(images)
      ensures images[..] == seed
    {
      images := new Image[|seed|](i requires 0 <= i < |seed| => seed[i]);
    }

    /** `Query.images`: the connection over the current records. It only
        reads the store. */
    method Images() returns (c: Query.Connection)
      ensures c == Query.ImagesConnection(images[..])
    {
      c := Query.ImagesConnection(images[..]);
    }

    /** `images.find(img => img.id === id)`: scans the records from the
        front and stops at the first whose id is `id`. */
    method FindIndex(id: string) returns (r: Option<nat>)
      ensures r == Mutation.FirstIndex(images[..], id)
    {
      var i := 0;
      while i < images.Length
        invariant 0 <= i <= images.Length
        invariant forall k :: 0 <= k < i ==> images[k].id != id
      {
        if images[i].id == id {
          return Some(i);
        }
        i := i + 1;
      }
      return None;
    }

    /** `Mutation.likeImage`: locate the record, fail if there is none,
        otherwise negate `liked` and then adjust `likesCount` by the new
        state, in place, and return the stored record. */
    method LikeImage(input: Mutation.LikeImageInput) returns (r: Result<Mutation.LikeImagePayload, Mutation.Error>)
      modifies images
      ensures Mutation.LikeOutcome(r, images[..]) == Mutation.LikeImage(old(images[..]), input)
      ensures r.Failure? ==> unchanged(images)
      ensures r.Success? ==> r.value.image in images[..]
    {
      var found := FindIndex(input.imageId);
      match found
      case None =>
        r := Failure(Mutation.IMAGE_NOT_FOUND);
      case Some(i) =>
        images[i] := images[i].(liked := !images[i].liked);
        images[i] := images[i].(likesCount := images[i].likesCount + if images[i].liked then 1 else -1);
        r := Success(Mutation.LikeImagePayload(input.clientMutationId, images[i]));
    }
  }

  /** A query after a successful mutation shows the updated record at the
      position of the mutated one, under the same cursors as before. */
  lemma QueryAfterLike(s: seq<Image>, input: Mutation.LikeImageInput)
    requires Mutation.LikeImage(s, input).response.Success?
    ensures var o := Mutation.LikeImage(s, input);
      var c := Query.ImagesConnection(o.images);
      var i := Mutation.FirstIndex(s, input.imageId).value;
      && c.nodes[i] == o.response.value.image
      && c.edges[i].node == o.response.value.image
      && Query.Cursors(c.edges) == Query.Cursors(Query.ImagesConnection(s).edges)
      && c.pageInfo == Query.ImagesConnection(s).pageInfo
  {
    var o := Mutation.LikeImage(s, input);
    Mutation.LikeImageKeepsIds(s, input);
    Query.EdgesAgreeWithNodes(s);
    Query.EdgesAgreeWithNodes(o.images);
    Query.PageInfoDependsOnIds(o.images, s);
  }

  /** The server's sample data: the query lists ids "1" and "2" with page
      boundaries "1" and "2" and no further pages; liking "1" gives
      liked = true and 11 likes, liking it again gives back false and 10;
      liking "999" fails with "Image not found" and changes nothing. */
  lemma SeedScenarios(created1: string, updated1: string, created2: string, updated2: string)
    ensures var s := Seed(created1, updated1, created2, updated2);
      var c := Query.ImagesConnection(s);
      && Query.Cursors(c.edges) == ["1", "2"]
      && c.pageInfo == Query.PageInfo(Some("1"), Some("2"), false, false)
    ensures var s := Seed(created1, updated1, created2, updated2);
      var o1 := Mutation.LikeImage(s, Mutation.LikeImageInput(None, "1"));
      var o2 := Mutation.LikeImage(o1.images, Mutation.LikeImageInput(None, "1"));
      && o1.response.Success? && o1.response.value.image.liked && o1.response.value.image.likesCount == 11
      && o2.response.Success? && !o2.response.value.image.liked && o2.response.value.image.likesCount == 10
      && o2.images == s
    ensures var s := Seed(created1, updated1, created2, updated2);
      Mutation.LikeImage(s, Mutation.LikeImageInput(None, "999"))
        == Mutation.LikeOutcome(Failure(Mutation.IMAGE_NOT_FOUND), s)
  {
    var s := Seed(created1, updated1, created2, updated2);
    Query.EdgesAgreeWithNodes(s);
    IdsAt(s);
    assert Ids(s) == ["1", "2"];
    Mutation.LikeImageTwiceRestores(s, Mutation.LikeImageInput(None, "1"), Mutation.LikeImageInput(None, "1"));
  }

  /** The sample data run through a store object: the two likes of "1"
      and the failed like of "999" behave as `SeedScenarios` states. */
  method SeedWalkthrough(created1: string, updated1: string, created2: string, updated2: string)
    returns (first: Result<Mutation.LikeImagePayload, Mutation.Error>,
             second: Result<Mutation.LikeImagePayload, Mutation.Error>,
             missing: Result<Mutation.LikeImagePayload, Mutation.Error>)
    ensures first.Success? && first.value.image.liked && first.value.image.likesCount == 11
    ensures second.Success? && !second.value.image.liked && second.value.image.likesCount == 10
    ensures missing == Failure(Mutation.IMAGE_NOT_FOUND)
  {
    var s := Seed(created1, updated1, created2, updated2);
    SeedScenarios(created1, updated1, created2, updated2);
    var store := new ImageStore(s);
    first := store.LikeImage(Mutation.LikeImageInput(None, "1"));
    second := store.LikeImage(Mutation.LikeImageInput(None, "1"));
    missing := store.LikeImage(Mutation.LikeImageInput(None, "999"));
  }
}
