/** The `likeImage` mutation resolver (index.js:102-113), stated on values:
    the collection before the call goes in, the response and the collection
    after the call come out. */
module Mutation {
  import opened Wrappers
  import opened Images

  /** The mutation's argument: a pass-through correlation token and the id
      of the image to like or unlike. */
  datatype LikeImageInput = LikeImageInput(clientMutationId: Option<string>, imageId: string)

  /** The mutation's response. */
  datatype LikeImagePayload = LikeImagePayload(clientMutationId: Option<string>, image: Image)

  /** The error the resolver throws. */
  datatype Error = Error(message: string)

  const IMAGE_NOT_FOUND := Error("Image not found")

  /** The response together with the collection the call leaves behind. */
  datatype LikeOutcome = LikeOutcome(response: Result<LikeImagePayload, Error>, images: seq<Image>)

  /** `images.find(img => img.id === id)`, as the position of the first
      record whose id is `id`, or None when no record has it. */
  function FirstIndex(s: seq<Image>, id: string): (r: Option<nat>)
    ensures r.None? <==> forall k :: 0 <= k < |s| ==> s[k].id != id
    ensures r.Some? ==> r.value < |s| && s[r.value].id == id
    ensures r.Some? ==> forall k :: 0 <= k < r.value ==> s[k].id != id
  {
    if s == [] then None
    else if s[0].id == id then Some(0)
    else match FirstIndex(s[1..], id)
      case None => None
      case Some(k) => Some(k + 1)
  }

  /** The two assignments of index.js:106-107 on one record: `liked` is
      negated, then `likesCount` moves by one towards the new state. There
      is no floor, so a count of 0 can become -1. */
  function Toggle(img: Image): (r: Image)
    ensures r.liked == !img.liked
    ensures r.liked ==> r.likesCount == img.likesCount + 1
    ensures !r.liked ==> r.likesCount == img.likesCount - 1
    ensures SameExceptLikes(img, r)
  {
    var liked := !img.liked;
    img.(liked := liked, likesCount := img.likesCount + if liked then 1 else -1)
  }

  /** Toggling twice gives the record back unchanged. */
  lemma ToggleTwice(img: Image)
    ensures Toggle(Toggle(img)) == img
  {
  }

  /** The resolver: fail with "Image not found" when no record has the id,
      otherwise toggle the first matching record and return it with the
      input's clientMutationId. */
  function LikeImage(s: seq<Image>, input: LikeImageInput): (o: LikeOutcome)
    ensures |o.images| == |s|
    ensures o.response.Failure? <==> forall k :: 0 <= k < |s| ==> s[k].id != input.imageId
    ensures o.response.Failure? ==> o.response.error == IMAGE_NOT_FOUND && o.images == s
    ensures o.response.Success? ==> o.response.value.clientMutationId == input.clientMutationId
    ensures o.response.Success? ==> o.response.value.image in o.images
  {
    match FirstIndex(s, input.imageId)
    case None => LikeOutcome(Failure(IMAGE_NOT_FOUND), s)
    case Some(i) =>
      var updated := Toggle(s[i]);
      assert s[i := updated][i] == updated;
      LikeOutcome(Success(LikeImagePayload(input.clientMutationId, updated)), s[i := updated])
  }

  /** On success, exactly the first record with the requested id changes,
      and in it only `liked` (negated) and `likesCount` (plus one when it
      becomes liked, minus one otherwise); the payload's image is that
      record as now stored. */
  lemma LikeImageUpdatesFirstMatch(s: seq<Image>, input: LikeImageInput, i: nat)
    requires i < |s| && s[i].id == input.imageId
    requires forall k :: 0 <= k < i ==> s[k].id != input.imageId
    ensures var o := LikeImage(s, input);
      && o.response == Success(LikeImagePayload(input.clientMutationId, o.images[i]))
      && o.images[i].liked == !s[i].liked
      && o.images[i].likesCount == s[i].likesCount + (if o.images[i].liked then 1 else -1)
      && SameExceptLikes(s[i], o.images[i])
      && forall j :: 0 <= j < |s| && j != i ==> o.images[j] == s[j]
  {
  }

  /** A mutation never changes any id, so the collection's ids (and with
      them every later query's cursors) stay as they were. */
  lemma LikeImageKeepsIds(s: seq<Image>, input: LikeImageInput)
    ensures Ids(LikeImage(s, input).images) == Ids(s)
  {
    match FirstIndex(s, input.imageId)
    case None =>
    case Some(i) => IdsUnchangedByUpdate(s, i, Toggle(s[i]));
  }

  /** Liking the same id twice restores the collection: the record toggled
      by the first call is found again by the second and toggled back. Both
      calls fail, or both succeed, and the second response carries the
      original record. */
  lemma LikeImageTwiceRestores(s: seq<Image>, first: LikeImageInput, second: LikeImageInput)
    requires first.imageId == second.imageId
    ensures var o1 := LikeImage(s, first);
      var o2 := LikeImage(o1.images, second);
      && o2.images == s
      && o1.response.Success? == o2.response.Success?
      && (o2.response.Success? ==> o2.response.value.image == s[FirstIndex(s, first.imageId).value])
  {
    var o1 := LikeImage(s, first);
    if o1.response.Success? {
      var i := FirstIndex(s, first.imageId).value;
      LikeImageUpdatesFirstMatch(s, first, i);
      LikeImageUpdatesFirstMatch(o1.images, second, i);
    }
  }
}
