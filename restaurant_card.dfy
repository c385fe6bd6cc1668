/** A restaurant card's picture and its five rating stars. */
module RestaurantCard {
  import opened Wrappers
  import opened FrontendTypes

  const Placeholder := "/placeholder.svg"

  /** `getImage`: the first photo from the server when its URL is a non-empty string, the placeholder otherwise. */
  function GetImage(photos: Option<seq<PhotoRef>>): (r: string)
    ensures r != Placeholder <==> photos.Some? && |photos.value| > 0 && photos.value[0].url != ""
    ensures r != Placeholder ==> r == "/api/photos/" + photos.value[0].url
  {
    if photos.Some? && |photos.value| > 0 && photos.value[0].url != "" then
      var served := "/api/photos/" + photos.value[0].url;
      assert served[1] != Placeholder[1];
      served
    else Placeholder
  }

  /** `RatingStars`: five stars, the i-th filled when i is below the rating rounded down. */
  function RatingStars(rating: real): (r: seq<bool>)
    ensures |r| == 5
  {
    seq(5, i requires 0 <= i < 5 => i < rating.Floor)
  }

  function Filled(stars: seq<bool>): nat {
    if stars == [] then 0 else Filled(stars[..|stars| - 1]) + (if stars[|stars| - 1] then 1 else 0)
  }

  function Clamp(k: int, lo: int, hi: int): int {
    if k < lo then lo else if k > hi then hi else k
  }

  /** A row whose i-th star is filled exactly when i < k has k stars filled, clipped to the row. */
  lemma {:induction false} FilledPrefix(stars: seq<bool>, k: int)
    requires forall i | 0 <= i < |stars| :: stars[i] <==> i < k
    ensures Filled(stars) == Clamp(k, 0, |stars|)
    decreases |stars|
  {
    if stars != [] {
      FilledPrefix(stars[..|stars| - 1], k);
    }
  }

  /** The number of filled stars is the rating rounded down, clipped to 0..5. */
  lemma FilledStars(rating: real)
    ensures Filled(RatingStars(rating)) == Clamp(rating.Floor, 0, 5)
  {
    FilledPrefix(RatingStars(rating), rating.Floor);
  }

  /** The card's stars: a missing average rating counts as 0, so no star is filled. */
  function CardStars(averageRating: Option<real>): (r: seq<bool>)
    ensures |r| == 5
    ensures averageRating.None? ==> forall i | 0 <= i < 5 :: !r[i]
  {
    RatingStars(averageRating.GetOr(0.0))
  }
}
