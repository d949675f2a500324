/** The five-star rating shown on each product card (`generateStarRating`). */
module Rating {
  import opened Wrappers

  /** The number of icons a rating is drawn with. */
  const StarCount := 5

  /** `Math.round`: the nearest integer, halves rounded up. */
  function Round(x: real): int {
    (x + 0.5).Floor
  }

  /** `Math.round` lands within half a unit of its argument, halves going up. */
  lemma RoundNearest(x: real)
    ensures Round(x) as real - 0.5 <= x < Round(x) as real + 0.5
  {
  }

  /**
   * How many stars are filled: the rounded rating clamped to 0..5, a missing
   * rating counting as 0 (`rating || 0`).
   */
  function FilledStars(rating: Option<real>): (r: int)
    ensures 0 <= r <= StarCount
  {
    var rounded := Round(rating.GetOr(0.0));
    if rounded < 0 then 0 else if rounded > StarCount then StarCount else rounded
  }

  /**
   * The filled count is the integer in 0..5 nearest the rating: 0 exactly for
   * ratings below one half, 5 exactly from four and a half up, and any other
   * `k` exactly when the rating lies in [k - 0.5, k + 0.5).
   */
  lemma {:induction false} FilledStarsNearest(x: real, k: int)
    requires 0 <= k <= StarCount
    ensures FilledStars(Some(x)) == k <==>
      (k == 0 || k as real - 0.5 <= x) && (k == StarCount || x < k as real + 0.5)
  {
    RoundNearest(x);
  }

  /** Worked ratings: 0, 4.4, 4.6, -1, 6 and a missing rating. */
  lemma FilledStarsExamples()
    ensures FilledStars(Some(0.0)) == 0
    ensures FilledStars(Some(4.4)) == 4
    ensures FilledStars(Some(4.6)) == 5
    ensures FilledStars(Some(-1.0)) == 0
    ensures FilledStars(Some(6.0)) == 5
    ensures FilledStars(None) == 0
  {
  }

  /**
   * `generateStarRating`, one boolean per icon (true for a filled star): the
   * loop emits five icons, the first `FilledStars(rating)` of them filled and
   * the rest outlined.
   */
  method GenerateStarRating(rating: Option<real>) returns (icons: seq<bool>)
    ensures |icons| == StarCount
    ensures forall i :: 0 <= i < StarCount ==> icons[i] == (i < FilledStars(rating))
    ensures multiset(icons)[true] == FilledStars(rating)
  {
    var r := FilledStars(rating);
    icons := [];
    for i := 0 to StarCount
      invariant |icons| == i
      invariant forall k :: 0 <= k < i ==> icons[k] == (k < r)
      invariant multiset(icons)[true] == if i < r then i else r
    {
      if i < r {
        icons := icons + [true];
      } else {
        icons := icons + [false];
      }
    }
  }
}
