/** The product card's image slider: the index of the image shown and its two arrows. */
module Slider {

  /** The left arrow: one image back, from the first to the last. */
  function SlidePrev(idx: int, len: int): (r: int)
    ensures 0 <= idx < len ==> 0 <= r < len
  {
    if idx == 0 then len - 1 else idx - 1
  }

  /** The right arrow: one image on, from the last to the first. */
  function SlideNext(idx: int, len: int): (r: int)
    ensures 0 <= idx < len ==> 0 <= r < len
  {
    if idx == len - 1 then 0 else idx + 1
  }

  /** Each arrow undoes the other. */
  lemma ArrowsInverse(idx: int, len: int)
    requires 0 <= idx < len
    ensures SlidePrev(SlideNext(idx, len), len) == idx
    ensures SlideNext(SlidePrev(idx, len), len) == idx
  {
  }

  /** The index after `n` presses of the right arrow. */
  function Advance(idx: int, len: int, n: nat): int
  {
    if n == 0 then idx else SlideNext(Advance(idx, len, n - 1), len)
  }

  /** Within one lap, `n` presses of the right arrow move `n` images on, wrapping past the last once. */
  lemma {:induction false} AdvanceWithinLap(idx: int, len: int, n: nat)
    requires 0 <= idx < len && n <= len
    ensures Advance(idx, len, n) == if idx + n < len then idx + n else idx + n - len
  {
    if n > 0 {
      AdvanceWithinLap(idx, len, n - 1);
    }
  }

  /** `len` presses of the right arrow come back to the image shown before. */
  lemma FullLap(idx: int, len: int)
    requires 0 <= idx < len
    ensures Advance(idx, len, len) == idx
  {
    AdvanceWithinLap(idx, len, len);
  }
}
