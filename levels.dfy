/** The level store: platforms, and levels as ordered lists of them. */
module Levels {

  /** An RGBA colour. The editor stores normalised floats; this model keeps
      integral components (the editor's own colours use only 0 and 1). */
  datatype Color = Color(r: int, g: int, b: int, a: int)

  /** A rectangle placed on a level: top-left corner, size and colour. */
  datatype Platform = Platform(x: int, y: int, width: int, height: int, color: Color)

  type Level = seq<Platform>

  /** `n` empty levels, what a vector of vectors holds after growing. */
  function Empties(n: nat): (r: seq<Level>)
    ensures |r| == n && forall i :: 0 <= i < n ==> r[i] == []
  {
    seq(n, _ => [])
  }

  /** `std::vector::resize`: keeps the first `n` levels, and pads with
      empty levels up to `n`. */
  function Resize(ls: seq<Level>, n: nat): (r: seq<Level>)
    ensures |r| == n
    ensures forall i :: 0 <= i < n ==> r[i] == if i < |ls| then ls[i] else []
  {
    if n <= |ls| then ls[..n] else ls + Empties(n - |ls|)
  }

  /** Total number of platforms over all levels. */
  function PlatformCount(ls: seq<Level>): nat {
    if ls == [] then 0 else PlatformCount(ls[..|ls| - 1]) + |ls[|ls| - 1]|
  }

  /** Resizing after one more level: that level lands in its slot when it
      fits, and is cut off when it does not. */
  lemma ResizeSnoc(ls: seq<Level>, last: Level, n: nat)
    ensures |ls| < n ==> Resize(ls + [last], n) == Resize(ls, n)[|ls| := last]
    ensures |ls| >= n ==> Resize(ls + [last], n) == Resize(ls, n)
  {
    if |ls| < n {
      assert Resize(ls + [last], n) == Resize(ls, n)[|ls| := last];
    } else {
      assert Resize(ls + [last], n) == Resize(ls, n);
    }
  }
}
