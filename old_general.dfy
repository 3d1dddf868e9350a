/** src/general.rs, the helpers of the oldest generation: the y-flipping
  * conversion from the engine's coordinates, `tween`, the absolute-path test
  * and `split_last`. They agree with the helpers of src/core/util.rs, which
  * carry the proofs; src/core/general.rs repeats them (LegacyGeneral). */
module OldGeneral {
  import opened Base
  import P = PathUtil

  /** `vec_convert`: the point relative to `offset`, with y pointing down. */
  function VecConvert(v: Vec2, offset: Vec2): (r: Vec2)
    ensures r.x == v.x - offset.x && r.y == offset.y - v.y
    ensures r == P.AsLunex(v, offset)
  {
    Vec2(v.x - offset.x, offset.y - v.y)
  }

  /** `tween`: `a` plus the fraction `slide` of the way to `b`. */
  function Tween(a: real, b: real, slide: real): (r: real)
    ensures slide == 0.0 ==> r == a
    ensures slide == 1.0 ==> r == b
    ensures r == P.Tween(a, b, slide)
  {
    a + (b - a) * slide
  }

  /** `is_absolute`: the path starts with '#'. */
  function IsAbsolute(s: string): (b: bool)
    ensures b <==> |s| > 0 && s[0] == '#'
  {
    if |s| > 0 then s[0] == '#' else false
  }

  /** `split_last`, the same string-building loop as in src/core/util.rs. */
  method SplitLast(s: string, d: char) returns (prefix: string, last: string)
    ensures (prefix, last) == P.SplitLastOf(s, d)
    ensures d !in last
    ensures d in s ==> prefix + [d] + last == s
    ensures d !in s ==> prefix == "" && last == s
  {
    P.SplitLastParts(s, d);
    prefix, last := P.SplitLast(s, d);
  }
}
