/** src/core/general.rs: the same helpers in the `src/core` generation. */
module LegacyGeneral {
  import opened Base
  import P = PathUtil

  function VecConvert(v: Vec2, offset: Vec2): (r: Vec2)
    ensures r.x == v.x - offset.x && r.y == offset.y - v.y
    ensures r == P.AsLunex(v, offset)
  {
    Vec2(v.x - offset.x, offset.y - v.y)
  }

  function Tween(a: real, b: real, slide: real): (r: real)
    ensures slide == 0.0 ==> r == a
    ensures slide == 1.0 ==> r == b
    ensures r == P.Tween(a, b, slide)
  {
    a + (b - a) * slide
  }

  /** `is_absolute`: false for the empty path, else whether it starts with '#'. */
  function IsAbsolute(s: string): (b: bool)
    ensures b <==> |s| > 0 && s[0] == '#'
    ensures b == P.IsNumericalId(s)
  {
    if |s| == 0 then false else s[0] == '#'
  }

  method SplitLast(s: string, d: char) returns (prefix: string, last: string)
    ensures (prefix, last) == P.SplitLastOf(s, d)
    ensures d !in last
    ensures d in s ==> prefix + [d] + last == s
    ensures d !in s ==> prefix == "" && last == s
  {
    P.SplitLastParts(s, d);
    prefix, last := P.SplitLast(s, d);
  }
}
