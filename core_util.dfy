/** crates/bevy_lunex_core/src/code/util.rs: the numeric-id helpers of the
  * bevy_lunex_core generation, identical to those of src/core/util.rs. */
module CoreUtil {
  import opened Base
  import P = PathUtil
  import S = Strings

  function IsNumericalId(s: string): (b: bool)
    ensures b <==> |s| > 0 && s[0] == '#'
    ensures s == "" ==> !b
  {
    |s| > 0 && s[0] == '#'
  }

  /** `extract_id`: the first character is skipped unchecked and the rest
    * parsed as a `usize`. */
  function ExtractId(s: string): (r: Result<nat, string>)
    ensures r == P.ExtractId(s)
    ensures |s| == 0 ==> r == Err("This is not a numeric path!")
    ensures |s| > 0 && r.Err? ==> r.error == s + " caused syntax error!"
  {
    if |s| == 0 then Err("This is not a numeric path!")
    else match S.ParseUsize(s[1..])
      case Some(v) => Ok(v)
      case None => Err(s + " caused syntax error!")
  }

  /** The first character is not checked: any one-character prefix works. */
  lemma ExtractIdSkipsFirst(c: char, n: nat)
    requires n <= S.UsizeMax
    ensures ExtractId([c] + S.NatToString(n)) == Ok(n)
  {
    var s := [c] + S.NatToString(n);
    assert s[1..] == S.NatToString(n);
    S.DigitsOfNatToString(n);
  }
}
