/** examples/future_WIP/nesting/src/parameter.rs: the parser of parameter
  * lists such as `"width: 20, margin: (1, 2, 3), bold"`. The list is cut at
  * the commas outside parentheses, and each piece becomes a bare word, a
  * `name: value` pair or a `name: (v1, v2, ...)` list. Text is taken to be
  * ASCII, so that character and byte positions agree; a slice that would
  * panic gives `None`. */
module NestingParameter {
  import opened Base
  import S = Strings

  datatype Parameter =
    | Simple(text: string)
    | Defined(name: string, value: string)
    | Complex(name: string, values: seq<string>)

  // ---------------------------------------------------------------------
  // split_parameter

  /** The pieces of `split_parameter` before trimming, for the text `s`
    * that follows the piece `current` read so far, with `inside` the
    * bracket flag: `(` sets it, `)` clears it (so the first `)` ends
    * bracket mode however deep the nesting), and a comma cuts only while
    * it is clear. */
  function Pieces(s: string, inside: bool, current: string): (r: seq<string>)
    ensures |r| >= 1
    decreases |s|
  {
    if |s| == 0 then [current]
    else if s[0] == '(' then Pieces(s[1..], true, current + [s[0]])
    else if s[0] == ')' then Pieces(s[1..], false, current + [s[0]])
    else if s[0] == ',' && !inside then [current] + Pieces(s[1..], inside, "")
    else Pieces(s[1..], inside, current + [s[0]])
  }

  /** The pieces trimmed, with the empty ones dropped. */
  function Kept(ps: seq<string>): (r: seq<string>)
    ensures |r| <= |ps|
  {
    if |ps| == 0 then [] else KeptPiece(ps[0]) + Kept(ps[1..])
  }

  /** One piece trimmed, or nothing when that leaves it empty. */
  function KeptPiece(p: string): (r: seq<string>)
    ensures |r| <= 1
  {
    var t := S.Trim(p);
    if |t| == 0 then [] else [t]
  }

  /** Values that are all trimmed and not empty. */
  predicate Clean(vs: seq<string>)
  {
    forall i :: 0 <= i < |vs| ==> |vs[i]| > 0 && S.Trim(vs[i]) == vs[i]
  }

  /** What is kept is trimmed and not empty. */
  lemma {:induction false} KeptClean(ps: seq<string>)
    ensures forall i :: 0 <= i < |Kept(ps)| ==> |Kept(ps)[i]| > 0 && S.Trim(Kept(ps)[i]) == Kept(ps)[i]
    decreases |ps|
  {
    if |ps| > 0 {
      KeptClean(ps[1..]);
      S.TrimIdempotent(ps[0]);
      assert Kept(ps) == KeptPiece(ps[0]) + Kept(ps[1..]);
    }
  }

  /** `split_parameter`, as a value. */
  function SplitParameter(input: string): (r: seq<string>)
    ensures forall i :: 0 <= i < |r| ==> |r[i]| > 0 && S.Trim(r[i]) == r[i]
  {
    KeptClean(Pieces(input, false, ""));
    Kept(Pieces(input, false, ""))
  }

  lemma {:induction false} KeptConcat(a: seq<string>, b: seq<string>)
    ensures Kept(a + b) == Kept(a) + Kept(b)
    decreases |a|
  {
    if |a| > 0 {
      assert (a + b)[1..] == a[1..] + b;
      assert (a + b)[0] == a[0];
      KeptConcat(a[1..], b);
    } else {
      assert a + b == b;
    }
  }

  /** `split_parameter`: the loop over the characters. */
  method SplitParameterLoop(input: string) returns (result: seq<string>)
    ensures result == SplitParameter(input)
  {
    result := [];
    var start := 0;
    var inside := false;
    var idx := 0;
    SplitStart(input);
    while idx < |input|
      invariant 0 <= start <= idx <= |input|
      invariant result + Rest(input, idx, start, inside) == SplitParameter(input)
    {
      result, start, inside := SplitNext(input, idx, start, inside, result);
      idx := idx + 1;
    }
    result := LastPiece(input, start, inside, result);
  }

  lemma SplitStart(input: string)
    ensures [] + Rest(input, 0, 0, false) == SplitParameter(input)
  {
    assert input[0..] == input && input[0..0] == "";
  }

  /** After the loop: the rest of the text, trimmed, is kept unless empty. */
  method LastPiece(input: string, start: nat, inside: bool, result: seq<string>) returns (result': seq<string>)
    requires start <= |input|
    ensures result' == result + Rest(input, |input|, start, inside)
  {
    assert input[|input|..] == "" && input[start..|input|] == input[start..];
    assert Kept([input[start..]]) == KeptPiece(input[start..]) + Kept([]);
    var x := S.Trim(input[start..]);
    result' := result;
    if |x| > 0 {
      result' := result + [x];
    }
  }

  function Rest(input: string, idx: nat, start: nat, inside: bool): seq<string>
    requires start <= idx <= |input|
  {
    Kept(Pieces(input[idx..], inside, input[start..idx]))
  }

  /** The body of the loop of `split_parameter` for the character at `idx`. */
  method SplitNext(input: string, idx: nat, start: nat, inside: bool, result: seq<string>)
    returns (result': seq<string>, start': nat, inside': bool)
    requires start <= idx < |input|
    ensures start' <= idx + 1
    ensures result' + Rest(input, idx + 1, start', inside') == result + Rest(input, idx, start, inside)
  {
    var c := input[idx];
    if c == ',' && !inside {
      PiecesCut(input, idx, start, inside);
      result' := CutPiece(input[start..idx], Pieces(input[idx + 1..], inside, input[idx + 1..idx + 1]), result);
      start', inside' := idx + 1, inside;
    } else {
      inside' := if c == '(' then true else if c == ')' then false else inside;
      PiecesExtend(input, idx, start, inside, inside');
      result', start' := result, start;
    }
  }

  /** A comma outside brackets: the piece read so far, trimmed, is kept
    * unless empty. */
  method CutPiece(cur: string, rest: seq<string>, result: seq<string>) returns (result': seq<string>)
    ensures result' + Kept(rest) == result + Kept([cur] + rest)
  {
    KeptCons(cur, rest);
    var x := S.Trim(cur);
    if |x| > 0 {
      result' := result + [x];
      AppendAssoc(result, [x], Kept(rest));
    } else {
      result' := result;
    }
  }

  lemma AppendAssoc<X>(a: seq<X>, b: seq<X>, c: seq<X>)
    ensures (a + b) + c == a + (b + c)
  {
  }

  /** A character that does not cut joins the piece being read. */
  lemma PiecesExtend(input: string, idx: nat, start: nat, inside: bool, inside': bool)
    requires start <= idx < |input|
    requires inside' == (if input[idx] == '(' then true else if input[idx] == ')' then false else inside)
    requires !(input[idx] == ',' && !inside)
    ensures Pieces(input[idx..], inside, input[start..idx]) == Pieces(input[idx + 1..], inside', input[start..idx + 1])
  {
    assert input[idx..][1..] == input[idx + 1..];
    assert input[start..idx] + [input[idx]] == input[start..idx + 1];
  }

  /** A comma outside brackets ends the piece being read. */
  lemma PiecesCut(input: string, idx: nat, start: nat, inside: bool)
    requires start <= idx < |input| && input[idx] == ',' && !inside
    ensures Pieces(input[idx..], inside, input[start..idx]) ==
            [input[start..idx]] + Pieces(input[idx + 1..], inside, input[idx + 1..idx + 1])
  {
    assert input[idx..][1..] == input[idx + 1..];
    assert input[idx + 1..idx + 1] == "";
  }

  lemma KeptCons(p: string, ps: seq<string>)
    ensures Kept([p] + ps) == KeptPiece(p) + Kept(ps)
  {
    assert ([p] + ps)[1..] == ps;
  }

  /** The pieces before trimming are the text cut at some of its commas:
    * joined back with commas they give it again. */
  lemma {:induction false} PiecesRejoin(s: string, inside: bool, current: string)
    ensures S.Join(Pieces(s, inside, current), ',') == current + s
    decreases |s|
  {
    if |s| > 0 {
      var c := s[0];
      assert current + s == current + [c] + s[1..];
      if c == '(' {
        PiecesRejoin(s[1..], true, current + [c]);
      } else if c == ')' {
        PiecesRejoin(s[1..], false, current + [c]);
      } else if c == ',' && !inside {
        var rest := Pieces(s[1..], inside, "");
        PiecesRejoin(s[1..], inside, "");
        S.JoinPrepend(current, rest, ',');
      } else {
        PiecesRejoin(s[1..], inside, current + [c]);
      }
    }
  }

  /** Outside brackets, and with no brackets to come, every comma cuts. */
  lemma {:induction false} PiecesWithoutBrackets(s: string, current: string)
    requires '(' !in s && ',' !in current
    ensures forall i :: 0 <= i < |Pieces(s, false, current)| ==> ',' !in Pieces(s, false, current)[i]
    decreases |s|
  {
    if |s| > 0 {
      assert s[1..] == s[1..] && forall j :: 0 <= j < |s[1..]| ==> s[1..][j] == s[j + 1];
      if s[0] == ',' {
        PiecesWithoutBrackets(s[1..], "");
      } else {
        PiecesWithoutBrackets(s[1..], current + [s[0]]);
      }
    }
  }

  /** So without brackets `split_parameter` is a plain split at commas,
    * trimmed, with the empty pieces dropped. */
  lemma SplitWithoutBrackets(input: string)
    requires '(' !in input
    ensures SplitParameter(input) == Kept(S.Split(input, ','))
  {
    var ps := Pieces(input, false, "");
    PiecesWithoutBrackets(input, "");
    PiecesRejoin(input, false, "");
    assert "" + input == input;
    S.SplitJoin(ps, ',');
    assert S.Split(input, ',') == ps;
  }

  /** The first `)` ends bracket mode: the comma after `(b)` cuts although
    * the outer bracket is still open. */
  lemma NestedBracketsEndEarly()
    ensures Pieces("f(a(b),c)", false, "") == ["f(a(b)", "c)"]
  {
    InnerBracket();
    assert "a(b),c)"[1..] == "(b),c)" && "f(" + ["a"[0]] == "f(a";
    assert Pieces("a(b),c)", true, "f(") == ["f(a(b)", "c)"];
    assert "(a(b),c)"[1..] == "a(b),c)" && "f" + ["("[0]] == "f(";
    assert Pieces("(a(b),c)", false, "f") == ["f(a(b)", "c)"];
    assert "f(a(b),c)"[1..] == "(a(b),c)" && "" + ["f"[0]] == "f";
  }

  lemma InnerBracket()
    ensures Pieces("(b),c)", true, "f(a") == ["f(a(b)", "c)"]
  {
    AfterTheCut();
    assert "),c)"[1..] == ",c)" && "f(a(b" + [")"[0]] == "f(a(b)";
    assert Pieces("),c)", true, "f(a(b") == ["f(a(b)", "c)"];
    assert "b),c)"[1..] == "),c)" && "f(a(" + ["b"[0]] == "f(a(b";
    assert Pieces("b),c)", true, "f(a(") == ["f(a(b)", "c)"];
    assert "(b),c)"[1..] == "b),c)" && "f(a" + ["("[0]] == "f(a(";
  }

  lemma AfterTheCut()
    ensures Pieces(",c)", false, "f(a(b)") == ["f(a(b)", "c)"]
  {
    assert Pieces("", false, "c)") == ["c)"];
    assert ")"[1..] == "" && "c" + [")"[0]] == "c)";
    assert Pieces(")", false, "c") == ["c)"];
    assert "c)"[1..] == ")" && "" + ["c"[0]] == "c";
    assert Pieces("c)", false, "") == ["c)"];
    assert ",c)"[1..] == "c)";
  }

  // ---------------------------------------------------------------------
  // trim and parse_parameter

  /** `trim`: whitespace off both ends, then at most one `(` off the front
    * and one `)` off the back. */
  function TrimParens(s: string): (r: string)
    ensures |r| <= |S.Trim(s)|
  {
    var x := S.Trim(s);
    var y := if |x| > 0 && x[0] == '(' then x[1..] else x;
    if |y| > 0 && y[|y| - 1] == ')' then y[..|y| - 1] else y
  }

  /** A text without whitespace or brackets at its ends is its own `trim`;
    * with brackets around it, `trim` takes exactly those off. */
  lemma TrimParensUnwraps(x: string)
    requires S.Trim(x) == x
    requires |x| > 0 ==> x[0] != '(' && x[|x| - 1] != ')'
    ensures TrimParens(x) == x
    ensures TrimParens("(" + x + ")") == x
  {
    var w := "(" + x + ")";
    S.TrimUntouched(w);
    assert w[1..] == x + ")";
    assert (x + ")")[..|x|] == x;
  }

  /** The `Complex` values from the right side `rhs` as written: the trimmed
    * side sliced from 1 to two before the UNTRIMMED length, which panics
    * when that end is below 1 or past the trimmed side. */
  function ComplexValuesAsWritten(rhs: string): (r: Option<seq<string>>)
    ensures r.Some? <==> |rhs| >= 3 && |rhs| - 2 <= |S.Trim(rhs)|
    ensures r.Some? ==> Clean(r.value)
  {
    var t := S.Trim(rhs);
    if |rhs| >= 3 && |rhs| - 2 <= |t| then
      KeptClean(S.Split(t[1..|rhs| - 2], ','));
      Some(Kept(S.Split(t[1..|rhs| - 2], ',')))
    else None
  }

  /** The `Complex` values as evidently intended: the trimmed side without
    * its first and last character (the brackets), cut at commas. */
  function ComplexValues(rhs: string): (r: Option<seq<string>>)
    ensures r.Some? <==> |S.Trim(rhs)| >= 2
    ensures r.Some? ==> Clean(r.value)
  {
    var t := S.Trim(rhs);
    if |t| >= 2 then
      KeptClean(S.Split(t[1..|t| - 1], ','));
      Some(Kept(S.Split(t[1..|t| - 1], ',')))
    else None
  }

  /** `parse_parameter`, given how the `Complex` values are taken: no `:`
    * gives the piece unchanged, a blank right side the trimmed name, a
    * right side without a comma a pair, and one with a comma a list. */
  function ParseWith(input: string, values: string -> Option<seq<string>>): (r: Option<Parameter>)
    ensures ':' !in input ==> r == Some(Simple(input))
  {
    match S.SplitOnce(input, ':')
    case None => Some(Simple(input))
    case Some((lhs, rhs)) =>
      if ',' !in rhs then
        if |S.Trim(rhs)| == 0 then Some(Simple(TrimParens(lhs)))
        else Some(Defined(TrimParens(lhs), TrimParens(rhs)))
      else
        match values(rhs)
        case None => None
        case Some(vs) => Some(Complex(TrimParens(lhs), vs))
  }

  /** `parse_parameter` as written. */
  function ParseParameterAsWritten(input: string): (r: Option<Parameter>)
    ensures ':' !in input ==> r == Some(Simple(input))
    ensures var sp := S.SplitOnce(input, ':');
            sp.Some? && ',' in sp.value.1 ==>
              (r.Some? <==> |sp.value.1| >= 3 && |sp.value.1| - 2 <= |S.Trim(sp.value.1)|)
    ensures r.Some? && r.value.Complex? ==> Clean(r.value.values)
  {
    ParseWith(input, ComplexValuesAsWritten)
  }

  /** `parse_parameter` with the list slice corrected. */
  function ParseParameter(input: string): (r: Option<Parameter>)
    ensures ':' !in input ==> r == Some(Simple(input))
    ensures var sp := S.SplitOnce(input, ':');
            sp.Some? && ',' in sp.value.1 ==> (r.Some? <==> |S.Trim(sp.value.1)| >= 2)
    ensures r.Some? && r.value.Complex? ==> Clean(r.value.values)
  {
    ParseWith(input, ComplexValues)
  }

  /** A name and a value written as `name:value` parse back to that pair. */
  lemma DefinedRoundTrip(name: string, value: string)
    requires ':' !in name && ',' !in value && |value| > 0
    requires S.Trim(name) == name && (|name| > 0 ==> name[0] != '(' && name[|name| - 1] != ')')
    requires S.Trim(value) == value && value[0] != '(' && value[|value| - 1] != ')'
    ensures ParseParameter(name + ":" + value) == Some(Defined(name, value))
    ensures ParseParameterAsWritten(name + ":" + value) == Some(Defined(name, value))
  {
    S.SplitOnceAt(name, value, ':');
    assert name + ":" + value == name + [':'] + value;
    TrimParensUnwraps(name);
    TrimParensUnwraps(value);
  }

  /** A name with a blank right side is a bare word. */
  lemma BlankValueIsSimple(name: string, blank: string)
    requires ':' !in name && forall i :: 0 <= i < |blank| ==> S.IsWhitespace(blank[i])
    ensures ParseParameter(name + ":" + blank) == Some(Simple(TrimParens(name)))
  {
    S.SplitOnceAt(name, blank, ':');
    assert name + ":" + blank == name + [':'] + blank;
    S.TrimIsMiddle(blank);
    assert !S.IsWhitespace(',');
  }

  /** Values that are trimmed and non-empty are kept as they are. */
  lemma {:induction false} KeptUntouched(vs: seq<string>)
    requires forall i :: 0 <= i < |vs| ==> |vs[i]| > 0 && S.Trim(vs[i]) == vs[i]
    ensures Kept(vs) == vs
    decreases |vs|
  {
    if |vs| > 0 {
      KeptUntouched(vs[1..]);
    }
  }

  /** Two or more values joined with commas always hold a comma. */
  lemma JoinHasComma(vs: seq<string>)
    requires |vs| >= 2
    ensures ',' in S.Join(vs, ',')
  {
    var init := vs[..|vs| - 1];
    S.JoinAppend(init, vs[|vs| - 1], ',');
    assert vs == init + [vs[|vs| - 1]];
    assert S.Join(vs, ',')[|S.Join(init, ',')|] == ',';
  }

  /** Values joined with commas inside brackets: the right side holds a
    * comma and, corrected, gives the values back. */
  lemma WrappedValues(vs: seq<string>)
    requires |vs| >= 2
    requires forall i :: 0 <= i < |vs| ==> |vs[i]| > 0 && S.Trim(vs[i]) == vs[i] && ',' !in vs[i]
    ensures ',' in "(" + S.Join(vs, ',') + ")"
    ensures ComplexValues("(" + S.Join(vs, ',') + ")") == Some(vs)
  {
    var j := S.Join(vs, ',');
    WrappedHasComma(vs);
    Unwrap(j);
    S.SplitJoin(vs, ',');
    KeptUntouched(vs);
  }

  /** Brackets around two or more values hold a comma. */
  lemma WrappedHasComma(vs: seq<string>)
    requires |vs| >= 2
    ensures ',' in "(" + S.Join(vs, ',') + ")"
  {
    JoinHasComma(vs);
    WrappedComma(S.Join(vs, ','));
  }

  /** Corrected, the values of a bracketed text are the pieces of what is
    * inside the brackets. */
  lemma Unwrap(j: string)
    ensures ComplexValues("(" + j + ")") == Some(Kept(S.Split(j, ',')))
  {
    var rhs := "(" + j + ")";
    S.TrimUntouched(rhs);
    assert rhs[1..|rhs| - 1] == j;
  }

  /** A name and a right side with a comma parse to the name and the values
    * the right side gives. */
  lemma ParseComplex(name: string, rhs: string, vs: seq<string>)
    requires ':' !in name && ',' in rhs && ComplexValues(rhs) == Some(vs)
    requires S.Trim(name) == name && (|name| > 0 ==> name[0] != '(' && name[|name| - 1] != ')')
    ensures ParseParameter(name + [':'] + rhs) == Some(Complex(name, vs))
  {
    S.SplitOnceAt(name, rhs, ':');
    TrimParensUnwraps(name);
  }

  /** Corrected, a list written as `name:(v1,v2,...)` parses back to the
    * name and the values. */
  lemma ComplexRoundTrip(name: string, vs: seq<string>)
    requires |vs| >= 2
    requires forall i :: 0 <= i < |vs| ==> |vs[i]| > 0 && S.Trim(vs[i]) == vs[i] && ',' !in vs[i]
    requires ':' !in name && S.Trim(name) == name && (|name| > 0 ==> name[0] != '(' && name[|name| - 1] != ')')
    ensures ParseParameter(name + ":(" + S.Join(vs, ',') + ")") == Some(Complex(name, vs))
  {
    var rhs := "(" + S.Join(vs, ',') + ")";
    ListText(name, S.Join(vs, ','));
    WrappedValues(vs);
    ParseComplex(name, rhs, vs);
  }

  /** `name:(j)` is the name, the colon and the bracketed text. */
  lemma ListText(name: string, j: string)
    ensures name + ":(" + j + ")" == name + [':'] + ("(" + j + ")")
  {
  }

  /** As written, a bracketed list that holds a comma yields the pieces of
    * its inside without the inside's last character. */
  lemma AsWrittenDropsLastChar(name: string, j: string)
    requires ':' !in name && ',' in j
    requires S.Trim(name) == name && (|name| > 0 ==> name[0] != '(' && name[|name| - 1] != ')')
    ensures ParseParameterAsWritten(name + ":(" + j + ")") == Some(Complex(name, Kept(S.Split(j[..|j| - 1], ','))))
  {
    var rhs := "(" + j + ")";
    ListText(name, j);
    AsWrittenSlice(j);
    WrappedComma(j);
    ParseComplexAsWritten(name, rhs, Kept(S.Split(j[..|j| - 1], ',')));
  }

  lemma WrappedComma(j: string)
    requires ',' in j
    ensures ',' in "(" + j + ")"
  {
    var k :| 0 <= k < |j| && j[k] == ',';
    assert ("(" + j + ")")[k + 1] == ',';
  }

  lemma ParseComplexAsWritten(name: string, rhs: string, vs: seq<string>)
    requires ':' !in name && ',' in rhs && ComplexValuesAsWritten(rhs) == Some(vs)
    requires S.Trim(name) == name && (|name| > 0 ==> name[0] != '(' && name[|name| - 1] != ')')
    ensures ParseParameterAsWritten(name + [':'] + rhs) == Some(Complex(name, vs))
  {
    S.SplitOnceAt(name, rhs, ':');
    TrimParensUnwraps(name);
  }

  /** The slice as written, on a bracketed text. */
  lemma AsWrittenSlice(j: string)
    requires |j| > 0
    ensures ComplexValuesAsWritten("(" + j + ")") == Some(Kept(S.Split(j[..|j| - 1], ',')))
  {
    var rhs := "(" + j + ")";
    S.TrimUntouched(rhs);
    assert rhs[1..|rhs| - 2] == j[..|j| - 1];
  }

  /** So `name:(a,b)` gives only `a` as written, and `a` and `b` corrected. */
  lemma ComplexDropsLastValue(name: string, a: char, b: char)
    requires ':' !in name && S.Trim(name) == name && (|name| > 0 ==> name[0] != '(' && name[|name| - 1] != ')')
    requires !S.IsWhitespace(a) && !S.IsWhitespace(b) && a != ',' && b != ','
    ensures ParseParameterAsWritten(name + ":(" + [a, ',', b] + ")") == Some(Complex(name, [[a]]))
    ensures ParseParameter(name + ":(" + [a, ',', b] + ")") == Some(Complex(name, [[a], [b]]))
  {
    var j := [a, ',', b];
    assert j[1] == ',';
    AsWrittenDropsLastChar(name, j);
    assert j[..|j| - 1] == [a, ','];
    KeptBeforeComma(a);
    PairJoin(a, b);
    ComplexRoundTrip(name, [[a], [b]]);
  }

  /** A character and a comma: only the character is kept. */
  lemma KeptBeforeComma(a: char)
    requires !S.IsWhitespace(a) && a != ','
    ensures Kept(S.Split([a, ','], ',')) == [[a]]
  {
    assert [a, ','] == [a] + [','] + [];
    S.SplitConcat([a], [], ',');
    S.SplitWithoutDelimiter([a], ',');
    assert S.Split([], ',') == [[]];
    KeptOfTwo([a], []);
    S.TrimUntouched([a]);
    assert S.Trim([]) == [];
  }

  /** Two one-character values joined, and what `ComplexRoundTrip` needs
    * of them. */
  lemma PairJoin(a: char, b: char)
    requires !S.IsWhitespace(a) && !S.IsWhitespace(b) && a != ',' && b != ','
    ensures S.Join([[a], [b]], ',') == [a, ',', b]
    ensures forall i :: 0 <= i < 2 ==> |[[a], [b]][i]| > 0 && S.Trim([[a], [b]][i]) == [[a], [b]][i] && ',' !in [[a], [b]][i]
  {
    assert [[a], [b]][..1] == [[a]];
    S.TrimUntouched([a]);
    S.TrimUntouched([b]);
  }

  lemma KeptOfTwo(p: string, q: string)
    ensures Kept([p, q]) == KeptPiece(p) + KeptPiece(q)
  {
    assert [p, q][1..] == [q];
    assert [q][1..] == [];
  }

  /** As written, a right side of one or two characters panics: `a:,`. */
  lemma ShortListPanics()
    ensures ParseParameterAsWritten("a:,") == None
  {
    assert "a:," == "a" + [':'] + ",";
    S.SplitOnceAt("a", ",", ':');
  }

  // ---------------------------------------------------------------------
  // Parameter::parse

  /** Each piece parsed by `parse`, in order; a panic in any one is a
    * panic. */
  function ParseAll(parse: string -> Option<Parameter>, pieces: seq<string>): (r: Option<seq<Parameter>>)
    ensures r.Some? <==> forall i :: 0 <= i < |pieces| ==> parse(pieces[i]).Some?
    ensures r.Some? ==> |r.value| == |pieces| &&
                        forall i :: 0 <= i < |pieces| ==> r.value[i] == parse(pieces[i]).value
  {
    if |pieces| == 0 then Some([])
    else match (parse(pieces[0]), ParseAll(parse, pieces[1..]))
      case (Some(p), Some(ps)) => Some([p] + ps)
      case _ => None
  }

  /** `Parameter::parse`: split, then parse each piece as written. */
  method Parse(input: string) returns (r: Option<seq<Parameter>>)
    ensures r == ParseAll(ParseParameterAsWritten, SplitParameter(input))
  {
    var pieces := SplitParameterLoop(input);
    r := ParseEach(ParseParameterAsWritten, pieces);
  }

  /** `Parameter::parse` with the corrected slice of the list values. */
  method ParseCorrected(input: string) returns (r: Option<seq<Parameter>>)
    ensures r == ParseAll(ParseParameter, SplitParameter(input))
  {
    var pieces := SplitParameterLoop(input);
    r := ParseEach(ParseParameter, pieces);
  }

  /** The whole parse of `m:(a,b)`: one list parameter, which keeps only
    * `a` as written and both values corrected. */
  lemma ParseListExample()
    ensures ParseAll(ParseParameterAsWritten, SplitParameter("m:(a,b)")) == Some([Complex("m", ["a"])])
    ensures ParseAll(ParseParameter, SplitParameter("m:(a,b)")) == Some([Complex("m", ["a", "b"])])
  {
    ListIsOnePiece();
    ListIsKept();
    ListParses();
    ParseAllOne(ParseParameterAsWritten, "m:(a,b)");
    ParseAllOne(ParseParameter, "m:(a,b)");
  }

  lemma ListIsKept()
    ensures Kept(["m:(a,b)"]) == ["m:(a,b)"]
  {
    S.TrimUntouched("m:(a,b)");
    assert KeptPiece("m:(a,b)") == ["m:(a,b)"];
    assert ["m:(a,b)"][1..] == [];
  }

  lemma ListParses()
    ensures ParseParameterAsWritten("m:(a,b)") == Some(Complex("m", ["a"]))
    ensures ParseParameter("m:(a,b)") == Some(Complex("m", ["a", "b"]))
  {
    S.TrimUntouched("m");
    assert "m" + ":(" + ['a', ',', 'b'] + ")" == "m:(a,b)";
    ComplexDropsLastValue("m", 'a', 'b');
  }

  /** A single piece parses to the one parameter it gives, if any. */
  lemma ParseAllOne(parse: string -> Option<Parameter>, x: string)
    ensures ParseAll(parse, [x]) == if parse(x).Some? then Some([parse(x).value]) else None
  {
    assert [x][1..] == [];
    assert ParseAll(parse, []) == Some([]);
    if parse(x).Some? {
      assert [parse(x).value] + [] == [parse(x).value];
    }
  }

  /** The comma of `m:(a,b)` lies inside the brackets, so the text is one
    * piece. */
  lemma ListIsOnePiece()
    ensures Pieces("m:(a,b)", false, "") == ["m:(a,b)"]
  {
    InsideTheList();
    assert "(a,b)"[1..] == "a,b)" && "m:" + ["("[0]] == "m:(";
    assert Pieces("(a,b)", false, "m:") == ["m:(a,b)"];
    assert ":(a,b)"[1..] == "(a,b)" && "m" + [":"[0]] == "m:";
    assert Pieces(":(a,b)", false, "m") == ["m:(a,b)"];
    assert "m:(a,b)"[1..] == ":(a,b)" && "" + ["m"[0]] == "m";
  }

  lemma InsideTheList()
    ensures Pieces("a,b)", true, "m:(") == ["m:(a,b)"]
  {
    assert Pieces("", false, "m:(a,b)") == ["m:(a,b)"];
    assert ")"[1..] == "" && "m:(a,b" + [")"[0]] == "m:(a,b)";
    assert Pieces(")", true, "m:(a,b") == ["m:(a,b)"];
    assert "b)"[1..] == ")" && "m:(a," + ["b"[0]] == "m:(a,b";
    assert Pieces("b)", true, "m:(a,") == ["m:(a,b)"];
    assert ",b)"[1..] == "b)" && "m:(a" + [","[0]] == "m:(a,";
    assert Pieces(",b)", true, "m:(a") == ["m:(a,b)"];
    assert "a,b)"[1..] == ",b)" && "m:(" + ["a"[0]] == "m:(a";
  }

  /** The loop of `Parameter::parse` over the pieces. */
  method ParseEach(parse: string -> Option<Parameter>, pieces: seq<string>) returns (r: Option<seq<Parameter>>)
    ensures r == ParseAll(parse, pieces)
  {
    var parsed: seq<Parameter> := [];
    var i := 0;
    while i < |pieces|
      invariant 0 <= i <= |pieces|
      invariant |parsed| == i
      invariant forall k :: 0 <= k < i ==> parse(pieces[k]).Some? && parsed[k] == parse(pieces[k]).value
    {
      var p := parse(pieces[i]);
      if p.None? {
        assert ParseAll(parse, pieces).None?;
        return None;
      }
      parsed := parsed + [p.value];
      i := i + 1;
    }
    var all := ParseAll(parse, pieces);
    assert all.Some?;
    assert all.value == parsed;
    r := Some(parsed);
  }
}
