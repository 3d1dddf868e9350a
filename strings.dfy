/** The Rust standard-library string operations the path code relies on:
  * `split`, `split_once`, `rsplit_once`, `parse::<usize>` and the decimal
  * formatting of numbers. Strings are sequences of characters and every
  * delimiter is a single character. */
module Strings {
  import opened Base

  /** `str::split(d)`: the pieces between delimiters, always at least one. */
  function Split(s: string, d: char): (r: seq<string>)
    ensures |r| >= 1
    ensures forall i :: 0 <= i < |r| ==> d !in r[i]
    decreases |s|
  {
    if |s| == 0 then [""]
    else
      var init := Split(s[..|s| - 1], d);
      if s[|s| - 1] == d then init + [""]
      else init[..|init| - 1] + [init[|init| - 1] + [s[|s| - 1]]]
  }

  /** The pieces joined back with the delimiter between them. */
  function Join(parts: seq<string>, d: char): string
  {
    if |parts| == 0 then ""
    else if |parts| == 1 then parts[0]
    else Join(parts[..|parts| - 1], d) + [d] + parts[|parts| - 1]
  }

  /** Appending a piece appends the delimiter and the piece. */
  lemma JoinAppend(parts: seq<string>, x: string, d: char)
    requires |parts| >= 1
    ensures Join(parts + [x], d) == Join(parts, d) + [d] + x
  {
    assert (parts + [x])[..|parts|] == parts;
  }

  /** Extending the last piece extends the joined string. */
  lemma JoinExtendLast(parts: seq<string>, c: char, d: char)
    requires |parts| >= 1
    ensures Join(ExtendLast(parts, c), d) == Join(parts, d) + [c]
  {
    var n := |parts|;
    if n > 1 {
      JoinAppend(parts[..n - 1], parts[n - 1] + [c], d);
      assert parts[..n - 1] + [parts[n - 1]] == parts;
      JoinAppend(parts[..n - 1], parts[n - 1], d);
    }
  }

  /** Joining the pieces of a split restores the string. */
  lemma {:induction false} JoinSplit(s: string, d: char)
    ensures Join(Split(s, d), d) == s
    decreases |s|
  {
    if |s| > 0 {
      var s', c := s[..|s| - 1], s[|s| - 1];
      assert s' + [c] == s;
      JoinSplit(s', d);
      SplitLast(s, d);
      if c == d {
        JoinAppend(Split(s', d), "", d);
      } else {
        JoinExtendLast(Split(s', d), c, d);
      }
    }
  }

  /** A string without the delimiter is a single piece. */
  lemma {:induction false} SplitWithoutDelimiter(s: string, d: char)
    requires d !in s
    ensures Split(s, d) == [s]
    decreases |s|
  {
    if |s| > 0 {
      SplitWithoutDelimiter(s[..|s| - 1], d);
      assert s[..|s| - 1] + [s[|s| - 1]] == s;
    }
  }

  /** `str::split_once(c)`: the text before and after the first occurrence. */
  function SplitOnce(s: string, c: char): (r: Option<(string, string)>)
    ensures r.None? <==> c !in s
    ensures r.Some? ==> r.value.0 + [c] + r.value.1 == s && c !in r.value.0
  {
    if |s| == 0 then None
    else if s[0] == c then (assert [s[0]] + s[1..] == s; Some(("", s[1..])))
    else match SplitOnce(s[1..], c)
      case None => None
      case Some((a, b)) => (assert [s[0]] + s[1..] == s; Some(([s[0]] + a, b)))
  }

  /** `str::rsplit_once(c)`: the text before and after the last occurrence. */
  function RSplitOnce(s: string, c: char): (r: Option<(string, string)>)
    ensures r.None? <==> c !in s
    ensures r.Some? ==> r.value.0 + [c] + r.value.1 == s && c !in r.value.1
  {
    if |s| == 0 then None
    else
      var init, last := s[..|s| - 1], s[|s| - 1];
      assert init + [last] == s;
      if last == c then Some((init, ""))
      else match RSplitOnce(init, c)
        case None => None
        case Some((a, b)) => Some((a, b + [last]))
  }

  /** Cutting at the last delimiter undoes joining at a delimiter when the
    * second part has none. */
  lemma {:induction false} RSplitOnceAt(a: string, b: string, c: char)
    requires c !in b
    ensures RSplitOnce(a + [c] + b, c) == Some((a, b))
    decreases |b|
  {
    var s := a + [c] + b;
    if |b| == 0 {
      assert s[..|s| - 1] == a;
    } else {
      var b', last := b[..|b| - 1], b[|b| - 1];
      assert s[..|s| - 1] == a + [c] + b';
      RSplitOnceAt(a, b', c);
      assert b' + [last] == b;
    }
  }

  /** Putting a piece in front of at least one other puts it and the
    * delimiter in front of the joined string. */
  lemma {:induction false} JoinPrepend(x: string, parts: seq<string>, d: char)
    requires |parts| >= 1
    ensures Join([x] + parts, d) == x + [d] + Join(parts, d)
    decreases |parts|
  {
    var all := [x] + parts;
    if |parts| == 1 {
      assert all[..1] == [x];
    } else {
      var init := parts[..|parts| - 1];
      JoinPrepend(x, init, d);
      assert all[..|all| - 1] == [x] + init;
      assert all[|all| - 1] == parts[|parts| - 1];
    }
  }

  /** Joining two non-empty runs of pieces joins each and puts the
    * delimiter between them. */
  lemma {:induction false} JoinConcat(a: seq<string>, b: seq<string>, d: char)
    requires |a| >= 1 && |b| >= 1
    ensures Join(a + b, d) == Join(a, d) + [d] + Join(b, d)
    decreases |b|
  {
    if |b| == 1 {
      JoinAppend(a, b[0], d);
      assert a + [b[0]] == a + b;
    } else {
      var init, last := b[..|b| - 1], b[|b| - 1];
      JoinConcat(a, init, d);
      JoinAppend(a + init, last, d);
      JoinAppend(init, last, d);
      assert (a + init) + [last] == a + b;
      assert init + [last] == b;
    }
  }

  /** A delimiter followed by a piece without one adds that piece. */
  lemma {:induction false} SplitAppendPiece(a: string, b: string, d: char)
    requires d !in b
    ensures Split(a + [d] + b, d) == Split(a, d) + [b]
    decreases |b|
  {
    var s := a + [d] + b;
    if |b| == 0 {
      assert s[..|s| - 1] == a;
    } else {
      var b', c := b[..|b| - 1], b[|b| - 1];
      assert s[..|s| - 1] == a + [d] + b';
      SplitAppendPiece(a, b', d);
      assert b' + [c] == b;
    }
  }

  /** One step of `Split`: the last character either closes a piece or
    * extends the last one. */
  lemma SplitLast(s: string, d: char)
    requires |s| > 0
    ensures s[|s| - 1] == d ==> Split(s, d) == Split(s[..|s| - 1], d) + [""]
    ensures s[|s| - 1] != d ==> Split(s, d) == ExtendLast(Split(s[..|s| - 1], d), s[|s| - 1])
  {
  }

  /** The pieces with one character added to the last. */
  function ExtendLast(parts: seq<string>, c: char): seq<string>
    requires |parts| >= 1
  {
    parts[..|parts| - 1] + [parts[|parts| - 1] + [c]]
  }

  /** Extending the last piece of a concatenation extends its second part. */
  lemma ExtendLastConcat(pa: seq<string>, pb: seq<string>, c: char)
    requires |pb| >= 1
    ensures ExtendLast(pa + pb, c) == pa + ExtendLast(pb, c)
  {
    assert (pa + pb)[..|pa + pb| - 1] == pa + pb[..|pb| - 1];
  }

  /** Splitting at a delimiter splits the text on each side of it. */
  lemma {:induction false} SplitConcat(a: string, b: string, d: char)
    ensures Split(a + [d] + b, d) == Split(a, d) + Split(b, d)
    decreases |b|
  {
    var s := a + [d] + b;
    SplitLast(s, d);
    if |b| == 0 {
      assert s[..|s| - 1] == a;
    } else {
      var b', c := b[..|b| - 1], b[|b| - 1];
      assert s[..|s| - 1] == a + [d] + b';
      assert s[|s| - 1] == c;
      SplitConcat(a, b', d);
      SplitLast(b, d);
      var pa, pb := Split(a, d), Split(b', d);
      if c == d {
        assert (pa + pb) + [""] == pa + (pb + [""]);
      } else {
        ExtendLastConcat(pa, pb, c);
      }
    }
  }

  /** Splitting what was joined gives back pieces that hold no delimiter. */
  lemma {:induction false} SplitJoin(parts: seq<string>, d: char)
    requires |parts| >= 1 && forall i :: 0 <= i < |parts| ==> d !in parts[i]
    ensures Split(Join(parts, d), d) == parts
    decreases |parts|
  {
    if |parts| == 1 {
      SplitWithoutDelimiter(parts[0], d);
    } else {
      var init := parts[..|parts| - 1];
      SplitJoin(init, d);
      SplitAppendPiece(Join(init, d), parts[|parts| - 1], d);
      assert init + [parts[|parts| - 1]] == parts;
    }
  }

  predicate IsDigit(c: char) { '0' <= c <= '9' }

  function DigitValue(c: char): nat
    requires IsDigit(c)
  {
    (c as int) - ('0' as int)
  }

  /** The value of a run of decimal digits. */
  function DigitsValue(t: string): nat
    requires AllDigits(t)
  {
    if |t| == 0 then 0 else DigitsValue(t[..|t| - 1]) * 10 + DigitValue(t[|t| - 1])
  }

  /** The largest `usize` on a 64-bit target. */
  const UsizeMax: nat := 0xFFFF_FFFF_FFFF_FFFF

  /** `str::parse::<usize>`: one optional leading '+', then at least one
    * digit, and no overflow. */
  function ParseUsize(t: string): (r: Option<nat>)
    ensures r.Some? ==> r.value <= UsizeMax
  {
    var digits := if |t| > 0 && t[0] == '+' then t[1..] else t;
    if |digits| > 0 && AllDigits(digits) && DigitsValue(digits) <= UsizeMax
    then Some(DigitsValue(digits)) else None
  }

  predicate AllDigits(t: string)
  {
    forall i :: 0 <= i < |t| ==> IsDigit(t[i])
  }

  /** The decimal text of a number, as `format!("{}", n)` writes it. */
  function NatToString(n: nat): (t: string)
    ensures |t| > 0 && AllDigits(t)
  {
    var c := ('0' as int + n % 10) as char;
    if n < 10 then [c] else NatToString(n / 10) + [c]
  }

  /** `format!("{}", n)` parses back to `n`, and holds no character but digits. */
  lemma ParseNatToString(n: nat)
    requires n <= UsizeMax
    ensures ParseUsize(NatToString(n)) == Some(n)
    ensures forall c :: c in NatToString(n) ==> IsDigit(c)
  {
    DigitsOfNatToString(n);
  }

  lemma {:induction false} DigitsOfNatToString(n: nat)
    ensures DigitsValue(NatToString(n)) == n
  {
    var t := NatToString(n);
    if n >= 10 {
      DigitsOfNatToString(n / 10);
      assert t[..|t| - 1] == NatToString(n / 10);
    }
  }

  /** `char::is_whitespace`: the characters with the Unicode White_Space
    * property. */
  predicate IsWhitespace(c: char)
  {
    c == ' ' || '\t' <= c <= '\r' || c == '\U{85}' || c == '\U{A0}' || c == '\U{1680}' ||
    '\U{2000}' <= c <= '\U{200A}' || c == '\U{2028}' || c == '\U{2029}' || c == '\U{202F}' ||
    c == '\U{205F}' || c == '\U{3000}'
  }

  /** `str::trim_start`: the text from its first character that is not
    * whitespace. */
  function TrimStart(s: string): (r: string)
    ensures |r| <= |s|
  {
    if |s| > 0 && IsWhitespace(s[0]) then TrimStart(s[1..]) else s
  }

  /** What `trim_start` leaves is a suffix whose first character is not
    * whitespace, and all it takes off is whitespace. */
  lemma {:induction false} TrimStartIsSuffix(s: string)
    ensures var r := TrimStart(s);
            r == s[|s| - |r|..] && (|r| > 0 ==> !IsWhitespace(r[0])) &&
            forall i :: 0 <= i < |s| - |r| ==> IsWhitespace(s[i])
    decreases |s|
  {
    if |s| > 0 && IsWhitespace(s[0]) {
      TrimStartIsSuffix(s[1..]);
      var r := TrimStart(s);
      assert s[1..][|s| - 1 - |r|..] == s[|s| - |r|..];
      forall i | 0 <= i < |s| - |r| ensures IsWhitespace(s[i]) {
        if i > 0 {
          assert s[i] == s[1..][i - 1];
        }
      }
    }
  }

  /** `str::trim_end`: the text up to its last character that is not
    * whitespace. */
  function TrimEnd(s: string): (r: string)
    ensures |r| <= |s|
  {
    if |s| > 0 && IsWhitespace(s[|s| - 1]) then TrimEnd(s[..|s| - 1]) else s
  }

  /** What `trim_end` leaves is a prefix whose last character is not
    * whitespace, and all it takes off is whitespace. */
  lemma {:induction false} TrimEndIsPrefix(s: string)
    ensures var r := TrimEnd(s);
            r == s[..|r|] && (|r| > 0 ==> !IsWhitespace(r[|r| - 1])) &&
            forall i :: |r| <= i < |s| ==> IsWhitespace(s[i])
    decreases |s|
  {
    if |s| > 0 && IsWhitespace(s[|s| - 1]) {
      TrimEndIsPrefix(s[..|s| - 1]);
      var r := TrimEnd(s);
      assert s[..|s| - 1][..|r|] == s[..|r|];
      forall i | |r| <= i < |s| ensures IsWhitespace(s[i]) {
        if i < |s| - 1 {
          assert s[i] == s[..|s| - 1][i];
        }
      }
    }
  }

  /** `str::trim`: both ends. */
  function Trim(s: string): (r: string)
  {
    TrimEnd(TrimStart(s))
  }

  /** Where the trimmed text starts. */
  function TrimmedFrom(s: string): nat
  {
    |s| - |TrimStart(s)|
  }

  /** The trimmed text is the middle of the text: whitespace before it and
    * after it, none at either of its ends; it is empty exactly when the
    * text is all whitespace. */
  lemma TrimIsMiddle(s: string)
    ensures var k, r := TrimmedFrom(s), Trim(s);
            k + |r| <= |s| && r == s[k..k + |r|] &&
            (forall i :: 0 <= i < k ==> IsWhitespace(s[i])) &&
            (forall i :: k + |r| <= i < |s| ==> IsWhitespace(s[i]))
    ensures |Trim(s)| > 0 ==> !IsWhitespace(Trim(s)[0]) && !IsWhitespace(Trim(s)[|Trim(s)| - 1])
    ensures |Trim(s)| == 0 <==> forall i :: 0 <= i < |s| ==> IsWhitespace(s[i])
  {
    var t := TrimStart(s);
    var r := TrimEnd(t);
    var k := |s| - |t|;
    TrimStartIsSuffix(s);
    TrimEndIsPrefix(t);
    PrefixOfSuffix(s, k, |r|);
    forall i | k + |r| <= i < |s| ensures IsWhitespace(s[i]) {
      assert s[i] == t[i - k];
    }
    if |r| > 0 {
      assert r[0] == t[0];
    }
  }

  /** A prefix of a suffix is a slice. */
  lemma PrefixOfSuffix(s: string, k: nat, n: nat)
    requires k + n <= |s|
    ensures s[k..][..n] == s[k..k + n]
  {
  }

  /** Trimming twice is trimming once. */
  lemma TrimIdempotent(s: string)
    ensures Trim(Trim(s)) == Trim(s)
  {
    var r := Trim(s);
    TrimIsMiddle(s);
    if |r| > 0 {
      assert TrimStart(r) == r;
      assert TrimEnd(r) == r;
    }
  }

  /** A text with no whitespace at either end is its own trim. */
  lemma TrimUntouched(s: string)
    requires |s| > 0 ==> !IsWhitespace(s[0]) && !IsWhitespace(s[|s| - 1])
    ensures Trim(s) == s
  {
    assert TrimStart(s) == s;
  }

  /** Cutting at the first delimiter undoes joining at a delimiter when the
    * first part has none. */
  lemma {:induction false} SplitOnceAt(a: string, b: string, c: char)
    requires c !in a
    ensures SplitOnce(a + [c] + b, c) == Some((a, b))
    decreases |a|
  {
    var s := a + [c] + b;
    if |a| > 0 {
      assert s[1..] == a[1..] + [c] + b;
      SplitOnceAt(a[1..], b, c);
      assert [a[0]] + a[1..] == a;
    } else {
      assert s[1..] == b;
    }
  }
}
