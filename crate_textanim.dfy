/** crate/src/textanim.rs: `TextAnimator`, which shows a text through a
  * time-dependent function, and the deterministic animation functions
  * (typing with an underscore or a bar cursor, sliding in from the
  * centre). Text is taken to be ASCII, so that a character count and a
  * byte length agree. */
module CrateTextAnim {
  import S = Strings

  function Min(a: real, b: real): real { if a <= b then a else b }

  // ---------------------------------------------------------------------
  // Typing

  /** `(t * len as f32).floor() as usize`, capped at `len`; the cast of a
    * negative number gives 0. */
  function Visible(t: real, n: nat): (k: nat)
    ensures k <= n
    ensures t <= 0.0 ==> k == 0
    ensures t >= 1.0 ==> k == n
    ensures 0 < k < n ==> k as real <= t * n as real < k as real + 1.0
    ensures k < n ==> t * n as real < k as real + 1.0
  {
    var f := (t * n as real).Floor;
    MulBounds(t, n);
    if f < 0 then 0 else if f > n then n else f
  }

  lemma MulBounds(t: real, n: nat)
    ensures t <= 0.0 ==> t * n as real <= 0.0
    ensures t >= 1.0 ==> t * n as real >= n as real
  {
    if t >= 1.0 {
      assert t * n as real == n as real + (t - 1.0) * n as real;
    }
  }

  /** The typing animations: the first `Visible` characters followed by
    * the cursor, or the whole text once every character is visible. */
  function Typing(t: real, text: string, cursor: char): (r: string)
    ensures r == text || (0 < |r| <= |text| && r[..|r| - 1] == text[..|r| - 1] && r[|r| - 1] == cursor)
  {
    var k := Visible(t, |text|);
    if k < |text| then text[..k] + [cursor] else text
  }

  /** `typing_animation_underscore`. */
  function TypingUnderscore(t: real, text: string): (r: string)
    ensures r == text || (0 < |r| <= |text| && r[..|r| - 1] == text[..|r| - 1] && r[|r| - 1] == '_')
    ensures |text| > 0 && t <= 0.0 ==> r == "_"
    ensures t >= 1.0 ==> r == text
  {
    Typing(t, text, '_')
  }

  /** `typing_animation_cursor`. */
  function TypingCursor(t: real, text: string): (r: string)
    ensures r == text || (0 < |r| <= |text| && r[..|r| - 1] == text[..|r| - 1] && r[|r| - 1] == '|')
    ensures |text| > 0 && t <= 0.0 ==> r == "|"
    ensures t >= 1.0 ==> r == text
  {
    Typing(t, text, '|')
  }

  /** At the start a non-empty text shows only the cursor; from progress 1
    * on it shows the text. */
  lemma TypingEnds(text: string, cursor: char, t: real)
    ensures |text| > 0 && t <= 0.0 ==> Typing(t, text, cursor) == [cursor]
    ensures t >= 1.0 ==> Typing(t, text, cursor) == text
  {
  }

  /** Later progress shows at least as much of the text. */
  lemma TypingGrows(text: string, cursor: char, t1: real, t2: real)
    requires t1 <= t2
    ensures Visible(t1, |text|) <= Visible(t2, |text|)
  {
    var n := |text| as real;
    MulMonotone(t1, t2, n);
    FloorMonotone(t1 * n, t2 * n);
  }

  lemma MulMonotone(x: real, y: real, n: real)
    requires x <= y && n >= 0.0
    ensures x * n <= y * n
  {
    var d := y - x;
    assert y * n == x * n + d * n;
    assert d * n >= 0.0;
  }

  lemma FloorMonotone(x: real, y: real)
    requires x <= y
    ensures x.Floor <= y.Floor
  {
    assert x.Floor as real <= x && y < y.Floor as real + 1.0;
  }

  // ---------------------------------------------------------------------
  // Sliding in

  /** `usize::abs_diff`. */
  function AbsDiff(a: nat, b: nat): nat
  {
    if a >= b then a - b else b - a
  }

  /** One character of `slide_in_animation` at index `i` with `center` the
    * half length: its progress is `2t - distance / center`; with a centre
    * of 0 that division is 0 / 0, whose NaN fails both comparisons. */
  function SlideChar(t: real, center: nat, i: nat, c: char): (r: char)
    ensures r == c || r == '_' || r == ' '
    ensures t <= 0.0 ==> r == ' '
    ensures center > 0 && i <= 2 * center && t >= 1.0 ==> r == c
    ensures center > 0 && i == center && t > 0.0 ==> r == c || r == '_'
  {
    if center == 0 then ' '
    else
      var d := AbsDiff(center, i) as real / center as real;
      assert d >= 0.0;
      assert i <= 2 * center ==> d <= 1.0;
      var progress := t * 2.0 - d;
      if progress >= 1.0 then c else if progress > 0.0 then '_' else ' '
  }

  /** `slide_in_animation`: each character shown, sliding in or blank. */
  function SlideIn(t: real, text: string): (r: string)
    ensures |r| == |text|
    ensures forall i :: 0 <= i < |r| ==> r[i] == text[i] || r[i] == '_' || r[i] == ' '
  {
    seq(|text|, i requires 0 <= i < |text| => SlideChar(t, |text| / 2, i, text[i]))
  }

  /** The loop of `slide_in_animation`, pushing one character at a time. */
  method SlideInLoop(t: real, text: string) returns (result: string)
    ensures result == SlideIn(t, text)
  {
    result := [];
    var center := |text| / 2;
    var i := 0;
    while i < |text|
      invariant 0 <= i <= |text|
      invariant result == SlideIn(t, text)[..i]
    {
      var progress: real;
      var c: char;
      if center == 0 {
        c := ' ';
      } else {
        var distance := if center >= i then center - i else i - center;
        progress := t * 2.0 - distance as real / center as real;
        if progress >= 1.0 {
          c := text[i];
        } else if progress > 0.0 {
          c := '_';
        } else {
          c := ' ';
        }
      }
      assert c == SlideIn(t, text)[i];
      result := result + [c];
      i := i + 1;
    }
  }

  /** No character is further from the centre than the centre is from the
    * start. */
  lemma DistanceWithinCenter(n: nat, i: nat)
    requires i < n
    ensures AbsDiff(n / 2, i) <= n / 2
  {
  }

  /** From progress 1 on, a text of two or more characters is shown whole;
    * at progress 0 or before, it is blank. */
  lemma {:induction false} SlideInEnds(text: string, t: real)
    requires |text| >= 2
    ensures t >= 1.0 ==> SlideIn(t, text) == text
    ensures t <= 0.0 ==> forall i :: 0 <= i < |text| ==> SlideIn(t, text)[i] == ' '
  {
    var center := |text| / 2;
    forall i | 0 <= i < |text|
      ensures t >= 1.0 ==> SlideIn(t, text)[i] == text[i]
      ensures t <= 0.0 ==> SlideIn(t, text)[i] == ' '
    {
      DistanceWithinCenter(|text|, i);
      DivAtMostOne(AbsDiff(center, i), center);
    }
  }

  lemma DivAtMostOne(x: nat, c: nat)
    requires 0 < c && x <= c
    ensures 0.0 <= x as real / c as real <= 1.0
  {
    assert x as real / c as real * c as real == x as real;
  }

  /** A text of at most one character is blank whatever the progress. */
  lemma SlideInShortIsBlank(text: string, t: real)
    requires |text| <= 1
    ensures forall i :: 0 <= i < |text| ==> SlideIn(t, text)[i] == ' '
  {
  }

  // ---------------------------------------------------------------------
  // The animator

  /** `DurationMode`: a speed in characters per second, or a duration for
    * the whole animation. */
  datatype DurationMode = CharSpeed(speed: real) | AnimDuration(duration: real)

  /** The fields of `TextAnimator` other than its function. */
  datatype Animator = Animator(text: string, counter: real, mode: DurationMode)

  /** What the counter runs up to: one more than the trimmed character
    * count, or the duration. */
  function End(a: Animator): real
  {
    match a.mode
    case CharSpeed(_) => 1.0 + |S.Trim(a.text)| as real
    case AnimDuration(d) => d
  }

  /** How far a tick of `dt` seconds moves the counter. */
  function Rate(a: Animator, dt: real): real
  {
    match a.mode
    case CharSpeed(speed) => dt * speed
    case AnimDuration(_) => dt
  }

  /** The counter step of one tick of the systems: it moves only while
    * below the end, and is capped at the end either way; the flag says
    * whether it moved. */
  function Advance(a: Animator, dt: real): (r: (Animator, bool))
    ensures r.0.text == a.text && r.0.mode == a.mode
    ensures r.1 <==> a.counter < End(a)
    ensures r.0.counter <= End(a)
    ensures r.1 ==> r.0.counter == Min(a.counter + Rate(a, dt), End(a))
    ensures !r.1 ==> r.0.counter == End(a) && (a.counter == End(a) ==> r.0 == a)
  {
    var moved := a.counter < End(a);
    var c := if moved then a.counter + Rate(a, dt) else a.counter;
    (a.(counter := Min(c, End(a))), moved)
  }

  /** The progress the function is called with. */
  function Progress(a: Animator): real
    requires End(a) != 0.0
  {
    a.counter / End(a)
  }

  /** `set_text_quiet`: the new text with the counter at its end. */
  function Quiet(a: Animator, text: string): (b: Animator)
    ensures b.text == text && b.mode == a.mode && b.counter == End(b)
  {
    var b := a.(text := text);
    b.(counter := End(b))
  }

  /** `TextAnimator::default`. */
  const DefaultAnimator := Animator("", 0.0, AnimDuration(5.0))

  /** `TextAnimator`: the component the system updates. */
  class TextAnimator {
    var text: string
    var animate: (real, string) -> string
    var counter: real
    var mode: DurationMode

    function State(): Animator
      reads this
    {
      Animator(text, counter, mode)
    }

    /** `TextAnimator::new`: the default animator with the given text. */
    constructor (t: string)
      ensures State() == DefaultAnimator.(text := t)
      ensures forall p, s :: animate(p, s) == TypingUnderscore(p, s)
    {
      text, counter, mode := t, 0.0, AnimDuration(5.0);
      animate := TypingUnderscore;
    }

    /** `set_text`: the new text, the animation from the start. */
    method SetText(t: string)
      modifies this
      ensures State() == old(State()).(text := t, counter := 0.0) && animate == old(animate)
    {
      text := t;
      counter := 0.0;
    }

    /** `set_text_quiet`: the new text, the animation at its end. */
    method SetTextQuiet(t: string)
      modifies this
      ensures State() == Quiet(old(State()), t) && animate == old(animate)
    {
      text := t;
      match mode
      case AnimDuration(duration) =>
        counter := duration;
      case CharSpeed(_) =>
        counter := 1.0 + |S.Trim(text)| as real;
    }

    /** `function`. */
    method SetFunction(f: (real, string) -> string)
      modifies this
      ensures State() == old(State()) && animate == f
    {
      animate := f;
    }

    /** `speed`. */
    method SetSpeed(speed: real)
      modifies this
      ensures State() == old(State()).(mode := CharSpeed(speed)) && animate == old(animate)
    {
      mode := CharSpeed(speed);
    }

    /** `duration`. */
    method SetDuration(duration: real)
      modifies this
      ensures State() == old(State()).(mode := AnimDuration(duration)) && animate == old(animate)
    {
      mode := AnimDuration(duration);
    }

    /** The body of `system_2d` (and `system_3d`) for one entity showing
      * `shown`: the counter step, then, if the counter moved, the text the
      * function gives for the new progress, which replaces the shown one
      * and asks for a layout recompute only when it differs. The progress
      * divides by the end only when the counter moves, that is, when it
      * was below the end. */
    method Update(dt: real, shown: string) returns (shown': string, recompute: bool)
      requires counter < End(State()) ==> End(State()) != 0.0
      modifies this
      ensures var (a, moved) := Advance(old(State()), dt);
              State() == a && animate == old(animate) &&
              (!moved ==> shown' == shown && !recompute) &&
              (moved ==> var n := animate(Progress(a), a.text); shown' == n && recompute == (n != shown))
    {
      var end := End(State());
      var rate := Rate(State(), dt);
      var modified := false;
      if counter < end {
        counter := counter + rate;
        modified := true;
      }
      counter := Min(counter, end);
      shown', recompute := shown, false;
      if !modified {
        return;
      }
      var newText := animate(counter / end, text);
      if newText != shown {
        shown', recompute := newText, true;
      }
    }
  }

  // ---------------------------------------------------------------------
  // Properties

  /** A quietly set text stays still: the next tick does not move the
    * counter, so nothing is shown anew. */
  lemma QuietIsStill(a: Animator, text: string, dt: real)
    ensures Advance(Quiet(a, text), dt) == (Quiet(a, text), false)
  {
  }

  /** A text set anew moves on the next tick whenever its end is positive. */
  lemma SetTextMoves(a: Animator, text: string, dt: real)
    requires End(a.(text := text)) > 0.0
    ensures Advance(a.(text := text, counter := 0.0), dt).1
  {
  }

  /** Counting characters, the end is positive. */
  lemma CharSpeedEndPositive(a: Animator)
    requires a.mode.CharSpeed?
    ensures End(a) >= 1.0
  {
  }

  /** Ticks of the same length. */
  function Ticks(a: Animator, dt: real, n: nat): Animator
    decreases n
  {
    if n == 0 then a else Ticks(Advance(a, dt).0, dt, n - 1)
  }

  /** `n` rates added up: `n * r` without the multiplication. */
  function Repeat(n: nat, r: real): real
  {
    if n == 0 then 0.0 else Repeat(n - 1, r) + r
  }

  lemma {:induction false} RepeatIsProduct(n: nat, r: real)
    ensures Repeat(n, r) == n as real * r
  {
    if n > 0 {
      RepeatIsProduct(n - 1, r);
      assert (n - 1) as real * r + r == n as real * r;
    }
  }

  /** The counter after `n` ticks that each move it by `r` toward the end
    * `e`, as `Advance` does. */
  function Climb(c: real, r: real, e: real, n: nat): real
    decreases n
  {
    if n == 0 then c else Climb(Min(if c < e then c + r else c, e), r, e, n - 1)
  }

  /** Ticks leave the text and the mode alone and move the counter as
    * `Climb` does. */
  lemma {:induction false} TicksClimb(a: Animator, dt: real, n: nat)
    ensures Ticks(a, dt, n) == a.(counter := Climb(a.counter, Rate(a, dt), End(a), n))
    decreases n
  {
    if n > 0 {
      var e, r := End(a), Rate(a, dt);
      var c := Min(if a.counter < e then a.counter + r else a.counter, e);
      var b := a.(counter := c);
      assert Advance(a, dt).0 == b;
      CounterIsApart(a, c, dt);
      TicksClimb(b, dt, n - 1);
    }
  }

  /** The end and the rate do not depend on the counter. */
  lemma CounterIsApart(a: Animator, c: real, dt: real)
    ensures End(a.(counter := c)) == End(a) && Rate(a.(counter := c), dt) == Rate(a, dt)
  {
  }

  /** From below the end, with a rate that is not negative, the counter
    * climbs to at least the smaller of the end and the start plus `n`
    * rates, and never past the end. */
  lemma {:induction false} ClimbReachesEnd(c: real, r: real, e: real, n: nat)
    requires c <= e && r >= 0.0
    ensures Min(c + Repeat(n, r), e) <= Climb(c, r, e, n) <= e
    decreases n
  {
    if n > 0 {
      var c' := Min(if c < e then c + r else c, e);
      assert c' == Min(c + r, e);
      ClimbReachesEnd(c', r, e, n - 1);
      RepeatNonNegative(n - 1, r);
      MinStep(c, e, r, Repeat(n - 1, r), c');
    }
  }

  /** With a rate that is not negative the counter climbs to its end and
    * stays there: after `n` ticks it is at least the smaller of the end
    * and the start plus `n` rates. */
  lemma TicksReachEnd(a: Animator, dt: real, n: nat)
    requires a.counter <= End(a) && Rate(a, dt) >= 0.0
    ensures Ticks(a, dt, n).counter >= Min(a.counter + Repeat(n, Rate(a, dt)), End(a))
    ensures Ticks(a, dt, n).counter <= End(a) && Ticks(a, dt, n).text == a.text && Ticks(a, dt, n).mode == a.mode
  {
    TicksClimb(a, dt, n);
    ClimbReachesEnd(a.counter, Rate(a, dt), End(a), n);
  }

  /** One capped step, then `rest` more, reaches at least as far as the
    * whole distance capped once. */
  lemma MinStep(c: real, e: real, r: real, rest: real, c': real)
    requires c <= e && r >= 0.0 && rest >= 0.0 && c' == Min(c + r, e)
    ensures Min(c' + rest, e) >= Min(c + (rest + r), e)
  {
  }

  lemma {:induction false} RepeatNonNegative(n: nat, r: real)
    requires r >= 0.0
    ensures Repeat(n, r) >= 0.0
  {
    if n > 0 {
      RepeatNonNegative(n - 1, r);
    }
  }

  /** Once the counter is at its end, the typing functions show the text. */
  lemma FinalFrameIsText(a: Animator)
    requires End(a) > 0.0 && a.counter == End(a)
    ensures TypingUnderscore(Progress(a), a.text) == a.text
    ensures TypingCursor(Progress(a), a.text) == a.text
  {
    var e := End(a);
    assert a.counter / e == 1.0;
  }
}
