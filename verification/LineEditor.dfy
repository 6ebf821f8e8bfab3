/** The text box `InputBoxModule` as values: the text, what is drawn, the cursor, and the two flags.
    Widths come from an arbitrary function (nothing says a longer text is wider).

    The reference is a two-part editor, the text before and behind the cursor. `FollowsIff` says
    over which runs the box is that editor, and `DrawnTextIff` over which runs it draws its text.
    Both hold if the text is only reset while the box is inactive (`RunRefines`); resetting an
    active box can break either alone. */
module LineEditor {

  /** The width of a drawn text, the room for it, and the placeholder. */
  datatype Style = Style(width: string -> real, room: real, hint: string)

  datatype Box = Box(text: string, shown: string, cursor: nat, first: bool, active: bool)

  datatype Event =
    | SetActive(on: bool)
    | SetVal(val: string)
    | Reset
    | TextEntered(code: nat)
    | Left
    | Right
    | Backspace
    | OtherEvent

  function Init(st: Style): Box { Box("", st.hint, 0, true, false) }

  function Truncated(st: Style, s: string): (r: string)
    decreases |s|
  {
    if s != "" && st.width(s) > st.room then Truncated(st, s[..|s| - 1]) else s
  }

  predicate Printable(code: nat) { 32 < code <= 126 }

  function Insert(text: string, at: nat, c: char): string {
    if at < |text| then text[..at] + [c] + text[at..] else text + [c]
  }

  function Type(st: Style, b: Box, c: char): Box {
    if st.width(b.shown) >= st.room then b
    else
      var text := Insert(b.text, b.cursor, c);
      b.(text := text, shown := text, cursor := b.cursor + 1)
  }

  function Erase(b: Box): Box {
    if b.cursor == 0 || b.cursor > |b.text| then b
    else
      var text := b.text[..b.cursor - 1] + b.text[b.cursor..];
      b.(text := text, shown := text, cursor := b.cursor - 1)
  }

  function Step(st: Style, b: Box, ev: Event): Box {
    match ev
    case SetActive(on) =>
      if on && b.first then Box(b.text, "", 0, false, true) else b.(active := on)
    case SetVal(val) =>
      var text := Truncated(st, val);
      Box(text, text, |text|, false, b.active)
    case Reset => Box("", st.hint, 0, true, b.active)
    case TextEntered(code) => if b.active && Printable(code) then Type(st, b, code as char) else b
    case Left => if b.active && b.cursor > 0 then b.(cursor := b.cursor - 1) else b
    case Right => if b.active && b.cursor < |b.text| then b.(cursor := b.cursor + 1) else b
    case Backspace => if b.active then Erase(b) else b
    case OtherEvent => b
  }

  function Run(st: Style, b: Box, evs: seq<Event>): Box
    decreases |evs|
  {
    if evs == [] then b else Run(st, Step(st, b, evs[0]), evs[1..])
  }

  /** An active box with room takes exactly the codes 33 to 126, at the cursor; any other box and
      any other code (a space, for one) leave it as it is. */
  lemma TypesExactly(st: Style, b: Box, code: nat)
    requires b.cursor <= |b.text|
    ensures var b' := Step(st, b, TextEntered(code));
      if b.active && st.width(b.shown) < st.room && 33 <= code <= 126 then
        var text := b.text[..b.cursor] + [code as char] + b.text[b.cursor..];
        b' == Box(text, text, b.cursor + 1, b.first, true)
      else b' == b
  {
    if b.cursor == |b.text| {
      assert b.text[b.cursor..] == [];
    }
  }

  // ---------------------------------------------------------------- truncation

  predicate Fits(st: Style, s: string) { st.width(s) <= st.room }

  /** setInputVal keeps the longest prefix that fits, or nothing when none does: whatever widths
      are, every longer prefix is too wide. */
  lemma {:induction false} TruncatedIsLongestFit(st: Style, s: string)
    ensures var r := Truncated(st, s);
      && r <= s && (Fits(st, r) || r == "")
      && forall n :: |r| < n <= |s| ==> !Fits(st, s[..n])
    decreases |s|
  {
    if s != "" && !Fits(st, s) {
      var t := s[..|s| - 1];
      TruncatedIsLongestFit(st, t);
      forall n | |Truncated(st, s)| < n <= |s| ensures !Fits(st, s[..n]) {
        if n < |s| {
          assert s[..n] == t[..n];
        } else {
          assert s[..n] == s;
        }
      }
    } else {
      assert s[..|s|] == s;
    }
  }

  /** No other string has that property. */
  lemma LongestFitIsUnique(st: Style, s: string, r: string)
    requires r <= s && (Fits(st, r) || r == "")
    requires forall n :: |r| < n <= |s| ==> !Fits(st, s[..n])
    ensures r == Truncated(st, s)
  {
    TruncatedIsLongestFit(st, s);
    var t := Truncated(st, s);
    assert s[..|r|] == r && s[..|t|] == t;
    assert |r| >= |t| && |t| >= |r|;
  }

  // ---------------------------------------------------------------- the cursor

  /** For every event sequence whatsoever, the cursor stays within the text. */
  lemma {:induction false} CursorInText(st: Style, b: Box, evs: seq<Event>)
    requires b.cursor <= |b.text|
    ensures Run(st, b, evs).cursor <= |Run(st, b, evs).text|
    decreases |evs|
  {
    if evs != [] {
      CursorInText(st, Step(st, b, evs[0]), evs[1..]);
    }
  }

  // ---------------------------------------------------------------- the two-part editor

  datatype Zip = Zip(left: string, right: string, active: bool)

  function ZipStep(st: Style, z: Zip, ev: Event): Zip {
    match ev
    case SetActive(on) => z.(active := on)
    case SetVal(val) => z.(left := Truncated(st, val), right := "")
    case Reset => z.(left := "", right := "")
    case TextEntered(code) =>
      if z.active && Printable(code) && st.width(z.left + z.right) < st.room
      then z.(left := z.left + [code as char]) else z
    case Left =>
      if z.active && z.left != ""
      then z.(left := z.left[..|z.left| - 1], right := [z.left[|z.left| - 1]] + z.right) else z
    case Right =>
      if z.active && z.right != "" then z.(left := z.left + [z.right[0]], right := z.right[1..]) else z
    case Backspace => if z.active && z.left != "" then z.(left := z.left[..|z.left| - 1]) else z
    case OtherEvent => z
  }

  function ZipRun(st: Style, z: Zip, evs: seq<Event>): Zip
    decreases |evs|
  {
    if evs == [] then z else ZipRun(st, ZipStep(st, z, evs[0]), evs[1..])
  }

  function Split(b: Box): Zip
    requires b.cursor <= |b.text|
  {
    Zip(b.text[..b.cursor], b.text[b.cursor..], b.active)
  }

  /** The box does to its two parts what the editor does. */
  predicate Follows(st: Style, b: Box, ev: Event)
    requires b.cursor <= |b.text|
  {
    Split(Step(st, b, ev)) == ZipStep(st, Split(b), ev)
  }

  /** Activating a box that counts as untouched although its cursor has moved puts the cursor back;
      and a typed character is judged by the width of what is drawn, not of the text. */
  predicate Strays(st: Style, b: Box, ev: Event) {
    || (ev.SetActive? && ev.on && b.first && b.cursor != 0)
    || (ev.TextEntered? && b.active && Printable(ev.code)
        && (st.width(b.shown) < st.room) != (st.width(b.text) < st.room))
  }

  lemma TypeFollowsIff(st: Style, b: Box, code: nat)
    requires b.cursor <= |b.text|
    ensures Follows(st, b, TextEntered(code)) <==> !Strays(st, b, TextEntered(code))
  {
    var z := Split(b);
    assert z.left + z.right == b.text;
    if b.active && Printable(code) && st.width(b.shown) < st.room {
      var b' := Type(st, b, code as char);
      assert b'.text == b.text[..b.cursor] + [code as char] + b.text[b.cursor..];
      assert Split(b') == z.(left := z.left + [code as char]);
    }
  }

  lemma EraseFollows(st: Style, b: Box)
    requires b.cursor <= |b.text|
    ensures Follows(st, b, Backspace)
  {
    var z := Split(b);
    if b.active && b.cursor > 0 {
      assert Erase(b).text[..b.cursor - 1] == z.left[..|z.left| - 1];
      assert Erase(b).text[b.cursor - 1..] == z.right;
    }
  }

  lemma LeftFollows(st: Style, b: Box)
    requires b.cursor <= |b.text|
    ensures Follows(st, b, Left)
  {
    if b.active && b.cursor > 0 {
      var c := b.cursor - 1;
      assert b.text[..c] == b.text[..b.cursor][..c];
      assert b.text[c..] == [b.text[..b.cursor][c]] + b.text[b.cursor..];
    }
  }

  lemma RightFollows(st: Style, b: Box)
    requires b.cursor <= |b.text|
    ensures Follows(st, b, Right)
  {
    if b.active && b.cursor < |b.text| {
      var c := b.cursor + 1;
      assert b.text[..c] == b.text[..b.cursor] + [b.text[b.cursor..][0]];
      assert b.text[c..] == b.text[b.cursor..][1..];
    }
  }

  lemma ActivateFollowsIff(st: Style, b: Box, on: bool)
    requires b.cursor <= |b.text|
    ensures Follows(st, b, SetActive(on)) <==> !Strays(st, b, SetActive(on))
  {
    assert on && b.first ==> |Split(Step(st, b, SetActive(on))).left| == 0;
    assert b.cursor == 0 ==> b.text[0..] == b.text;
  }

  lemma StepFollowsIff(st: Style, b: Box, ev: Event)
    requires b.cursor <= |b.text|
    ensures Follows(st, b, ev) <==> !Strays(st, b, ev)
  {
    match ev
    case SetActive(on) => ActivateFollowsIff(st, b, on);
    case TextEntered(code) => TypeFollowsIff(st, b, code);
    case Backspace => EraseFollows(st, b);
    case Left => LeftFollows(st, b);
    case Right => RightFollows(st, b);
    case _ =>
  }

  /** At every point of the run the box is the editor z. */
  predicate AlwaysFollows(st: Style, b: Box, z: Zip, evs: seq<Event>)
    decreases |evs|
  {
    && b.cursor <= |b.text| && Split(b) == z
    && (evs != [] ==> AlwaysFollows(st, Step(st, b, evs[0]), ZipStep(st, z, evs[0]), evs[1..]))
  }

  predicate NeverStrays(st: Style, b: Box, evs: seq<Event>)
    decreases |evs|
  {
    evs != [] ==> !Strays(st, b, evs[0]) && NeverStrays(st, Step(st, b, evs[0]), evs[1..])
  }

  /** Over every event sequence: the box is the two-part editor at every point exactly if no step
      strays. */
  lemma {:induction false} FollowsIff(st: Style, b: Box, evs: seq<Event>)
    requires b.cursor <= |b.text|
    ensures AlwaysFollows(st, b, Split(b), evs) <==> NeverStrays(st, b, evs)
    decreases |evs|
  {
    if evs != [] {
      StepFollowsIff(st, b, evs[0]);
      CursorInText(st, b, evs[..1]);
      if !Strays(st, b, evs[0]) {
        FollowsIff(st, Step(st, b, evs[0]), evs[1..]);
      }
    }
  }

  lemma {:induction false} AlwaysFollowsEnds(st: Style, b: Box, z: Zip, evs: seq<Event>)
    requires AlwaysFollows(st, b, z, evs)
    ensures Run(st, b, evs).cursor <= |Run(st, b, evs).text| && Split(Run(st, b, evs)) == ZipRun(st, z, evs)
    decreases |evs|
  {
    if evs != [] {
      AlwaysFollowsEnds(st, Step(st, b, evs[0]), ZipStep(st, z, evs[0]), evs[1..]);
    }
  }

  /** The placeholder stands for an empty text in an inactive box; otherwise the text is drawn. */
  predicate Faithful(st: Style, b: Box) {
    && b.cursor <= |b.text|
    && if b.first then !b.active && b.text == "" && b.shown == st.hint else b.shown == b.text
  }

  /** Resets happen only while the box is inactive. */
  predicate ResetsInactive(st: Style, b: Box, evs: seq<Event>)
    decreases |evs|
  {
    evs != [] ==> (evs[0].Reset? ==> !b.active) && ResetsInactive(st, Step(st, b, evs[0]), evs[1..])
  }

  lemma FaithfulKept(st: Style, b: Box, ev: Event)
    requires Faithful(st, b) && (ev.Reset? ==> !b.active)
    ensures Faithful(st, Step(st, b, ev)) && !Strays(st, b, ev)
  {
  }

  /** What one step from b to b' is to the editor. */
  predicate Obeys(st: Style, b: Box, ev: Event, b': Box)
    requires b.cursor <= |b.text|
  {
    && b'.cursor <= |b'.text|
    && (Split(b') == ZipStep(st, Split(b), ev) <==> !Strays(st, b, ev))
    && (Faithful(st, b) && (ev.Reset? ==> !b.active) ==> Faithful(st, b') && !Strays(st, b, ev))
  }

  lemma StepObeys(st: Style, b: Box, ev: Event)
    requires b.cursor <= |b.text|
    ensures Obeys(st, b, ev, Step(st, b, ev))
  {
    StepFollowsIff(st, b, ev);
    if Faithful(st, b) && (ev.Reset? ==> !b.active) {
      FaithfulKept(st, b, ev);
    }
  }

  lemma {:induction false} FaithfulRun(st: Style, b: Box, evs: seq<Event>)
    requires Faithful(st, b) && ResetsInactive(st, b, evs)
    ensures Faithful(st, Run(st, b, evs)) && NeverStrays(st, b, evs)
    decreases |evs|
  {
    if evs != [] {
      FaithfulKept(st, b, evs[0]);
      FaithfulRun(st, Step(st, b, evs[0]), evs[1..]);
    }
  }

  /** In particular over every event sequence that resets the box only while it is inactive; and
      then the drawn string is the text unless the placeholder stands for an empty one. */
  lemma RunRefines(st: Style, b: Box, evs: seq<Event>)
    requires Faithful(st, b) && ResetsInactive(st, b, evs)
    ensures AlwaysFollows(st, b, Split(b), evs)
    ensures Faithful(st, Run(st, b, evs)) && Split(Run(st, b, evs)) == ZipRun(st, Split(b), evs)
  {
    FaithfulRun(st, b, evs);
    FollowsIff(st, b, evs);
    AlwaysFollowsEnds(st, b, Split(b), evs);
  }

  // ---------------------------------------------------------------- resets of an active box

  /** What is drawn is the text, or the placeholder for an empty one. */
  predicate DrawsText(st: Style, b: Box) { b.shown == b.text || (b.text == "" && b.shown == st.hint) }

  predicate AlwaysDrawsText(st: Style, b: Box, evs: seq<Event>)
    decreases |evs|
  {
    DrawsText(st, b) && (evs != [] ==> AlwaysDrawsText(st, Step(st, b, evs[0]), evs[1..]))
  }

  /** Activating a box that still counts as untouched although it holds text. */
  predicate Hides(b: Box, ev: Event) { ev.SetActive? && ev.on && b.first && b.text != "" }

  predicate NeverHides(st: Style, b: Box, evs: seq<Event>)
    decreases |evs|
  {
    evs != [] ==> !Hides(b, evs[0]) && NeverHides(st, Step(st, b, evs[0]), evs[1..])
  }

  lemma StepDrawsTextIff(st: Style, b: Box, ev: Event)
    requires DrawsText(st, b)
    ensures DrawsText(st, Step(st, b, ev)) <==> !Hides(b, ev)
  {
  }

  /** Over every event sequence, the drawn string keeps matching the text exactly if the box is
      never activated while it is marked untouched but holds text. */
  lemma {:induction false} DrawnTextIff(st: Style, b: Box, evs: seq<Event>)
    requires DrawsText(st, b)
    ensures AlwaysDrawsText(st, b, evs) <==> NeverHides(st, b, evs)
    decreases |evs|
  {
    if evs != [] {
      StepDrawsTextIff(st, b, evs[0]);
      var b' := Step(st, b, evs[0]);
      if DrawsText(st, b') {
        DrawnTextIff(st, b', evs[1..]);
      }
    }
  }

  /** Activate, reset, type one character, click again: the text is there but not drawn, and the
      cursor is back at its start. */
  lemma ResetWhileActiveHidesText(st: Style, code: nat)
    requires Printable(code) && st.width(st.hint) < st.room
    ensures Run(st, Init(st), [SetActive(true), Reset, TextEntered(code), SetActive(true)])
         == Box([code as char], "", 0, false, true)
  {
    var b1 := Step(st, Init(st), SetActive(true));
    var b2 := Step(st, b1, Reset);
    var b3 := Step(st, b2, TextEntered(code));
    assert b3.text == [code as char];
    var evs := [SetActive(true), Reset, TextEntered(code), SetActive(true)];
    assert Run(st, Init(st), evs) == Run(st, b1, evs[1..]) == Run(st, b2, evs[1..][1..])
        == Run(st, b3, evs[1..][1..][1..]) == Run(st, Step(st, b3, SetActive(true)), evs[1..][1..][1..][1..]);
  }

  /** Activate, reset, type one character, under a placeholder that fills the box: all along the
      drawn string matches the text, but the box refuses the character that fits. */
  lemma ResetWhileActiveRefusesText(st: Style, code: nat)
    requires Printable(code) && st.width("") < st.room <= st.width(st.hint)
    ensures var evs := [SetActive(true), Reset, TextEntered(code)];
      && NeverHides(st, Init(st), evs) && AlwaysDrawsText(st, Init(st), evs)
      && Run(st, Init(st), evs).text == "" && ZipRun(st, Split(Init(st)), evs).left == [code as char]
  {
    var evs := [SetActive(true), Reset, TextEntered(code)];
    var b1 := Step(st, Init(st), SetActive(true));
    var b2 := Step(st, b1, Reset);
    assert Step(st, b2, TextEntered(code)) == b2 == Box("", st.hint, 0, true, true);
    assert Run(st, Init(st), evs) == Run(st, b1, evs[1..]) == Run(st, b2, evs[1..][1..])
        == Run(st, b2, evs[1..][1..][1..]);
    var z1, z2 := Zip("", "", true), Zip([code as char], "", true);
    assert ZipStep(st, z1, TextEntered(code)) == z2 by {
      assert z1.left + z1.right == "";
    }
    assert ZipRun(st, Split(Init(st)), evs) == ZipRun(st, z1, evs[1..]) == ZipRun(st, z1, evs[1..][1..])
        == ZipRun(st, z2, evs[1..][1..][1..]);
    assert NeverHides(st, b2, evs[1..][1..][1..]);
    assert NeverHides(st, b2, evs[1..][1..]);
    assert NeverHides(st, b1, evs[1..]);
    DrawnTextIff(st, Init(st), evs);
  }
}
