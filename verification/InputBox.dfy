/** `InputBoxModule` as the object it is: fields that the widget's calls and events update in
    place. */
module InputBox {
  import opened LineEditor

  class InputBoxModule {
    const width: string -> real
    const boxWidth: real
    const defaultDesc: string
    var text: string
    var inputText: string
    var cursorPosition: nat
    var isActive: bool
    var first: bool

    ghost function Look(): Style { Style(width, boxWidth - 20.0, defaultDesc) }

    ghost function State(): Box
      reads this
    {
      Box(text, inputText, cursorPosition, first, isActive)
    }

    constructor (width: string -> real, boxWidth: real, defaultDesc: string)
      ensures Look() == Style(width, boxWidth - 20.0, defaultDesc) && State() == Init(Look())
    {
      this.width, this.boxWidth, this.defaultDesc := width, boxWidth, defaultDesc;
      text, inputText, cursorPosition, isActive, first := "", defaultDesc, 0, false, true;
    }

    method SetActive(active: bool)
      modifies this
      ensures State() == Step(Look(), old(State()), LineEditor.SetActive(active))
      ensures old(cursorPosition <= |text|) ==> Obeys(Look(), old(State()), LineEditor.SetActive(active), State())
    {
      if cursorPosition <= |text| {
        StepObeys(Look(), State(), LineEditor.SetActive(active));
      }
      isActive := active;
      if isActive && first {
        inputText := "";
        cursorPosition := 0;
        first := false;
      }
    }

    method TruncateText(s: string) returns (r: string)
      ensures r == Truncated(Look(), s)
      ensures r <= s && (width(r) <= boxWidth - 20.0 || r == "")
      ensures forall n :: |r| < n <= |s| ==> width(s[..n]) > boxWidth - 20.0
    {
      r := s;
      TruncatedIsLongestFit(Look(), s);
      while width(r) > boxWidth - 20.0 && |r| > 0
        invariant Truncated(Look(), r) == Truncated(Look(), s)
        decreases |r|
      {
        r := r[..|r| - 1];
      }
      assert forall n :: |r| < n <= |s| ==> !LineEditor.Fits(Look(), s[..n]);
    }

    method SetInputVal(val: string)
      modifies this
      ensures State() == Step(Look(), old(State()), SetVal(val))
      ensures old(cursorPosition <= |text|) ==> Obeys(Look(), old(State()), SetVal(val), State())
    {
      if cursorPosition <= |text| {
        StepObeys(Look(), State(), SetVal(val));
      }
      text := val;
      inputText := TruncateText(text);
      text := inputText;
      cursorPosition := |text|;
      first := false;
    }

    method ResetText()
      modifies this
      ensures State() == Step(Look(), old(State()), Reset)
      ensures old(cursorPosition <= |text|) ==> Obeys(Look(), old(State()), Reset, State())
    {
      if cursorPosition <= |text| {
        StepObeys(Look(), State(), Reset);
      }
      first := true;
      inputText := defaultDesc;
      text := "";
      cursorPosition := 0;
    }

    method GetEnterText() returns (out: string)
      modifies this
      ensures out == old(text) && State() == Step(Look(), old(State()), Reset)
    {
      out := text;
      ResetText();
    }

    method EventProcess(ev: Event)
      requires cursorPosition <= |text|
      requires !ev.SetActive? && !ev.SetVal? && !ev.Reset?
      modifies this
      ensures State() == Step(Look(), old(State()), ev) && cursorPosition <= |text|
      ensures Obeys(Look(), old(State()), ev, State())
    {
      StepObeys(Look(), State(), ev);
      if !isActive {
        return;
      }
      match ev
      case TextEntered(code) =>
        if 32 < code <= 126 && width(inputText) < boxWidth - 20.0 {
          if cursorPosition < |text| {
            text := text[..cursorPosition] + [code as char] + text[cursorPosition..];
          } else {
            text := text + [code as char];
          }
          cursorPosition := cursorPosition + 1;
          inputText := text;
        }
      case Left =>
        if cursorPosition > 0 {
          cursorPosition := cursorPosition - 1;
        }
      case Right =>
        if cursorPosition < |text| {
          cursorPosition := cursorPosition + 1;
        }
      case Backspace =>
        if cursorPosition > 0 {
          text := text[..cursorPosition - 1] + text[cursorPosition..];
          cursorPosition := cursorPosition - 1;
          inputText := text;
        }
      case OtherEvent =>
    }
  }
}
