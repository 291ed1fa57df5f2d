/** The input box under the conversation: the text being typed, the submit guard that refuses a
    question made only of white space, and the rules that enable its two buttons. */
module ChatInput {
  import opened ChatTypes

  /** The characters `String.prototype.trim` removes: the white space and line terminators of
      ECMAScript (sections 12.2 and 12.3 of ECMA-262), the byte order mark included. */
  predicate IsJsWhitespace(c: char) {
    // tab, line feed, vertical tab, form feed, carriage return, space
    c == '\t' || c == '\n' || c == '\U{000B}' || c == '\U{000C}' || c == '\r' || c == ' ' ||
    // no-break space, ogham space mark, the spaces from en quad to hair space
    c == '\U{00A0}' || c == '\U{1680}' || ('\U{2000}' <= c <= '\U{200A}') ||
    // line and paragraph separators, narrow no-break, medium mathematical, ideographic space
    c == '\U{2028}' || c == '\U{2029}' || c == '\U{202F}' || c == '\U{205F}' || c == '\U{3000}' ||
    // zero width no-break space (byte order mark)
    c == '\U{FEFF}'
  }

  /** Every character of `s` is white space (the empty string included). */
  predicate IsBlank(s: string) {
    forall i :: 0 <= i < |s| ==> IsJsWhitespace(s[i])
  }

  /** The leading white space removed: what is left is a suffix of `s` that is empty or starts
      with a character that is not white space, and everything dropped was white space. */
  function TrimStart(s: string): (r: string)
    ensures |r| <= |s| && r == s[|s| - |r|..]
    ensures forall i :: 0 <= i < |s| - |r| ==> IsJsWhitespace(s[i])
    ensures r != [] ==> !IsJsWhitespace(r[0])
  {
    if s != [] && IsJsWhitespace(s[0]) then TrimStart(s[1..]) else s
  }

  /** The trailing white space removed: what is left is a prefix of `s` that is empty or ends
      with a character that is not white space, and everything dropped was white space. */
  function TrimEnd(s: string): (r: string)
    ensures |r| <= |s| && r == s[..|r|]
    ensures forall i :: |r| <= i < |s| ==> IsJsWhitespace(s[i])
    ensures r != [] ==> !IsJsWhitespace(r[|r| - 1])
  {
    if s != [] && IsJsWhitespace(s[|s| - 1]) then TrimEnd(s[..|s| - 1]) else s
  }

  /** `s.trim()`: both ends stripped of white space. */
  function Trim(s: string): (r: string)
    ensures |r| <= |s|
    ensures r != [] ==> !IsJsWhitespace(r[0]) && !IsJsWhitespace(r[|r| - 1])
  {
    TrimEnd(TrimStart(s))
  }

  /** A string trims to nothing exactly when it is made only of white space. */
  lemma TrimEmptyIff(s: string)
    ensures Trim(s) == [] <==> IsBlank(s)
  {
  }

  /** Trimming a trimmed string changes nothing. */
  lemma TrimIdempotent(s: string)
    ensures Trim(Trim(s)) == Trim(s)
  {
    var r := Trim(s);
    if r != [] {
      assert TrimStart(r) == r;
      assert TrimEnd(r) == r;
    }
  }

  /** Which of the box's two buttons can be clicked. */
  datatype Buttons = Buttons(sendEnabled: bool, reformulateEnabled: bool)

  /** `disabled={!input.trim() || disabled}` on the send button and `disabled={disabled}` on the
      reformulate button: sending needs something other than white space typed, reformulating
      only needs the box to be enabled. */
  function ButtonsFor(input: string, disabled: bool): (r: Buttons)
    ensures r.sendEnabled <==> !IsBlank(input) && !disabled
    ensures r.reformulateEnabled <==> !disabled
  {
    TrimEmptyIff(input);
    Buttons(!(Trim(input) == [] || disabled), !disabled)
  }

  /** Whenever sending is possible so is reformulating, and an enabled send button is clicked on
      an input that trims to something. */
  lemma SendEnabledImpliesReformulate(input: string, disabled: bool)
    ensures ButtonsFor(input, disabled).sendEnabled ==> ButtonsFor(input, disabled).reformulateEnabled
    ensures ButtonsFor(input, disabled).sendEnabled ==> Trim(input) != []
  {
    TrimEmptyIff(input);
  }

  /** The controlled input's state. */
  class InputBox {
    var input: string

    /** The box starts empty. */
    constructor ()
      ensures input == ""
    {
      input := "";
    }

    /** `onChange`: the typed value replaces the state. */
    method Change(value: string)
      modifies this
      ensures input == value
    {
      input := value;
    }

    /** `handleSubmit`: a blank input is neither sent nor cleared; any other input is sent as
        typed, untrimmed, and the box is emptied. */
    method Submit() returns (sent: Option<string>)
      modifies this
      ensures IsBlank(old(input)) ==> sent == None && input == old(input)
      ensures !IsBlank(old(input)) ==> sent == Some(old(input)) && input == ""
      // a question is sent once: right after a send, a second submit is refused
      ensures sent.Some? ==> IsBlank(input)
    {
      TrimEmptyIff(input);
      if Trim(input) != [] {
        sent := Some(input);
        input := "";
      } else {
        sent := None;
      }
    }
  }
}
