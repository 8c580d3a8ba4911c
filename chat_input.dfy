/**
 * The message box (src/components/ChatInput.tsx): a draft the user edits, a
 * send button, and the keyboard shortcut. A submission hands the trimmed
 * draft to the page and clears the box; a blank draft, or a box disabled
 * while a reply streams, sends nothing and keeps the draft.
 */
module ChatInputForm {
  import opened ChatTypes
  import opened Text

  /**
   * What a submission hands to `onSend`: the trimmed draft, exactly when the
   * draft is not all whitespace and the box is enabled.
   */
  function SubmitResult(draft: string, disabled: bool): (sent: Option<string>)
    ensures sent.Some? <==> !Blank(draft) && !disabled
    ensures sent.Some? ==> sent.value == Trim(draft)
  {
    if Trim(draft) != "" && !disabled then Some(Trim(draft)) else None
  }

  /** The send button's `disabled` attribute. */
  predicate SendButtonDisabled(draft: string, disabled: bool) {
    Trim(draft) == "" || disabled
  }

  /** Enter without Shift submits; Shift+Enter is left to insert a line break. */
  predicate SubmitsOnKey(key: string, shiftKey: bool) {
    key == "Enter" && !shiftKey
  }

  /** The button is enabled exactly when a click would send something. */
  lemma ButtonMatchesSubmit(draft: string, disabled: bool)
    ensures SendButtonDisabled(draft, disabled) <==> SubmitResult(draft, disabled).None?
  {
  }

  /**
   * What is sent is a non-empty factor of the draft that neither begins nor
   * ends with whitespace, cut out of whitespace-only margins, and trimming it
   * again changes nothing.
   */
  lemma SentTextIsTrimmed(draft: string, disabled: bool)
    requires SubmitResult(draft, disabled).Some?
    ensures var text := SubmitResult(draft, disabled).value;
      && text != ""
      && !IsWhitespace(text[0]) && !IsWhitespace(text[|text| - 1])
      && Trim(text) == text
      && exists i :: 0 <= i <= |draft| - |text| && text == draft[i..i + |text|]
           && Blank(draft[..i]) && Blank(draft[i + |text|..])
  {
    TrimIsFactor(draft);
    TrimIdempotent(draft);
  }

  /** Surrounding whitespace does not change what is sent. */
  lemma SubmitIgnoresMargins(pre: string, draft: string, post: string, disabled: bool)
    requires Blank(pre) && Blank(post)
    ensures SubmitResult(pre + draft + post, disabled) == SubmitResult(draft, disabled)
  {
    TrimMargins(pre, draft, post);
  }

  class ChatInput {
    /** The text area's content. */
    var message: string

    constructor ()
      ensures message == ""
    {
      message := "";
    }

    /** The text area's `onChange`: the draft becomes the new value. */
    method OnChange(value: string)
      modifies this
      ensures message == value
    {
      message := value;
    }

    /**
     * The form's `onSubmit`: sends the trimmed draft and clears the box, or
     * does nothing at all.
     */
    method HandleSubmit(disabled: bool) returns (sent: Option<string>)
      modifies this
      ensures sent == SubmitResult(old(message), disabled)
      ensures message == if sent.Some? then "" else old(message)
    {
      var trimmed := Trim(message);
      if trimmed != "" && !disabled {
        sent := Some(trimmed);
        message := "";
      } else {
        sent := None;
      }
    }

    /**
     * The text area's `onKeyDown`: Enter without Shift suppresses the line
     * break and submits; any other key leaves the draft to the text area.
     */
    method HandleKeyDown(key: string, shiftKey: bool, disabled: bool) returns (prevented: bool, sent: Option<string>)
      modifies this
      ensures prevented == SubmitsOnKey(key, shiftKey)
      ensures sent == if prevented then SubmitResult(old(message), disabled) else None
      ensures message == if sent.Some? then "" else old(message)
    {
      if key == "Enter" && !shiftKey {
        prevented := true;
        sent := HandleSubmit(disabled);
      } else {
        prevented := false;
        sent := None;
      }
    }
  }
}
