/**
 * The script editor (components/ScriptInput.tsx). Its one piece of state
 * is the script text, which typing and loading a file replace wholesale;
 * submitting hands the trimmed script to the parent, and only when it is
 * not empty.
 */
module ScriptInput {
  import opened Wrappers
  import opened Text

  /** What `handleSubmit` passes to `onScriptSubmit`, or None when it does
      not call it: the trimmed script, provided the trimmed script is a
      non-empty (truthy) string. The submitted text is non-empty, has no
      whitespace at either end, and has the same words as the script. */
  function Submission(script: string): (r: Option<string>)
    ensures r.Some? <==> !AllWhitespace(script)
    ensures r.Some? ==> && r.value != []
                        && !IsWhitespace(r.value[0])
                        && !IsWhitespace(r.value[|r.value| - 1])
                        && Tokenize(r.value) == Tokenize(script)
                        && Tokenize(r.value) != []
  {
    TrimEmptyIff(script);
    TrimEnds(script);
    TokenizeTrim(script);
    TokenizeEmptyIff(script);
    var trimmed := Trim(script);
    if trimmed != [] then Some(trimmed) else None
  }

  /** The submit button's `disabled` flag: the trimmed script is empty. */
  function SubmitDisabled(script: string): (disabled: bool)
    ensures disabled <==> Submission(script) == None
    ensures disabled <==> AllWhitespace(script)
  {
    TrimEmptyIff(script);
    Trim(script) == []
  }

  class ScriptInputForm {
    var script: string

    /** The editor starts empty, so submitting is disabled. */
    constructor ()
      ensures script == [] && SubmitDisabled(script)
    {
      script := [];
    }

    /** The textarea's change event and a loaded file both replace the
        script with the new text. */
    method SetScript(text: string)
      modifies this
      ensures script == text
    {
      script := text;
    }

    /** `handleSubmit`: the value passed to the parent's callback, if it
        is called. */
    method HandleSubmit() returns (submitted: Option<string>)
      ensures submitted == Submission(script)
      ensures submitted.Some? ==> submitted.value == Trim(script)
    {
      var trimmed := Trim(script);
      if trimmed != [] {
        submitted := Some(trimmed);
      } else {
        submitted := None;
      }
    }
  }
}
