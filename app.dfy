/**
 * The application shell (App.tsx): a two-state navigation between the
 * script editor and the teleprompter screen, carrying the submitted
 * script.
 */
module App {
  import opened Wrappers
  import opened Text
  import opened ScriptInput

  /** `AppState`. */
  datatype AppState = ScriptInputPage | TeleprompterPage

  /** What `renderContent` renders. */
  datatype Content = ScriptInputContent | TeleprompterContent(script: string)

  /** `renderContent`: the teleprompter, with the stored script, on the
      teleprompter page; the script editor on every other page. */
  function RenderContent(state: AppState, script: string): (c: Content)
    ensures c.TeleprompterContent? <==> state == TeleprompterPage
    ensures c.TeleprompterContent? ==> c.script == script
  {
    match state
    case TeleprompterPage => TeleprompterContent(script)
    case ScriptInputPage => ScriptInputContent
  }

  class AppShell {
    var appState: AppState
    var script: string

    /** Whenever the teleprompter page is shown, its script has a word. */
    ghost predicate Valid()
      reads this
    {
      appState == TeleprompterPage ==> Tokenize(script) != []
    }

    /** The app opens on the editor with an empty stored script. */
    constructor ()
      ensures Valid()
      ensures appState == ScriptInputPage && script == []
      ensures RenderContent(appState, script) == ScriptInputContent
    {
      appState := ScriptInputPage;
      script := [];
    }

    /** `handleScriptSubmit`: store the script and show the teleprompter.
        The shell stays valid exactly when the script handed over has a
        word, as the editor's submissions always do. */
    method HandleScriptSubmit(submitted: string)
      modifies this
      ensures Valid() <==> Tokenize(submitted) != []
      ensures appState == TeleprompterPage && script == submitted
      ensures RenderContent(appState, script) == TeleprompterContent(submitted)
    {
      script := submitted;
      appState := TeleprompterPage;
    }

    /** `handleBackToInput`: show the editor again; the stored script is
        kept. */
    method HandleBackToInput()
      modifies this`appState
      ensures Valid()
      ensures appState == ScriptInputPage && script == old(script)
      ensures RenderContent(appState, script) == ScriptInputContent
    {
      appState := ScriptInputPage;
    }

    /** The editor's submit button wired to `handleScriptSubmit`: when the
        editor submits, the app moves to the teleprompter with the trimmed
        script, whose words are those typed and are never none; otherwise
        nothing changes. */
    method SubmitFromEditor(form: ScriptInputForm)
      modifies this
      ensures Submission(form.script).Some? ==> Valid()
      ensures old(Valid()) ==> Valid()
      ensures Submission(form.script).Some? ==>
        && appState == TeleprompterPage
        && script == Trim(form.script)
        && Tokenize(script) == Tokenize(form.script)
        && |Tokenize(script)| > 0
      ensures Submission(form.script).None? ==>
        appState == old(appState) && script == old(script)
    {
      var submitted := form.HandleSubmit();
      if submitted.Some? {
        HandleScriptSubmit(submitted.value);
      }
    }
  }
}
