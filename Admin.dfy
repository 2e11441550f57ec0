/**
 * The admin page: a password gate in front of the source editor, a load
 * effect that fetches the list once the gate opens, and a save whose
 * outcome is supplied from outside.
 */
module Admin {
  import opened Wrappers
  import opened JobSources
  import JobSourceManager

  /** The password the page compares against and sends with every save. */
  const AdminPassword: string := "afeka"
  const WrongPasswordMessage: string := "סיסמה שגויה"
  const LoadFailedMessage: string := "Failed to load job sources"
  const SaveFailedMessage: string := "שמירה נכשלה"

  /** What a save hands to the backend: the list and the password. */
  datatype SaveRequest = SaveRequest(sources: seq<JobSource>, password: string)

  class AdminPage {
    var jobSources: seq<JobSource>
    var loading: bool
    var error: string
    var password: string
    var loggedIn: bool
    var saving: bool
    var saveError: string
    var saveSuccess: bool

    /** The save-status flags never claim success and failure at once, and are both clear while a save is in flight. */
    predicate Valid()
      reads this
    {
      !(saveSuccess && saveError != "") &&
      (saving ==> !saveSuccess && saveError == "")
    }

    constructor ()
      ensures Valid()
      ensures jobSources == [] && loading && error == "" && password == ""
      ensures !loggedIn && !saving && saveError == "" && !saveSuccess
    {
      jobSources := [];
      loading := true;
      error := "";
      password := "";
      loggedIn := false;
      saving := false;
      saveError := "";
      saveSuccess := false;
    }

    /** Typing into the password field. */
    method SetPassword(typed: string)
      modifies this`password
      ensures password == typed
    {
      password := typed;
    }

    /** Submitting the login form: unlocks on an exact match, otherwise reports the error. */
    method HandleLogin()
      modifies this`loggedIn, this`error
      ensures password == AdminPassword ==> loggedIn && error == ""
      ensures password != AdminPassword ==> loggedIn == old(loggedIn) && error == WrongPasswordMessage
      ensures old(loggedIn) ==> loggedIn
    {
      if password == AdminPassword {
        loggedIn := true;
        error := "";
      } else {
        error := WrongPasswordMessage;
      }
    }

    /**
     * The load effect, run when `loggedIn` changes.  `outcome` is what the
     * fetch resolves to, None when it rejects.  Before login it does nothing.
     */
    method LoadEffect(outcome: Option<seq<JobSource>>)
      requires Valid()
      modifies this`loading, this`jobSources, this`error
      ensures Valid()
      ensures !old(loggedIn) ==>
        loading == old(loading) && jobSources == old(jobSources) && error == old(error)
      ensures old(loggedIn) && outcome.Some? ==>
        !loading && jobSources == outcome.value && error == old(error)
      ensures old(loggedIn) && outcome.None? ==>
        !loading && jobSources == old(jobSources) && error == LoadFailedMessage
    {
      if loggedIn {
        loading := true;
        match outcome {
          case Some(xs) => jobSources := xs;
          case None => error := LoadFailedMessage;
        }
        loading := false;
      }
    }

    /** The editor reports a new list: it replaces ours and the success banner goes away. */
    method HandleSourcesChange(sources: seq<JobSource>)
      requires Valid()
      modifies this`jobSources, this`saveSuccess
      ensures Valid()
      ensures jobSources == sources && !saveSuccess
    {
      jobSources := sources;
      saveSuccess := false;
    }

    /** The synchronous part of `handleSave`, up to the await: the flags are cleared and the request is issued. */
    method BeginSave() returns (request: SaveRequest)
      modifies this`saving, this`saveError, this`saveSuccess
      ensures Valid()
      ensures saving && saveError == "" && !saveSuccess
      ensures request == SaveRequest(jobSources, AdminPassword)
    {
      saving := true;
      saveError := "";
      saveSuccess := false;
      request := SaveRequest(jobSources, AdminPassword);
    }

    /** The part of `handleSave` after the await, given whether the save resolved. */
    method FinishSave(succeeded: bool)
      requires Valid() && saving
      modifies this`saving, this`saveError, this`saveSuccess
      ensures Valid()
      ensures !saving
      ensures saveSuccess == succeeded
      ensures saveError == if succeeded then "" else SaveFailedMessage
    {
      if succeeded {
        saveSuccess := true;
      } else {
        saveError := SaveFailedMessage;
      }
      saving := false;
    }

    /**
     * `handleSave` run without interleaving: it ends not saving, with exactly
     * one of success or error set, having sent the built-in password rather
     * than the typed one.
     */
    method HandleSave(succeeded: bool) returns (request: SaveRequest)
      modifies this`saving, this`saveError, this`saveSuccess
      ensures Valid()
      ensures !saving
      ensures saveSuccess <==> saveError == ""
      ensures saveSuccess == succeeded
      ensures request == SaveRequest(jobSources, AdminPassword)
    {
      request := BeginSave();
      FinishSave(succeeded);
    }
  }

  /**
   * Pressing "save" inside the embedded editor: the editor emits its draft,
   * the page adopts it, and the new list flows back to the editor as its prop.
   */
  method EditorSave(page: AdminPage, editor: JobSourceManager.Manager)
    requires page.Valid()
    modifies page`jobSources, page`saveSuccess, editor`sources, editor`isEditing
    ensures page.Valid()
    ensures page.jobSources == old(editor.editingSources) && !page.saveSuccess
    ensures editor.sources == page.jobSources && !editor.isEditing
    ensures editor.editingSources == old(editor.editingSources)
    ensures page.loggedIn == old(page.loggedIn)
  {
    var emitted := editor.HandleSave();
    page.HandleSourcesChange(emitted);
    editor.ReceiveSources(page.jobSources);
  }

  /** Whatever is typed, a save sends the built-in password. */
  method SaveIgnoresTypedPassword(page: AdminPage, typed: string, succeeded: bool) returns (request: SaveRequest)
    modifies page`password, page`saving, page`saveError, page`saveSuccess
    ensures request.password == AdminPassword
    ensures page.password == typed
  {
    page.SetPassword(typed);
    request := page.HandleSave(succeeded);
  }

  /** Once unlocked the page stays unlocked, whatever password is typed and submitted next. */
  method StaysUnlocked(page: AdminPage, typed: string)
    requires page.loggedIn
    modifies page`password, page`loggedIn, page`error
    ensures page.loggedIn
  {
    page.SetPassword(typed);
    page.HandleLogin();
  }
}
