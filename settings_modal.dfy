/** The API-key dialog: two key fields, a save button that is enabled only
    when both keys are present and no save is under way, and the save
    handler that reports success to its two callbacks or shows an error. */
module SettingsModal {
  import opened Wrappers
  import TauriApi

  const SaveFailedMessage := "Failed to save keys"

  /** The save button's `disabled`: a key is empty or a save is under way. */
  predicate SaveDisabled(githubKey: string, julesKey: string, isSaving: bool) {
    githubKey == "" || julesKey == "" || isSaving
  }

  /** The error shown for a failed save: the failure's text, or the fixed
      message when that text is empty. */
  function ErrorText(message: string): (e: string)
    ensures e != ""
    ensures message != "" ==> e == message
    ensures message == "" ==> e == SaveFailedMessage
  {
    if message != "" then message else SaveFailedMessage
  }

  /** The two callbacks the dialog's owner passes in. */
  datatype Callback = Saved | Closed

  /** What the handler does, in order. */
  datatype Event =
    | SavingSet(saving: bool)
    | ErrorSet(error: Option<string>)
    | KeysSent(github: string, jules: string)
    | Fired(callback: Callback)

  /** The rendered dialog: whether save is enabled, the button's label and
      the error banner. */
  datatype Dialog = Dialog(saveEnabled: bool, saveLabel: string, banner: Option<string>)

  /** The label of the save button. */
  function SaveLabel(isSaving: bool): string {
    if isSaving then "Saving..." else "Save Keys"
  }

  class Modal {
    var githubKey: string
    var julesKey: string
    var isSaving: bool
    var error: Option<string>
    /** Every step `handleSave` has taken, oldest first. */
    ghost var events: seq<Event>

    /** A shown error is never empty. */
    ghost predicate Valid() reads this {
      error.Some? ==> error.value != ""
    }

    constructor ()
      ensures Valid()
      ensures githubKey == "" && julesKey == "" && !isSaving && error == None && events == []
    {
      githubKey := "";
      julesKey := "";
      isSaving := false;
      error := None;
      events := [];
    }

    method SetGithubKey(key: string)
      modifies this`githubKey
      ensures githubKey == key
    {
      githubKey := key;
    }

    method SetJulesKey(key: string)
      modifies this`julesKey
      ensures julesKey == key
    {
      julesKey := key;
    }

    /** The cancel button only closes the dialog. */
    method Cancel() returns (fired: seq<Callback>)
      ensures fired == [Closed]
    {
      fired := [Closed];
    }

    /** `handleSave`, reachable only through the enabled save button. It marks
        the save as under way and clears the error, sends both keys, then on
        success fires `Saved` followed by `Closed`, and on failure shows the
        error and fires nothing; either way the save is over at the end.
        `hostResult` is the host's answer when there is a host. */
    method HandleSave(isHost: bool, hostResult: Outcome) returns (fired: seq<Callback>)
      requires Valid() && !SaveDisabled(githubKey, julesKey, isSaving)
      modifies this`isSaving, this`error, this`events
      ensures Valid() && !isSaving
      ensures var outcome := TauriApi.SaveApiKeys(isHost, githubKey, julesKey, hostResult);
        && (outcome.Pass? ==> fired == [Saved, Closed] && error == None)
        && (outcome.Fail? ==> fired == [] && error == Some(ErrorText(outcome.error)))
        && events == old(events) + [SavingSet(true), ErrorSet(None), KeysSent(githubKey, julesKey)] +
             (if outcome.Pass? then [Fired(Saved), Fired(Closed)] else [ErrorSet(error)]) +
             [SavingSet(false)]
    {
      isSaving := true;
      error := None;
      events := events + [SavingSet(true), ErrorSet(None), KeysSent(githubKey, julesKey)];
      var outcome := TauriApi.SaveApiKeys(isHost, githubKey, julesKey, hostResult);
      if outcome.Pass? {
        fired := [Saved, Closed];
        events := events + [Fired(Saved), Fired(Closed)];
      } else {
        fired := [];
        error := Some(ErrorText(outcome.error));
        events := events + [ErrorSet(error)];
      }
      isSaving := false;
      events := events + [SavingSet(false)];
    }

    /** A closed dialog renders nothing; an open one shows whether save is
        enabled, the button label and the error, if any. */
    function Render(isOpen: bool): (d: Option<Dialog>)
      reads this
      ensures d.None? <==> !isOpen
      ensures d.Some? ==>
        && (d.value.saveEnabled <==> githubKey != "" && julesKey != "" && !isSaving)
        && d.value.saveLabel == SaveLabel(isSaving)
        && d.value.banner == (if error.Some? && error.value != "" then error else None)
    {
      if !isOpen then None
      else
        Some(Dialog(!SaveDisabled(githubKey, julesKey, isSaving), SaveLabel(isSaving),
                    if error.Some? && error.value != "" then error else None))
    }
  }

  /** A save of two keys without a host always succeeds: the owner hears
      `Saved` then `Closed` and no error is left. */
  method SaveWithoutHost(github: string, jules: string) returns (fired: seq<Callback>, shown: Option<string>)
    requires github != "" && jules != ""
    ensures fired == [Saved, Closed] && shown == None
  {
    var modal := new Modal();
    modal.SetGithubKey(github);
    modal.SetJulesKey(jules);
    fired := modal.HandleSave(false, Fail("unused"));
    shown := modal.error;
  }

  /** A host failure with an empty text shows the fixed message, and a second
      attempt that succeeds clears it. */
  method RetryAfterFailure(github: string, jules: string)
    returns (first: seq<Callback>, shownAfterFirst: Option<string>, second: seq<Callback>, shownAfterSecond: Option<string>)
    requires github != "" && jules != ""
    ensures first == [] && shownAfterFirst == Some(SaveFailedMessage)
    ensures second == [Saved, Closed] && shownAfterSecond == None
  {
    var modal := new Modal();
    modal.SetGithubKey(github);
    modal.SetJulesKey(jules);
    first := modal.HandleSave(true, Fail(""));
    shownAfterFirst := modal.error;
    second := modal.HandleSave(true, Pass);
    shownAfterSecond := modal.error;
  }
}
