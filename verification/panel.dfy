/**
  The credentials panel's local state and its event handlers, each as a pure
  function. The remote update call is abstracted: a handler that calls it
  returns the requested write, and the promise's settlement is an Outcome
  argument.
 */
module Panel {
  import opened Credentials

  /** How the remote update settled. */
  datatype Outcome = Resolved | Rejected

  /** What a remote update stores: a whole record or the lock flag alone. */
  datatype Payload = Record(record: Credential) | LockFlag(flag: int)

  /** One request to the remote store: update `payload` at `path`. */
  datatype Write = Write(path: string, payload: Payload)

  /** A toast notification raised after a remote update settles. */
  datatype Tone = Success | Failure
  datatype Notice = Notice(tone: Tone, text: string)

  /** The pending action of the confirmation dialog. SetLock is the closure
      created by the lock button: it captured the working set and the record
      as they were when the button was pressed. */
  datatype Action =
    | NoAction
    | SetLock(key: Key, newLocked: int, snapshot: Creds, captured: Credential)

  datatype Dialog = Dialog(open: bool, action: Action, title: string, description: string)

  /** Which card is in edit mode, the working copy of the four records, and
      the confirmation dialog. The pristine records come from the caller and
      are passed to the handlers that read them. */
  datatype State = State(editing: Option<Key>, working: Creds, dialog: Dialog)

  /** The result of a handler that may call the remote store. */
  datatype Step = Step(state: State, write: Option<Write>, notice: Option<Notice>)

  /** Path of a whole record in the remote store. */
  function RecordPath(k: Key): string
  {
    "/" + KeyName(k)
  }

  /** Path of a record's lock flag in the remote store. */
  function LockPath(k: Key): string
  {
    RecordPath(k) + "/locked"
  }

  /** Every write path names one key and one kind of write. */
  lemma WritePathsDistinct(j: Key, k: Key)
    ensures RecordPath(j) != LockPath(k)
    ensures RecordPath(j) == RecordPath(k) <==> j == k
    ensures LockPath(j) == LockPath(k) <==> j == k
  {
    assert |RecordPath(j)| == 6 && |LockPath(k)| == 13;
    if RecordPath(j) == RecordPath(k) || LockPath(j) == LockPath(k) {
      assert RecordPath(j)[1..] == KeyName(j) && RecordPath(k)[1..] == KeyName(k);
      assert LockPath(j)[1..6] == KeyName(j) && LockPath(k)[1..6] == KeyName(k);
      KeyNameInjective(j, k);
    }
  }

  /** The state when the panel mounts: nothing edited, dialog closed with an
      action that does nothing, working copy equal to the given records. */
  function Init(props: Creds): (s: State)
    ensures s.editing == None && s.working == props
    ensures !s.dialog.open && s.dialog.action == NoAction
  {
    State(None, props, Dialog(false, NoAction, "", ""))
  }

  /** Edit button: the card of `k` enters edit mode, whichever card was in
      edit mode before. The working copy is untouched, so unsaved changes on
      the previous card stay in it. */
  function BeginEdit(s: State, k: Key): (r: State)
    ensures r.editing == Some(k)
    ensures r.working == s.working && r.dialog == s.dialog
  {
    s.(editing := Some(k))
  }

  /** Cancel button: the whole working copy, for all four keys, is reset to
      the pristine records, and no card is in edit mode. */
  function CancelEdit(s: State, props: Creds): (r: State)
    ensures forall k :: Lookup(r.working, k) == Lookup(props, k)
    ensures r.editing == None && r.dialog == s.dialog
  {
    s.(working := props, editing := None)
  }

  /** Save button: requests a write of the working record of `k` to its
      record path. On success no card is in edit mode; on failure the state
      is unchanged. The working copy is never changed. */
  function SaveEdit(s: State, k: Key, outcome: Outcome): (r: Step)
    ensures r.write == Some(Write(RecordPath(k), Record(Lookup(s.working, k))))
    ensures r.state.working == s.working && r.state.dialog == s.dialog
    ensures outcome == Resolved ==> r.state.editing == None
    ensures outcome == Rejected ==> r.state == s
    ensures r.notice.Some? && (r.notice.value.tone == Success <==> outcome == Resolved)
  {
    var write := Write(RecordPath(k), Record(Lookup(s.working, k)));
    match outcome
    case Resolved =>
      Step(s.(editing := None), Some(write), Some(Notice(Success, KeyName(k) + " updated successfully")))
    case Rejected =>
      Step(s, Some(write), Some(Notice(Failure, "Failed to update " + KeyName(k))))
  }

  /** A form input changed: one field of the working record of `k` takes the
      new value. Every other field of that record, every other record, the
      edit mode and the dialog stay as they were. */
  function ChangeField(s: State, k: Key, e: Edit): (r: State)
    ensures Get(Lookup(r.working, k), e.FieldOf()) == e.ValueOf()
    ensures forall f :: f != e.FieldOf() ==> Get(Lookup(r.working, k), f) == Get(Lookup(s.working, k), f)
    ensures forall j :: j != k ==> Lookup(r.working, j) == Lookup(s.working, j)
    ensures r.editing == s.editing && r.dialog == s.dialog
  {
    s.(working := Update(s.working, k, Apply(Lookup(s.working, k), e)))
  }

  /** Date picked in the calendar: no date leaves the state as it is; a date
      is formatted by `format` and becomes the expiry date of `k`, nothing
      else changes. */
  function PickDate<D>(s: State, k: Key, date: Option<D>, format: D -> string): (r: State)
    ensures date.None? ==> r == s
    ensures date.Some? ==> Lookup(r.working, k).expiryDate == format(date.value)
    ensures date.Some? ==> forall f :: f != ExpiryDate ==> Get(Lookup(r.working, k), f) == Get(Lookup(s.working, k), f)
    ensures forall j :: j != k ==> Lookup(r.working, j) == Lookup(s.working, j)
    ensures r.editing == s.editing && r.dialog == s.dialog
  {
    match date
    case None => s
    case Some(d) => ChangeField(s, k, SetExpiry(format(d)))
  }

  /** "lock" or "unlock", as chosen by the proposed lock value. */
  function Verb(newLocked: int): string
  {
    if newLocked == 1 then "lock" else "unlock"
  }

  function LockTitle(k: Key, newLocked: int): string
  {
    (if newLocked == 1 then "Lock" else "Unlock") + " " + KeyName(k)
  }

  function LockPrompt(k: Key, newLocked: int): string
  {
    "Are you sure you want to " + Verb(newLocked) + " " + KeyName(k) + "?"
  }

  /** Reads a dialog title back into the key and whether it proposes locking. */
  function ParseTitle(t: string): Option<(Key, bool)>
  {
    if |t| == 10 && t[..5] == "Lock " then
      match KeyOfName(t[5..])
      case Some(k) => Some((k, true))
      case None => None
    else if |t| == 12 && t[..7] == "Unlock " then
      match KeyOfName(t[7..])
      case Some(k) => Some((k, false))
      case None => None
    else None
  }

  /** The dialog title names the key and says "Lock" exactly when the
      proposed value is 1. */
  lemma TitleRoundTrip(k: Key, newLocked: int)
    ensures ParseTitle(LockTitle(k, newLocked)) == Some((k, newLocked == 1))
  {
  }

  /** Reads a dialog description back into the key and whether it proposes
      locking. */
  function ParsePrompt(p: string): Option<(Key, bool)>
  {
    if |p| == 36 && p[..30] == "Are you sure you want to lock " && p[35] == '?' then
      match KeyOfName(p[30..35])
      case Some(k) => Some((k, true))
      case None => None
    else if |p| == 38 && p[..32] == "Are you sure you want to unlock " && p[37] == '?' then
      match KeyOfName(p[32..37])
      case Some(k) => Some((k, false))
      case None => None
    else None
  }

  /** The dialog description names the key and asks to "lock" exactly when
      the proposed value is 1, and to "unlock" otherwise. */
  lemma PromptRoundTrip(k: Key, newLocked: int)
    ensures ParsePrompt(LockPrompt(k, newLocked)) == Some((k, newLocked == 1))
  {
  }

  /** Lock button: opens the confirmation dialog for `k`, proposing 1 when
      the working record is unlocked (0) and 0 for any other value. The
      pending action captures the current working copy and record. The
      working copy and the edit mode are unchanged. */
  function ToggleLock(s: State, k: Key): (r: State)
    ensures r.working == s.working && r.editing == s.editing
    ensures r.dialog.open && r.dialog.action.SetLock? && r.dialog.action.key == k
    ensures r.dialog.action.newLocked == 1 <==> Lookup(s.working, k).locked == 0
    ensures r.dialog.action.newLocked == 0 <==> Lookup(s.working, k).locked != 0
    ensures r.dialog.action.snapshot == s.working && r.dialog.action.captured == Lookup(s.working, k)
    ensures ParseTitle(r.dialog.title) == Some((k, Lookup(s.working, k).locked == 0))
    ensures ParsePrompt(r.dialog.description) == Some((k, Lookup(s.working, k).locked == 0))
    ensures r.dialog.description == LockPrompt(k, r.dialog.action.newLocked)
  {
    var current := Lookup(s.working, k);
    var newLocked := Flip(current.locked);
    TitleRoundTrip(k, newLocked);
    PromptRoundTrip(k, newLocked);
    s.(dialog := Dialog(true, SetLock(k, newLocked, s.working, current),
                        LockTitle(k, newLocked), LockPrompt(k, newLocked)))
  }

  /** Dialog open-state change: a request to close sets `open` to false and
      keeps the action, title and description; a request to open does
      nothing. Edit mode and working copy never change. */
  function OpenChange(s: State, open: bool): (r: State)
    ensures open ==> r == s
    ensures !open ==> !r.dialog.open
    ensures r.dialog.action == s.dialog.action
    ensures r.dialog.title == s.dialog.title && r.dialog.description == s.dialog.description
    ensures r.editing == s.editing && r.working == s.working
  {
    if !open then s.(dialog := s.dialog.(open := false)) else s
  }

  /** Runs the dialog's pending action. A lock action requests a write of the
      proposed value to the lock path. On success the working copy becomes
      the captured snapshot with the captured record's lock flag set to the
      proposed value; on failure the state is unchanged. */
  function RunAction(s: State, outcome: Outcome): (r: Step)
    ensures s.dialog.action.NoAction? ==> r == Step(s, None, None)
    ensures r.state.editing == s.editing && r.state.dialog == s.dialog
    ensures outcome == Rejected ==> r.state == s
    ensures s.dialog.action.SetLock? ==>
      var a := s.dialog.action;
      && r.write == Some(Write(LockPath(a.key), LockFlag(a.newLocked)))
      && r.notice.Some? && (r.notice.value.tone == Success <==> outcome == Resolved)
      && (outcome == Resolved ==>
            && Lookup(r.state.working, a.key).locked == a.newLocked
            && (forall f :: f != Locked ==> Get(Lookup(r.state.working, a.key), f) == Get(a.captured, f))
            && (forall j :: j != a.key ==> Lookup(r.state.working, j) == Lookup(a.snapshot, j)))
  {
    match s.dialog.action
    case NoAction => Step(s, None, None)
    case SetLock(k, newLocked, snapshot, captured) =>
      var write := Write(LockPath(k), LockFlag(newLocked));
      match outcome
      case Resolved =>
        var updated := Update(snapshot, k, Apply(captured, SetLocked(newLocked)));
        var done := if newLocked == 1 then "locked" else "unlocked";
        Step(s.(working := updated), Some(write), Some(Notice(Success, KeyName(k) + " " + done + " successfully")))
      case Rejected =>
        Step(s, Some(write), Some(Notice(Failure, "Failed to " + Verb(newLocked) + " " + KeyName(k))))
  }

  /** Confirm button: runs the pending action; the dialog widget closes the
      dialog as part of the same click. */
  function Confirm(s: State, outcome: Outcome): (r: Step)
    ensures !r.state.dialog.open && r.state.dialog.action == s.dialog.action
    ensures r.state.editing == s.editing
    ensures outcome == Rejected ==> r.state.working == s.working
    ensures r.write == RunAction(s, outcome).write
  {
    var run := RunAction(s, outcome);
    run.(state := OpenChange(run.state, false))
  }
}
