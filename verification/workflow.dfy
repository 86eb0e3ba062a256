/**
  Sequences of user events on the credentials panel. Which events the
  rendered panel offers in a state (the card's view or edit mode, the modal
  confirmation dialog) is stated by Enabled; Run folds the handlers over a
  sequence of events and collects the remote writes they request.
 */
module Workflow {
  import opened Credentials
  import Panel

  /** One user interaction. Events that call the remote store carry the
      outcome of that call. `D` is the calendar's date type. */
  datatype Event<D> =
    | EditClicked(key: Key)
    | CancelClicked
    | SaveClicked(key: Key, outcome: Panel.Outcome)
    | FieldChanged(key: Key, edit: Edit)
    | DatePicked(key: Key, date: Option<D>)
    | LockClicked(key: Key)
    | ConfirmClicked(outcome: Panel.Outcome)
    | DialogDismissed

  /** The events the rendered panel offers. While the modal dialog is open
      only its confirm and dismiss controls are reachable. Otherwise a card
      in edit mode offers its form fields, Cancel and Save, and a card in
      view mode offers its Lock and Edit buttons. The form has no control
      for the lock flag. */
  predicate Enabled<D>(s: Panel.State, ev: Event<D>)
    ensures Enabled(s, ev) && s.dialog.open ==> ev.ConfirmClicked? || ev.DialogDismissed?
    ensures Enabled(s, ev) && (ev.ConfirmClicked? || ev.DialogDismissed?) ==> s.dialog.open
    ensures Enabled(s, ev) && (ev.SaveClicked? || ev.FieldChanged? || ev.DatePicked?) ==> s.editing == Some(ev.key)
    ensures Enabled(s, ev) && (ev.EditClicked? || ev.LockClicked?) ==> s.editing != Some(ev.key)
    ensures Enabled(s, ev) && ev.FieldChanged? ==> !ev.edit.SetLocked?
    ensures !s.dialog.open && s.editing == None && (ev.EditClicked? || ev.LockClicked?) ==> Enabled(s, ev)
  {
    if s.dialog.open then ev.ConfirmClicked? || ev.DialogDismissed?
    else
      match ev
      case EditClicked(k) => s.editing != Some(k)
      case LockClicked(k) => s.editing != Some(k)
      case CancelClicked => s.editing.Some?
      case SaveClicked(k, _) => s.editing == Some(k)
      case FieldChanged(k, e) => s.editing == Some(k) && !e.SetLocked?
      case DatePicked(k, _) => s.editing == Some(k)
      case ConfirmClicked(_) => false
      case DialogDismissed => false
  }

  /** The handler an event triggers. Only Save and a confirmed lock action
      call the remote store; the working copy changes only through form
      edits, a picked date, cancel or confirm; edit mode changes only
      through Edit, Cancel or Save. */
  function Next<D>(s: Panel.State, props: Creds, format: D -> string, ev: Event<D>): (r: Panel.Step)
    ensures r.write.Some? <==> ev.SaveClicked? || (ev.ConfirmClicked? && s.dialog.action.SetLock?)
    ensures r.state.working != s.working ==> ev.FieldChanged? || ev.DatePicked? || ev.CancelClicked? || ev.ConfirmClicked?
    ensures r.state.editing != s.editing ==> ev.EditClicked? || ev.CancelClicked? || ev.SaveClicked?
    ensures r.state.dialog.open != s.dialog.open ==> ev.LockClicked? || ev.ConfirmClicked? || ev.DialogDismissed?
  {
    match ev
    case EditClicked(k) => Panel.Step(Panel.BeginEdit(s, k), None, None)
    case CancelClicked => Panel.Step(Panel.CancelEdit(s, props), None, None)
    case SaveClicked(k, outcome) => Panel.SaveEdit(s, k, outcome)
    case FieldChanged(k, e) => Panel.Step(Panel.ChangeField(s, k, e), None, None)
    case DatePicked(k, date) => Panel.Step(Panel.PickDate(s, k, date, format), None, None)
    case LockClicked(k) => Panel.Step(Panel.ToggleLock(s, k), None, None)
    case ConfirmClicked(outcome) => Panel.Confirm(s, outcome)
    case DialogDismissed => Panel.Step(Panel.OpenChange(s, false), None, None)
  }

  function WritesOf(st: Panel.Step): seq<Panel.Write>
  {
    match st.write
    case Some(w) => [w]
    case None => []
  }

  /** Runs `step` over a sequence of events from `s`, collecting the
      outputs of every step in order. */
  function Fold<S, E, W>(step: (S, E) -> (S, seq<W>), s: S, evs: seq<E>): (S, seq<W>)
    decreases |evs|
  {
    if |evs| == 0 then (s, [])
    else
      var first := step(s, evs[0]);
      var rest := Fold(step, first.0, evs[1..]);
      (rest.0, first.1 + rest.1)
  }

  /** Folding over a concatenation is folding over the first part and then
      over the second from where the first ended, outputs concatenated. */
  lemma {:induction false} FoldAppend<S, E, W>(step: (S, E) -> (S, seq<W>), s: S, a: seq<E>, b: seq<E>)
    ensures Fold(step, s, a + b).0 == Fold(step, Fold(step, s, a).0, b).0
    ensures Fold(step, s, a + b).1 == Fold(step, s, a).1 + Fold(step, Fold(step, s, a).0, b).1
    decreases |a|
  {
    if |a| == 0 {
      assert a + b == b;
    } else {
      var ab := a + b;
      assert ab[0] == a[0];
      assert ab[1..] == a[1..] + b;
      var first := step(s, a[0]);
      FoldAppend(step, first.0, a[1..], b);
      var rest := Fold(step, first.0, a[1..]);
      var tail := Fold(step, rest.0, b).1;
      assert first.1 + (rest.1 + tail) == (first.1 + rest.1) + tail;
    }
  }

  /** One event: the handler's new state and the writes it requested. */
  function Transition<D>(props: Creds, format: D -> string): (Panel.State, Event<D>) -> (Panel.State, seq<Panel.Write>)
  {
    (s: Panel.State, ev: Event<D>) =>
      var st := Next(s, props, format, ev);
      (st.state, WritesOf(st))
  }

  /** Final state of a run and the remote writes it requested, in order. */
  datatype Trace = Trace(state: Panel.State, writes: seq<Panel.Write>)

  function Run<D>(s: Panel.State, props: Creds, format: D -> string, evs: seq<Event<D>>): Trace
  {
    var r := Fold(Transition(props, format), s, evs);
    Trace(r.0, r.1)
  }

  /** A run starts with the first event's handler and continues from the
      state it leaves. */
  lemma RunCons<D>(s: Panel.State, props: Creds, format: D -> string, evs: seq<Event<D>>)
    requires |evs| > 0
    ensures var st := Next(s, props, format, evs[0]);
      var rest := Run(st.state, props, format, evs[1..]);
      Run(s, props, format, evs) == Trace(rest.state, WritesOf(st) + rest.writes)
  {
  }

  /** A run of no events changes nothing and writes nothing. */
  lemma RunNil<D>(s: Panel.State, props: Creds, format: D -> string)
    ensures Run(s, props, format, []) == Trace(s, [])
  {
  }

  /** Every event of the run is offered by the panel when it happens. */
  predicate Legal<D>(s: Panel.State, props: Creds, format: D -> string, evs: seq<Event<D>>)
    decreases |evs|
  {
    |evs| == 0 ||
    (Enabled(s, evs[0]) && Legal(Next(s, props, format, evs[0]).state, props, format, evs[1..]))
  }

  /** Running two event sequences one after the other is running their
      concatenation. */
  lemma RunAppend<D>(s: Panel.State, props: Creds, format: D -> string, a: seq<Event<D>>, b: seq<Event<D>>)
    ensures Run(s, props, format, a + b).state == Run(Run(s, props, format, a).state, props, format, b).state
    ensures Run(s, props, format, a + b).writes
         == Run(s, props, format, a).writes + Run(Run(s, props, format, a).state, props, format, b).writes
  {
    FoldAppend(Transition(props, format), s, a, b);
  }

  /** A concatenation of two event sequences is legal exactly when the first
      is and the second is from where the first ends. */
  lemma {:induction false} LegalAppend<D>(s: Panel.State, props: Creds, format: D -> string, a: seq<Event<D>>, b: seq<Event<D>>)
    ensures Legal(s, props, format, a + b)
        <==> Legal(s, props, format, a) && Legal(Run(s, props, format, a).state, props, format, b)
    decreases |a|
  {
    if |a| == 0 {
      assert a + b == b;
    } else {
      var ab := a + b;
      assert ab[0] == a[0];
      assert ab[1..] == a[1..] + b;
      var st := Next(s, props, format, a[0]);
      LegalAppend(st.state, props, format, a[1..], b);
    }
  }

  /** While the dialog is open its pending action is a lock action that was
      captured from the current working copy, and it proposes the flipped
      lock value of the captured record. */
  ghost predicate Coherent(s: Panel.State)
  {
    s.dialog.open ==>
      && s.dialog.action.SetLock?
      && s.dialog.action.snapshot == s.working
      && s.dialog.action.captured == Lookup(s.working, s.dialog.action.key)
      && s.dialog.action.newLocked == Flip(s.dialog.action.captured.locked)
  }

  lemma InitCoherent(props: Creds)
    ensures Coherent(Panel.Init(props))
  {
  }

  /** Every offered event keeps the dialog coherent. */
  lemma NextCoherent<D>(s: Panel.State, props: Creds, format: D -> string, ev: Event<D>)
    requires Coherent(s) && Enabled(s, ev)
    ensures Coherent(Next(s, props, format, ev).state)
  {
  }

  /** Every legal run keeps the dialog coherent. */
  lemma {:induction false} RunCoherent<D>(s: Panel.State, props: Creds, format: D -> string, evs: seq<Event<D>>)
    requires Coherent(s) && Legal(s, props, format, evs)
    ensures Coherent(Run(s, props, format, evs).state)
    decreases |evs|
  {
    if |evs| > 0 {
      RunCons(s, props, format, evs);
      NextCoherent(s, props, format, evs[0]);
      RunCoherent(Next(s, props, format, evs[0]).state, props, format, evs[1..]);
    }
  }

  /** In a coherent state, a confirmed lock write changes exactly the lock
      flag of the dialog's key, to the flipped value, and nothing else in
      the working copy; a failed one changes nothing in it. */
  lemma ConfirmFlipsOnlyLock(s: Panel.State, outcome: Panel.Outcome)
    requires Coherent(s) && s.dialog.open
    ensures var k := s.dialog.action.key;
      var r := Panel.Confirm(s, outcome);
      && r.write == Some(Panel.Write(Panel.LockPath(k), Panel.LockFlag(Flip(Lookup(s.working, k).locked))))
      && (outcome == Panel.Resolved ==>
            r.state.working == Update(s.working, k, Apply(Lookup(s.working, k), SetLocked(Flip(Lookup(s.working, k).locked)))))
      && (outcome == Panel.Rejected ==> r.state.working == s.working)
  {
  }

  /** The lock action works on the working copy captured when the lock
      button was pressed: whatever happened to the working copy since, a
      confirmed write replaces it with that snapshot, flag flipped. */
  lemma StaleSnapshot(s0: Panel.State, k: Key, s: Panel.State)
    requires s.dialog == Panel.ToggleLock(s0, k).dialog
    ensures Panel.Confirm(s, Panel.Resolved).state.working
         == Update(s0.working, k, Apply(Lookup(s0.working, k), SetLocked(Flip(Lookup(s0.working, k).locked))))
  {
  }

  /** Consequence of the captured snapshot: a change made to another record
      between pressing the lock button and the write's success is lost. The
      modal dialog rules this out for events one at a time; it needs the
      dialog to close while the write is still pending. */
  lemma StaleSnapshotLosesChange(s0: Panel.State, k: Key, j: Key, e: Edit)
    requires j != k
    ensures var s1 := Panel.ChangeField(Panel.ToggleLock(s0, k), j, e);
      Lookup(Panel.Confirm(s1, Panel.Resolved).state.working, j) == Lookup(s0.working, j)
  {
  }

  /** Every lock flag reads either as in `base` or as in the pristine records. */
  ghost predicate LocksFrom(s: Panel.State, base: Creds, props: Creds)
  {
    forall k :: Lookup(s.working, k).locked == Lookup(base, k).locked
             || Lookup(s.working, k).locked == Lookup(props, k).locked
  }

  /** Without a confirmed dialog, no offered event sets a lock flag to a new
      value: form edits cannot reach it, and cancel resets it to the
      pristine value. */
  lemma {:induction false} LocksOnlyByConfirm<D>(s: Panel.State, base: Creds, props: Creds, format: D -> string, evs: seq<Event<D>>)
    requires LocksFrom(s, base, props) && Legal(s, props, format, evs)
    requires forall i :: 0 <= i < |evs| ==> !evs[i].ConfirmClicked?
    ensures LocksFrom(Run(s, props, format, evs).state, base, props)
    decreases |evs|
  {
    if |evs| > 0 {
      var ev := evs[0];
      var t := Next(s, props, format, ev).state;
      assert !ev.ConfirmClicked?;
      forall k
        ensures Lookup(t.working, k).locked == Lookup(base, k).locked
             || Lookup(t.working, k).locked == Lookup(props, k).locked
      {
        match ev
        case FieldChanged(j, e) =>
          if k == j {
            assert Get(Lookup(t.working, k), Locked) == Get(Lookup(s.working, k), Locked);
          }
        case DatePicked(j, date) =>
          if k == j && date.Some? {
            assert Get(Lookup(t.working, k), Locked) == Get(Lookup(s.working, k), Locked);
          }
        case _ =>
      }
      RunCons(s, props, format, evs);
      LocksOnlyByConfirm(t, base, props, format, evs[1..]);
    }
  }

  /** A remote write addresses one record: either the whole record, or its
      lock flag with the value 0 or 1. */
  ghost predicate WellFormedWrite(w: Panel.Write)
  {
    exists k ::
      || (w.path == Panel.RecordPath(k) && w.payload.Record?)
      || (w.path == Panel.LockPath(k) && w.payload.LockFlag? && (w.payload.flag == 0 || w.payload.flag == 1))
  }

  /** Every write requested by a legal run from a coherent state is well
      formed; in particular the lock flag is only ever written as 0 or 1. */
  lemma {:induction false} RunWritesWellFormed<D>(s: Panel.State, props: Creds, format: D -> string, evs: seq<Event<D>>)
    requires Coherent(s) && Legal(s, props, format, evs)
    ensures forall i :: 0 <= i < |Run(s, props, format, evs).writes| ==> WellFormedWrite(Run(s, props, format, evs).writes[i])
    decreases |evs|
  {
    if |evs| > 0 {
      var ev := evs[0];
      var st := Next(s, props, format, ev);
      if st.write.Some? {
        match ev {
          case SaveClicked(k, _) =>
            assert st.write.value.path == Panel.RecordPath(k);
          case ConfirmClicked(outcome) =>
            ConfirmFlipsOnlyLock(s, outcome);
            assert st.write.value.path == Panel.LockPath(s.dialog.action.key);
          case _ =>
        }
        assert WellFormedWrite(st.write.value);
      }
      RunCons(s, props, format, evs);
      NextCoherent(s, props, format, ev);
      RunWritesWellFormed(st.state, props, format, evs[1..]);
    }
  }

  /** The form events that type the given edits into the card of `k`. */
  function FormEvents<D>(k: Key, es: seq<Edit>): (r: seq<Event<D>>)
    ensures |r| == |es|
    ensures forall i :: 0 <= i < |es| ==> r[i] == FieldChanged(k, es[i])
  {
    seq(|es|, i requires 0 <= i < |es| => FieldChanged(k, es[i]))
  }

  /** Typing edits into the card in edit mode changes only that card's
      working record, by applying the edits in order, and requests no write. */
  lemma {:induction false} TypingEdits<D>(s: Panel.State, props: Creds, format: D -> string, k: Key, es: seq<Edit>)
    requires s.editing == Some(k) && !s.dialog.open
    requires forall i :: 0 <= i < |es| ==> !es[i].SetLocked?
    ensures var t := Run(s, props, format, FormEvents<D>(k, es));
      && Legal(s, props, format, FormEvents<D>(k, es))
      && t.writes == []
      && t.state.editing == s.editing && t.state.dialog == s.dialog
      && Lookup(t.state.working, k) == ApplyAll(Lookup(s.working, k), es)
      && (forall j :: j != k ==> Lookup(t.state.working, j) == Lookup(s.working, j))
    decreases |es|
  {
    var evs := FormEvents<D>(k, es);
    if |es| > 0 {
      var s1 := Panel.ChangeField(s, k, es[0]);
      assert evs[0] == FieldChanged(k, es[0]);
      assert evs[1..] == FormEvents<D>(k, es[1..]);
      RunCons(s, props, format, evs);
      TypingEdits(s1, props, format, k, es[1..]);
    }
  }

  /** An edit session that ends in a successful save writes exactly the
      edited record to the record path and leaves edit mode; the other
      records are untouched. */
  lemma EditThenSave<D>(s: Panel.State, props: Creds, format: D -> string, k: Key, es: seq<Edit>)
    requires s.editing == Some(k) && !s.dialog.open
    requires forall i :: 0 <= i < |es| ==> !es[i].SetLocked?
    ensures var evs := FormEvents<D>(k, es) + [SaveClicked(k, Panel.Resolved)];
      var t := Run(s, props, format, evs);
      && Legal(s, props, format, evs)
      && t.writes == [Panel.Write(Panel.RecordPath(k), Panel.Record(ApplyAll(Lookup(s.working, k), es)))]
      && t.state.editing == None
      && Lookup(t.state.working, k) == ApplyAll(Lookup(s.working, k), es)
      && (forall j :: j != k ==> Lookup(t.state.working, j) == Lookup(s.working, j))
  {
    var a := FormEvents<D>(k, es);
    var b: seq<Event<D>> := [SaveClicked(k, Panel.Resolved)];
    TypingEdits(s, props, format, k, es);
    RunAppend(s, props, format, a, b);
    LegalAppend(s, props, format, a, b);
    var mid := Run(s, props, format, a).state;
    RunCons(mid, props, format, b);
    assert b[1..] == [];
    RunNil(Panel.SaveEdit(mid, k, Panel.Resolved).state, props, format);
  }

  /** Pressing Edit on another card after typing edits does not discard
      them: the edited record stays in the working copy while the other card
      is in edit mode, and no write is requested. */
  lemma SwitchKeepsDraft<D>(s: Panel.State, props: Creds, format: D -> string, k: Key, es: seq<Edit>, other: Key)
    requires s.editing == Some(k) && !s.dialog.open && other != k
    requires forall i :: 0 <= i < |es| ==> !es[i].SetLocked?
    ensures var evs := FormEvents<D>(k, es) + [EditClicked(other)];
      var t := Run(s, props, format, evs);
      && Legal(s, props, format, evs)
      && t.writes == []
      && t.state.editing == Some(other)
      && Lookup(t.state.working, k) == ApplyAll(Lookup(s.working, k), es)
  {
    var a := FormEvents<D>(k, es);
    var b: seq<Event<D>> := [EditClicked(other)];
    TypingEdits(s, props, format, k, es);
    RunAppend(s, props, format, a, b);
    LegalAppend(s, props, format, a, b);
    var mid := Run(s, props, format, a).state;
    RunCons(mid, props, format, b);
    assert b[1..] == [];
    RunNil(Panel.BeginEdit(mid, other), props, format);
  }

  /** Pressing Lock and then dismissing the dialog requests no write and
      leaves the working copy and edit mode as they were. */
  lemma DeclineLeavesStateUntouched<D>(s: Panel.State, props: Creds, format: D -> string, k: Key)
    requires !s.dialog.open && s.editing != Some(k)
    ensures var evs: seq<Event<D>> := [LockClicked(k), DialogDismissed];
      var t := Run(s, props, format, evs);
      && Legal(s, props, format, evs)
      && t.writes == []
      && t.state.working == s.working && t.state.editing == s.editing
      && !t.state.dialog.open
  {
    var evs: seq<Event<D>> := [LockClicked(k), DialogDismissed];
    var s1 := Panel.ToggleLock(s, k);
    assert evs[1..] == [DialogDismissed];
    assert evs[1..][1..] == [];
    RunCons(s, props, format, evs);
    RunCons(s1, props, format, evs[1..]);
    RunNil(Panel.OpenChange(s1, false), props, format);
  }

  /** Cancel forgets the whole history: the state after cancel depends only
      on the pristine records and the dialog. In particular a lock flag
      written locally by a confirmed dialog is reset to its pristine value. */
  lemma CancelForgets(s1: Panel.State, s2: Panel.State, props: Creds)
    requires s1.dialog == s2.dialog
    ensures Panel.CancelEdit(s1, props) == Panel.CancelEdit(s2, props)
  {
  }
}
