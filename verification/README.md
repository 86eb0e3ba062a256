# Credentials panel: edit and lock workflow

This project models the state machine behind the admin dashboard's credentials
panel (`CredentialsPanel`). The panel manages four fixed credential records,
`cred1` to `cred4`. Each record has a slot, an email, a password, an expiry
date, a lock flag and two usage counters. The panel keeps three pieces of
local state:

- the key of the card in edit mode, if any;
- a working copy of the four records, seeded from the records the caller
  passes in (the pristine records);
- a confirmation dialog with an open flag, a pending action, a title and a
  description.

Every event handler is a pure function of the state, the event's arguments
and, where the handler calls the remote store, the outcome of that call
(`Resolved` or `Rejected`). A handler that calls the store returns the
requested write as a `(path, payload)` pair, together with the toast notice
it raises.

Files:

- `credentials.dfy` (module `Credentials`): keys and their names, the
  `Credential` record, field-level reads (`Get`) and edits (`Apply`), the
  four-record working set `Creds` with `Lookup`/`Update`, and the lock flip.
- `panel.dfy` (module `Panel`): the panel state, the dialog and its pending
  lock action, and one function per handler.
- `workflow.dfy` (module `Workflow`): sequences of user events. `Enabled`
  states which controls the rendered panel offers in a state, and `Run`
  folds the handlers over a sequence of events. The lemmas here are
  invariants over whole runs.

The pending lock action is a closure in the source. It captures the working
copy and the target record at the moment the lock button is pressed. It is
modelled as the `SetLock` action, which stores that snapshot. Confirming
writes the snapshot back with the flag flipped (`StaleSnapshot`). In event
sequences the modal dialog keeps the snapshot equal to the current working
copy (`Coherent`, `RunCoherent`). So with one event at a time, a confirm flips
exactly the lock flag (`ConfirmFlipsOnlyLock`).

Three behaviours of the code that are easy to get wrong:

- Pressing Edit on one card while another card is in edit mode does not
  discard the other card's unsaved changes. Only the edit-mode key moves; the
  changes stay in the working copy and are shown in that card's view.
- Cancel resets all four working records to the pristine records, not only
  the record being edited. This also discards lock flags written locally by a
  confirmed dialog.
- A confirmed lock does not update only the local lock flag. It replaces the
  whole working copy with the snapshot taken when the lock button was
  pressed.

## Model

| member | source | states |
|---|---|---|
| Credentials.KeyNameInjective | src/components/admin/CredentialsPanel.tsx:40-45 | the four record keys have four distinct names, so a key name identifies one record |
| Credentials.KeyNameRoundTrip | src/components/admin/CredentialsPanel.tsx:40-45 | reading a key back from its name gives the same key |
| Credentials.GetExtensional | src/components/admin/CredentialsPanel.tsx:29-37 | a credential is exactly its seven fields: two records that agree on every field are equal |
| Credentials.Apply | src/components/admin/CredentialsPanel.tsx:82-85 | spreading a record and overriding one field gives a record whose edited field reads the new value and whose other six fields read as before |
| Credentials.ApplyUnique | src/components/admin/CredentialsPanel.tsx:82-85 | that field-level description determines the edited record completely |
| Credentials.ApplyAllUntouched | src/components/admin/CredentialsPanel.tsx:79-87 | after a run of field edits, a field that none of them writes keeps its original value |
| Credentials.ApplyAllLastWins | src/components/admin/CredentialsPanel.tsx:79-87 | after a run of field edits, a written field holds the value of the last edit that writes it |
| Credentials.Update | src/components/admin/CredentialsPanel.tsx:80-86 | replacing one key's record sets that key and leaves the other three keys as they were |
| Credentials.CredsExtensional | src/components/admin/CredentialsPanel.tsx:40-45 | the working set holds exactly four records, and two sets that agree on every key are equal |
| Credentials.UpdateSame | src/components/admin/CredentialsPanel.tsx:80-86 | writing back the record a key already holds leaves the working set unchanged |
| Credentials.Flip | src/components/admin/CredentialsPanel.tsx:91 | the proposed lock value is always 0 or 1, and it is 1 exactly when the current flag is 0; any nonzero flag proposes 0 |
| Credentials.FlipTwice | src/components/admin/CredentialsPanel.tsx:91 | toggling twice restores a 0/1 flag, but turns any other stored value into 1 |
| Panel.WritePathsDistinct | src/components/admin/CredentialsPanel.tsx:70-97 | a record path and a lock path never coincide, and each path names one key |
| Panel.Init | src/components/admin/CredentialsPanel.tsx:50-57 | on mount nothing is in edit mode, the working copy equals the pristine records, and the dialog is closed with an action that does nothing |
| Panel.BeginEdit | src/components/admin/CredentialsPanel.tsx:59-61 | the edit-mode key becomes the given key unconditionally; the working copy and the dialog are untouched |
| Panel.CancelEdit | src/components/admin/CredentialsPanel.tsx:63-66 | every one of the four working records equals its pristine record, and nothing is in edit mode |
| Panel.SaveEdit | src/components/admin/CredentialsPanel.tsx:68-77 | requests a write of exactly the working record to its record path; success leaves edit mode, failure leaves the state unchanged, and neither changes the working copy; the notice tone follows the outcome |
| Panel.ChangeField | src/components/admin/CredentialsPanel.tsx:79-87 | the edited field of the record reads the new value; every other field of it, every other record, the edit mode and the dialog are unchanged |
| Panel.PickDate | src/components/admin/CredentialsPanel.tsx:126-131 | no date leaves the state unchanged; a date sets only the record's expiry date to the formatted date |
| Panel.TitleRoundTrip | src/components/admin/CredentialsPanel.tsx:113 | the dialog title can be read back into the key and whether it says Lock, and it says Lock exactly when the proposed value is 1 |
| Panel.PromptRoundTrip | src/components/admin/CredentialsPanel.tsx:114 | the dialog description can be read back into the key it names and whether it asks to lock; it asks to lock exactly when the proposed value is 1 and to unlock otherwise |
| Panel.ToggleLock | src/components/admin/CredentialsPanel.tsx:89-116 | opens the dialog for the key, proposing 1 for an unlocked record and 0 for any other flag, with a title and a description that each read back to the key and the direction; the action captures the current working copy and record; the working copy and edit mode are unchanged |
| Panel.OpenChange | src/components/admin/CredentialsPanel.tsx:315-318 | a close request sets open to false and keeps action, title and description; an open request changes nothing; edit mode and working copy never change |
| Panel.RunAction | src/components/admin/CredentialsPanel.tsx:95-111 | a lock action requests a write of the proposed value to the lock path; on success the key's record is the captured record with the new flag and the other keys come from the captured snapshot; on failure the state is unchanged |
| Panel.Confirm | src/components/admin/CredentialsPanel.tsx:330-334 | the confirm click runs the pending action and the dialog ends closed with its action kept; a failure leaves the working copy unchanged |
| Workflow.Enabled | src/components/admin/CredentialsPanel.tsx:149-339 | the controls the rendered panel offers: while the modal dialog is open only confirm and dismiss, and confirm and dismiss only then; Save, form fields and the date picker only on the card in edit mode; Edit and Lock only on cards in view mode; no form control for the lock flag |
| Workflow.Next | src/components/admin/CredentialsPanel.tsx:157-333 | which handler each control calls: only Save and a confirmed lock action request a remote write; the working copy changes only through form edits, a picked date, Cancel or Confirm; edit mode changes only through Edit, Cancel or Save; the dialog opens or closes only through Lock, Confirm or dismiss |
| Workflow.InitCoherent | src/components/admin/CredentialsPanel.tsx:50-57 | the mounted panel satisfies the dialog invariant |
| Workflow.NextCoherent | src/components/admin/CredentialsPanel.tsx:89-116 | every event the panel offers keeps the invariant: an open dialog's action was captured from the current working copy and proposes the flipped flag |
| Workflow.RunCoherent | src/components/admin/CredentialsPanel.tsx:313-339 | every legal run of events keeps that invariant |
| Workflow.ConfirmFlipsOnlyLock | src/components/admin/CredentialsPanel.tsx:95-111 | in a coherent state a confirmed write changes exactly the lock flag of the dialog's key, to the flipped value; a failed one changes nothing in the working copy |
| Workflow.StaleSnapshot | src/components/admin/CredentialsPanel.tsx:90-105 | a confirmed write replaces the working copy with the snapshot taken at the lock click, flag flipped, whatever happened in between |
| Workflow.StaleSnapshotLosesChange | src/components/admin/CredentialsPanel.tsx:99-105 | a change to another record made between the lock click and the write's success is lost |
| Workflow.LocksOnlyByConfirm | src/components/admin/CredentialsPanel.tsx:151-236 | without a confirm, every lock flag stays at its starting value or at its pristine value, because the edit form has no lock control |
| Workflow.RunWritesWellFormed | src/components/admin/CredentialsPanel.tsx:68-111 | every write of a legal run addresses one record, either as a whole record or as its lock flag written as 0 or 1 |
| Workflow.TypingEdits | src/components/admin/CredentialsPanel.tsx:152-236 | typing edits into the card in edit mode applies them in order to that record only, requests no write, and keeps edit mode and dialog |
| Workflow.EditThenSave | src/components/admin/CredentialsPanel.tsx:68-77 | an edit session ending in a successful save writes exactly the edited record, leaves edit mode and leaves the other records untouched |
| Workflow.SwitchKeepsDraft | src/components/admin/CredentialsPanel.tsx:59-61 | pressing Edit on another card after typing edits moves edit mode to that card, requests no write, and keeps the typed edits in the working copy |
| Workflow.DeclineLeavesStateUntouched | src/components/admin/CredentialsPanel.tsx:313-319 | pressing Lock and then dismissing the dialog requests no write, leaves the working copy and edit mode as they were, and ends with the dialog closed |
| Workflow.CancelForgets | src/components/admin/CredentialsPanel.tsx:63-66 | the state after cancel depends only on the pristine records and the dialog, not on any earlier edit or confirmed lock |

## Left out

- The page header (`src/components/layout/Header.tsx`): a scroll listener that switches a CSS class. It has no state worth verifying.
- Rendering, styling, badges and card layout. Only the controls each card offers in view and edit mode are modelled, in `Enabled`.
- The remote store call `updateData`. Its settlement is the `Outcome` parameter and its request is the returned `Write`. No store state is modelled.
- Toast delivery and `console.error`. The notice tone and text a handler raises are modelled; the logging is not.
- `formatDate` and the date-fns `parse`/`format` calls. Display formatting is not modelled. `PickDate` takes the date type and the formatter as parameters.
- `parseInt` and JavaScript number semantics (NaN, fractions). Numeric fields are unbounded integers, and a typed number arrives as an opaque integer.
- The `slots` prop. It only fills the slot selector; any slot string is accepted.
- `handleInputChange` takes a value of any type. The model pairs each field with a value of that field's declared type (`Edit`).
- The dialog widget closes itself when its confirm button is clicked. This is assumed, not derived: `Confirm` runs the action and then closes the dialog.
- Asynchronous interleaving. Each handler runs to completion, including its remote call. The race between a pending lock write and later edits is shown only as the fact that the stale snapshot would overwrite them (`StaleSnapshotLosesChange`). The race between a lock write and a concurrent save on the same record is not modelled.
- Changes to the caller's records after mount. The working copy is seeded once; `CancelEdit` reads the records passed to it.
