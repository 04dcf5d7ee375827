# Git User Switcher (gus): a verified model of its core

gus shows the profiles of `~/.gus/config` as a list in the terminal. The
list is a header, a "Global" row, one row per profile, and a "Create new"
row. The user moves with Up and Down and presses Enter. On a profile row the
program rewrites the repository's `.git/config`: the `[user]` section gets
that profile's email and name, and `core.sshCommand` becomes
`ssh -i <key path>`. On "Global" it removes those identity entries instead.

This project models, in Dafny, the two pieces of `src/main.rs` that carry
logic:

- **Selection** (module `Selection`, class `Gus.App`). This covers the
  cursor of the list and how Up and Down move it. It also covers the render
  step, which pulls a cursor past the end back to the last row, and what
  Enter does on each row. The event loop of `run` is the method
  `Gus.App.Run`.
- **Credential edit** (module `Credentials`, `Gus.App.SetCredential`). This
  is the change `set_credential` makes to the target document, for "clear"
  and for "apply".

The list of rows and the parallel list of profile values built in `main` are
in module `Profiles`. `Gus.KeyStep` and `Gus.Session` are functions. They say
what one key, and a whole stream of terminal events, do to the cursor, the
exit flag and the target document. The methods of `Gus.App` are proved
against them, and the lemmas prove the program's properties about them.

Modelling choices:

- Library assumptions. Indexing a missing section of the target document
  for writing creates that section with no keys (`Credentials.CoreOf`).
  `select_previous` and `select_next` of the list state move the cursor back
  and forward one row. Every redraw of the list pulls a cursor past the end
  back to the last row (`Selection.Clamp`).
- The `.git/config` document is a map from section names to sections. A
  section is a map from string keys to string values. A profile is the map of
  its string-valued fields. An absent field panics at the lookup
  `val["email"]` (and likewise for the other fields), and a field that is not
  a string panics at `as_str().unwrap()`. Both count as missing.
- The file `.git/config` is the object `Gus.GitConfig`. Its `present` flag
  stands for the existence check, and its `doc` is the document that is read
  and written. The program never creates the file, so `present` never changes.
- Terminal input is a sequence of `Gus.Event`s. Events that are not key
  presses are skipped, as `run` skips them. A session ends when the exit flag
  is set or when the sequence runs out; the real program would block waiting
  for the next event.
- When `set_credential` meets a profile with a missing field, it panics
  before writing. The model returns an error and writes nothing. The
  unfinished "Create new" flow aborts at `todo!()`. The model ends the
  session there with the document unchanged.

Some behaviours of the code are easy to misread. The model follows the code:

- Clear keeps the `core` section even when removing `sshCommand` leaves it
  empty. Only an emptied `user` section is removed.
- Apply followed by clear is not a no-op. Apply replaces `user` wholesale,
  so any other keys in `user` (a signing key, say) are lost.
  `Credentials.ClearAfterApply` states exactly what remains.
  `Credentials.ClearAfterApplyRestores` gives the conditions under which the
  pair comes back to a plain clear: `user` held only the identity, and a
  `core` section already existed.
- When the document has no `core` section, `doc["core"]["sshCommand"] = ...`
  makes toml_edit create `core` as an inline table
  (`core = { sshCommand = "ssh -i …" }`). Clear edits `core` only through
  `as_table_mut`, which matches standard tables alone. So in the program, a
  later clear leaves that `sshCommand` in place. The model does not tell the
  two kinds of table apart (see "## Left out").
- Down does not stop at the last row by itself. It adds one, and the next
  redraw clamps the cursor back. The model keeps those two steps apart.
- Up from an unset cursor leaves it unset. So the invariant is: the cursor is
  unset, or on a row from 1 to len. It is on row len only between a Down and
  the next redraw. After any redraw it is unset or on a selectable row.

## Model

| member | source | states |
|---|---|---|
| `Credentials.CoreOf` | src/main.rs:196 | the section `sshCommand` is written into is the existing `core`, or one with no keys when the document has none |
| `Credentials.Cleared` | src/main.rs:178-190 | clear removes `user.email`, `user.name` and `core.sshCommand`; drops `user` exactly when it then has no keys; keeps `core` (even empty); every other key of every section keeps its value, and nothing is added |
| `Credentials.ClearIdentity` | src/main.rs:178-190 | the remove-email, remove-name, drop-if-empty, remove-sshCommand edits on the document give exactly `Cleared` |
| `Credentials.Applied` | src/main.rs:192-196 | after apply, `user` holds exactly the profile's email and name; `core.sshCommand` is `"ssh -i " + ssh_key`; `core` exists and keeps its other keys; all other sections are unchanged; no other section appears |
| `Credentials.MissingFieldOf` | src/main.rs:194-196 | none is missing exactly when email, name and ssh_key are all present; otherwise the first absent one, in the order email, name, ssh_key |
| `Credentials.ApplyProfile` | src/main.rs:192-197 | fails exactly when a required field is missing, naming the first one; otherwise yields `Applied` with the profile's identity |
| `Credentials.ClearedIdempotent` | src/main.rs:178-190 | clearing twice gives the same document as clearing once |
| `Credentials.ClearAfterApply` | src/main.rs:178-196 | apply then clear leaves no `user`, `core` as before minus `sshCommand`, and the other sections untouched; when `core` was absent the model leaves an empty `core`, which the program does not (see "## Left out") |
| `Credentials.ClearAfterApplyRestores` | src/main.rs:178-196 | if `user` held only identity keys and `core` existed, apply then clear equals clear |
| `Credentials.ApplyAfterClear` | src/main.rs:178-196 | applying a profile gives the same document whether or not the identity was cleared first |
| `Credentials.ApplyLastWins` | src/main.rs:192-196 | applying `a` then `b` equals applying `b` alone |
| `Profiles.Names` | src/main.rs:27 | one name per top-level entry of the profile store, in document order |
| `Profiles.Values` | src/main.rs:32 | one value per top-level entry, in the same order, so value k belongs to name k |
| `Profiles.SelectionList` | src/main.rs:27-30 | the list has n + 3 rows: the header at 0, "Global" at 1, profile k's name at k + 2, "Create new" last |
| `Profiles.BuildSelectionList` | src/main.rs:27-30 | the insert-at-front, insert-at-front, push sequence builds exactly `SelectionList` |
| `Selection.Clamp` | src/main.rs:223 | the redraw leaves the cursor within the list; a cursor already in range is unchanged; a moved cursor lands on the last row; it is unset only if it was unset |
| `Selection.AfterUp` | src/main.rs:74-79 | Up moves the cursor only when it is above row 1, and then by exactly one row; a set cursor stays set and never drops below row 1 |
| `Selection.AfterDown` | src/main.rs:80-86 | Down from unset or row 0 goes to row 1; from any other row it advances one; the result is always set and at least 1 |
| `Selection.Resolve` | src/main.rs:87-107 | Enter does nothing iff the cursor is unset or on row 0; clears iff on row 1; applies profile i - 2 iff on a row 2 <= i < len - 1; creates iff on row len - 1 or beyond |
| `Selection.NavigationAvoidsHeader` | src/main.rs:74-86 | a redraw brings the cursor to a selectable row or leaves it unset; Up keeps it so; Down followed by a redraw puts it on a row in [1, len - 1] |
| `Selection.UpThenDown` | src/main.rs:74-86 | from any row above 1, Up then Down (with redraws) returns to that row |
| `Selection.DownThenUp` | src/main.rs:74-86 | Down then Up returns to the starting row, except from the last row, where it ends one row up |
| `Gus.KeyStep` | src/main.rs:72-167 | only Enter with the file present changes the document, and then the session ends; only Up and Down move the cursor; only Esc and Enter end the session, and Esc always does; Enter ends a running session exactly when the cursor is set and off the header; on an unset cursor or the header it changes nothing and continues; on row 1 it writes `Cleared` (file present) or reports the missing file; without the file, every row from 1 to len - 2 reports the missing file and ends the session; on row len - 1 or beyond it aborts creation, writing nothing |
| `Gus.Session` | src/main.rs:64-171 | an ended session reads no more events; the document changes only if the file is present, and then the session has ended; a session whose events include a pressed Esc ends |
| `Gus.App.constructor` | src/main.rs:46-54 | a new app has no cursor, is not exiting, and holds the given rows and values |
| `Gus.App.CursorUp` | src/main.rs:56-58 | `select_previous` moves a set cursor back one row, stopping at 0 |
| `Gus.App.CursorDown` | src/main.rs:60-62 | `select_next` moves a set cursor forward one row |
| `Gus.App.Draw` | src/main.rs:66 | drawing clamps the cursor (`Clamp`) and leaves it unset or on a selectable row |
| `Gus.App.SetCredential` | src/main.rs:174-201 | with no file: fails, writes nothing; id 0: writes `Cleared`; otherwise, for profile `values[id - 1]`, writes `Applied` or fails on the missing field and writes nothing |
| `Gus.App.HandleKey` | src/main.rs:72-167 | the new cursor, exit flag, document and outcome are those of `KeyStep`, and the cursor stays off the header |
| `Gus.App.Run` | src/main.rs:64-171 | the loop leaves the app and the document as `Session` over the event stream does |
| `Gus.Launch` | src/main.rs:27-33 | start-up gives an app with the rows `SelectionList(names)` and the profile values in the same order, no cursor, not exiting |
| `Gus.RowMapping` | src/main.rs:27-32 | Enter on row i (2 <= i < len - 1) selects profile i - 2, whose name is row i and whose value is the (i - 2)-th; with the file present and the profile complete, that profile is applied and the message names row i |
| `Gus.EnterOnProfileRow` | src/main.rs:87-105 | on a row 2 <= i < len - 1 with the file present, Enter ends the session; with a complete profile it writes `Applied` for value i - 2 and names row i, otherwise it reports a missing required field and writes nothing |
| `Gus.SessionAvoidsHeader` | src/main.rs:64-86 | over any event stream, the cursor stays unset or on rows 1..len, and after the next redraw it is on a selectable row |
| `Gus.KeyStepWrites` | src/main.rs:87-166 | a key that changes the document ends the session with the file present and writes `Cleared` or a complete profile `Applied`; on a running session, exactly the outcomes other than `Continue` end it |
| `Gus.SessionWritesAtMostOnce` | src/main.rs:64-171 | a whole session leaves the document unchanged, or ends with it cleared or with one complete profile applied; without the file it is never changed |
| `Gus.WorkProfileScenario` | src/main.rs:72-105 | with the single profile "work", Down, Down, Enter on an empty document leaves exactly its email, name and `ssh -i` command |
| `Gus.EmptyCatalogScenario` | src/main.rs:80-112 | with no profiles the list is header, Global, Create new; Down lands on Global, a second Down on Create new, where Enter aborts; Enter on Global over an empty document leaves it empty |

## Left out

- Terminal setup, drawing and the numbered row labels (src/main.rs:23-25, 203-224). These are rendering. Only the cursor clamp of the list widget is modelled.
- Reading terminal events (src/main.rs:68). Input is a sequence of events, and errors from `event::read` and `terminal.draw` are not modelled. `terminal.clear` and `flush` are also left out, as are the `println!` messages, except that the outcome records which row the success message names.
- File-system access: the home-directory path, creating an empty profile store when it is absent, and reading the store (src/main.rs:14-20). The catalog is an input value.
- Read and write failures of `.git/config` other than a missing file. The write at src/main.rs:199-200 can fail after the decision is made. The model treats the write as always succeeding.
- TOML parsing and serialisation (src/main.rs:21, 176, 199). A parse failure panics in the program; the model always has a document. Key and section order, formatting, values that are not strings, top-level entries that are not tables, and the difference between inline and standard tables are not represented.
- Duplicate profile names cannot occur in a TOML table. The model does not need that fact, so it does not state it.
- The "Create new" flow after `todo!()` (src/main.rs:107-162). It is unreachable. The model ends the session at the abort, with nothing written.
- The discarded result of `run` in `main` (src/main.rs:33).
- Credentials.ClearAfterApply: its case of a document with no `core` section holds of the model only. In the program, apply creates `core` as an inline table there, and a later clear does not edit inline tables, so `core.sshCommand` survives. The model represents every section as a plain map.
- Gus.App.CursorUp: models `select_previous` only on a set cursor. Its one call site is guarded by `selected > 1`. What the library does from an unset cursor is not modelled.
- Gus.App.CursorDown: models `select_next` only on a set cursor, as its one call site guarantees. The saturation at the machine-word maximum is not modelled, because integers are unbounded here.
