/** The interactive switcher: the `App` state (cursor and exit flag) driven
    key by key, the `.git/config` file it reads and rewrites, and the event
    loop of `run`. `KeyStep` and `Session` state as functions what one key
    and a whole stream of events do; the class methods are proved against
    them and the lemmas below prove what the program promises about them. */
module Gus {
  import opened Wrappers
  import opened Credentials
  import opened Profiles
  import opened Selection

  /** The keys the loop tells apart; every other key is `OtherKey`. */
  datatype KeyCode = Up | Down | Enter | Esc | OtherKey

  /** One terminal event: a key event (press, or release/repeat) or any
      other event (mouse, resize, ...). */
  datatype Event = Key(code: KeyCode, press: bool) | NonKey

  /** What a key led to, as far as the user sees it. */
  datatype Outcome =
    | Continue                  // keep reading keys
    | Exited                    // Esc
    | TargetMissing             // ".git/config does not exist!"
    | Switched(row: string)     // "Success to change git credential to <row>!"
    | Failed(error: CredentialError) // set_credential did not complete; nothing written
    | CreateAborted             // the unfinished "Create new" flow aborts

  /** Why `set_credential` stops before writing: the file cannot be read, or
      the profile lacks a field (the program panics on the unwrap). */
  datatype CredentialError = Unreadable | Incomplete(missing: ApplyError)

  /** The cursor and the exit flag of `App`. */
  datatype Ui = Ui(selected: Option<nat>, exit: bool)

  /** The state after one key: the ui, the target document, the outcome. */
  datatype Transition = Transition(ui: Ui, doc: Doc, outcome: Outcome)

  /** The state a fresh `App` starts in. */
  const Start := Ui(None, false)

  /** One pressed key, handled on a freshly drawn list `entries` whose
      profile rows carry `values`, with the target file present or not and
      holding `doc`. */
  function KeyStep(entries: seq<string>, values: seq<ProfileFields>, present: bool,
                   ui: Ui, doc: Doc, code: KeyCode): (t: Transition)
    requires |entries| == |values| + 3
    ensures t.doc != doc ==> code == Enter && present && t.ui.exit
    ensures t.ui.selected != ui.selected ==> code == Up || code == Down
    ensures t.ui.exit != ui.exit ==> code == Esc || code == Enter
    ensures ui.exit ==> t.ui.exit
    ensures code == Esc ==> t.ui.exit && t.outcome == Exited
    ensures code != Enter && code != Esc ==> t.doc == doc && t.ui.exit == ui.exit && t.outcome == Continue
    ensures code == Enter ==> (t.ui.exit <==> ui.exit || ui.selected.GetOr(0) != 0)
    ensures code == Enter && ui.selected.GetOr(0) == 0 ==> t == Transition(ui, doc, Continue)
    ensures code == Enter && ui.selected == Some(1) ==>
              t == if present then Transition(ui.(exit := true), Cleared(doc), Switched(entries[1]))
                   else Transition(ui.(exit := true), doc, TargetMissing)
    ensures code == Enter && !present && 1 <= ui.selected.GetOr(0) < |entries| - 1 ==>
              t == Transition(ui.(exit := true), doc, TargetMissing)
    ensures code == Enter && ui.selected.GetOr(0) >= |entries| - 1 ==>
              t == Transition(ui.(exit := true), doc, CreateAborted)
  {
    match code
    case Esc => Transition(ui.(exit := true), doc, Exited)
    case Up => Transition(ui.(selected := AfterUp(ui.selected)), doc, Continue)
    case Down => Transition(ui.(selected := AfterDown(ui.selected)), doc, Continue)
    case OtherKey => Transition(ui, doc, Continue)
    case Enter =>
      var done := ui.(exit := true);
      match Resolve(ui.selected, |entries|)
      case Stay => Transition(ui, doc, Continue)
      case CreateRow => Transition(done, doc, CreateAborted)
      case ClearRow =>
        if !present then Transition(done, doc, TargetMissing)
        else Transition(done, Cleared(doc), Switched(entries[1]))
      case ProfileRow(k) =>
        if !present then Transition(done, doc, TargetMissing)
        else match MissingFieldOf(values[k])
          case Some(f) => Transition(done, doc, Failed(Incomplete(MissingField(f))))
          case None => Transition(done, Applied(doc, IdentityOf(values[k])), Switched(entries[k + 2]))
  }

  /** The loop of `run` over a stream of events: stop once the exit flag is
      set or the events run out; otherwise redraw (which clamps the cursor),
      take the next event, and handle it if it is a key press. */
  function Session(entries: seq<string>, values: seq<ProfileFields>, present: bool,
                   ui: Ui, doc: Doc, events: seq<Event>): (r: (Ui, Doc))
    requires |entries| == |values| + 3
    ensures ui.exit ==> r == (ui, doc)
    ensures r.1 != doc ==> present && r.0.exit
    ensures Esc in Pressed(events) ==> r.0.exit
    decreases |events|
  {
    if ui.exit || |events| == 0 then (ui, doc)
    else
      var drawn := ui.(selected := Clamp(ui.selected, |entries|));
      if events[0].Key? && events[0].press then
        var t := KeyStep(entries, values, present, drawn, doc, events[0].code);
        Session(entries, values, present, t.ui, t.doc, events[1..])
      else
        Session(entries, values, present, drawn, doc, events[1..])
  }

  /** The codes of the key presses among `events`, in order. */
  function Pressed(events: seq<Event>): seq<KeyCode> {
    if |events| == 0 then []
    else (if events[0].Key? && events[0].press then [events[0].code] else []) + Pressed(events[1..])
  }

  /** `after` is what one session can have written over `before`: the
      cleared document, or the document with one complete profile applied. */
  predicate WrittenFrom(values: seq<ProfileFields>, before: Doc, after: Doc) {
    || after == Cleared(before)
    || exists k :: 0 <= k < |values| && RequiredFields <= values[k].Keys
                   && after == Applied(before, IdentityOf(values[k]))
  }

  /** The repository's `.git/config`: whether it exists, and its document.
      The program never creates it. */
  class GitConfig {
    const present: bool
    var doc: Doc

    constructor (present: bool, doc: Doc)
      ensures this.present == present && this.doc == doc
    {
      this.present := present;
      this.doc := doc;
    }
  }

  class App {
    var shouldExit: bool
    /** The list state's cursor. */
    var selected: Option<nat>
    /** The rows shown (`credential_list`). */
    const entries: seq<string>
    /** The profile values, in row order from row 2 (`credential_value`). */
    const values: seq<ProfileFields>

    /** Every profile row has its value, and the cursor is never on the header. */
    ghost predicate Valid()
      reads this
    {
      |entries| == |values| + 3 && Parked(selected, |entries|)
    }

    ghost function State(): Ui
      reads this
    {
      Ui(selected, shouldExit)
    }

    constructor (list: seq<string>, values: seq<ProfileFields>)
      requires |list| == |values| + 3
      ensures Valid() && State() == Start
      ensures entries == list && this.values == values
    {
      shouldExit := false;
      selected := None;
      entries := list;
      this.values := values;
    }

    /** The list state's `select_previous`. */
    method CursorUp()
      requires selected.Some?
      modifies this`selected
      ensures selected == Some(if old(selected.value) == 0 then 0 else old(selected.value) - 1)
    {
      selected := Some(if selected.value == 0 then 0 else selected.value - 1);
    }

    /** The list state's `select_next`. */
    method CursorDown()
      requires selected.Some?
      modifies this`selected
      ensures selected == Some(old(selected.value) + 1)
    {
      selected := Some(selected.value + 1);
    }

    /** Rendering the list: the widget clamps the cursor to the last row. */
    method Draw()
      requires Valid()
      modifies this`selected
      ensures Valid() && Resting(selected, |entries|)
      ensures selected == Clamp(old(selected), |entries|)
    {
      if selected.Some? && selected.value >= |entries| {
        selected := Some(|entries| - 1);
      }
    }

    /** `set_credential(id)`: read the target document, clear it (id 0) or
        apply the profile `values[id - 1]`, and write it back. */
    method SetCredential(id: nat, target: GitConfig) returns (r: Result<(), CredentialError>)
      requires |entries| == |values| + 3
      requires id <= |values|
      modifies target
      ensures !target.present ==> r == Failure(Unreadable) && target.doc == old(target.doc)
      ensures target.present && id == 0 ==> r.Success? && target.doc == Cleared(old(target.doc))
      ensures target.present && id > 0 ==>
        match MissingFieldOf(values[id - 1])
        case Some(f) => r == Failure(Incomplete(MissingField(f))) && target.doc == old(target.doc)
        case None => r.Success? && target.doc == Applied(old(target.doc), IdentityOf(values[id - 1]))
    {
      if !target.present {
        return Failure(Unreadable);
      }
      var doc := target.doc;
      if id == 0 {
        doc := ClearIdentity(doc);
      } else {
        var applied := ApplyProfile(doc, values[id - 1]);
        if applied.Failure? {
          return Failure(Incomplete(applied.error));
        }
        doc := applied.value;
      }
      target.doc := doc;
      r := Success(());
    }

    /** One key press, as the `match key.code` of `run` handles it. */
    method HandleKey(code: KeyCode, target: GitConfig) returns (outcome: Outcome)
      requires Valid() && Resting(selected, |entries|)
      modifies this, target
      ensures Valid()
      ensures Transition(State(), target.doc, outcome)
           == KeyStep(entries, values, target.present, old(State()), old(target.doc), code)
    {
      outcome := Continue;
      match code {
        case Esc =>
          shouldExit := true;
          outcome := Exited;
        case Up =>
          if selected.GetOr(0) > 1 {
            CursorUp();
          }
        case Down =>
          if selected.GetOr(0) == 0 {
            selected := Some(1);
          } else {
            CursorDown();
          }
        case Enter =>
          var i := selected.GetOr(0);
          if i == 0 {
            return;
          }
          if i < |entries| - 1 {
            if !target.present {
              shouldExit := true;
              outcome := TargetMissing;
              return;
            }
            var r := SetCredential(i - 1, target);
            if r.Success? {
              outcome := Switched(entries[i]);
            } else {
              outcome := Failed(r.error);
            }
          } else {
            outcome := CreateAborted;
          }
          shouldExit := true;
        case OtherKey =>
      }
    }

    /** The loop of `run` over the events the terminal delivers. */
    method Run(events: seq<Event>, target: GitConfig)
      requires Valid()
      modifies this, target
      ensures Valid()
      ensures (State(), target.doc)
           == Session(entries, values, target.present, old(State()), old(target.doc), events)
    {
      var i := 0;
      while !shouldExit && i < |events|
        invariant Valid() && i <= |events|
        invariant Session(entries, values, target.present, old(State()), old(target.doc), events)
               == Session(entries, values, target.present, State(), target.doc, events[i..])
      {
        Draw();
        var event := events[i];
        i := i + 1;
        if event.Key? && event.press {
          var _ := HandleKey(event.code, target);
        }
      }
    }
  }

  /** Start-up as `main` does it: the list of rows and the parallel vector
      of profile values are taken from the profile store, and a fresh `App`
      is made from them. */
  method Launch(catalog: Catalog) returns (app: App)
    ensures fresh(app) && app.Valid() && app.State() == Start
    ensures app.entries == SelectionList(Names(catalog)) && app.values == Values(catalog)
  {
    var list := BuildSelectionList(Names(catalog));
    app := new App(list, Values(catalog));
  }

  /** Row i of the list (2 <= i < len - 1) names the profile whose value
      Enter applies: Enter resolves it to profile i - 2, whose name is at row
      i and whose value is the (i - 2)-th value, both the (i - 2)-th entry of
      the store; with the file present and the profile complete, the
      document becomes that profile applied and the message names row i. */
  lemma RowMapping(catalog: Catalog, i: nat, doc: Doc)
    requires 2 <= i < |catalog| + 2
    ensures var entries := SelectionList(Names(catalog));
            var values := Values(catalog);
            && Resolve(Some(i), |entries|) == ProfileRow(i - 2)
            && entries[i] == catalog[i - 2].0 && values[i - 2] == catalog[i - 2].1
            && (RequiredFields <= catalog[i - 2].1.Keys ==>
                  KeyStep(entries, values, true, Ui(Some(i), false), doc, Enter)
                  == Transition(Ui(Some(i), true), Applied(doc, IdentityOf(catalog[i - 2].1)),
                                Switched(catalog[i - 2].0)))
  {
    var entries, values := SelectionList(Names(catalog)), Values(catalog);
    assert entries[i] == catalog[i - 2].0 && values[i - 2] == catalog[i - 2].1;
    EnterOnProfileRow(entries, values, i, doc);
  }

  /** Enter on a profile row of a drawn list with the target file present:
      a complete profile is applied and named; an incomplete one ends the
      session with the first missing field reported and nothing written. */
  lemma EnterOnProfileRow(entries: seq<string>, values: seq<ProfileFields>, i: nat, doc: Doc)
    requires |entries| == |values| + 3 && 2 <= i < |entries| - 1
    ensures Resolve(Some(i), |entries|) == ProfileRow(i - 2)
    ensures RequiredFields <= values[i - 2].Keys ==>
              KeyStep(entries, values, true, Ui(Some(i), false), doc, Enter)
              == Transition(Ui(Some(i), true), Applied(doc, IdentityOf(values[i - 2])), Switched(entries[i]))
    ensures !(RequiredFields <= values[i - 2].Keys) ==>
              exists f :: f in RequiredFields && f !in values[i - 2]
                && KeyStep(entries, values, true, Ui(Some(i), false), doc, Enter)
                   == Transition(Ui(Some(i), true), doc, Failed(Incomplete(MissingField(f))))
  {
    if RequiredFields <= values[i - 2].Keys {
      assert MissingFieldOf(values[i - 2]).None?;
    } else {
      var f := MissingFieldOf(values[i - 2]).value;
      assert f in RequiredFields && f !in values[i - 2];
    }
  }

  /** Over any stream of events, the cursor never comes to rest on the
      header: it stays unset or on a row from 1 to len (len only just after
      Down, before the next redraw), and the next redraw puts it on a
      selectable row. */
  lemma {:induction false} SessionAvoidsHeader(entries: seq<string>, values: seq<ProfileFields>,
                                               present: bool, ui: Ui, doc: Doc, events: seq<Event>)
    requires |entries| == |values| + 3
    requires Parked(ui.selected, |entries|)
    ensures var (u, _) := Session(entries, values, present, ui, doc, events);
            Parked(u.selected, |entries|) && Resting(Clamp(u.selected, |entries|), |entries|)
    decreases |events|
  {
    NavigationAvoidsHeader(ui.selected, |entries|);
    if !ui.exit && |events| > 0 {
      var drawn := ui.(selected := Clamp(ui.selected, |entries|));
      NavigationAvoidsHeader(drawn.selected, |entries|);
      if events[0].Key? && events[0].press {
        var t := KeyStep(entries, values, present, drawn, doc, events[0].code);
        SessionAvoidsHeader(entries, values, present, t.ui, t.doc, events[1..]);
      } else {
        SessionAvoidsHeader(entries, values, present, drawn, doc, events[1..]);
      }
    }
  }

  /** A key that writes the target document ends the session, and what it
      writes is the cleared document or one complete profile applied;
      without the target file nothing is written. On a running session,
      every outcome but `Continue` ends it (Esc, and Enter on any row but
      the header), and `Continue` never does. */
  lemma KeyStepWrites(entries: seq<string>, values: seq<ProfileFields>, present: bool,
                      ui: Ui, doc: Doc, code: KeyCode)
    requires |entries| == |values| + 3
    ensures var t := KeyStep(entries, values, present, ui, doc, code);
            && (t.doc == doc || (t.ui.exit && present && WrittenFrom(values, doc, t.doc)))
            && (!ui.exit ==> (t.outcome != Continue <==> t.ui.exit))
  {
  }

  /** A whole session writes the target document at most once: afterwards it
      is unchanged, or the session has ended and the document is the
      original cleared or with one complete profile applied. */
  lemma {:induction false} SessionWritesAtMostOnce(entries: seq<string>, values: seq<ProfileFields>,
                                                   present: bool, ui: Ui, doc: Doc, events: seq<Event>)
    requires |entries| == |values| + 3
    ensures var (u, d) := Session(entries, values, present, ui, doc, events);
            d == doc || (u.exit && present && WrittenFrom(values, doc, d))
    decreases |events|
  {
    if !ui.exit && |events| > 0 {
      var drawn := ui.(selected := Clamp(ui.selected, |entries|));
      if events[0].Key? && events[0].press {
        var t := KeyStep(entries, values, present, drawn, doc, events[0].code);
        KeyStepWrites(entries, values, present, drawn, doc, events[0].code);
        if t.doc == doc {
          SessionWritesAtMostOnce(entries, values, present, t.ui, t.doc, events[1..]);
        }
      } else {
        SessionWritesAtMostOnce(entries, values, present, drawn, doc, events[1..]);
      }
    }
  }

  /** A store with the one profile "work": Down, Down, Enter selects it and
      leaves exactly its identity in an empty configuration. */
  lemma WorkProfileScenario()
    ensures var fields := map[EmailKey := "a@b.com", NameKey := "A B",
                              SshKeyField := "/home/u/.ssh/id_work"];
            var catalog := [("work", fields)];
            Session(SelectionList(Names(catalog)), Values(catalog), true, Start, map[],
                    [Key(Down, true), Key(Down, true), Key(Enter, true)])
            == (Ui(Some(2), true),
                map[User := map[EmailKey := "a@b.com", NameKey := "A B"],
                    Core := map[SshCommand := "ssh -i /home/u/.ssh/id_work"]])
  {
    var fields := map[EmailKey := "a@b.com", NameKey := "A B", SshKeyField := "/home/u/.ssh/id_work"];
    var catalog := [("work", fields)];
    var entries, values := SelectionList(Names(catalog)), Values(catalog);
    assert |entries| == 4 && values == [fields];
    var events := [Key(Down, true), Key(Down, true), Key(Enter, true)];
    var applied := map[User := map[EmailKey := "a@b.com", NameKey := "A B"],
                       Core := map[SshCommand := "ssh -i /home/u/.ssh/id_work"]];
    WorkIdentityApplied();
    var last := KeyStep(entries, values, true, Ui(Some(2), false), map[], Enter);
    assert last == Transition(Ui(Some(2), true), applied, Switched("work")) by {
      assert Resolve(Some(2), 4) == ProfileRow(0);
      assert MissingFieldOf(fields) == None;
      assert IdentityOf(fields) == Identity("a@b.com", "A B", "/home/u/.ssh/id_work");
    }
    assert events[1..][1..] == [Key(Enter, true)];
    calc {
      Session(entries, values, true, Start, map[], events);
      Session(entries, values, true, Ui(Some(1), false), map[], events[1..]);
      Session(entries, values, true, Ui(Some(2), false), map[], events[1..][1..]);
      Session(entries, values, true, last.ui, last.doc, []);
    }
  }

  /** The document the "work" profile produces from an empty one. */
  lemma WorkIdentityApplied()
    ensures Applied(map[], Identity("a@b.com", "A B", "/home/u/.ssh/id_work"))
         == map[User := map[EmailKey := "a@b.com", NameKey := "A B"],
                Core := map[SshCommand := "ssh -i /home/u/.ssh/id_work"]]
  {
    assert SshPrefix + "/home/u/.ssh/id_work" == "ssh -i /home/u/.ssh/id_work";
  }

  /** With no profiles the list is header, "Global", "Create new": the first
      Down lands on "Global", the second on "Create new", and Enter there
      aborts the unfinished creation flow without touching the document. */
  lemma EmptyCatalogScenario(doc: Doc)
    ensures var entries := SelectionList(Names([]));
            && entries == [Header, Global, CreateNew]
            && KeyStep(entries, [], true, Start, doc, Down).ui == Ui(Some(1), false)
            && KeyStep(entries, [], true, Ui(Some(1), false), doc, Down).ui == Ui(Some(2), false)
            && KeyStep(entries, [], true, Ui(Some(2), false), doc, Enter)
               == Transition(Ui(Some(2), true), doc, CreateAborted)
            && KeyStep(entries, [], true, Ui(Some(1), false), map[], Enter)
               == Transition(Ui(Some(1), true), map[], Switched(Global))
  {
  }
}
