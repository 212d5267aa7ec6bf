/** The three variants driven by the same user input, side by side. */
module Variants {

  import opened Options
  import opened Text
  import opened Types
  import opened Utils
  import Reducer
  import Vanilla
  import ClassComp

  /** What a user does once the rows are loaded. */
  datatype UserEvent =
    | NameInput(text: string)
    | MultiplierInput(value: int)
    | KeyDown(code: string)

  /** The functional component: each input dispatches one action. */
  function FunctionalStep(ui: UIState, characters: seq<Character>, e: UserEvent): (r: UIState)
    ensures e.NameInput? ==>
      r == UIState(e.text, ui.multiplier, FilterCharacters(characters, e.text))
    ensures e.MultiplierInput? ==>
      r == ui.(multiplier := if e.value != 0 then e.value else 1)
    ensures e.KeyDown? && e.code == Escape ==> r == InitialUIState.(filteredCharacters := characters)
    ensures e.KeyDown? && e.code != Escape ==> r == ui
  {
    match e
    case NameInput(text) =>
      Reducer.Reduce(ui, Action(NameChanged, Payload(Some(characters), Some(text), None)))
    case MultiplierInput(value) =>
      Reducer.Reduce(ui, Action(MultiplierChanged, Payload(None, None, Some(value))))
    case KeyDown(code) =>
      EscKeyDown(code, (u: UIState) => Reducer.Reduce(u, Action(EscKeyPressed, Payload(Some(characters), None, None))), ui)
  }

  /** The vanilla app: each input calls one store transition. */
  function VanillaStep(ui: UIState, characters: seq<Character>, e: UserEvent): (r: UIState)
    ensures e.NameInput? ==>
      r == UIState(e.text, ui.multiplier, FilterCharacters(characters, e.text))
    ensures e.MultiplierInput? ==>
      r == ui.(multiplier := if e.value != 0 then e.value else ui.multiplier)
    ensures e.KeyDown? && e.code == Escape ==> r == InitialUIState.(filteredCharacters := characters)
    ensures e.KeyDown? && e.code != Escape ==> r == ui
  {
    match e
    case NameInput(text) => Vanilla.UpdateState(ui, characters, Some(text), None).state
    case MultiplierInput(value) => Vanilla.UpdateState(ui, characters, None, Some(value)).state
    case KeyDown(code) => EscKeyDown(code, (u: UIState) => Vanilla.ResetState(characters).state, ui)
  }

  /** The class component: each input calls one handler. */
  function ClassStep(s: ClassComp.ClassState, e: UserEvent): (r: ClassComp.ClassState)
    ensures r.characters == s.characters && r.isLoading == s.isLoading
    ensures e.NameInput? ==>
      r.ui == UIState(e.text, s.ui.multiplier, FilterCharacters(s.characters, e.text))
    ensures e.MultiplierInput? ==> r.ui == s.ui.(multiplier := e.value)
    ensures e.KeyDown? && e.code == Escape ==> r.ui == InitialUIState.(filteredCharacters := s.characters)
    ensures e.KeyDown? && e.code != Escape ==> r == s
  {
    match e
    case NameInput(text) => ClassComp.HandleNameChange(s, text)
    case MultiplierInput(value) => ClassComp.HandleMultiplierChange(s, value)
    case KeyDown(code) => ClassComp.HandleEscKeyDown(s, code)
  }

  function FunctionalRun(ui: UIState, characters: seq<Character>, events: seq<UserEvent>): UIState
    decreases |events|
  {
    if events == [] then ui else FunctionalRun(FunctionalStep(ui, characters, events[0]), characters, events[1..])
  }

  function VanillaRun(ui: UIState, characters: seq<Character>, events: seq<UserEvent>): UIState
    decreases |events|
  {
    if events == [] then ui else VanillaRun(VanillaStep(ui, characters, events[0]), characters, events[1..])
  }

  function ClassRun(s: ClassComp.ClassState, events: seq<UserEvent>): ClassComp.ClassState
    decreases |events|
  {
    if events == [] then s else ClassRun(ClassStep(s, events[0]), events[1..])
  }

  /** No multiplier input is 0 (what `Number("")` gives for a cleared field). */
  predicate NonZeroMultipliers(events: seq<UserEvent>) {
    forall i :: 0 <= i < |events| && events[i].MultiplierInput? ==> events[i].value != 0
  }

  /** The state each variant reaches once the rows have been fetched. */
  function FunctionalLoaded(characters: seq<Character>): UIState {
    Reducer.Reduce(InitialUIState, Action(CharactersFetched, Payload(Some(characters), None, None)))
  }

  function VanillaLoaded(characters: seq<Character>): UIState {
    Vanilla.InitializeState(Vanilla.InitialStoreState, characters).state
  }

  function ClassLoaded(characters: seq<Character>): ClassComp.ClassState {
    ClassComp.FetchDataAndInitState(ClassComp.Initial(), characters)
  }

  /** The three variants load into the same UI state: every row shown. */
  lemma LoadedAgree(characters: seq<Character>)
    ensures FunctionalLoaded(characters) == VanillaLoaded(characters) == ClassLoaded(characters).ui
    ensures ClassLoaded(characters).ui == InitialUIState.(filteredCharacters := characters)
  {
    FilterEmptyKeepsAll(characters);
  }

  /** Step by step, as long as no multiplier input is 0, the three variants
      move through the same UI states. */
  lemma {:induction false} RunsAgree(s: ClassComp.ClassState, events: seq<UserEvent>)
    requires NonZeroMultipliers(events)
    ensures ClassRun(s, events).characters == s.characters
    ensures FunctionalRun(s.ui, s.characters, events) == ClassRun(s, events).ui
    ensures VanillaRun(s.ui, s.characters, events) == ClassRun(s, events).ui
    decreases |events|
  {
    if events != [] {
      var e := events[0];
      var next := ClassStep(s, e);
      FilterEmptyKeepsAll(s.characters);
      assert FunctionalStep(s.ui, s.characters, e) == next.ui;
      assert VanillaStep(s.ui, s.characters, e) == next.ui;
      assert NonZeroMultipliers(events[1..]) by {
        forall i | 0 <= i < |events[1..]| && events[1..][i].MultiplierInput?
          ensures events[1..][i].value != 0
        {
          assert events[1..][i] == events[i + 1];
        }
      }
      RunsAgree(next, events[1..]);
    }
  }

  /** From the fetch on, the three variants show the same state after any
      sequence of inputs without a 0 multiplier. */
  lemma SessionsAgree(characters: seq<Character>, events: seq<UserEvent>)
    requires NonZeroMultipliers(events)
    ensures FunctionalRun(FunctionalLoaded(characters), characters, events)
         == ClassRun(ClassLoaded(characters), events).ui
    ensures VanillaRun(VanillaLoaded(characters), characters, events)
         == ClassRun(ClassLoaded(characters), events).ui
  {
    LoadedAgree(characters);
    RunsAgree(ClassLoaded(characters), events);
  }

  /** A multiplier input of 0 splits the variants: the reducer falls back to 1,
      the store ignores it, the class component stores 0. */
  lemma ZeroMultiplierDiverges(s: ClassComp.ClassState)
    ensures FunctionalStep(s.ui, s.characters, MultiplierInput(0)).multiplier == 1
    ensures VanillaStep(s.ui, s.characters, MultiplierInput(0)) == s.ui
    ensures ClassStep(s, MultiplierInput(0)).ui.multiplier == 0
  {
  }

  const Luke := Character("Luke", "172", "77")
  const Leia := Character("Leia", "150", "49")

  /** Running one more input is one more step. */
  lemma {:induction false} FunctionalRunSnoc(ui: UIState, characters: seq<Character>, events: seq<UserEvent>, e: UserEvent)
    ensures FunctionalRun(ui, characters, events + [e])
         == FunctionalStep(FunctionalRun(ui, characters, events), characters, e)
    decreases |events|
  {
    if events == [] {
      assert [e][1..] == [];
      assert FunctionalRun(FunctionalStep(ui, characters, e), characters, []) == FunctionalStep(ui, characters, e);
    } else {
      assert (events + [e])[1..] == events[1..] + [e];
      FunctionalRunSnoc(FunctionalStep(ui, characters, events[0]), characters, events[1..], e);
    }
  }

  lemma LowerNames()
    ensures Lower("le") == "le" && Lower("Luke") == "luke" && Lower("Leia") == "leia"
  {
  }

  lemma LeInNames()
    ensures !Includes("luke", "le") && Includes("leia", "le")
  {
    assert "leia"[..2] == "le";
    assert "luke"[..2][1] != "le"[1];
    assert "luke"[1..][..2][0] != "le"[0];
    assert "luke"[1..][1..][..2][0] != "le"[0];
    assert |"luke"[1..][1..][1..]| < 2;
  }

  /** The filter "le" drops Luke and keeps Leia. */
  lemma LeFilter()
    ensures FilterCharacters([Luke, Leia], "le") == [Leia]
  {
    LowerNames();
    LeInNames();
    assert !Matches("le", Luke) && Matches("le", Leia);
    assert [Luke, Leia][1..] == [Leia];
    assert [Leia][1..] == [];
  }

  lemma SessionSteps()
    ensures FunctionalStep(UIState("", 10, [Luke, Leia]), [Luke, Leia], NameInput("le")) == UIState("le", 10, [Leia])
    ensures FunctionalStep(UIState("le", 10, [Leia]), [Luke, Leia], MultiplierInput(5)) == UIState("le", 5, [Leia])
    ensures FunctionalStep(UIState("le", 5, [Leia]), [Luke, Leia], KeyDown(Escape)) == UIState("", 10, [Luke, Leia])
  {
    LeFilter();
  }

  /** The worked session: load Luke and Leia, type "le", set the multiplier to
      5, press Escape. Leia's power is the product of 5, 150 and 49. */
  lemma LukeAndLeiaSession(product: (int, string, string) -> int)
    ensures FunctionalLoaded([Luke, Leia]) == UIState("", 10, [Luke, Leia])
    ensures FunctionalRun(FunctionalLoaded([Luke, Leia]), [Luke, Leia], [NameInput("le")])
         == UIState("le", 10, [Leia])
    ensures FunctionalRun(FunctionalLoaded([Luke, Leia]), [Luke, Leia], [NameInput("le"), MultiplierInput(5)])
         == UIState("le", 5, [Leia])
    ensures FunctionalRun(FunctionalLoaded([Luke, Leia]), [Luke, Leia], [NameInput("le"), MultiplierInput(5), KeyDown(Escape)])
         == UIState("", 10, [Luke, Leia])
    ensures CharacterPower(Leia, 5, product) == Value(product(5, "150", "49"))
  {
    var cs := [Luke, Leia];
    LoadedAgree(cs);
    SessionSteps();
    var loaded := FunctionalLoaded(cs);
    var e1, e2, e3 := NameInput("le"), MultiplierInput(5), KeyDown(Escape);
    FunctionalRunSnoc(loaded, cs, [], e1);
    assert [] + [e1] == [e1];
    FunctionalRunSnoc(loaded, cs, [e1], e2);
    assert [e1] + [e2] == [e1, e2];
    FunctionalRunSnoc(loaded, cs, [e1, e2], e3);
    assert [e1, e2] + [e3] == [e1, e2, e3];
    assert NormaliseMass("49") == "49";
  }

  /** Typing before the rows arrive splits the variants: the class component
      and the function component keep the filter and apply it to the fetched
      rows, while the vanilla app has no listener yet and shows every row. */
  lemma FilterBeforeFetchDiverges()
    ensures ClassComp.FetchDataAndInitState(ClassComp.HandleNameChange(ClassComp.Initial(), "le"), [Luke, Leia]).ui
         == UIState("le", 10, [Leia])
    ensures Reducer.Reduce(
              Reducer.Reduce(InitialUIState, Action(NameChanged, Payload(Some([]), Some("le"), None))),
              Action(CharactersFetched, Payload(Some([Luke, Leia]), None, None)))
         == UIState("le", 10, [Leia])
    ensures VanillaLoaded([Luke, Leia]) == UIState("", 10, [Luke, Leia])
  {
    LeFilter();
    LoadedAgree([Luke, Leia]);
  }
}
