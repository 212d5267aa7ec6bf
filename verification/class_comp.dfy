/** The class component: its state record and the handlers that update it. */
module ClassComp {

  import opened Types
  import opened Utils

  datatype ClassState = ClassState(characters: seq<Character>, isLoading: bool, ui: UIState)

  /** The shown rows are exactly the stored rows that the filter keeps. */
  ghost predicate Consistent(s: ClassState) {
    s.ui.filteredCharacters == FilterCharacters(s.characters, s.ui.filter)
  }

  /** Nothing fetched yet, loading, initial UI state. */
  function Initial(): (s: ClassState)
    ensures s.characters == [] && s.isLoading && s.ui == InitialUIState
    ensures Consistent(s)
  {
    ClassState([], true, InitialUIState)
  }

  /** The fetch has finished: store the rows, stop loading, filter the rows by
      the current filter. */
  function FetchDataAndInitState(s: ClassState, characters: seq<Character>): (r: ClassState)
    ensures r.characters == characters && !r.isLoading
    ensures r.ui.filter == s.ui.filter && r.ui.multiplier == s.ui.multiplier
    ensures Consistent(r)
  {
    s.(isLoading := false, characters := characters,
       ui := s.ui.(filteredCharacters := FilterCharacters(characters, s.ui.filter)))
  }

  /** The reset behind the escape-key listener. */
  function ResetFields(s: ClassState): (r: ClassState)
    ensures r.characters == s.characters && r.isLoading == s.isLoading
    ensures r.ui == InitialUIState.(filteredCharacters := s.characters)
  {
    FilterEmptyKeepsAll(s.characters);
    s.(ui := s.ui.(filter := InitialUIState.filter, multiplier := InitialUIState.multiplier,
                   filteredCharacters := FilterCharacters(s.characters, InitialUIState.filter)))
  }

  /** The escape-key listener: resets on Escape, ignores every other key. */
  function HandleEscKeyDown(s: ClassState, code: string): (r: ClassState)
    ensures code == Escape ==> r.ui == InitialUIState.(filteredCharacters := s.characters)
    ensures code != Escape ==> r == s
    ensures r.characters == s.characters && r.isLoading == s.isLoading
    ensures Consistent(s) ==> Consistent(r)
  {
    FilterEmptyKeepsAll(s.characters);
    EscKeyDown(code, ResetFields, s)
  }

  /** A new filter text: filter the stored rows by it. */
  function HandleNameChange(s: ClassState, filter: string): (r: ClassState)
    ensures r.ui.filter == filter && r.ui.multiplier == s.ui.multiplier
    ensures r.characters == s.characters && r.isLoading == s.isLoading
    ensures Consistent(r)
  {
    s.(ui := s.ui.(filter := filter, filteredCharacters := FilterCharacters(s.characters, filter)))
  }

  /** A new multiplier value, taken as it is (no fallback for 0). */
  function HandleMultiplierChange(s: ClassState, multiplier: int): (r: ClassState)
    ensures r.ui.multiplier == multiplier
    ensures r.ui.filter == s.ui.filter && r.ui.filteredCharacters == s.ui.filteredCharacters
    ensures r.characters == s.characters && r.isLoading == s.isLoading
    ensures Consistent(s) ==> Consistent(r)
  {
    s.(ui := s.ui.(multiplier := multiplier))
  }

  /** The inputs that reach the component. */
  datatype ClassEvent =
    | Fetched(characters: seq<Character>)
    | KeyDown(code: string)
    | NameInput(text: string)
    | MultiplierInput(value: int)

  function Handle(s: ClassState, e: ClassEvent): ClassState {
    match e
    case Fetched(cs) => FetchDataAndInitState(s, cs)
    case KeyDown(code) => HandleEscKeyDown(s, code)
    case NameInput(text) => HandleNameChange(s, text)
    case MultiplierInput(value) => HandleMultiplierChange(s, value)
  }

  function Run(s: ClassState, events: seq<ClassEvent>): ClassState
    decreases |events|
  {
    if events == [] then s else Run(Handle(s, events[0]), events[1..])
  }

  /** From the initial state, whatever arrives, the shown rows are the stored
      rows that the filter keeps. */
  lemma {:induction false} RunConsistent(s: ClassState, events: seq<ClassEvent>)
    requires Consistent(s)
    ensures Consistent(Run(s, events))
    decreases |events|
  {
    if events != [] {
      RunConsistent(Handle(s, events[0]), events[1..]);
    }
  }

  lemma AlwaysConsistent(events: seq<ClassEvent>)
    ensures Consistent(Run(Initial(), events))
  {
    RunConsistent(Initial(), events);
  }

  /** Once loaded, the component stays loaded. */
  lemma {:induction false} RunKeepsLoaded(s: ClassState, events: seq<ClassEvent>)
    requires !s.isLoading
    ensures !Run(s, events).isLoading
    decreases |events|
  {
    if events != [] {
      RunKeepsLoaded(Handle(s, events[0]), events[1..]);
    }
  }

  /** Escape resets to the same state however often it is pressed. */
  lemma EscIdempotent(s: ClassState)
    ensures HandleEscKeyDown(HandleEscKeyDown(s, Escape), Escape) == HandleEscKeyDown(s, Escape)
  {
  }
}
