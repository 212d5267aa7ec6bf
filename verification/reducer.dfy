/** The functional component's reducer: a total map from a state and an action
    to the next state. */
module Reducer {

  import opened Types
  import opened Utils

  /** `payload.characters || []`: an array, even an empty one, is truthy. */
  function PayloadCharacters(p: Payload): (cs: seq<Character>)
    ensures p.characters.Some? ==> cs == p.characters.value
    ensures p.characters.None? ==> cs == []
  {
    p.characters.GetOr([])
  }

  /** `payload.filter || ""`. */
  function PayloadFilter(p: Payload): (f: string)
    ensures p.filter.Some? ==> f == p.filter.value
    ensures p.filter.None? ==> f == ""
  {
    p.filter.GetOr("")
  }

  /** `payload.multiplier || 1`: an absent or zero multiplier becomes 1. */
  function PayloadMultiplier(p: Payload): (m: int)
    ensures m != 0
    ensures p.multiplier.Some? && p.multiplier.value != 0 ==> m == p.multiplier.value
    ensures p.multiplier.None? || p.multiplier.value == 0 ==> m == 1
  {
    if p.multiplier.Some? && p.multiplier.value != 0 then p.multiplier.value else 1
  }

  /** The shown rows are exactly the rows of `characters` that the state's
      filter keeps. */
  ghost predicate ShowsFiltered(state: UIState, characters: seq<Character>) {
    state.filteredCharacters == FilterCharacters(characters, state.filter)
  }

  /** CHARACTERS_FETCHED: filter the fetched rows by the current filter. */
  function InitializeState(state: UIState, p: Payload): (r: UIState)
    ensures r.filter == state.filter && r.multiplier == state.multiplier
    ensures ShowsFiltered(r, PayloadCharacters(p))
  {
    state.(filteredCharacters := FilterCharacters(PayloadCharacters(p), state.filter))
  }

  /** NAME_CHANGED: take the new filter and filter the payload's rows by it. */
  function FilterChanged(state: UIState, p: Payload): (r: UIState)
    ensures r.filter == PayloadFilter(p) && r.multiplier == state.multiplier
    ensures ShowsFiltered(r, PayloadCharacters(p))
  {
    var filter := PayloadFilter(p);
    state.(filteredCharacters := FilterCharacters(PayloadCharacters(p), filter), filter := filter)
  }

  /** MULTIPLIER_CHANGED: only the multiplier moves. */
  function UpdateMultiplier(state: UIState, p: Payload): (r: UIState)
    ensures r.filter == state.filter && r.filteredCharacters == state.filteredCharacters
    ensures r.multiplier != 0
    ensures p.multiplier.Some? && p.multiplier.value != 0 ==> r.multiplier == p.multiplier.value
    ensures p.multiplier.None? || p.multiplier.value == 0 ==> r.multiplier == 1
  {
    state.(multiplier := PayloadMultiplier(p))
  }

  /** ESC_KEY_PRESSED: back to the initial filter and multiplier, every row shown. */
  function ResetState(p: Payload): (r: UIState)
    ensures r.filter == InitialUIState.filter && r.multiplier == InitialUIState.multiplier
    ensures r.filteredCharacters == PayloadCharacters(p)
  {
    FilterEmptyKeepsAll(PayloadCharacters(p));
    InitialUIState.(filteredCharacters := FilterCharacters(PayloadCharacters(p), InitialUIState.filter))
  }

  /** Whether the reducer's action table has an entry for a kind. */
  predicate Handled(kind: ActionType) {
    kind != StateInitialized
  }

  function Reduce(state: UIState, action: Action): (r: UIState)
    ensures !Handled(action.kind) ==> r == state
    ensures action.kind == CharactersFetched ==> r.filter == state.filter && r.multiplier == state.multiplier
    ensures action.kind == NameChanged ==> r.filter == PayloadFilter(action.payload) && r.multiplier == state.multiplier
    ensures action.kind == MultiplierChanged ==> r.filter == state.filter && r.filteredCharacters == state.filteredCharacters
    ensures action.kind == MultiplierChanged ==> r.multiplier == PayloadMultiplier(action.payload)
    ensures action.kind == EscKeyPressed ==> r == InitialUIState.(filteredCharacters := PayloadCharacters(action.payload))
    ensures action.kind in {CharactersFetched, NameChanged, EscKeyPressed} ==> ShowsFiltered(r, PayloadCharacters(action.payload))
  {
    var p := action.payload;
    match action.kind
    case CharactersFetched => InitializeState(state, p)
    case NameChanged => FilterChanged(state, p)
    case MultiplierChanged => UpdateMultiplier(state, p)
    case EscKeyPressed =>
      var r := ResetState(p);
      FilterEmptyKeepsAll(PayloadCharacters(p));
      r
    case StateInitialized => state
  }

  /** Pressing Escape twice with the same rows is the same as pressing it once. */
  lemma EscIdempotent(state: UIState, p: Payload)
    ensures Reduce(Reduce(state, Action(EscKeyPressed, p)), Action(EscKeyPressed, p))
         == Reduce(state, Action(EscKeyPressed, p))
  {
  }

  /** Every action leaves the shown rows consistent with the session's rows,
      provided the actions that carry rows carry those rows. */
  lemma ReducePreservesShowsFiltered(state: UIState, action: Action, characters: seq<Character>)
    requires ShowsFiltered(state, characters)
    requires action.kind in {CharactersFetched, NameChanged, EscKeyPressed} ==> PayloadCharacters(action.payload) == characters
    ensures ShowsFiltered(Reduce(state, action), characters)
  {
  }
}
