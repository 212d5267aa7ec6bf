/** The records shared by all three variants, and the constants they start from. */
module Types {

  import opened Options

  /** One row of the table; height and mass are numbers written as text. */
  datatype Character = Character(name: string, height: string, mass: string)

  /** The state behind the table: the filter text, the power multiplier and the
      rows currently shown. */
  datatype UIState = UIState(filter: string, multiplier: int, filteredCharacters: seq<Character>)

  const InitialUIState := UIState("", 10, [])

  /** The action kinds; the vanilla variant also uses their names as event names. */
  datatype ActionType =
    | CharactersFetched
    | StateInitialized
    | NameChanged
    | MultiplierChanged
    | EscKeyPressed

  /** The string value of each action kind. */
  function EventName(t: ActionType): string {
    match t
    case CharactersFetched => "characters fetched"
    case StateInitialized => "state initialized"
    case NameChanged => "name changed"
    case MultiplierChanged => "multiplier changed"
    case EscKeyPressed => "escape key pressed"
  }

  /** Distinct action kinds are distinct event names, so publishing one kind
      never reaches the subscribers of another. */
  lemma EventNameInjective(s: ActionType, t: ActionType)
    ensures EventName(s) == EventName(t) <==> s == t
  {
  }

  /** Every payload field is optional. */
  datatype Payload = Payload(characters: Option<seq<Character>>, filter: Option<string>, multiplier: Option<int>)

  datatype Action = Action(kind: ActionType, payload: Payload)
}
