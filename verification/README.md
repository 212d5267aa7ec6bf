# Character table state core, in Dafny

The same small table of Star Wars characters is built three ways: a vanilla app with a publish/subscribe store, a React function component with a reducer, and a React class component. All three share one state core, and this project models it:

- the name filter (`getFilteredCharacters`),
- the decision behind the power column (`getCharacterPower`): the `"-"` marker, or a number computed from the height and a normalised mass,
- the escape-key guard (`escKeyDownHandler`),
- the reducer and its four handled action kinds,
- the vanilla variant's `PubSub` registry and `Store`,
- the class component's state record and handlers.

Each variant's transitions are pure functions on immutable records. Callbacks are opaque ids, and a publish returns the list of (callback, state) calls it makes instead of making them. The `Variants` module drives the three variants with the same user inputs and proves where they agree and where they differ.

Files: `options.dfy` (Option), `text.dfy` (lower-casing, substring search, first-occurrence replace), `types.dfy` (records and constants), `utils.dfy` (filter, power, escape guard), `reducer.dfy`, `vanilla.dfy`, `class_comp.dfy`, `variants.dfy`.

The three variants treat a multiplier input of 0 differently:
- the reducer turns a falsy multiplier (0, absent) into 1;
- the vanilla store ignores it and publishes nothing;
- the class component stores it as given, 0 included.

`Variants.ZeroMultiplierDiverges` states this split.

They also differ on a filter typed before the rows arrive. The class component and the function component keep that filter and apply it to the fetched rows. The vanilla app only listens for input after the fetch, so it shows every row. `Variants.FilterBeforeFetchDiverges` states this.

`Variants.SessionsAgree` shows that, from the moment the rows are loaded, the three agree on every input sequence without a 0 multiplier.

## Model

| member | source | states |
|---|---|---|
| Text.Lower | src/shared/utils.ts:35 | lower-casing keeps the length and maps each character on its own, ASCII capitals to small letters |
| Text.Includes | src/shared/utils.ts:35 | the search answers true exactly when the needle occurs somewhere in the text (the empty needle occurs everywhere) |
| Text.ReplaceFirst | src/shared/utils.ts:50 | length is kept; a text without the character is unchanged; otherwise only the first occurrence is replaced and the text before and after it is untouched |
| Text.ReplaceFirstSplit | src/shared/utils.ts:50 | replacing in `p + [c] + q` where `p` has no `c` gives `p + [d] + q`, whatever `q` holds |
| Types.EventNameInjective | src/shared/constants.ts:9-15 | the five action kinds have five distinct string names |
| Utils.FilterCharacters | src/shared/utils.ts:26-38 | the result is no longer than the input, and a character is in it iff it is in the input and passes the row test (empty filter, or lower-cased name containing the lower-cased filter) |
| Utils.FilterMembership | src/shared/utils.ts:33-37 | a character is in the result iff it is in the input and (the filter is empty or its lower-cased name contains the lower-cased filter) |
| Utils.FilterCounts | src/shared/utils.ts:33-37 | a kept character appears exactly as often as in the input, a dropped one not at all |
| Utils.FilterIsSubsequence | src/shared/utils.ts:33 | the result is a subsequence of the input: relative order is kept |
| Utils.FilterEmptyKeepsAll | src/shared/utils.ts:34-36 | with the empty filter the result is the input, same order, nothing dropped or repeated |
| Utils.FilterAppend | src/shared/utils.ts:33 | filtering a concatenation is concatenating the filtered parts, so each row is judged on its own |
| Utils.FilterIdempotent | src/shared/utils.ts:33-37 | filtering the result again with the same filter changes nothing |
| Utils.FilterCaseInsensitive | src/shared/utils.ts:35 | a filter and its lower-cased form keep the same rows |
| Utils.NormaliseMass | src/shared/utils.ts:49-51 | the mass keeps its length; without a comma it is unchanged; otherwise the first comma becomes a dot and every other position, later commas included, is unchanged |
| Utils.CharacterPower | src/shared/utils.ts:40-54 | the result is the `"-"` marker iff height or mass is exactly `"unknown"`; otherwise the arithmetic receives the multiplier, the height verbatim and the normalised mass |
| Utils.NormaliseFirstComma | src/shared/utils.ts:49-51 | a mass `w,f` whose whole part has no comma normalises to `w.f` |
| Utils.CommaReadAsDot | src/shared/utils.ts:44-53 | for any character, a mass with one decimal comma gives the same power as the same mass with a dot (both are "-" when the height is "unknown") |
| Utils.EscKeyDown | src/shared/utils.ts:63-69 | the handler's effect happens for the key code `"Escape"` and for no other code, which leaves the state as it was |
| Reducer.PayloadCharacters | src/challenge-2-ReactFunctionalComp.tsx:54 | the payload's rows when present, otherwise no rows |
| Reducer.PayloadFilter | src/challenge-2-ReactFunctionalComp.tsx:66-69 | the payload's filter when present, otherwise "" |
| Reducer.PayloadMultiplier | src/challenge-2-ReactFunctionalComp.tsx:76 | the chosen multiplier is never 0: a non-zero payload value is kept and an absent or 0 one becomes 1 |
| Reducer.InitializeState | src/challenge-2-ReactFunctionalComp.tsx:50-58 | CHARACTERS_FETCHED keeps filter and multiplier and shows the payload rows (or none) that the current filter keeps |
| Reducer.FilterChanged | src/challenge-2-ReactFunctionalComp.tsx:60-71 | NAME_CHANGED takes the payload filter (or "") and shows the payload rows it keeps; the multiplier is unchanged |
| Reducer.UpdateMultiplier | src/challenge-2-ReactFunctionalComp.tsx:73-78 | MULTIPLIER_CHANGED leaves filter and shown rows alone and sets a non-zero multiplier: the payload's, or 1 when it is absent or 0 |
| Reducer.ResetState | src/challenge-2-ReactFunctionalComp.tsx:80-90 | ESC_KEY_PRESSED gives filter "" and multiplier 10 and shows every payload row |
| Reducer.Reduce | src/challenge-2-ReactFunctionalComp.tsx:38-91 | an action kind outside the table (STATE_INITIALIZED) returns the state unchanged; each handled kind changes only the fields it owns; MULTIPLIER_CHANGED sets the multiplier to the payload's non-zero value or 1; the row-carrying kinds leave the shown rows equal to the payload rows filtered by the new filter |
| Reducer.EscIdempotent | src/challenge-2-ReactFunctionalComp.tsx:80-90 | ESC_KEY_PRESSED twice with the same payload equals once |
| Reducer.ReducePreservesShowsFiltered | src/challenge-2-ReactFunctionalComp.tsx:38-91 | if the actions that carry rows carry the session's rows, every action keeps "shown rows = session rows filtered by the filter" |
| Vanilla.Subscribe | src/challenge-1-vanilla.ts:41-46 | the event's list becomes its old list (or none) followed by the new callbacks in order; other events are untouched |
| Vanilla.RemoveAll | src/challenge-1-vanilla.ts:50-52 | the callback no longer occurs and every other callback occurs as often as before |
| Vanilla.RemoveAllIsSubsequence | src/challenge-1-vanilla.ts:50-52 | removal keeps the order of the remaining callbacks |
| Vanilla.Unsubscribe | src/challenge-1-vanilla.ts:49-53 | fails (the source's TypeError) iff the event has no list; otherwise the callback is gone from that event's list, the remaining callbacks keep their order and their counts, and other events are untouched |
| Vanilla.UnsubscribeAbsentIsNoOp | src/challenge-1-vanilla.ts:49-53 | unsubscribing a callback that is not registered for a registered event leaves the registry as it was |
| Vanilla.UnsubscribeUndoesSubscribe | src/challenge-1-vanilla.ts:41-53 | for an event that already has a list, subscribing a callback that was not registered and then unsubscribing it restores the registry |
| Vanilla.UnsubscribeAfterSubscribeLeavesEmpty | src/challenge-1-vanilla.ts:41-53 | on an event without a list, unsubscribing fails, while subscribing a callback and unsubscribing it leaves an empty list behind under the event, so the registry is not restored |
| Vanilla.Publish | src/challenge-1-vanilla.ts:55-62 | an event with no list calls nothing; otherwise each registered callback is called once, in registration order, with the same state |
| Vanilla.InitializeState | src/challenge-1-vanilla.ts:74-84 | keeps filter and multiplier, shows the rows the current filter keeps, and publishes STATE_INITIALIZED once with the new state |
| Vanilla.UpdateState | src/challenge-1-vanilla.ts:86-116 | a given filter (even "") is applied and published as NAME_CHANGED with the old multiplier; a non-zero multiplier is then applied and published as MULTIPLIER_CHANGED; a 0 or absent multiplier changes and publishes nothing |
| Vanilla.ResetState | src/challenge-1-vanilla.ts:118-129 | the state becomes filter "", multiplier 10 with every row shown, published once as STATE_INITIALIZED |
| Vanilla.Deliver | src/challenge-1-vanilla.ts:83 | no publication calls nothing; a single publication makes exactly the calls `publish` makes for its event and state |
| Vanilla.DeliverAppend | src/challenge-1-vanilla.ts:105-114 | the calls of an earlier publication all come before those of a later one |
| Vanilla.UpdateBothDeliversNameFirst | src/challenge-1-vanilla.ts:95-115 | with both a filter and a multiplier, every NAME_CHANGED subscriber is called before any MULTIPLIER_CHANGED subscriber |
| Vanilla.StorePreservesShowsFiltered | src/challenge-1-vanilla.ts:74-129 | from a state whose shown rows already equal the session rows filtered by its filter, every store transition ends in a state where this still holds |
| Vanilla.AppRegistryRoutes | src/challenge-1-vanilla.ts:214-222 | with the app's subscriptions, a multiplier change reaches only the power updater, a filter change only the row redraw, and an initialisation the row render and then the input update |
| Vanilla.CleanupEmptiesRegistry | src/challenge-1-vanilla.ts:224-236 | the unload handler's four unsubscriptions succeed and leave no subscriber for any event |
| ClassComp.Initial | src/challenge-3-ReactClassComp.tsx:23-27 | no characters, loading, initial UI state; the shown rows are consistent |
| ClassComp.FetchDataAndInitState | src/challenge-3-ReactClassComp.tsx:55-68 | stores the fetched rows, stops loading, keeps filter and multiplier, and shows the rows the current filter keeps |
| ClassComp.ResetFields | src/challenge-3-ReactClassComp.tsx:72-82 | the UI becomes filter "", multiplier 10 with every stored row shown; stored rows and loading flag are kept |
| ClassComp.HandleEscKeyDown | src/challenge-3-ReactClassComp.tsx:71-88 | on Escape: filter "", multiplier 10, every stored row shown; any other key changes nothing; stored rows and loading flag are kept |
| ClassComp.HandleNameChange | src/challenge-3-ReactClassComp.tsx:90-106 | sets the filter and shows the stored rows it keeps; multiplier, stored rows and loading flag are kept |
| ClassComp.HandleMultiplierChange | src/challenge-3-ReactClassComp.tsx:108-120 | sets the multiplier to the value as given, 0 included; filter, shown rows, stored rows and loading flag are kept |
| ClassComp.RunConsistent | src/challenge-3-ReactClassComp.tsx:52-120 | every handler keeps "shown rows = stored rows filtered by the filter" over any sequence of events |
| ClassComp.AlwaysConsistent | src/challenge-3-ReactClassComp.tsx:20-120 | the consistency invariant holds from the constructor on, whatever events follow |
| ClassComp.RunKeepsLoaded | src/challenge-3-ReactClassComp.tsx:52-120 | once loading has finished no handler sets it back |
| ClassComp.EscIdempotent | src/challenge-3-ReactClassComp.tsx:71-88 | pressing Escape twice gives the same state as once |
| Variants.LoadedAgree | src/challenge-1-vanilla.ts:72-84 | after the fetch the store, the reducer and the class component hold the same UI state: filter "", multiplier 10, every row shown |
| Variants.FunctionalStep | src/challenge-2-ReactFunctionalComp.tsx:120-147 | a name input sets the filter and shows the rows it keeps; a multiplier input sets it, or 1 for 0; Escape resets to "", 10 and every row; any other key changes nothing |
| Variants.VanillaStep | src/challenge-1-vanilla.ts:244-266 | a name input sets the filter and shows the rows it keeps; a non-zero multiplier input sets it and 0 changes nothing; Escape resets to "", 10 and every row; any other key changes nothing |
| Variants.ClassStep | src/challenge-3-ReactClassComp.tsx:71-120 | a name input sets the filter and shows the stored rows it keeps; a multiplier input is stored as given; Escape resets to "", 10 and every stored row; any other key changes nothing; stored rows and loading flag never change |
| Variants.RunsAgree | src/challenge-2-ReactFunctionalComp.tsx:120-147 | dispatching each input to the reducer, to the store and to the class handlers gives the same UI state after every sequence without a 0 multiplier |
| Variants.SessionsAgree | src/challenge-1-vanilla.ts:238-266 | from the moment the rows are loaded, the three variants show the same state for any input sequence without a 0 multiplier (input typed before loading is not covered: see FilterBeforeFetchDiverges) |
| Variants.FilterBeforeFetchDiverges | src/challenge-3-ReactClassComp.tsx:55-68 | "le" typed before Luke and Leia load leaves only Leia shown in the class and function components, while the vanilla app loads with both shown |
| Variants.ZeroMultiplierDiverges | src/challenge-2-ReactFunctionalComp.tsx:73-78 | a 0 multiplier gives 1 in the reducer, no change in the store and 0 in the class component |
| Variants.LeFilter | src/shared/utils.ts:33-37 | the filter "le" drops "Luke" and keeps "Leia" |
| Variants.LukeAndLeiaSession | src/challenge-2-ReactFunctionalComp.tsx:38-91 | loading Luke and Leia shows both; typing "le" shows Leia only; a multiplier of 5 keeps Leia; Escape returns to "", 10 and both rows; Leia's power is the product of 5, "150" and "49" |

## Left out

- Fetching (`fetchData`, `fetchCharacters`, src/shared/utils.ts:5-24) is network I/O with async recursion over pages. The model takes the fetched rows as a `seq<Character>` argument.
- Utils.CharacterPower: the arithmetic `Math.round(multiplier * Number(height) * Number(mass))` is floating point and can give NaN. It is the function parameter `product`, so the contract says what the arithmetic receives, not what it returns.
- Text.Lower: lower-casing covers ASCII letters only, while `toLowerCase` is Unicode-aware. The same holds for every filter lemma.
- `name?.` in the filter: `Character.name` is typed as a string, so an undefined name (which the source keeps under the empty filter and drops under any other) is not modelled.
- Multipliers are integers. `Number(target.value)` can be fractional or NaN; the only non-numeric input modelled is an empty field, which `Number` reads as 0.
- The DOM and rendering: `selectors`, `Renderer`, JSX render bodies, and the row/cell updates.
- Listener wiring: keyup versus keydown, event bubbling, the function component adding its Escape listener and dispatching CHARACTERS_FETCHED only when rows exist, and listeners that exist only after the fetch. Inputs are modelled from the moment the rows are loaded.
- The React runtime: `useState`, `useEffect`, `useReducer`, and the batching and asynchrony of `setState`. Each handler is a synchronous pure transition.
- Vanilla.Subscribe: event names that are `Object.prototype` members ("constructor", "toString") make the source's `subscribe` and `publish` throw, because the registry is a plain object. The model treats every name as an ordinary key. The app only uses the five action names.
- Vanilla.Publish: for those same `Object.prototype` names the source throws at `forEach`; the model returns no calls.
- Callback identity and invocation: callbacks are ids, and publishing returns the calls it would make.
- State snapshots are values, so "the input is not mutated" holds by construction and has no lemma.
