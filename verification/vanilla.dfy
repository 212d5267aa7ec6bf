/** The vanilla variant: a hand-rolled publish/subscribe registry and a store
    that holds one UI state and publishes every change. */
module Vanilla {

  import opened Options
  import opened Types
  import opened Utils

  // ---------------------------------------------------------------------------
  // PubSub
  // ---------------------------------------------------------------------------

  /** A subscribed callback, identified by an opaque id. */
  type CallbackId = nat

  /** Event name to the callbacks registered for it, in registration order. */
  type Registry = map<string, seq<CallbackId>>

  const EmptyRegistry: Registry := map[]

  /** One call of a callback with a state snapshot. */
  datatype Delivery = Delivery(callback: CallbackId, state: UIState)

  function Listeners(subs: Registry, event: string): seq<CallbackId> {
    if event in subs then subs[event] else []
  }

  /** Appends `callbacks` after those already registered for `event`. */
  function Subscribe(subs: Registry, event: string, callbacks: seq<CallbackId>): (r: Registry)
    ensures r.Keys == subs.Keys + {event}
    ensures r[event] == Listeners(subs, event) + callbacks
    ensures forall e :: e in subs && e != event ==> r[e] == subs[e]
  {
    subs[event := Listeners(subs, event) + callbacks]
  }

  /** `xs` without any occurrence of `x`. */
  function RemoveAll(xs: seq<CallbackId>, x: CallbackId): (r: seq<CallbackId>)
    ensures x !in r
    ensures forall y :: y != x ==> multiset(r)[y] == multiset(xs)[y]
  {
    if xs == [] then []
    else
      var rest := RemoveAll(xs[1..], x);
      assert xs == [xs[0]] + xs[1..];
      if xs[0] == x then rest else [xs[0]] + rest
  }

  lemma {:induction false} RemoveAllIsSubsequence(xs: seq<CallbackId>, x: CallbackId)
    ensures IsSubsequence(RemoveAll(xs, x), xs)
    decreases |xs|
  {
    if xs != [] {
      RemoveAllIsSubsequence(xs[1..], x);
      var r := RemoveAll(xs, x);
      if xs[0] == x && r != [] {
        assert IsSubsequence(r, xs[1..]);
      }
    }
  }

  lemma {:induction false} RemoveAllAbsent(xs: seq<CallbackId>, x: CallbackId)
    requires x !in xs
    ensures RemoveAll(xs, x) == xs
  {
    if xs != [] {
      RemoveAllAbsent(xs[1..], x);
    }
  }

  /** Drops every registration of `callback` for `event`. An event that was
      never subscribed has no list to filter: the source throws a TypeError,
      modelled as None. */
  function Unsubscribe(subs: Registry, event: string, callback: CallbackId): (r: Option<Registry>)
    ensures r.None? <==> event !in subs
    ensures r.Some? ==> r.value.Keys == subs.Keys
    ensures r.Some? ==> callback !in r.value[event]
    ensures r.Some? ==> forall y :: y != callback ==> multiset(r.value[event])[y] == multiset(subs[event])[y]
    ensures r.Some? ==> IsSubsequence(r.value[event], subs[event])
    ensures r.Some? ==> forall e :: e in subs && e != event ==> r.value[e] == subs[e]
  {
    if event !in subs then None
    else
      RemoveAllIsSubsequence(subs[event], callback);
      Some(subs[event := RemoveAll(subs[event], callback)])
  }

  /** Unsubscribing a callback that is not registered for the event changes nothing. */
  lemma UnsubscribeAbsentIsNoOp(subs: Registry, event: string, callback: CallbackId)
    requires event in subs && callback !in subs[event]
    ensures Unsubscribe(subs, event, callback) == Some(subs)
  {
    RemoveAllAbsent(subs[event], callback);
    assert subs[event := subs[event]] == subs;
  }

  /** Unsubscribing undoes subscribing a callback that was not registered yet,
      on an event that already has a list. */
  lemma UnsubscribeUndoesSubscribe(subs: Registry, event: string, callback: CallbackId)
    requires event in subs && callback !in subs[event]
    ensures Unsubscribe(Subscribe(subs, event, [callback]), event, callback) == Some(subs)
  {
    var after := Subscribe(subs, event, [callback]);
    assert after[event] == subs[event] + [callback];
    RemoveAllAppendOne(subs[event], callback);
    assert after[event := subs[event]] == subs;
  }

  /** On an event without a list, subscribing creates one, and unsubscribing
      the same callback leaves that list behind empty: a later unsubscribe of
      the event then succeeds where it failed before. */
  lemma UnsubscribeAfterSubscribeLeavesEmpty(subs: Registry, event: string, callback: CallbackId)
    requires event !in subs
    ensures Unsubscribe(subs, event, callback) == None
    ensures Unsubscribe(Subscribe(subs, event, [callback]), event, callback) == Some(subs[event := []])
  {
    var after := Subscribe(subs, event, [callback]);
    assert Listeners(subs, event) + [callback] == [callback];
    RemoveAllAppendOne([], callback);
    assert after == subs[event := [callback]];
    assert after[event := []] == subs[event := []];
  }

  lemma {:induction false} RemoveAllAppendOne(xs: seq<CallbackId>, x: CallbackId)
    requires x !in xs
    ensures RemoveAll(xs + [x], x) == xs
  {
    if xs == [] {
      assert [x][1..] == [];
    } else {
      assert (xs + [x])[1..] == xs[1..] + [x];
      RemoveAllAppendOne(xs[1..], x);
    }
  }

  /** Calls every callback registered for `event`, in registration order, with
      the same state; an event nobody subscribed to calls nothing. */
  function Publish(subs: Registry, event: string, state: UIState): (trace: seq<Delivery>)
    ensures event !in subs ==> trace == []
    ensures |trace| == |Listeners(subs, event)|
    ensures forall i :: 0 <= i < |trace| ==> trace[i].callback == Listeners(subs, event)[i] && trace[i].state == state
  {
    var ls := Listeners(subs, event);
    seq(|ls|, i requires 0 <= i < |ls| => Delivery(ls[i], state))
  }

  // ---------------------------------------------------------------------------
  // Store
  // ---------------------------------------------------------------------------

  /** An event published by the store, with the state it carried. */
  datatype Publication = Publication(event: ActionType, state: UIState)

  /** The store's state after a transition, and what the transition published. */
  datatype Step = Step(state: UIState, published: seq<Publication>)

  /** The store starts from the initial UI state. */
  const InitialStoreState := InitialUIState

  /** Filters the fetched rows by the current filter and publishes STATE_INITIALIZED. */
  function InitializeState(state: UIState, characters: seq<Character>): (r: Step)
    ensures r.state.filter == state.filter && r.state.multiplier == state.multiplier
    ensures r.state.filteredCharacters == FilterCharacters(characters, state.filter)
    ensures r.published == [Publication(StateInitialized, r.state)]
  {
    var s := state.(filteredCharacters := FilterCharacters(characters, state.filter));
    Step(s, [Publication(StateInitialized, s)])
  }

  /** A given filter (even "") is applied and published as NAME_CHANGED; then a
      non-zero multiplier is applied and published as MULTIPLIER_CHANGED. An
      absent or zero multiplier is ignored. */
  function UpdateState(state: UIState, characters: seq<Character>, filter: Option<string>, multiplier: Option<int>): (r: Step)
    ensures filter.Some? ==> r.state.filter == filter.value && r.state.filteredCharacters == FilterCharacters(characters, filter.value)
    ensures filter.None? ==> r.state.filter == state.filter && r.state.filteredCharacters == state.filteredCharacters
    ensures multiplier.Some? && multiplier.value != 0 ==> r.state.multiplier == multiplier.value
    ensures multiplier.None? || multiplier.value == 0 ==> r.state.multiplier == state.multiplier
    ensures |r.published| == (if filter.Some? then 1 else 0) + (if multiplier.Some? && multiplier.value != 0 then 1 else 0)
    ensures filter.Some? ==>
      && r.published[0].event == NameChanged
      && r.published[0].state == state.(filter := filter.value, filteredCharacters := FilterCharacters(characters, filter.value))
    ensures |r.published| > 0 ==> r.published[|r.published| - 1].state == r.state
    ensures multiplier.Some? && multiplier.value != 0 ==> r.published[|r.published| - 1].event == MultiplierChanged
  {
    var (s1, p1) :=
      if filter.Some? then
        var s := state.(filter := filter.value, filteredCharacters := FilterCharacters(characters, filter.value));
        (s, [Publication(NameChanged, s)])
      else (state, []);
    if multiplier.Some? && multiplier.value != 0 then
      var s2 := s1.(multiplier := multiplier.value);
      Step(s2, p1 + [Publication(MultiplierChanged, s2)])
    else
      Step(s1, p1)
  }

  /** Back to the initial filter and multiplier with every row shown; publishes
      STATE_INITIALIZED. */
  function ResetState(characters: seq<Character>): (r: Step)
    ensures r.state == InitialUIState.(filteredCharacters := characters)
    ensures r.published == [Publication(StateInitialized, r.state)]
  {
    FilterEmptyKeepsAll(characters);
    var s := InitialUIState.(filteredCharacters := FilterCharacters(characters, InitialUIState.filter));
    Step(s, [Publication(StateInitialized, s)])
  }

  /** The callback calls a transition's publications cause, in order. */
  function Deliver(subs: Registry, published: seq<Publication>): (trace: seq<Delivery>)
    ensures published == [] ==> trace == []
    ensures |published| == 1 ==> trace == Publish(subs, EventName(published[0].event), published[0].state)
  {
    if published == [] then []
    else Publish(subs, EventName(published[0].event), published[0].state) + Deliver(subs, published[1..])
  }

  /** The calls of consecutive publications follow each other: no call of a
      later publication comes before one of an earlier publication. */
  lemma {:induction false} DeliverAppend(subs: Registry, first: seq<Publication>, second: seq<Publication>)
    ensures Deliver(subs, first + second) == Deliver(subs, first) + Deliver(subs, second)
    decreases |first|
  {
    if first == [] {
      assert first + second == second;
    } else {
      assert (first + second)[0] == first[0];
      assert (first + second)[1..] == first[1..] + second;
      DeliverAppend(subs, first[1..], second);
    }
  }

  /** Filter and multiplier in one update: every NAME_CHANGED subscriber hears of
      the new filter (with the old multiplier) before any MULTIPLIER_CHANGED
      subscriber hears of the final state. */
  lemma UpdateBothDeliversNameFirst(subs: Registry, state: UIState, characters: seq<Character>, filter: string, multiplier: int)
    requires multiplier != 0
    ensures var r := UpdateState(state, characters, Some(filter), Some(multiplier));
      Deliver(subs, r.published)
        == Publish(subs, EventName(NameChanged), state.(filter := filter, filteredCharacters := FilterCharacters(characters, filter)))
         + Publish(subs, EventName(MultiplierChanged), r.state)
  {
    var r := UpdateState(state, characters, Some(filter), Some(multiplier));
    assert r.published[1..][1..] == [];
    assert Deliver(subs, r.published[1..][1..]) == [];
  }

  /** Any transition of the store keeps the shown rows consistent with the
      session's rows. */
  lemma StorePreservesShowsFiltered(state: UIState, characters: seq<Character>, filter: Option<string>, multiplier: Option<int>)
    requires state.filteredCharacters == FilterCharacters(characters, state.filter)
    ensures var r := InitializeState(state, characters).state; r.filteredCharacters == FilterCharacters(characters, r.filter)
    ensures var r := UpdateState(state, characters, filter, multiplier).state; r.filteredCharacters == FilterCharacters(characters, r.filter)
    ensures var r := ResetState(characters).state; r.filteredCharacters == FilterCharacters(characters, r.filter)
  {
    FilterEmptyKeepsAll(characters);
  }

  // ---------------------------------------------------------------------------
  // The renderer's subscriptions
  // ---------------------------------------------------------------------------

  const RenderRows: CallbackId := 0
  const UpdateInputValues: CallbackId := 1
  const UpdateTableRows: CallbackId := 2
  const UpdateCharacterPower: CallbackId := 3

  /** The subscriptions the app sets up before fetching. */
  function AppRegistry(): Registry {
    var s1 := Subscribe(EmptyRegistry, EventName(StateInitialized), [RenderRows, UpdateInputValues]);
    var s2 := Subscribe(s1, EventName(NameChanged), [UpdateTableRows]);
    Subscribe(s2, EventName(MultiplierChanged), [UpdateCharacterPower])
  }

  /** The unload handler: the four unsubscriptions, in order. */
  function Cleanup(subs: Registry): Option<Registry> {
    var s1 := Unsubscribe(subs, EventName(StateInitialized), RenderRows);
    if s1.None? then None else
    var s2 := Unsubscribe(s1.value, EventName(StateInitialized), UpdateInputValues);
    if s2.None? then None else
    var s3 := Unsubscribe(s2.value, EventName(NameChanged), UpdateTableRows);
    if s3.None? then None else
    Unsubscribe(s3.value, EventName(MultiplierChanged), UpdateCharacterPower)
  }

  /** A multiplier change only updates the power column; a filter change only
      redraws the rows; an initialisation draws rows and then fills the inputs. */
  lemma AppRegistryRoutes(state: UIState)
    ensures Publish(AppRegistry(), EventName(MultiplierChanged), state) == [Delivery(UpdateCharacterPower, state)]
    ensures Publish(AppRegistry(), EventName(NameChanged), state) == [Delivery(UpdateTableRows, state)]
    ensures Publish(AppRegistry(), EventName(StateInitialized), state) == [Delivery(RenderRows, state), Delivery(UpdateInputValues, state)]
  {
  }

  /** The registry the app's subscriptions build, written out. */
  function AppTable(): Registry {
    map[EventName(StateInitialized) := [RenderRows, UpdateInputValues],
        EventName(NameChanged) := [UpdateTableRows],
        EventName(MultiplierChanged) := [UpdateCharacterPower]]
  }

  lemma AppRegistryIsTable()
    ensures AppRegistry() == AppTable()
  {
    var si, nc, mc := EventName(StateInitialized), EventName(NameChanged), EventName(MultiplierChanged);
    var a1 := map[si := [RenderRows, UpdateInputValues]];
    assert Subscribe(EmptyRegistry, si, [RenderRows, UpdateInputValues]) == a1 by {
      assert [] + [RenderRows, UpdateInputValues] == [RenderRows, UpdateInputValues];
    }
    var a2 := a1[nc := [UpdateTableRows]];
    assert Subscribe(a1, nc, [UpdateTableRows]) == a2 by {
      EventNameInjective(StateInitialized, NameChanged);
      assert [] + [UpdateTableRows] == [UpdateTableRows];
    }
    assert Subscribe(a2, mc, [UpdateCharacterPower]) == AppTable() by {
      EventNameInjective(StateInitialized, MultiplierChanged);
      EventNameInjective(NameChanged, MultiplierChanged);
      assert [] + [UpdateCharacterPower] == [UpdateCharacterPower];
    }
  }

  lemma UnsubscribeAt(subs: Registry, event: string, callback: CallbackId, rest: seq<CallbackId>)
    requires event in subs && RemoveAll(subs[event], callback) == rest
    ensures Unsubscribe(subs, event, callback) == Some(subs[event := rest])
  {
  }

  lemma RemoveSingleton(x: CallbackId)
    ensures RemoveAll([x], x) == []
  {
    assert [x][1..] == [];
  }

  /** The registry after the unload handler: every list emptied. */
  function EmptiedTable(): Registry {
    map[EventName(StateInitialized) := [], EventName(NameChanged) := [], EventName(MultiplierChanged) := []]
  }

  lemma CleanupOfTable()
    ensures Cleanup(AppTable()) == Some(EmptiedTable())
  {
    var si, nc, mc := EventName(StateInitialized), EventName(NameChanged), EventName(MultiplierChanged);
    var app := AppTable();
    assert RemoveAll([RenderRows, UpdateInputValues], RenderRows) == [UpdateInputValues] by {
      assert [RenderRows, UpdateInputValues][1..] == [UpdateInputValues];
      assert [UpdateInputValues][1..] == [];
      assert RemoveAll([UpdateInputValues], RenderRows) == [UpdateInputValues];
    }
    RemoveSingleton(UpdateInputValues);
    RemoveSingleton(UpdateTableRows);
    RemoveSingleton(UpdateCharacterPower);
    var s1 := app[si := [UpdateInputValues]];
    var s2 := s1[si := []];
    var s3 := s2[nc := []];
    UnsubscribeAt(app, si, RenderRows, [UpdateInputValues]);
    UnsubscribeAt(s1, si, UpdateInputValues, []);
    UnsubscribeAt(s2, nc, UpdateTableRows, []);
    UnsubscribeAt(s3, mc, UpdateCharacterPower, []);
    assert s3[mc := []] == EmptiedTable();
  }

  /** After unload nobody is subscribed to anything, and publishing is silent. */
  lemma CleanupEmptiesRegistry(state: UIState, event: string)
    ensures Cleanup(AppRegistry()).Some?
    ensures Publish(Cleanup(AppRegistry()).value, event, state) == []
  {
    AppRegistryIsTable();
    CleanupOfTable();
    assert Listeners(EmptiedTable(), event) == [];
  }
}
