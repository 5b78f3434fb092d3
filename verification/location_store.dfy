/** The selected-location store: coordinates and a display name, replaced
    wholesale by `setLocation`, reset by `clearLocation`, and written after
    every change to browser storage under one key, holding only those two
    fields. The storage is a map from keys to snapshots (JSON text is not
    modelled). */
module LocationStore {
  import opened Common
  import opened WeatherTypes

  datatype State = State(coordinates: Option<Coordinates>, locationName: Option<string>)

  /** The persisted projection of the state. */
  datatype Snapshot = Snapshot(coordinates: Option<Coordinates>, locationName: Option<string>)

  const StorageKey: string := "weather-location"

  const Initial: State := State(None, None)

  /** `setLocation(coordinates, name)`: both fields replaced; a missing or
      empty name is stored as null. */
  function SetLocation(s: State, coordinates: Coordinates, name: Option<string>): (s': State)
    ensures s'.coordinates == Some(coordinates)
    ensures s'.locationName.Some? <==> Truthy(name)
    ensures Truthy(name) ==> s'.locationName == name
  {
    State(Some(coordinates), if Truthy(name) then name else None)
  }

  /** `clearLocation()`. */
  function ClearLocation(s: State): (s': State)
    ensures s'.coordinates.None? && s'.locationName.None?
  {
    Initial
  }

  /** The result of `setLocation` does not depend on the state it replaces:
      the last write wins. */
  lemma SetLocationLastWriteWins(s: State, c1: Coordinates, n1: Option<string>, c2: Coordinates, n2: Option<string>)
    ensures SetLocation(SetLocation(s, c1, n1), c2, n2) == SetLocation(s, c2, n2)
    ensures SetLocation(s, c2, n2) == SetLocation(Initial, c2, n2)
  {
  }

  /** Clearing is idempotent and lands on the initial state from anywhere. */
  lemma ClearLocationIdempotent(s: State)
    ensures ClearLocation(ClearLocation(s)) == ClearLocation(s) == Initial
  {
  }

  // ---------------------------------------------------------------- persistence

  /** `partialize`: only the two data fields are kept. */
  function Partialize(s: State): (p: Snapshot)
    ensures p.coordinates == s.coordinates && p.locationName == s.locationName
  {
    Snapshot(s.coordinates, s.locationName)
  }

  /** Rehydration: the stored snapshot merged over the initial state, or the
      initial state when nothing is stored. */
  function Rehydrate(storage: map<string, Snapshot>): (s: State)
    ensures StorageKey !in storage ==> s == Initial
    ensures StorageKey in storage ==> Partialize(s) == storage[StorageKey]
  {
    if StorageKey in storage then State(storage[StorageKey].coordinates, storage[StorageKey].locationName)
    else Initial
  }

  datatype Action = Set(coordinates: Coordinates, name: Option<string>) | Clear

  /** The store with its storage: every change is written through. */
  datatype Persisted = Persisted(state: State, storage: map<string, Snapshot>)

  function Apply(p: Persisted, a: Action): (p': Persisted)
    ensures p'.storage == p.storage[StorageKey := Partialize(p'.state)]
    ensures a.Set? ==> p'.state == SetLocation(p.state, a.coordinates, a.name)
    ensures a.Clear? ==> p'.state == Initial
  {
    var s := match a
      case Set(c, n) => SetLocation(p.state, c, n)
      case Clear => ClearLocation(p.state);
    Persisted(s, p.storage[StorageKey := Partialize(s)])
  }

  function Run(p: Persisted, actions: seq<Action>): Persisted
    decreases |actions|
  {
    if |actions| == 0 then p else Run(Apply(p, actions[0]), actions[1..])
  }

  /** Storage and state agree: reloading the page restores the state. */
  ghost predicate InSync(p: Persisted) {
    Rehydrate(p.storage) == p.state
  }

  /** After any non-empty run of actions the stored snapshot restores exactly
      the current state, and the other storage keys are untouched. */
  lemma {:induction false} RunKeepsStorageInSync(p: Persisted, actions: seq<Action>)
    requires |actions| > 0 || InSync(p)
    ensures InSync(Run(p, actions))
    ensures forall k :: k != StorageKey ==> (k in Run(p, actions).storage <==> k in p.storage)
    ensures forall k :: k != StorageKey && k in p.storage ==> Run(p, actions).storage[k] == p.storage[k]
    decreases |actions|
  {
    if |actions| > 0 {
      var q := Apply(p, actions[0]);
      assert InSync(q);
      RunKeepsStorageInSync(q, actions[1..]);
    }
  }

  /** A fresh page with empty storage starts in the initial state. */
  lemma FreshStart()
    ensures InSync(Persisted(Initial, map[]))
  {
  }
}
