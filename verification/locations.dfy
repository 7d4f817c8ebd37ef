/**
 The location values the history stack stores.

 Building a location from a path or a location-like object belongs to
 `LocationUtils`, which is not part of this model: `CreateLocation` below is
 a small stand-in that keeps exactly the facts the history stack relies on
 (the path is carried over, the key is the one supplied, and a location-like
 object's own state wins over a separate state argument).
 */
module Locations {
  import opened Wrappers

  /** A location key, a short generated identifier. */
  type Key = string

  /** The opaque state value carried alongside a location. */
  type State = string

  /** An immutable navigation target. */
  datatype Location = Location(path: string, state: Option<State>, key: Key)

  /** What a caller passes to `push` or `replace`: a path string or a location-like object. */
  datatype PathInput =
    | PathString(path: string)
    | PathObject(path: string, state: Option<State>)
  {
    function Path(): string {
      match this
      case PathString(p) => p
      case PathObject(p, _) => p
    }
  }

  /** An element of the `initialEntries` option: a path string, or an object that may carry a key. */
  datatype InitialEntry =
    | EntryPath(path: string)
    | EntryObject(path: string, state: Option<State>, key: Option<Key>)

  /** JavaScript truthiness of an optional key: absent and empty keys are both falsy. */
  predicate Truthy(k: Option<Key>) {
    k.Some? && k.value != ""
  }

  /** Stand-in for `createLocation(path, state, key)`. */
  function CreateLocation(input: PathInput, state: Option<State>, key: Key): (r: Location)
    ensures r.path == input.Path()
    ensures r.key == key
    ensures input.PathString? ==> r.state == state
    ensures input.PathObject? && input.state.Some? ==> r.state == input.state
    ensures input.PathObject? && input.state.None? ==> r.state == state
  {
    match input
    case PathString(p) => Location(p, state, key)
    case PathObject(p, s) => Location(p, if s.Some? then s else state, key)
  }

  /** The key an initial entry ends up with: its own key when truthy, otherwise a generated one. */
  function EntryKey(e: InitialEntry, generated: Key): Key {
    if e.EntryObject? && Truthy(e.key) then e.key.value else generated
  }

  /** The location an initial entry is turned into at construction (no state argument is passed). */
  function EntryLocation(e: InitialEntry, generated: Key): (r: Location)
    ensures r.path == e.path
    ensures e.EntryObject? && Truthy(e.key) ==> r.key == e.key.value
    ensures !(e.EntryObject? && Truthy(e.key)) ==> r.key == generated
    ensures e.EntryPath? ==> r.state.None?
    ensures e.EntryObject? ==> r.state == e.state
  {
    match e
    case EntryPath(p) => CreateLocation(PathString(p), None, EntryKey(e, generated))
    case EntryObject(p, s, _) => CreateLocation(PathObject(p, s), None, EntryKey(e, generated))
  }
}
