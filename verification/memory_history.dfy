/**
 The in-memory history stack: an ordered list of locations, the index of the
 current one, and the action that produced it.

 Each navigation operation is a pure function from the current history to a
 `Step`: the next history and the listener notification the operation makes,
 if any. Approval by the transition manager is the boolean `approved`; keys
 that the source draws at random are parameters.
 */
module MemoryHistory {
  import opened Wrappers
  import opened Locations

  /** The kind of navigation that produced the current location. */
  datatype Action = POP | PUSH | REPLACE

  /** The history object's state fields. */
  datatype History = History(
    entries: seq<Location>,
    index: int,
    action: Action,
    location: Location,
    length: int)
  {
    /** The invariants every reachable history satisfies. */
    predicate Valid() {
      && 0 <= index < |entries|
      && location == entries[index]
      && length == |entries|
    }
  }

  /** One call of the listeners: the location and action they are shown. */
  datatype Notice = Notice(location: Location, action: Action)

  /** The outcome of one operation. */
  datatype Step = Step(next: History, notice: Option<Notice>)

  /** The fields an update sets; absent fields keep their value. */
  datatype Patch = Patch(
    action: Option<Action>,
    location: Option<Location>,
    index: Option<int>,
    entries: Option<seq<Location>>)

  /** The update with no fields, as in a call `setState()`. */
  const NoChange := Patch(None, None, None, None)

  function Min(a: int, b: int): int { if a <= b then a else b }
  function Max(a: int, b: int): int { if a >= b then a else b }

  /** `Math.min(Math.max(n, lo), hi)`. */
  function Clamp(n: int, lo: int, hi: int): (r: int)
    ensures lo <= hi ==> lo <= r <= hi
    ensures lo <= n <= hi ==> r == n
    ensures n < lo && lo <= hi ==> r == lo
    ensures hi < n ==> r == hi
    ensures hi < lo ==> r == hi
  {
    Min(Max(n, lo), hi)
  }

  /**
   Assigns the patched fields, recomputes `length` from `entries` and
   notifies the listeners with the resulting location and action.
   */
  function SetState(h: History, p: Patch): (r: Step)
    // whatever the patch, only the index and the location remain to be checked for validity
    ensures r.next.Valid() <==>
              0 <= r.next.index < |r.next.entries| && r.next.location == r.next.entries[r.next.index]
    // a call with no fields only re-notifies the listeners
    ensures h.Valid() && p == NoChange ==> r.next == h && r.notice == Some(Notice(h.location, h.action))
    // the listeners always see the state after the update
    ensures r.notice == Some(Notice(r.next.location, r.next.action))
    // fields the patch leaves out keep their value; the others take the patched one
    ensures p.entries.None? ==> r.next.entries == h.entries
    ensures p.entries.Some? ==> r.next.entries == p.entries.value
    ensures p.index.None? ==> r.next.index == h.index
    ensures p.index.Some? ==> r.next.index == p.index.value
    ensures p.action.None? ==> r.next.action == h.action
    ensures p.action.Some? ==> r.next.action == p.action.value
    ensures p.location.None? ==> r.next.location == h.location
    ensures p.location.Some? ==> r.next.location == p.location.value
  {
    var entries := if p.entries.Some? then p.entries.value else h.entries;
    var next := History(
      entries,
      if p.index.Some? then p.index.value else h.index,
      if p.action.Some? then p.action.value else h.action,
      if p.location.Some? then p.location.value else h.location,
      |entries|);
    Step(next, Some(Notice(next.location, next.action)))
  }

  /** The initial entries mapped to locations, entry `i` with generated key `freshKey(i)`. */
  function InitialLocations(initialEntries: seq<InitialEntry>, freshKey: nat -> Key): (r: seq<Location>)
    ensures |r| == |initialEntries|
    ensures forall i :: 0 <= i < |r| ==> r[i].path == initialEntries[i].path
    ensures forall i :: 0 <= i < |r| ==>
              r[i].state == (if initialEntries[i].EntryObject? then initialEntries[i].state else None)
    ensures forall i :: 0 <= i < |r| ==>
              r[i].key == (if initialEntries[i].EntryObject? && Truthy(initialEntries[i].key)
                           then initialEntries[i].key.value else freshKey(i))
  {
    var r := seq(|initialEntries|, i requires 0 <= i < |initialEntries| => EntryLocation(initialEntries[i], freshKey(i)));
    assert forall i :: 0 <= i < |r| ==> r[i] == EntryLocation(initialEntries[i], freshKey(i));
    r
  }

  /**
   Construction from the `initialEntries` and `initialIndex` options.
   `freshKey(i)` is the key generated for entry `i` when that entry has no
   truthy key of its own. An empty entry list yields no history.
   */
  function Create(initialEntries: seq<InitialEntry>, initialIndex: int, freshKey: nat -> Key): (r: Option<History>)
    ensures r.None? <==> |initialEntries| == 0
    ensures r.Some? ==> r.value.Valid()
    ensures r.Some? ==> r.value.action == POP
    ensures r.Some? ==> r.value.index == Clamp(initialIndex, 0, |initialEntries| - 1)
    ensures r.Some? ==> 0 <= initialIndex < |initialEntries| ==> r.value.index == initialIndex
    ensures r.Some? ==> |r.value.entries| == |initialEntries|
    ensures r.Some? ==> forall i :: 0 <= i < |initialEntries| ==>
              && r.value.entries[i].path == initialEntries[i].path
              && (initialEntries[i].EntryObject? && Truthy(initialEntries[i].key) ==>
                    r.value.entries[i].key == initialEntries[i].key.value)
              && (!(initialEntries[i].EntryObject? && Truthy(initialEntries[i].key)) ==>
                    r.value.entries[i].key == freshKey(i))
              && (initialEntries[i].EntryObject? ==> r.value.entries[i].state == initialEntries[i].state)
              && (initialEntries[i].EntryPath? ==> r.value.entries[i].state.None?)
  {
    if |initialEntries| == 0 then None
    else
      var index := Clamp(initialIndex, 0, |initialEntries| - 1);
      var entries := InitialLocations(initialEntries, freshKey);
      Some(History(entries, index, POP, entries[index], |entries|))
  }

  /** The `initialEntries` and `initialIndex` used when the options are not given. */
  const DefaultEntries: seq<InitialEntry> := [EntryPath("/")]
  const DefaultIndex: int := 0

  /** `push(path, state)`: builds a location with the given key and, when approved, makes it the new tail. */
  function Push(h: History, input: PathInput, state: Option<State>, key: Key, approved: bool): (r: Step)
    requires h.Valid()
    ensures r.next.Valid()
    ensures approved ==>
              var loc := CreateLocation(input, state, key);
              && r.next.entries == h.entries[..h.index + 1] + [loc]
              && r.next.index == h.index + 1
              && r.next.action == PUSH
              && r.next.location == loc
              && r.next.length == h.index + 2
              && r.notice == Some(Notice(loc, PUSH))
    ensures !approved ==> r.next == h && r.notice == None
  {
    var location := CreateLocation(input, state, key);
    if !approved then Step(h, None)
    else
      var nextIndex := h.index + 1;
      var nextEntries :=
        if |h.entries| > nextIndex then h.entries[..nextIndex] + [location]
        else h.entries + [location];
      SetState(h, Patch(Some(PUSH), Some(location), Some(nextIndex), Some(nextEntries)))
  }

  /** `replace(path, state)`: when approved, overwrites the current entry in place. */
  function Replace(h: History, input: PathInput, state: Option<State>, key: Key, approved: bool): (r: Step)
    requires h.Valid()
    ensures r.next.Valid()
    ensures approved ==>
              var loc := CreateLocation(input, state, key);
              && |r.next.entries| == |h.entries|
              && r.next.entries[h.index] == loc
              && (forall j :: 0 <= j < |h.entries| && j != h.index ==> r.next.entries[j] == h.entries[j])
              && r.next.index == h.index
              && r.next.length == h.length
              && r.next.action == REPLACE
              && r.next.location == loc
              && r.notice == Some(Notice(loc, REPLACE))
    ensures !approved ==> r.next == h && r.notice == None
  {
    var location := CreateLocation(input, state, key);
    if !approved then Step(h, None)
    else
      var entries := h.entries[h.index := location];
      SetState(h, Patch(Some(REPLACE), Some(location), None, Some(entries)))
  }

  /**
   `go(n)`: moves to an existing entry, clamping the target index to the
   stack. A rejected move still notifies the listeners, with the unchanged
   location and action.
   */
  function Go(h: History, n: int, approved: bool): (r: Step)
    requires h.Valid()
    ensures r.next.Valid()
    ensures r.next.entries == h.entries
    ensures approved ==>
              && r.next.index == Clamp(h.index + n, 0, |h.entries| - 1)
              && r.next.location == h.entries[r.next.index]
              && r.next.action == POP
              && r.notice == Some(Notice(r.next.location, POP))
    ensures approved && 0 <= h.index + n < |h.entries| ==> r.next.index == h.index + n
    ensures approved && h.index + n < 0 ==> r.next.index == 0
    ensures approved && h.index + n >= |h.entries| ==> r.next.index == |h.entries| - 1
    ensures !approved ==> r.next == h && r.notice == Some(Notice(h.location, h.action))
  {
    var nextIndex := Clamp(h.index + n, 0, |h.entries| - 1);
    var location := h.entries[nextIndex];
    if approved then SetState(h, Patch(Some(POP), Some(location), Some(nextIndex), None))
    else SetState(h, NoChange)
  }

  /** `goBack()`, the move one entry back. */
  function GoBack(h: History, approved: bool): (r: Step)
    requires h.Valid()
    ensures r.next.Valid()
    ensures r.next.entries == h.entries
    ensures approved && h.index > 0 ==>
              r.next.index == h.index - 1 && r.next.location == h.entries[h.index - 1] && r.next.action == POP
    ensures approved && h.index == 0 ==> r.next.index == 0 && r.next.location == h.location
    ensures approved ==> r.next.action == POP && r.notice == Some(Notice(r.next.location, POP))
    ensures !approved ==> r.next == h && r.notice == Some(Notice(h.location, h.action))
  {
    Go(h, -1, approved)
  }

  /** `goForward()`, the move one entry forward. */
  function GoForward(h: History, approved: bool): (r: Step)
    requires h.Valid()
    ensures r.next.Valid()
    ensures r.next.entries == h.entries
    ensures approved && h.index < |h.entries| - 1 ==>
              r.next.index == h.index + 1 && r.next.location == h.entries[h.index + 1] && r.next.action == POP
    ensures approved && h.index == |h.entries| - 1 ==> r.next.index == h.index && r.next.location == h.location
    ensures approved ==> r.next.action == POP && r.notice == Some(Notice(r.next.location, POP))
    ensures !approved ==> r.next == h && r.notice == Some(Notice(h.location, h.action))
  {
    Go(h, 1, approved)
  }

  /** `canGo(n)`: whether `index + n` names an existing entry. */
  function CanGo(h: History, n: int): (r: bool)
    ensures r <==> 0 <= h.index + n < |h.entries|
    // on a valid history: exactly the moves that clamping leaves untouched
    ensures h.Valid() ==> (r <==> Clamp(h.index + n, 0, |h.entries| - 1) == h.index + n)
  {
    var nextIndex := h.index + n;
    nextIndex >= 0 && nextIndex < |h.entries|
  }
}
