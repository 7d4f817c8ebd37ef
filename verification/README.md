# Memory history, modelled in Dafny

This project models the in-memory history stack of `createMemoryHistory`:
a navigable list of locations kept entirely in memory, with a current index
and the action (`POP`, `PUSH` or `REPLACE`) that produced the current
location. The history object is modelled as an immutable `History` record
whose `Valid()` predicate states the invariants the source maintains:

- `0 <= index < |entries|`,
- `location == entries[index]`,
- `length == |entries|`.

Every navigation operation is a pure function from a valid history to a
`Step`: the next history (always valid again) and the listener notification
that `setState` makes, if any. The transition manager's approval decision is
the boolean argument `approved`; the key the source would draw at random is
an argument too.

Files:

- `wrappers.dfy`: `Option`, standing for JavaScript's `undefined`.
- `locations.dfy`: the `Location` value, a stand-in for `createLocation`,
  and how an `initialEntries` element becomes a location (key kept or generated).
- `memory_history.dfy`: `Clamp`, `SetState`, construction, `Push`, `Replace`,
  `Go`, `GoBack`, `GoForward`, `CanGo`.
- `sessions.dfy`: requests carrying their approval, runs of requests, and
  the lemmas relating the operations (rejection invariant, `canGo`/`go`,
  push-then-back, replace idempotence, move composition) plus a few
  concrete scenarios.

Behaviours of the code worth noting:

- `createMemoryHistory` does not reject an empty `initialEntries` list: it
  computes the index `clamp(initialIndex, 0, -1) == -1` and leaves the
  location undefined. The model's `Create` returns `None` for that input
  (see "Left out"), and `Sessions.CreateNoneIffIndexBelowStack` shows that
  this is exactly the case in which the clamped index falls below the stack.
- A rejected `go` notifies the listeners once more, with the unchanged
  location and action (a `setState()` call); the model records that notice.
- `entry.key || createKey()` treats an empty-string key as missing, so such
  an entry gets a generated key.

## Model

| member | source | states |
|---|---|---|
| MemoryHistory.Clamp | modules/createMemoryHistory.js:12-13 | the result lies in `[lo, hi]` when that range is non-empty, equals `n` when `n` is in range, the nearer bound otherwise, and `hi` when the range is empty |
| MemoryHistory.SetState | modules/createMemoryHistory.js:44-53 | because `length` is recomputed, the result is valid exactly when its index is in range and its location is the entry at that index; a call with no fields leaves a valid history unchanged and only re-notifies; listeners always see the resulting location and action; fields the update omits keep their value |
| MemoryHistory.Create | modules/createMemoryHistory.js:58-67 | a history exists exactly when there is at least one initial entry; it is valid, its action is POP, its index is the clamped initial index (the initial index itself when in range), and each entry keeps its path and state (none for a path string) and its own truthy key or gets the generated one |
| MemoryHistory.InitialLocations | modules/createMemoryHistory.js:63-67 | the mapped list has one location per initial entry, with that entry's path, the object's state or none for a string, and the object's truthy key or else the generated one |
| Sessions.CreateWithDefaults | modules/createMemoryHistory.js:35-36 | with the default options (`['/']`, index 0) the history is valid and holds exactly the root entry with a generated key, current at index 0, length 1, action POP |
| Sessions.CreateNoneIffIndexBelowStack | modules/createMemoryHistory.js:58 | construction yields no history exactly when the clamped initial index falls below 0, that is when the entry list is empty |
| Locations.EntryLocation | modules/createMemoryHistory.js:63-67 | a string entry gets a generated key and no state; an object entry keeps its path and state and keeps its key verbatim unless the key is absent or empty |
| Locations.CreateLocation | modules/createMemoryHistory.js:74-82 | the built location carries the given path and key; a location-like object's own state wins over the separate state argument, which is used only when the object has none |
| MemoryHistory.Push | modules/createMemoryHistory.js:84-104 | an approved push leaves `entries[..index+1] + [loc]`, index+1, action PUSH, current location `loc`, length index+2 and one notice; a rejected push changes nothing and notifies nobody; the result is valid |
| MemoryHistory.Replace | modules/createMemoryHistory.js:117-124 | an approved replace changes only the current slot, which becomes `loc`, keeps index and length, sets action REPLACE and notifies; a rejected replace changes nothing and notifies nobody; the result is valid |
| MemoryHistory.Go | modules/createMemoryHistory.js:127-146 | entries never change; an approved move lands on the clamped index (exactly `index+n` when in range, the first or last entry otherwise) with action POP; a rejected move leaves the history as it was but notifies with the unchanged location and action |
| MemoryHistory.GoBack | modules/createMemoryHistory.js:148-149 | an approved back move goes to the previous entry, or stays on the first one, always with action POP and a notice of the new state; a rejected one changes nothing but re-notifies the unchanged location and action |
| MemoryHistory.GoForward | modules/createMemoryHistory.js:151-152 | an approved forward move goes to the next entry, or stays on the last one, always with action POP and a notice of the new state; a rejected one changes nothing but re-notifies the unchanged location and action |
| MemoryHistory.CanGo | modules/createMemoryHistory.js:154-157 | `canGo(n)` holds exactly when `0 <= index + n` and `index + n` is below the entry count; on a valid history, exactly the moves that clamping leaves unchanged |
| Sessions.CanGoIffExactLanding | modules/createMemoryHistory.js:154-157 | `canGo(n)` holds if and only if an approved `go(n)` lands exactly on `index+n`, and then on that entry |
| Sessions.Apply | modules/createMemoryHistory.js:74-152 | every navigation call, approved or not, keeps the history valid |
| Sessions.Run | modules/createMemoryHistory.js:165-180 | any sequence of navigation calls on a valid history leaves a valid history |
| Sessions.RejectedRequestChangesNothing | modules/createMemoryHistory.js:84-86 | a rejected push, replace or move leaves the history unchanged, and only a rejected move notifies |
| Sessions.RejectedRunIsIdentity | modules/createMemoryHistory.js:117-146 | when every transition is rejected, no sequence of calls changes entries, index, action or location |
| Sessions.RejectedTraceRepeatsCurrent | modules/createMemoryHistory.js:140-144 | when every transition is rejected, each notification shows the unchanged location and action, at most one per call |
| Sessions.ApprovedRequestNotifiesNewState | modules/createMemoryHistory.js:98-103 | every approved call notifies the listeners with the location and action it produced |
| Sessions.GoComposes | modules/createMemoryHistory.js:128 | two in-range moves by `a` then `b` give the same history as one move by `a+b`, which is in range |
| Sessions.GoThereAndBack | modules/createMemoryHistory.js:128-139 | an in-range move followed by the opposite move returns to the starting index and location |
| Sessions.PushAtTailAppends | modules/createMemoryHistory.js:94-96 | pushing at the last entry appends the new location and grows the length by exactly one |
| Sessions.PushBeforeTailDiscardsForward | modules/createMemoryHistory.js:92-93 | pushing before the last entry removes the `length - index - 1` forward entries and adds one, so the stack does not grow; the entries up to the current one are kept, and the entry that followed the current one is gone from the new tail |
| Sessions.PushThenGoBack | modules/createMemoryHistory.js:88-103 | going back after an approved push returns to the index and location current before the push |
| Sessions.ReplaceIdempotent | modules/createMemoryHistory.js:121-123 | replacing twice with the same location gives the same history as replacing once |
| Sessions.ScenarioGoBack | modules/createMemoryHistory.js:148-149 | entries `/a`, `/b` at index 1: current is `/b`, length 2; an approved back move lands on `/a` at index 0 with action POP |
| Sessions.ScenarioPushDiscards | modules/createMemoryHistory.js:88-103 | entries `/a`, `/b`, `/c` at index 1: pushing `/d` gives `/a`, `/b`, `/d` at index 2 |
| Sessions.ScenarioGoClamps | modules/createMemoryHistory.js:128 | `go(100)` on three entries at index 0 lands on index 2 |
| Sessions.ScenarioInitialKeys | modules/createMemoryHistory.js:66 | an initial object's key is kept, an empty key and a plain path get generated keys |

## Left out

- Key generation (`createKey`, `Math.random().toString(36)` cut to `keyLength`): randomness and float formatting; keys are arguments (`freshKey(i)` for the i-th initial entry, a `key` for push and replace).
- `getConfirmation` and `hasConfirm`: they depend on the host's `window.confirm`; the approval decision is the `approved` argument, and each operation is one atomic step taking it (the asynchronous timing of approval is not modelled).
- The transition manager (`confirmTransitionTo`, prompts, listener list): not part of this model; its effect is the `approved` argument and the `notice` a step records. `block` and `listen` only delegate to it and are left out.
- `createHref`, the basename option and `getStrippedPath`: they rely on `PathUtils`, which is not part of this model; paths pass through unchanged, as with no basename.
- Locations.CreateLocation: `LocationUtils` is not part of this model; the stand-in does not parse a path into pathname, search and hash, does not resolve a relative path against the current location, and always sets the key.
- MemoryHistory.Go: `n` is an integer. In JavaScript `go(0.5)` stores the index `index + 0.5`, whose entry is undefined, and `go()` stores NaN; both break the invariants. `canGo(0.5)` is true there. Non-integer arguments are not modelled.
- MemoryHistory.Replace: the code overwrites the current slot of the live `entries` array, while `push` builds a new array (`slice(0)`). A caller holding on to `history.entries` therefore sees a later replace but not a later push. The model's entry lists are values, so this aliasing is not modelled.
- The `warning` and `invariant` calls: they log or throw and do not change the history.
- MemoryHistory.Create: an empty `initialEntries` list yields `None`. The code instead returns a history with index -1, length 0 and an undefined location, which breaks the invariants. A later approved push would turn it into a valid one-entry history at index 0. Neither that state nor the push out of it is modelled, because it has no current location.
- MemoryHistory.Create: the option defaults (`initialEntries = ['/']`, `initialIndex = 0`) are not applied by `Create` itself. They are the constants `DefaultEntries` and `DefaultIndex`, and `Sessions.CreateWithDefaults` states what they produce.
- MemoryHistory.Create: `initialIndex` is an integer; JavaScript would also accept fractions or NaN, which `clamp` would pass through.
- MemoryHistory.Create: the key stream is indexed by entry position, whereas the source draws a key only for entries without one.
