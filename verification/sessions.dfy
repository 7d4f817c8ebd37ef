/**
 Properties of the history stack over single operations and over whole
 sequences of navigation requests, each request carrying the approval
 decision the transition manager reached for it.
 */
module Sessions {
  import opened Wrappers
  import opened Locations
  import opened MemoryHistory

  /** A navigation call on the history object. */
  datatype Command =
    | PushCmd(input: PathInput, state: Option<State>, key: Key)
    | ReplaceCmd(input: PathInput, state: Option<State>, key: Key)
    | GoCmd(n: int)
    | GoBackCmd
    | GoForwardCmd

  /** A navigation call together with the approval decision it received. */
  datatype Request = Request(cmd: Command, approved: bool)

  /** Performs one request. */
  function Apply(h: History, q: Request): (r: Step)
    requires h.Valid()
    ensures r.next.Valid()
  {
    match q.cmd
    case PushCmd(input, state, key) => Push(h, input, state, key, q.approved)
    case ReplaceCmd(input, state, key) => Replace(h, input, state, key, q.approved)
    case GoCmd(n) => Go(h, n, q.approved)
    case GoBackCmd => GoBack(h, q.approved)
    case GoForwardCmd => GoForward(h, q.approved)
  }

  /** The history after performing the requests in order; every intermediate history stays valid. */
  function Run(h: History, qs: seq<Request>): (r: History)
    requires h.Valid()
    ensures r.Valid()
    decreases |qs|
  {
    if |qs| == 0 then h else Run(Apply(h, qs[0]).next, qs[1..])
  }

  /** The listener notifications made while performing the requests in order. */
  function Trace(h: History, qs: seq<Request>): seq<Notice>
    requires h.Valid()
    decreases |qs|
  {
    if |qs| == 0 then []
    else
      var s := Apply(h, qs[0]);
      (if s.notice.Some? then [s.notice.value] else []) + Trace(s.next, qs[1..])
  }

  predicate AllRejected(qs: seq<Request>) {
    forall i :: 0 <= i < |qs| ==> !qs[i].approved
  }

  /** A rejected request of any kind leaves the whole history as it was. */
  lemma RejectedRequestChangesNothing(h: History, q: Request)
    requires h.Valid()
    requires !q.approved
    ensures Apply(h, q).next == h
    ensures Apply(h, q).notice.Some? <==> (q.cmd.GoCmd? || q.cmd.GoBackCmd? || q.cmd.GoForwardCmd?)
  {
  }

  /** When every request is rejected, no sequence of calls changes the history. */
  lemma {:induction false} RejectedRunIsIdentity(h: History, qs: seq<Request>)
    requires h.Valid()
    requires AllRejected(qs)
    ensures Run(h, qs) == h
    decreases |qs|
  {
    if |qs| > 0 {
      RejectedRequestChangesNothing(h, qs[0]);
      assert AllRejected(qs[1..]) by {
        forall i | 0 <= i < |qs[1..]| ensures !qs[1..][i].approved {
          assert qs[1..][i] == qs[i + 1];
        }
      }
      RejectedRunIsIdentity(h, qs[1..]);
    }
  }

  /**
   When every request is rejected, the only notifications are the re-renders
   after vetoed moves, and each shows the unchanged location and action.
   */
  lemma {:induction false} RejectedTraceRepeatsCurrent(h: History, qs: seq<Request>)
    requires h.Valid()
    requires AllRejected(qs)
    ensures forall k :: 0 <= k < |Trace(h, qs)| ==> Trace(h, qs)[k] == Notice(h.location, h.action)
    ensures |Trace(h, qs)| <= |qs|
    decreases |qs|
  {
    if |qs| > 0 {
      RejectedRequestChangesNothing(h, qs[0]);
      assert AllRejected(qs[1..]) by {
        forall i | 0 <= i < |qs[1..]| ensures !qs[1..][i].approved {
          assert qs[1..][i] == qs[i + 1];
        }
      }
      RejectedTraceRepeatsCurrent(h, qs[1..]);
    }
  }

  /** Every approved request notifies the listeners with the state it produced. */
  lemma ApprovedRequestNotifiesNewState(h: History, q: Request)
    requires h.Valid()
    requires q.approved
    ensures Apply(h, q).notice == Some(Notice(Apply(h, q).next.location, Apply(h, q).next.action))
  {
  }

  /** An approved move lands exactly on `index + n` if and only if `canGo(n)` holds. */
  lemma CanGoIffExactLanding(h: History, n: int)
    requires h.Valid()
    ensures CanGo(h, n) <==> Go(h, n, true).next.index == h.index + n
    ensures CanGo(h, n) ==> Go(h, n, true).next.location == h.entries[h.index + n]
  {
  }

  /** Two in-range moves compose into one move by their sum. */
  lemma GoComposes(h: History, a: int, b: int)
    requires h.Valid()
    requires CanGo(h, a)
    requires CanGo(Go(h, a, true).next, b)
    ensures CanGo(h, a + b)
    ensures Go(Go(h, a, true).next, b, true).next == Go(h, a + b, true).next
  {
  }

  /** An in-range move followed by the opposite move returns to the starting entry. */
  lemma GoThereAndBack(h: History, n: int)
    requires h.Valid()
    requires CanGo(h, n)
    ensures Go(Go(h, n, true).next, -n, true).next.index == h.index
    ensures Go(Go(h, n, true).next, -n, true).next.location == h.location
    ensures Go(Go(h, n, true).next, -n, true).next.entries == h.entries
  {
  }

  /** Pushing at the tail grows the stack by exactly one entry and keeps every old one. */
  lemma PushAtTailAppends(h: History, input: PathInput, state: Option<State>, key: Key)
    requires h.Valid()
    requires h.index == |h.entries| - 1
    ensures Push(h, input, state, key, true).next.entries == h.entries + [CreateLocation(input, state, key)]
    ensures Push(h, input, state, key, true).next.length == h.length + 1
  {
    assert h.entries[..h.index + 1] == h.entries;
  }

  /**
   Pushing before the tail discards the `h.length - h.index - 1` forward
   entries and adds one: the stack does not grow.
   */
  lemma PushBeforeTailDiscardsForward(h: History, input: PathInput, state: Option<State>, key: Key)
    requires h.Valid()
    requires h.index < |h.entries| - 1
    ensures Push(h, input, state, key, true).next.length == h.length - (h.length - h.index - 1) + 1
    ensures Push(h, input, state, key, true).next.length <= h.length
    ensures Push(h, input, state, key, true).next.entries[..h.index + 1] == h.entries[..h.index + 1]
    ensures h.entries[h.index + 1] != CreateLocation(input, state, key) ==>
              h.entries[h.index + 1] !in Push(h, input, state, key, true).next.entries[h.index + 1..]
  {
    var r := Push(h, input, state, key, true).next;
    assert r.entries[h.index + 1..] == [CreateLocation(input, state, key)];
  }

  /** Going back after an approved push returns to the entry that was current before it. */
  lemma PushThenGoBack(h: History, input: PathInput, state: Option<State>, key: Key)
    requires h.Valid()
    ensures GoBack(Push(h, input, state, key, true).next, true).next.index == h.index
    ensures GoBack(Push(h, input, state, key, true).next, true).next.location == h.location
  {
    var p := Push(h, input, state, key, true).next;
    assert p.entries[h.index] == h.entries[h.index];
  }

  /** Replacing twice with the same location has the effect of replacing once. */
  lemma ReplaceIdempotent(h: History, input: PathInput, state: Option<State>, key: Key)
    requires h.Valid()
    ensures var once := Replace(h, input, state, key, true).next;
            Replace(once, input, state, key, true).next == once
  {
    var once := Replace(h, input, state, key, true).next;
    var twice := Replace(once, input, state, key, true).next;
    assert twice.entries == once.entries;
  }

  /** Construction yields no history exactly when the clamped initial index falls below the stack. */
  lemma CreateNoneIffIndexBelowStack(initialEntries: seq<InitialEntry>, initialIndex: int, freshKey: nat -> Key)
    ensures Create(initialEntries, initialIndex, freshKey).None? <==>
              Clamp(initialIndex, 0, |initialEntries| - 1) < 0
  {
  }

  /** With the default options the history holds the single root entry, current, with action POP. */
  lemma CreateWithDefaults(freshKey: nat -> Key)
    ensures var h := Create(DefaultEntries, DefaultIndex, freshKey);
            && h.Some? && h.value.Valid()
            && h.value.entries == [Location("/", None, freshKey(0))]
            && h.value.index == 0 && h.value.length == 1 && h.value.action == POP
  {
  }

  // Scenarios

  function Keys(i: nat): Key { if i == 0 then "k0" else if i == 1 then "k1" else "k2" }

  /** Entries `/a`, `/b` at index 1, then an approved `goBack()`. */
  lemma ScenarioGoBack()
    ensures var h := Create([EntryPath("/a"), EntryPath("/b")], 1, Keys);
            && h.Some?
            && h.value.location.path == "/b" && h.value.index == 1 && h.value.length == 2
            && var g := GoBack(h.value, true).next;
               g.index == 0 && g.action == POP && g.location.path == "/a"
  {
    var h := Create([EntryPath("/a"), EntryPath("/b")], 1, Keys);
    assert h.value.entries[0].path == "/a";
  }

  /** Entries `/a`, `/b`, `/c` at index 1, then an approved push of `/d`. */
  lemma ScenarioPushDiscards()
    ensures var h := Create([EntryPath("/a"), EntryPath("/b"), EntryPath("/c")], 1, Keys);
            && h.Some?
            && var p := Push(h.value, PathString("/d"), None, "kd", true).next;
               && |p.entries| == 3 && p.index == 2 && p.action == PUSH
               && p.entries[0].path == "/a" && p.entries[1].path == "/b" && p.entries[2].path == "/d"
  {
  }

  /** `go(100)` on three entries at index 0 clamps to the last entry. */
  lemma ScenarioGoClamps()
    ensures var h := Create([EntryPath("/a"), EntryPath("/b"), EntryPath("/c")], 0, Keys);
            && h.Some?
            && Go(h.value, 100, true).next.index == 2
  {
  }

  /** An initial entry object with a key keeps it; an empty key is replaced by a generated one. */
  lemma ScenarioInitialKeys()
    ensures var h := Create([EntryObject("/a", None, Some("mine")), EntryObject("/b", None, Some("")), EntryPath("/c")], 0, Keys);
            && h.Some?
            && h.value.entries[0].key == "mine"
            && h.value.entries[1].key == "k1"
            && h.value.entries[2].key == "k2"
  {
  }
}
