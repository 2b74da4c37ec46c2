/** The bounded tracker that decides which responses may keep their tool-schema names. */
module Tracker {
  import opened Json
  import opened Redact

  const MAX_PENDING_LIST_REQUESTS := 4096
  const MAX_TRACKED_ID_BYTES := 1024

  /** A pending request: the side that owes the answer (true for the server) and the JSON text of the id. */
  datatype Key = Key(responder: bool, id: string)

  datatype State = State(pending: set<Key>, previousSeq: Option<nat>, lostContext: bool)

  const INITIAL := State({}, None, false)

  /** What one message is to the tracker. */
  datatype Event =
    | UnknownDirection
    | Untracked(listRequest: bool)
    | Request(key: Key, list: bool)
    | Response(key: Key, wellFormed: bool)

  predicate IsListRequest(payload: Json) {
    && GetStr(payload, "jsonrpc") == Some("2.0")
    && GetStr(payload, "method") == Some("tools/list")
    && payload.Get("result").None?
    && payload.Get("error").None?
  }

  predicate IsWellFormedResult(payload: Json) {
    && GetStr(payload, "jsonrpc") == Some("2.0")
    && payload.Get("result").Some?
    && payload.Get("error").None?
  }

  /** One message as the tracker sees it. */
  datatype Observation = Observation(num: nat, event: Event)

  function Observed(num: nat, direction: string, payload: Json): Observation {
    Observation(num, Classify(direction, payload))
  }

  function Classify(direction: string, payload: Json): Event {
    if direction != "c2s" && direction != "s2c" then UnknownDirection else
    var responder := direction == "s2c";
    match payload.Get("id")
    case None => Untracked(false)
    case Some(id) => if id.Str? || id.Num? then IdentifiedEvent(responder, id, payload) else Untracked(false)
  }

  function IdentifiedEvent(responder: bool, id: Json, payload: Json): Event {
    if (id.Str? && Utf8Len(id.s) > MAX_TRACKED_ID_BYTES) || Utf8Len(Text(id)) > MAX_TRACKED_ID_BYTES then
      Untracked(IsListRequest(payload))
    else if payload.Get("method").Some? then Request(Key(!responder, Text(id)), IsListRequest(payload))
    else Response(Key(responder, Text(id)), IsWellFormedResult(payload))
  }

  predicate InSequence(s: State, num: nat) { s.previousSeq.None? || s.previousSeq.value + 1 == num }

  /** One call of `observe`: a gap in the sequence numbers forgets everything pending. */
  function Step(full: set<Key> -> bool, s: State, o: Observation): (State, Context) {
    Apply(full, State(if InSequence(s, o.num) then s.pending else {}, Some(o.num), s.lostContext), o.event)
  }

  function Apply(full: set<Key> -> bool, s: State, event: Event): (State, Context) {
    match event
    case UnknownDirection => (s.(pending := {}), Runtime)
    case Untracked(listRequest) => (s.(lostContext := s.lostContext || listRequest), Runtime)
    case Request(key, list) =>
      var others := s.pending - {key};
      if !list then (s.(pending := others), Runtime)
      else if !full(others) then (s.(pending := others + {key}), Runtime)
      else (s.(pending := others, lostContext := true), Runtime)
    case Response(key, wellFormed) =>
      (s.(pending := s.pending - {key}), if key in s.pending && wellFormed then ToolListResponse else Runtime)
  }

  /** When the tracker keeps no further request. The trace theorems hold for any such test. */
  function AtCapacity(): set<Key> -> bool {
    pending => |pending| >= MAX_PENDING_LIST_REQUESTS
  }

  class RedactionContextTracker {
    var pending: set<Key>
    var previousSeq: Option<nat>
    var lostContext: bool

    function Current(): State
      reads this
    {
      State(pending, previousSeq, lostContext)
    }

    constructor ()
      ensures Current() == INITIAL
    {
      pending, previousSeq, lostContext := {}, None, false;
    }

    method Observe(num: nat, direction: string, payload: Json) returns (context: Context)
      modifies this
      ensures Current() == Step(AtCapacity(), old(Current()), Observed(num, direction, payload)).0
      ensures context == Step(AtCapacity(), old(Current()), Observed(num, direction, payload)).1
    {
      if previousSeq.Some? && previousSeq.value + 1 != num {
        pending := {};
      }
      previousSeq := Some(num);
      if direction != "c2s" && direction != "s2c" {
        pending := {};
        return Runtime;
      }
      var id := payload.Get("id");
      if id.None? || (!id.value.Str? && !id.value.Num?) {
        return Runtime;
      }
      context := ObserveIdentified(direction == "s2c", id.value, payload);
    }

    method ObserveIdentified(responder: bool, id: Json, payload: Json) returns (context: Context)
      modifies this
      ensures Current() == Apply(AtCapacity(), old(Current()), IdentifiedEvent(responder, id, payload)).0
      ensures context == Apply(AtCapacity(), old(Current()), IdentifiedEvent(responder, id, payload)).1
    {
      context := Runtime;
      var listRequest := IsListRequest(payload);
      if id.Str? && Utf8Len(id.s) > MAX_TRACKED_ID_BYTES {
        lostContext := lostContext || listRequest;
        return;
      }
      var encoded := Text(id);
      if Utf8Len(encoded) > MAX_TRACKED_ID_BYTES {
        lostContext := lostContext || listRequest;
        return;
      }
      context := TrackKeyed(responder, encoded, payload, listRequest);
    }

    method TrackKeyed(responder: bool, encoded: string, payload: Json, listRequest: bool) returns (context: Context)
      modifies this
      ensures var event := if payload.Get("method").Some? then Request(Key(!responder, encoded), listRequest)
                           else Response(Key(responder, encoded), IsWellFormedResult(payload));
        (Current(), context) == Apply(AtCapacity(), old(Current()), event)
    {
      context := Runtime;
      if payload.Get("method").Some? {
        TrackRequest(Key(!responder, encoded), listRequest);
      } else {
        context := TrackResponse(Key(responder, encoded), IsWellFormedResult(payload));
      }
    }

    /** A request takes the key over from any earlier request. */
    method TrackRequest(key: Key, listRequest: bool)
      modifies this
      ensures Current() == Apply(AtCapacity(), old(Current()), Request(key, listRequest)).0
    {
      pending := pending - {key};
      if listRequest {
        if |pending| < MAX_PENDING_LIST_REQUESTS {
          pending := pending + {key};
        } else {
          lostContext := true;
        }
      }
    }

    /** A response uses the key up, whether or not it is granted anything. */
    method TrackResponse(key: Key, wellFormed: bool) returns (context: Context)
      modifies this
      ensures Current() == Apply(AtCapacity(), old(Current()), Response(key, wellFormed)).0
      ensures context == Apply(AtCapacity(), old(Current()), Response(key, wellFormed)).1
    {
      context := if key in pending && wellFormed then ToolListResponse else Runtime;
      pending := pending - {key};
    }
  }

  // ---------------------------------------------------------------- whole traces

  function StateAfter(full: set<Key> -> bool, trace: seq<Observation>, n: nat): State
    requires n <= |trace|
  {
    if n == 0 then INITIAL else Step(full, StateAfter(full, trace, n - 1), trace[n - 1]).0
  }

  function ContextAt(full: set<Key> -> bool, trace: seq<Observation>, i: nat): Context
    requires i < |trace|
  {
    Step(full, StateAfter(full, trace, i), trace[i]).1
  }

  predicate Touches(e: Event, key: Key) { (e.Request? || e.Response?) && e.key == key }

  /** Message `j` is a list request for `key` that nothing before message `n` has put an end to: no gap
      in the sequence numbers, no unknown direction, no request or response for the same key. */
  predicate OpenSince(trace: seq<Observation>, j: nat, n: nat, key: Key)
    requires n <= |trace|
  {
    && j < n && trace[j].event == Request(key, true)
    && (forall k :: j < k < n ==> trace[k].num == trace[k - 1].num + 1)
    && (forall k :: j < k < n ==> !trace[k].event.UnknownDirection? && !Touches(trace[k].event, key))
  }

  /** Response `i` answers list request `j`. */
  predicate Answers(trace: seq<Observation>, i: nat, j: nat)
    requires i < |trace|
  {
    && trace[i].event.Response? && trace[i].event.wellFormed
    && OpenSince(trace, j, i, trace[i].event.key)
    && trace[i].num == trace[i - 1].num + 1
  }

  lemma {:induction false} PreviousSeq(full: set<Key> -> bool, trace: seq<Observation>, n: nat)
    requires n <= |trace|
    ensures StateAfter(full, trace, n).previousSeq == if n == 0 then None else Some(trace[n - 1].num)
  {
  }

  predicate Survives(s: State, o: Observation, key: Key) {
    key in s.pending && InSequence(s, o.num) && !o.event.UnknownDirection? && !Touches(o.event, key)
  }

  lemma {:induction false} StepPending(full: set<Key> -> bool, s: State, o: Observation, key: Key)
    ensures key in Step(full, s, o).0.pending ==> Survives(s, o, key) || o.event == Request(key, true)
    ensures s.lostContext ==> Step(full, s, o).0.lostContext
    ensures Survives(s, o, key) ==> key in Step(full, s, o).0.pending
    ensures o.event == Request(key, true) ==> key in Step(full, s, o).0.pending || Step(full, s, o).0.lostContext
  {
    match o.event
    case UnknownDirection =>
    case Untracked(_) =>
    case Request(_, _) =>
    case Response(_, _) =>
  }

  lemma {:induction false} OpenStep(trace: seq<Observation>, j: nat, n: nat, key: Key)
    requires 0 < n <= |trace|
    ensures OpenSince(trace, j, n, key) <==>
      if j == n - 1 then trace[j].event == Request(key, true)
      else j < n - 1 && OpenSince(trace, j, n - 1, key) && trace[n - 1].num == trace[n - 2].num + 1
           && !trace[n - 1].event.UnknownDirection? && !Touches(trace[n - 1].event, key)
  {
  }

  ghost predicate Open(trace: seq<Observation>, n: nat, key: Key)
    requires n <= |trace|
  {
    exists j :: OpenSince(trace, j, n, key)
  }

  lemma {:induction false} OpenNext(trace: seq<Observation>, n: nat, key: Key)
    requires 0 < n <= |trace|
    ensures Open(trace, n, key) <==>
      || trace[n - 1].event == Request(key, true)
      || (n > 1 && Open(trace, n - 1, key) && trace[n - 1].num == trace[n - 2].num + 1
          && !trace[n - 1].event.UnknownDirection? && !Touches(trace[n - 1].event, key))
  {
    if Open(trace, n, key) {
      var j :| OpenSince(trace, j, n, key);
      OpenStep(trace, j, n, key);
    }
    if trace[n - 1].event == Request(key, true) {
      OpenStep(trace, n - 1, n, key);
    } else if n > 1 && Open(trace, n - 1, key) {
      var j :| OpenSince(trace, j, n - 1, key);
      OpenStep(trace, j, n, key);
    }
  }

  lemma {:induction false} PendingBefore(full: set<Key> -> bool, trace: seq<Observation>, n: nat, key: Key)
    requires 0 < n <= |trace| && key in StateAfter(full, trace, n).pending && trace[n - 1].event != Request(key, true)
    ensures n > 1 && key in StateAfter(full, trace, n - 1).pending && trace[n - 1].num == trace[n - 2].num + 1
    ensures !trace[n - 1].event.UnknownDirection? && !Touches(trace[n - 1].event, key)
  {
    PreviousSeq(full, trace, n - 1);
    StepPending(full, StateAfter(full, trace, n - 1), trace[n - 1], key);
  }

  /** Everything pending is open. */
  lemma {:induction false} PendingIsOpen(full: set<Key> -> bool, trace: seq<Observation>, n: nat, key: Key)
    requires n <= |trace| && key in StateAfter(full, trace, n).pending
    ensures Open(trace, n, key)
  {
    if n > 0 {
      if trace[n - 1].event != Request(key, true) {
        PendingBefore(full, trace, n, key);
        PendingIsOpen(full, trace, n - 1, key);
      }
      OpenNext(trace, n, key);
    }
  }

  /** While no context was lost, everything open is pending. */
  lemma {:induction false} OpenIsPending(full: set<Key> -> bool, trace: seq<Observation>, n: nat, key: Key)
    requires n <= |trace| && !StateAfter(full, trace, n).lostContext && Open(trace, n, key)
    ensures key in StateAfter(full, trace, n).pending
  {
    if n > 0 {
      var before := StateAfter(full, trace, n - 1);
      PreviousSeq(full, trace, n - 1);
      StepPending(full, before, trace[n - 1], key);
      OpenNext(trace, n, key);
      if trace[n - 1].event != Request(key, true) {
        OpenIsPending(full, trace, n - 1, key);
        assert Survives(before, trace[n - 1], key);
      }
    }
  }

  /** A response is granted schema context only if it answers an open list request; while no context
      was lost, every such response is granted it. */
  lemma {:induction false} GrantedIffAnswers(full: set<Key> -> bool, trace: seq<Observation>, i: nat)
    requires i < |trace|
    ensures ContextAt(full, trace, i) == ToolListResponse ==> exists j :: Answers(trace, i, j)
    ensures !StateAfter(full, trace, i).lostContext ==>
      (ContextAt(full, trace, i) == ToolListResponse <==> exists j :: Answers(trace, i, j))
  {
    PreviousSeq(full, trace, i);
    if trace[i].event.Response? {
      var key := trace[i].event.key;
      if key in StateAfter(full, trace, i).pending { PendingIsOpen(full, trace, i, key); }
      if !StateAfter(full, trace, i).lostContext && Open(trace, i, key) { OpenIsPending(full, trace, i, key); }
      if ContextAt(full, trace, i) == ToolListResponse {
        var j :| OpenSince(trace, j, i, key);
        assert Answers(trace, i, j);
      }
    }
  }

  lemma {:induction false} CountWithout(pending: set<Key>, key: Key)
    ensures |pending - {key}| <= |pending| && |pending - {key} + {key}| == |pending - {key}| + 1
  {
    if key in pending { assert pending == pending - {key} + {key}; } else { assert pending - {key} == pending; }
  }

  lemma {:induction false} StepBounded(s: State, o: Observation)
    requires |s.pending| <= MAX_PENDING_LIST_REQUESTS
    ensures |Step(AtCapacity(), s, o).0.pending| <= MAX_PENDING_LIST_REQUESTS
  {
    if o.event.Request? || o.event.Response? {
      CountWithout(if InSequence(s, o.num) then s.pending else {}, o.event.key);
    }
  }

  /** Pending requests never exceed their bound, on any trace. */
  lemma {:induction false} PendingBounded(trace: seq<Observation>, n: nat)
    requires n <= |trace|
    ensures |StateAfter(AtCapacity(), trace, n).pending| <= MAX_PENDING_LIST_REQUESTS
  {
    if n > 0 {
      PendingBounded(trace, n - 1);
      StepBounded(StateAfter(AtCapacity(), trace, n - 1), trace[n - 1]);
    }
  }

  lemma {:induction false} StepLost(full: set<Key> -> bool, s: State, o: Observation)
    ensures Step(full, s, o).0.lostContext <==> s.lostContext || Unkept(full, s, o)
  {
  }

  /** Context is lost exactly when some list request could not be kept: its id is too long, or the bound is reached. */
  lemma {:induction false} LostIff(full: set<Key> -> bool, trace: seq<Observation>, n: nat)
    requires n <= |trace|
    ensures StateAfter(full, trace, n).lostContext <==> exists k :: 0 <= k < n && LosesAt(full, trace, k)
  {
    if n > 0 {
      LostIff(full, trace, n - 1);
      StepLost(full, StateAfter(full, trace, n - 1), trace[n - 1]);
      assert LosesAt(full, trace, n - 1) <==> Unkept(full, StateAfter(full, trace, n - 1), trace[n - 1]);
    }
  }

  predicate LosesAt(full: set<Key> -> bool, trace: seq<Observation>, k: nat)
    requires k < |trace|
  {
    Unkept(full, StateAfter(full, trace, k), trace[k])
  }

  /** A list request the tracker has no room for in this state. */
  predicate Unkept(full: set<Key> -> bool, s: State, o: Observation) {
    match o.event
    case Untracked(listRequest) => listRequest
    case Request(key, list) =>
      list && full((if InSequence(s, o.num) then s.pending else {}) - {key})
    case _ => false
  }

  /** A list request, kept or not. */
  predicate Asks(e: Event) { (e.Untracked? && e.listRequest) || (e.Request? && e.list) }

  /** A response that would be granted schema context if a list request awaited it. */
  predicate Claims(e: Event) { e.Response? && e.wellFormed }

  /** Without a list request nothing is pending, nothing lost and nothing granted. */
  lemma {:induction false} NobodyAsks(full: set<Key> -> bool, trace: seq<Observation>, n: nat)
    requires n <= |trace| && forall k :: 0 <= k < n ==> !Asks(trace[k].event)
    ensures !StateAfter(full, trace, n).lostContext && StateAfter(full, trace, n).pending == {}
    ensures n < |trace| ==> ContextAt(full, trace, n) == Runtime
  {
    if n > 0 {
      NobodyAsks(full, trace, n - 1);
      assert !Asks(trace[n - 1].event);
    }
  }

  /** Neither is anything granted where nothing claims it. */
  lemma {:induction false} NoClaim(full: set<Key> -> bool, trace: seq<Observation>, i: nat)
    requires i < |trace| && !Claims(trace[i].event)
    ensures ContextAt(full, trace, i) == Runtime
  {
  }

  lemma {:induction false} SubsetCount(a: set<Key>, b: set<Key>)
    requires a <= b
    ensures |a| <= |b|
  {
    assert b == a + (b - a);
  }

  lemma {:induction false} FewPending(keys: set<Key>, s: State, o: Observation)
    requires |keys| < MAX_PENDING_LIST_REQUESTS && !s.lostContext && s.pending <= keys
    requires Asks(o.event) ==> o.event.Request? && o.event.key in keys
    ensures var t := Step(AtCapacity(), s, o).0; !t.lostContext && t.pending <= keys
  {
    if Asks(o.event) { SubsetCount((if InSequence(s, o.num) then s.pending else {}) - {o.event.key}, keys); }
  }

  /** List requests under a few keys only are all kept. */
  lemma {:induction false} FewAsk(keys: set<Key>, trace: seq<Observation>, n: nat)
    requires n <= |trace| && |keys| < MAX_PENDING_LIST_REQUESTS
    requires forall k :: 0 <= k < n && Asks(trace[k].event) ==> trace[k].event.Request? && trace[k].event.key in keys
    ensures !StateAfter(AtCapacity(), trace, n).lostContext && StateAfter(AtCapacity(), trace, n).pending <= keys
  {
    if n > 0 {
      FewAsk(keys, trace, n - 1);
      FewPending(keys, StateAfter(AtCapacity(), trace, n - 1), trace[n - 1]);
    }
  }

  lemma {:induction false} StatePrefix(full: set<Key> -> bool, trace: seq<Observation>, o: Observation, n: nat)
    requires n <= |trace|
    ensures StateAfter(full, trace + [o], n) == StateAfter(full, trace, n)
  {
    if n > 0 { StatePrefix(full, trace, o, n - 1); }
  }

  lemma {:induction false} StateOfPrefix(full: set<Key> -> bool, trace: seq<Observation>, k: nat, n: nat)
    requires n <= k <= |trace|
    ensures StateAfter(full, trace[..k], n) == StateAfter(full, trace, n)
  {
    if n > 0 { StateOfPrefix(full, trace, k, n - 1); }
  }

  lemma {:induction false} LostStays(full: set<Key> -> bool, trace: seq<Observation>, i: nat, n: nat)
    requires i <= n <= |trace| && !StateAfter(full, trace, n).lostContext
    ensures !StateAfter(full, trace, i).lostContext
  {
    if i < n {
      StepLost(full, StateAfter(full, trace, n - 1), trace[n - 1]);
      LostStays(full, trace, i, n - 1);
    }
  }
}
