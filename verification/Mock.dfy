/** A one-shot inventory of recorded responses, matched to live requests. */
module Mock {
  import opened Json
  import opened Protocol
  import opened Pairing
  import Session

  datatype Strategy = Exact | Method | MethodAndParams | Subset | Sequential

  datatype Recorded = Recorded(method_: string, tool: Option<string>, paramsKey: string, params: Json, response: Json,
                               requestSeq: nat, responseSeq: nat, used: bool)

  datatype Response = Response(response: Json, requestSeq: nat, responseSeq: nat)

  /** Every recorded pair is in the live object, or there is no recorded parameter at all. */
  predicate ParamsSubset(recorded: Json, live: Json) {
    match recorded
    case Null => true
    case Obj(fields) => live.Obj? && forall k :: k in fields ==> k in live.fields && live.fields[k] == fields[k]
    case _ => recorded == live
  }

  function RecordedOf(request: Json, method_: string, response: Json, requestSeq: nat, responseSeq: nat): Recorded {
    Recorded(method_, ToolName(request), Text(Params(request)), Params(request), response, requestSeq, responseSeq,
             false)
  }

  // ---------------------------------------------------------------- which exchange answers

  predicate SameTool(c: Recorded, request: Json, method_: string) {
    !c.used && c.method_ == method_ && c.tool == ToolName(request)
  }

  predicate SameCall(c: Recorded, request: Json, method_: string) {
    SameTool(c, request, method_) && c.paramsKey == Text(Params(request))
  }

  /** Canonical parameter text stands for the parameters themselves. */
  lemma {:induction false} SameCallIff(request: Json, response: Json, i: nat, j: nat, live: Json, method_: string)
    requires GetStr(request, "method") == Some(method_)
    ensures SameCall(RecordedOf(request, method_, response, i, j), live, method_) <==>
      ToolName(request) == ToolName(live) && Params(request) == Params(live)
  {
    TextInjective(Params(request), Params(live));
  }

  predicate Matches(strategy: Strategy, c: Recorded, request: Json, method_: string) {
    match strategy
    case Sequential => !c.used
    case Method => !c.used && c.method_ == method_
    case Exact => SameCall(c, request, method_)
    case MethodAndParams => SameTool(c, request, method_)
    case Subset => SameTool(c, request, method_) && ParamsSubset(c.params, Params(request))
  }

  function Position(exchanges: seq<Recorded>, p: Recorded -> bool, from: nat): (r: Option<nat>)
    requires from <= |exchanges|
    ensures r.Some? ==> from <= r.value < |exchanges| && p(exchanges[r.value])
    ensures r.Some? ==> forall i :: from <= i < r.value ==> !p(exchanges[i])
    ensures r.None? ==> forall i :: from <= i < |exchanges| ==> !p(exchanges[i])
    decreases |exchanges| - from
  {
    if from == |exchanges| then None else if p(exchanges[from]) then Some(from) else Position(exchanges, p, from + 1)
  }

  function IndexFor(strategy: Strategy, exchanges: seq<Recorded>, request: Json, method_: string): Option<nat> {
    var exact := Position(exchanges, (c: Recorded) => SameCall(c, request, method_), 0);
    if strategy == MethodAndParams && exact.Some? then exact
    else Position(exchanges, (c: Recorded) => Matches(strategy, c, request, method_), 0)
  }

  /** The index of the exchange that answers a request, none if the request has no method or nothing unused matches. */
  function Choice(strategy: Strategy, exchanges: seq<Recorded>, request: Json): (r: Option<nat>)
    ensures r.Some? ==> r.value < |exchanges| && !exchanges[r.value].used
  {
    match GetStr(request, "method")
    case None => None
    case Some(method_) => IndexFor(strategy, exchanges, request, method_)
  }

  function Use(exchanges: seq<Recorded>, index: Option<nat>): seq<Recorded>
    requires index.Some? ==> index.value < |exchanges|
  {
    if index.None? then exchanges else exchanges[index.value := exchanges[index.value].(used := true)]
  }

  function ResponseAt(exchanges: seq<Recorded>, index: Option<nat>): Option<Response>
    requires index.Some? ==> index.value < |exchanges|
  {
    if index.None? then None else
    var c := exchanges[index.value];
    Some(Response(c.response, c.requestSeq, c.responseSeq))
  }

  class MockSession {
    const strategy: Strategy
    var exchanges: seq<Recorded>

    constructor (inventory: seq<Recorded>, strategy: Strategy)
      ensures exchanges == inventory && this.strategy == strategy
    {
      exchanges, this.strategy := inventory, strategy;
    }

    method MatchRequest(request: Json) returns (r: Option<Response>)
      modifies this
      ensures var index := Choice(strategy, old(exchanges), request);
        exchanges == Use(old(exchanges), index) && r == ResponseAt(old(exchanges), index)
    {
      var name := GetStr(request, "method");
      if name.None? { return None; }
      var method_ := name.value;
      var index: Option<nat>;
      match strategy {
        case Sequential => index := Position(exchanges, (c: Recorded) => Matches(Sequential, c, request, method_), 0);
        case Method => index := Position(exchanges, (c: Recorded) => Matches(Method, c, request, method_), 0);
        case Exact => index := Position(exchanges, (c: Recorded) => Matches(Exact, c, request, method_), 0);
        case MethodAndParams =>
          index := Position(exchanges, (c: Recorded) => SameCall(c, request, method_), 0);
          if index.None? {
            index := Position(exchanges, (c: Recorded) => Matches(MethodAndParams, c, request, method_), 0);
          }
        case Subset => index := Position(exchanges, (c: Recorded) => Matches(Subset, c, request, method_), 0);
      }
      if index.None? { return None; }
      var c := exchanges[index.value];
      exchanges := exchanges[index.value := c.(used := true)];
      r := Some(Response(c.response, c.requestSeq, c.responseSeq));
    }
  }

  /** A request goes unanswered exactly when it has no method or nothing unused matches it. */
  lemma {:induction false} UnansweredIff(strategy: Strategy, exchanges: seq<Recorded>, request: Json)
    ensures Choice(strategy, exchanges, request).None? <==>
      var name := GetStr(request, "method");
      name.None? || forall i :: 0 <= i < |exchanges| ==> !Matches(strategy, exchanges[i], request, name.value)
  {
  }

  // ---------------------------------------------------------------- runs of requests

  function Served(strategy: Strategy, inventory: seq<Recorded>, requests: seq<Json>, n: nat): (exchanges: seq<Recorded>)
    requires n <= |requests|
    ensures |exchanges| == |inventory|
  {
    if n == 0 then inventory else
    var before := Served(strategy, inventory, requests, n - 1);
    Use(before, Choice(strategy, before, requests[n - 1]))
  }

  /** The exchange that answers request `n` of a run. */
  function ServedAt(strategy: Strategy, inventory: seq<Recorded>, requests: seq<Json>, n: nat): Option<nat>
    requires n < |requests|
  {
    Choice(strategy, Served(strategy, inventory, requests, n), requests[n])
  }

  /** Apart from the marks, a run leaves the inventory as it was, and a mark is never taken back. */
  lemma {:induction false} ServedKeeps(strategy: Strategy, inventory: seq<Recorded>, requests: seq<Json>, n: nat,
                                       i: nat)
    requires n <= |requests| && i < |inventory|
    ensures var c := Served(strategy, inventory, requests, n)[i];
      c == inventory[i].(used := c.used) && (inventory[i].used ==> c.used)
  {
    if n > 0 { ServedKeeps(strategy, inventory, requests, n - 1, i); }
  }

  lemma {:induction false} UsedAfter(strategy: Strategy, inventory: seq<Recorded>, requests: seq<Json>, m: nat, n: nat)
    requires m < n <= |requests| && ServedAt(strategy, inventory, requests, m).Some?
    ensures var index := ServedAt(strategy, inventory, requests, m).value;
      index < |inventory| && Served(strategy, inventory, requests, n)[index].used
  {
    if m < n - 1 { UsedAfter(strategy, inventory, requests, m, n - 1); }
  }

  /** Whatever is asked, no recorded exchange is served twice. */
  lemma {:induction false} NeverTwice(strategy: Strategy, inventory: seq<Recorded>, requests: seq<Json>, m: nat, n: nat)
    requires m < n < |requests|
    requires ServedAt(strategy, inventory, requests, m).Some? && ServedAt(strategy, inventory, requests, n).Some?
    ensures ServedAt(strategy, inventory, requests, m) != ServedAt(strategy, inventory, requests, n)
  {
    UsedAfter(strategy, inventory, requests, m, n);
  }

  // ---------------------------------------------------------------- self-replay

  /** The requests an inventory was recorded from, and their methods. */
  predicate RecordedFrom(inventory: seq<Recorded>, requests: seq<Json>) {
    && |inventory| == |requests|
    && forall i :: 0 <= i < |inventory| ==>
         GetStr(requests[i], "method") == Some(inventory[i].method_)
         && inventory[i] ==
           RecordedOf(requests[i], inventory[i].method_, inventory[i].response, inventory[i].requestSeq,
             inventory[i].responseSeq)
  }

  lemma {:induction false} OwnMatches(strategy: Strategy, c: Recorded, request: Json)
    requires GetStr(request, "method") == Some(c.method_)
      && c == RecordedOf(request, c.method_, c.response, c.requestSeq, c.responseSeq)
    ensures Matches(strategy, c, request, c.method_) && SameCall(c, request, c.method_)
  {
  }

  /** With the first `n` exchanges used and no other, the next own request is answered by the next exchange. */
  lemma {:induction false} NextOwn(strategy: Strategy, exchanges: seq<Recorded>, request: Json, n: nat)
    requires n < |exchanges| && forall i :: 0 <= i < n ==> exchanges[i].used
    requires GetStr(request, "method") == Some(exchanges[n].method_)
    requires Matches(strategy, exchanges[n], request, exchanges[n].method_)
      && SameCall(exchanges[n], request, exchanges[n].method_)
    ensures Choice(strategy, exchanges, request) == Some(n)
  {
    assert forall i :: 0 <= i < n ==>
      !Matches(strategy, exchanges[i], request, exchanges[n].method_)
        && !SameCall(exchanges[i], request, exchanges[n].method_);
  }

  lemma {:induction false} OwnServed(strategy: Strategy, inventory: seq<Recorded>, requests: seq<Json>, n: nat)
    requires RecordedFrom(inventory, requests) && n <= |requests|
    ensures forall i :: 0 <= i < |inventory| ==>
      Served(strategy, inventory, requests, n)[i] == inventory[i].(used := i < n)
  {
    if n > 0 {
      var before := Served(strategy, inventory, requests, n - 1);
      OwnServed(strategy, inventory, requests, n - 1);
      OwnMatches(strategy, inventory[n - 1], requests[n - 1]);
      NextOwn(strategy, before, requests[n - 1], n - 1);
    }
  }

  /** Under every strategy, an inventory fed its own recorded requests in order returns its own responses in order. */
  lemma {:induction false} SelfReplay(strategy: Strategy, inventory: seq<Recorded>, requests: seq<Json>, n: nat)
    requires RecordedFrom(inventory, requests) && n < |requests|
    ensures ServedAt(strategy, inventory, requests, n) == Some(n)
    ensures var c := inventory[n];
      ResponseAt(Served(strategy, inventory, requests, n), Some(n)) ==
        Some(Response(c.response, c.requestSeq, c.responseSeq))
  {
    OwnServed(strategy, inventory, requests, n);
    OwnMatches(strategy, inventory[n], requests[n]);
    NextOwn(strategy, Served(strategy, inventory, requests, n), requests[n], n);
  }

  // ---------------------------------------------------------------- the inventory of a log

  datatype Side = RequestSide | ResponseSide

  datatype MockError = InvalidPayload(num: nat, side: Side) | MissingMethod(num: nat)

  /** The payload of the last message with a number. */
  function PayloadOf(messages: seq<StoredMessage>, num: nat): Option<Json> {
    if |messages| == 0 then None else
    var last := messages[|messages| - 1];
    if last.num == num then last.payload else PayloadOf(messages[..|messages| - 1], num)
  }

  /** Answered requests of the client; the mock plays the server. */
  predicate Mockable(e: Exchange) {
    e.origin.ClientToServer? && (e.status.Answered? || e.status.Failed?) && e.requestSeq.Some? && e.responseSeq.Some?
  }

  function Mocked(messages: seq<StoredMessage>, e: Exchange): Result<Recorded, MockError>
    requires Mockable(e)
  {
    var i, j := e.requestSeq.value, e.responseSeq.value;
    match PayloadOf(messages, i)
    case None => Err(InvalidPayload(i, RequestSide))
    case Some(request) =>
      match PayloadOf(messages, j)
      case None => Err(InvalidPayload(j, ResponseSide))
      case Some(response) =>
        match GetStr(request, "method")
        case None => Err(MissingMethod(i))
        case Some(method_) => Ok(RecordedOf(request, method_, response, i, j))
  }

  /** The inventory of the first `n` exchanges, or the first error in it. */
  function Inventory(messages: seq<StoredMessage>, exchanges: seq<Exchange>, n: nat): Result<seq<Recorded>, MockError>
    requires n <= |exchanges|
  {
    if n == 0 then Ok([]) else
    match Inventory(messages, exchanges, n - 1)
    case Err(e) => Err(e)
    case Ok(before) =>
      if !Mockable(exchanges[n - 1]) then Ok(before) else
      match Mocked(messages, exchanges[n - 1]) case Err(e) => Err(e) case Ok(c) => Ok(before + [c])
  }

  lemma {:induction false} ErrorStays(messages: seq<StoredMessage>, exchanges: seq<Exchange>, m: nat, n: nat)
    requires m <= n <= |exchanges| && Inventory(messages, exchanges, m).Err?
    ensures Inventory(messages, exchanges, n) == Inventory(messages, exchanges, m)
  {
    if m < n { ErrorStays(messages, exchanges, m, n - 1); }
  }

  method FromMessages(messages: seq<StoredMessage>) returns (r: Result<seq<Recorded>, MockError>)
    ensures var exchanges := Session.Correlated(messages).0; r == Inventory(messages, exchanges, |exchanges|)
  {
    var model := Session.Correlate(messages);
    var exchanges := model.exchanges;
    var inventory := [];
    for i := 0 to |exchanges|
      invariant Inventory(messages, exchanges, i) == Ok(inventory)
    {
      if Mockable(exchanges[i]) {
        var mocked := Mocked(messages, exchanges[i]);
        if mocked.Err? {
          ErrorStays(messages, exchanges, i + 1, |exchanges|);
          return Err(mocked.error);
        }
        inventory := inventory + [mocked.value];
      }
    }
    return Ok(inventory);
  }

  /** The recorded requests behind an inventory. */
  function Requests(messages: seq<StoredMessage>, inventory: seq<Recorded>): seq<Json> {
    seq(|inventory|, i requires 0 <= i < |inventory| =>
      match PayloadOf(messages, inventory[i].requestSeq) case Some(request) => request case None => Null)
  }

  lemma {:induction false} InventoryRecorded(messages: seq<StoredMessage>, exchanges: seq<Exchange>, n: nat)
    requires n <= |exchanges| && Inventory(messages, exchanges, n).Ok?
    ensures var inventory := Inventory(messages, exchanges, n).value; RecordedFrom(inventory,
                                                                                   Requests(messages, inventory))
  {
    if n > 0 { InventoryRecorded(messages, exchanges, n - 1); }
  }

  /** A recorded call is a mockable exchange of the log, with the payloads of its request and its response. */
  predicate FromLog(messages: seq<StoredMessage>, exchanges: seq<Exchange>, c: Recorded) {
    && PayloadOf(messages, c.requestSeq).Some? && PayloadOf(messages, c.responseSeq) == Some(c.response)
    && exists e ::
      e in exchanges && Mockable(e) && e.requestSeq == Some(c.requestSeq) && e.responseSeq == Some(c.responseSeq)
  }

  lemma {:induction false} InventoryFromLog(messages: seq<StoredMessage>, exchanges: seq<Exchange>, n: nat)
    requires n <= |exchanges| && Inventory(messages, exchanges, n).Ok?
    ensures forall c :: c in Inventory(messages, exchanges, n).value ==> FromLog(messages, exchanges, c)
  {
    if n > 0 {
      InventoryFromLog(messages, exchanges, n - 1);
      assert exchanges[n - 1] in exchanges;
    }
  }

  /** Replaying any log's own mockable requests against its inventory returns, request by request, the payload the log
   *  holds under the number of the response that answered it there. */
  lemma {:induction false} LogSelfReplay(strategy: Strategy, messages: seq<StoredMessage>, n: nat)
    requires var exchanges := Session.Correlated(messages).0;
      var r := Inventory(messages, exchanges, |exchanges|);
      r.Ok? && n < |r.value|
    ensures var exchanges := Session.Correlated(messages).0;
      var inventory := Inventory(messages, exchanges, |exchanges|).value;
      var c, requests := inventory[n], Requests(messages, inventory);
      && FromLog(messages, exchanges, c) && PayloadOf(messages, c.requestSeq) == Some(requests[n])
      && ServedAt(strategy, inventory, requests, n) == Some(n)
      && ResponseAt(Served(strategy, inventory, requests, n), Some(n)) ==
         Some(Response(PayloadOf(messages, c.responseSeq).value, c.requestSeq, c.responseSeq))
  {
    var exchanges := Session.Correlated(messages).0;
    InventoryRecorded(messages, exchanges, |exchanges|);
    InventoryFromLog(messages, exchanges, |exchanges|);
    var inventory := Inventory(messages, exchanges, |exchanges|).value;
    assert inventory[n] in inventory;
    SelfReplay(strategy, inventory, Requests(messages, inventory), n);
  }
}
