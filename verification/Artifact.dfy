/** Portable `.mtrace` documents: export, validation, import. */
module Artifact {
  import opened Json
  import opened Policy
  import opened Redact
  import opened Tracker
  import opened Protocol
  import opened Walks

  const FORMAT := "mtrace"
  const VERSION := 1
  const MAX_MESSAGES := 1_000_000
  const I64_MAX := 0x7FFF_FFFF_FFFF_FFFF

  datatype Session = Session(client: string, serverCommand: string, transport: string, startedAt: int,
                             endedAt: Option<int>,
                             policyName: string, policyKeys: seq<string>, dropped: int, tags: seq<string>)

  datatype Entry = Entry(num: nat, ts: int, direction: string, fields: Fields, payload: Json, payloadBytes: nat)

  datatype Document = Document(format: string, version: int, exportedAt: int, exporter: string, session: Session,
                               messages: seq<Entry>)

  datatype ExportOptions = ExportOptions(forceDefaultRedaction: bool, allowUnredacted: bool)

  datatype ExportError = ConflictingOptions | BadPolicy(error: PolicyError) | WouldExportUnredacted
                       | NotJson(num: nat) | NotObject(num: nat) | ContextLost

  datatype FieldName = KindField | RpcIdField | MethodField | ToolField | IsErrorField | ErrorCodeField

  datatype Fault = UnsupportedFormat | UnsupportedVersion | TooManyMessages | InvalidPolicy(error: PolicyError)
                 | KeysNotNormalized | NegativeDropped | NotIncreasing(num: nat) | UnknownDirectionName(num: nat)
                 | UnknownKind(num: nat) | PayloadNotObject(num: nat) | FieldMismatch(num: nat, field: FieldName)
                 | LostContext | UnredactedKeys(num: nat, keys: seq<string>)

  // ---------------------------------------------------------------- validation

  function FieldFault(m: Entry): Option<Fault> {
    var d := Derived(m.payload);
    if d.kind != m.fields.kind then Some(FieldMismatch(m.num, KindField))
    else if d.rpcId != m.fields.rpcId then Some(FieldMismatch(m.num, RpcIdField))
    else if d.method_ != m.fields.method_ then Some(FieldMismatch(m.num, MethodField))
    else if d.tool != m.fields.tool then Some(FieldMismatch(m.num, ToolField))
    else if d.isError != m.fields.isError then Some(FieldMismatch(m.num, IsErrorField))
    else if d.errorCode != m.fields.errorCode then Some(FieldMismatch(m.num, ErrorCodeField))
    else None
  }

  function Trace(messages: seq<Entry>): seq<Observation> {
    seq(|messages|,
        i requires 0 <= i < |messages| => Observed(messages[i].num, messages[i].direction, messages[i].payload))
  }

  /** The checks `validate` makes of message `i`, in its order. */
  function MessageFault(policy: Policy, messages: seq<Entry>, i: nat): Option<Fault>
    requires i < |messages|
  {
    var m, trace := messages[i], Trace(messages);
    if i > 0 && m.num <= messages[i - 1].num then Some(NotIncreasing(m.num))
    else if m.direction != "c2s" && m.direction != "s2c" then Some(UnknownDirectionName(m.num))
    else if m.fields.kind !in ["request", "response", "notification"] then Some(UnknownKind(m.num))
    else if !m.payload.Obj? then Some(PayloadNotObject(m.num))
    else if FieldFault(m).Some? then FieldFault(m)
    else if policy.Active() && StateAfter(AtCapacity(), trace, i + 1).lostContext then Some(LostContext)
    else
      var found := Unredacted(policy, ContextAt(AtCapacity(), trace, i), m.payload);
      if found != {} then Some(UnredactedKeys(m.num, SortedKeys(found))) else None
  }

  function MessageFaults(policy: Policy, messages: seq<Entry>): seq<Option<Fault>> {
    seq(|messages|, i requires 0 <= i < |messages| => MessageFault(policy, messages, i))
  }

  function First<E>(faults: seq<Option<E>>, i: nat): Option<E>
    requires i <= |faults|
    decreases |faults| - i
  {
    if i == |faults| then None else if faults[i].Some? then faults[i] else First(faults, i + 1)
  }

  lemma {:induction false} FirstNone<E>(faults: seq<Option<E>>, i: nat)
    requires i <= |faults|
    ensures First(faults, i).None? <==> forall j :: i <= j < |faults| ==> faults[j].None?
    decreases |faults| - i
  {
    if i < |faults| { FirstNone(faults, i + 1); }
  }

  function DocumentFault(d: Document): Option<Fault> {
    if d.format != FORMAT then Some(UnsupportedFormat)
    else if d.version != VERSION then Some(UnsupportedVersion)
    else if |d.messages| > MAX_MESSAGES then Some(TooManyMessages)
    else match FromStorage(d.session.policyName, d.session.policyKeys)
      case Err(e) => Some(InvalidPolicy(e))
      case Ok(policy) =>
        if policy.CustomKeys() != d.session.policyKeys then Some(KeysNotNormalized)
        else if d.session.dropped < 0 then Some(NegativeDropped)
        else First(MessageFaults(policy, d.messages), 0)
  }

  /** `validate`: the first fault of the document, if it has one. */
  method Validate(d: Document) returns (fault: Option<Fault>)
    ensures fault == DocumentFault(d)
  {
    if d.format != FORMAT { return Some(UnsupportedFormat); }
    if d.version != VERSION { return Some(UnsupportedVersion); }
    if |d.messages| > MAX_MESSAGES { return Some(TooManyMessages); }
    var stored := FromStorage(d.session.policyName, d.session.policyKeys);
    if stored.Err? { return Some(InvalidPolicy(stored.error)); }
    var policy := stored.value;
    if policy.CustomKeys() != d.session.policyKeys { return Some(KeysNotNormalized); }
    if d.session.dropped < 0 { return Some(NegativeDropped); }
    fault := ValidateMessages(policy, d.messages);
  }

  /** The loop over the messages. */
  method ValidateMessages(policy: Policy, messages: seq<Entry>) returns (fault: Option<Fault>)
    ensures fault == First(MessageFaults(policy, messages), 0)
  {
    var tracker := new RedactionContextTracker();
    ghost var faults := MessageFaults(policy, messages);
    for i := 0 to |messages|
      invariant fresh(tracker)
      invariant tracker.Current() == StateAfter(AtCapacity(), Trace(messages), i)
      invariant First(faults, 0) == First(faults, i)
    {
      fault := ValidateMessage(policy, tracker, messages, i);
      if fault.Some? { return; }
    }
    return None;
  }

  /** The body of that loop. */
  method ValidateMessage(policy: Policy, tracker: RedactionContextTracker, messages: seq<Entry>, i: nat)
    returns (fault: Option<Fault>)
    requires i < |messages| && tracker.Current() == StateAfter(AtCapacity(), Trace(messages), i)
    modifies tracker
    ensures fault == MessageFaults(policy, messages)[i]
    ensures fault.None? ==> tracker.Current() == StateAfter(AtCapacity(), Trace(messages), i + 1)
  {
    var m := messages[i];
    assert MessageFaults(policy, messages)[i] == MessageFault(policy, messages, i);
    if i > 0 && m.num <= messages[i - 1].num { return Some(NotIncreasing(m.num)); }
    if m.direction != "c2s" && m.direction != "s2c" { return Some(UnknownDirectionName(m.num)); }
    if m.fields.kind !in ["request", "response", "notification"] { return Some(UnknownKind(m.num)); }
    if !m.payload.Obj? { return Some(PayloadNotObject(m.num)); }
    var mismatch := FieldFault(m);
    if mismatch.Some? { return mismatch; }
    assert Trace(messages)[i] == Observed(m.num, m.direction, m.payload);
    var context := tracker.Observe(m.num, m.direction, m.payload);
    if policy.Active() && tracker.lostContext { return Some(LostContext); }
    var keys := UnredactedSensitiveKeys(policy, context, m.payload);
    if keys != [] { return Some(UnredactedKeys(m.num, keys)); }
    return None;
  }

  // ---------------------------------------------------------------- export

  function RowTrace(rows: seq<StoredMessage>): seq<Observation> {
    seq(|rows|, i requires 0 <= i < |rows| =>
      Observed(rows[i].num, rows[i].direction, if rows[i].payload.Some? then rows[i].payload.value else Null))
  }

  function RowFault(policy: Policy, rows: seq<StoredMessage>, i: nat): Option<ExportError>
    requires i < |rows|
  {
    if rows[i].payload.None? then Some(NotJson(rows[i].num))
    else if !rows[i].payload.value.Obj? then Some(NotObject(rows[i].num))
    else if policy.Active() && StateAfter(AtCapacity(), RowTrace(rows), i + 1).lostContext then Some(ContextLost)
    else None
  }

  function ExportedRow(policy: Policy, rows: seq<StoredMessage>, i: nat): Entry
    requires i < |rows| && rows[i].payload.Some?
  {
    var r := rows[i];
    Entry(r.num, r.ts, r.direction, r.fields,
          Redacted(policy, Placeholder, ContextAt(AtCapacity(), RowTrace(rows), i), r.payload.value), r.payloadBytes)
  }

  function RowFaults(policy: Policy, rows: seq<StoredMessage>): seq<Option<ExportError>> {
    seq(|rows|, i requires 0 <= i < |rows| => RowFault(policy, rows, i))
  }

  predicate Exportable(policy: Policy, rows: seq<StoredMessage>) {
    forall i :: 0 <= i < |rows| ==> RowFault(policy, rows, i).None?
  }

  function ExportedRows(policy: Policy, rows: seq<StoredMessage>): seq<Entry>
    requires Exportable(policy, rows)
  {
    seq(|rows|, i requires 0 <= i < |rows| => assert RowFault(policy, rows, i).None?; ExportedRow(policy, rows, i))
  }

  lemma {:induction false} ExportableIff(policy: Policy, rows: seq<StoredMessage>)
    ensures First(RowFaults(policy, rows), 0).None? <==> Exportable(policy, rows)
  {
    var faults := RowFaults(policy, rows);
    FirstNone(faults, 0);
    assert forall i :: 0 <= i < |rows| ==> faults[i] == RowFault(policy, rows, i);
  }

  /** The policy an export applies, given the policy the session was recorded under. */
  function EffectivePolicy(session: Session, options: ExportOptions): Result<Policy, ExportError> {
    if options.forceDefaultRedaction && options.allowUnredacted then Err(ConflictingOptions)
    else match FromStorage(session.policyName, session.policyKeys)
      case Err(e) => Err(BadPolicy(e))
      case Ok(policy) =>
        if policy.Active() then Ok(policy)
        else if options.forceDefaultRedaction then Ok(Default)
        else if options.allowUnredacted then Ok(NoRedaction)
        else Err(WouldExportUnredacted)
  }

  function ExportDocument(session: Session, rows: seq<StoredMessage>, options: ExportOptions, now: int,
                          exporter: string):
    Result<Document, ExportError>
  {
    match EffectivePolicy(session, options)
    case Err(e) => Err(e)
    case Ok(policy) =>
      ExportableIff(policy, rows);
      var fault := First(RowFaults(policy, rows), 0);
      if fault.Some? then Err(fault.value) else
      Ok(Document(FORMAT, VERSION, now, exporter,
                  session.(policyName := policy.Name(), policyKeys := policy.CustomKeys()), ExportedRows(policy, rows)))
  }

  /** `export_mtrace_document` over the session's summary and its rows. */
  method Export(session: Session, rows: seq<StoredMessage>, options: ExportOptions, now: int, exporter: string)
    returns (r: Result<Document, ExportError>)
    ensures r == ExportDocument(session, rows, options, now, exporter)
  {
    var effective := EffectivePolicy(session, options);
    if effective.Err? { return Err(effective.error); }
    var policy := effective.value;
    var fault, messages := ExportMessages(policy, rows);
    ExportableIff(policy, rows);
    if fault.Some? { return Err(fault.value); }
    return Ok(Document(FORMAT, VERSION, now, exporter,
                       session.(policyName := policy.Name(), policyKeys := policy.CustomKeys()), messages));
  }

  /** What the loop makes of each row, refused or not. */
  function Attempted(policy: Policy, rows: seq<StoredMessage>): seq<Entry> {
    seq(|rows|, i requires 0 <= i < |rows| =>
      if rows[i].payload.Some? then ExportedRow(policy, rows, i) else Entry(0, 0, "", rows[i].fields, Null, 0))
  }

  lemma {:induction false} AttemptedIsExported(policy: Policy, rows: seq<StoredMessage>)
    requires Exportable(policy, rows)
    ensures Attempted(policy, rows) == ExportedRows(policy, rows)
  {
    forall i | 0 <= i < |rows| ensures Attempted(policy, rows)[i] == ExportedRows(policy, rows)[i] {
      assert RowFault(policy, rows, i).None?;
    }
  }

  method ExportMessages(policy: Policy, rows: seq<StoredMessage>)
    returns (fault: Option<ExportError>, messages: seq<Entry>)
    ensures fault == First(RowFaults(policy, rows), 0)
    ensures fault.None? ==> Exportable(policy, rows) && messages == ExportedRows(policy, rows)
  {
    fault, messages := ExportRows(policy, rows);
    ExportableIff(policy, rows);
    if fault.None? { AttemptedIsExported(policy, rows); }
  }

  lemma {:induction false} TakeNext<T>(s: seq<T>, i: nat)
    requires i < |s|
    ensures s[..i + 1] == s[..i] + [s[i]]
  {
  }

  /** The loop over the rows. */
  method ExportRows(policy: Policy, rows: seq<StoredMessage>) returns (fault: Option<ExportError>, messages: seq<Entry>)
    ensures fault == First(RowFaults(policy, rows), 0)
    ensures fault.None? ==> messages == Attempted(policy, rows)
  {
    var tracker := new RedactionContextTracker();
    messages := [];
    ghost var faults, all := RowFaults(policy, rows), Attempted(policy, rows);
    for i := 0 to |rows|
      invariant fresh(tracker)
      invariant tracker.Current() == StateAfter(AtCapacity(), RowTrace(rows), i)
      invariant First(faults, 0) == First(faults, i)
      invariant messages == all[..i]
    {
      var found, entry := ExportRow(policy, tracker, rows, i);
      if found.Some? { return found, []; }
      messages := messages + [entry];
      TakeNext(all, i);
    }
    assert all[..|rows|] == all;
    return None, messages;
  }

  /** The body of that loop: refuse the row, or redact it in the context the tracker gives it. */
  method ExportRow(policy: Policy, tracker: RedactionContextTracker, rows: seq<StoredMessage>, i: nat)
    returns (fault: Option<ExportError>, entry: Entry)
    requires i < |rows| && tracker.Current() == StateAfter(AtCapacity(), RowTrace(rows), i)
    modifies tracker
    ensures fault == RowFaults(policy, rows)[i]
    ensures fault.None? ==> entry == Attempted(policy, rows)[i]
    ensures fault.None? ==> tracker.Current() == StateAfter(AtCapacity(), RowTrace(rows), i + 1)
  {
    var row := rows[i];
    assert RowFaults(policy, rows)[i] == RowFault(policy, rows, i);
    entry := Entry(row.num, row.ts, row.direction, row.fields, Null, row.payloadBytes);
    if row.payload.None? { return Some(NotJson(row.num)), entry; }
    var payload := row.payload.value;
    if !payload.Obj? { return Some(NotObject(row.num)), entry; }
    assert RowTrace(rows)[i] == Observed(row.num, row.direction, payload);
    var context := tracker.Observe(row.num, row.direction, payload);
    if policy.Active() && tracker.lostContext { return Some(ContextLost), entry; }
    payload := RedactWithContext(policy, Placeholder, context, payload);
    return None, entry.(payload := payload);
  }

  // ---------------------------------------------------------------- what redaction leaves of a payload

  /** The keys from which the stored columns and the tracker read. */
  predicate KeepsStructure(masks: string -> bool) {
    && !masks("jsonrpc") && !masks("id") && !masks("method") && !masks("params")
    && !masks("name") && !masks("error") && !masks("code")
  }

  /** What plain redaction makes of the value under a key. */
  function FieldAfter(masks: string -> bool, key: string, v: Option<Json>): Option<Json> {
    match v
    case None => None
    case Some(child) => Some(if masks(key) then MASK else Rewrite(masks, Placeholder, Plain, child))
  }

  /** Plain redaction keeps scalars and the kind of everything else. */
  lemma {:induction false} PlainKeeps(masks: string -> bool, v: Json)
    ensures var w := Rewrite(masks, Placeholder, Plain, v);
      && (v.Obj? <==> w.Obj?) && (v.Arr? <==> w.Arr?) && (!v.Obj? && !v.Arr? ==> w == v)
  {
  }

  lemma {:induction false} PlainGet(masks: string -> bool, v: Json, key: string)
    ensures Rewrite(masks, Placeholder, Plain, v).Get(key) == FieldAfter(masks, key, v.Get(key))
  {
  }

  lemma {:induction false} MessageGet(masks: string -> bool, context: Context, v: Json, key: string)
    requires v.Obj? && key != "result"
    ensures Rewrite(masks, Placeholder, Message(context), v).Get(key) == FieldAfter(masks, key, v.Get(key))
  {
    if key in v.fields { assert FieldRole(masks, Message(context), key, v.fields[key]) == Visited(masks, key); }
  }

  lemma {:induction false} MessageKeeps(masks: string -> bool, context: Context, v: Json, key: string)
    requires v.Obj?
    ensures Rewrite(masks, Placeholder, Message(context), v).Obj?
    ensures Rewrite(masks, Placeholder, Message(context), v).Get(key).Some? <==> v.Get(key).Some?
  {
  }

  /** A text stays a text, the same unless its key is masked. */
  lemma {:induction false} TextAfter(masks: string -> bool, key: string, v: Option<Json>)
    ensures var w := FieldAfter(masks, key, v);
      (w.Some? && w.value.Str?) <==> (v.Some? && (masks(key) || v.value.Str?))
    ensures v.Some? && v.value.Str? && !masks(key) ==> FieldAfter(masks, key, v) == v
  {
    if v.Some? { PlainKeeps(masks, v.value); }
  }

  // ---------------------------------------------------------------- which columns survive

  /** Nothing is there to mask: not the value itself, and nothing inside it. */
  predicate FieldClean(masks: string -> bool, key: string, v: Option<Json>) {
    match v
    case None => true
    case Some(child) => if masks(key) then child == MASK else Findings(masks, Plain, key, child) == {}
  }

  /** The value is absent, not masked, or the mask already. */
  predicate FieldMasked(masks: string -> bool, key: string, v: Option<Json>) {
    masks(key) && v.Some? ==> v.value == MASK
  }

  predicate ToolClean(masks: string -> bool, v: Json) {
    GetStr(v, "method") == Some("tools/call") ==>
      if masks("params") then ToolName(v).None?
      else FieldMasked(masks, "name", Params(v).Get("name"))
  }

  predicate CodeClean(masks: string -> bool, v: Json) { masks("error") || masks("code") ==> ErrorCode(v).None? }

  /** Redaction finds nothing to change in what the columns are derived from. */
  predicate ColumnsClean(masks: string -> bool, v: Json) {
    && FieldClean(masks, "id", v.Get("id")) && FieldMasked(masks, "method", v.Get("method"))
    && ToolClean(masks, v) && CodeClean(masks, v)
  }

  lemma {:induction false} IdSurvivesIff(masks: string -> bool, v: Option<Json>)
    ensures FieldAfter(masks, "id", v) == v <==> FieldClean(masks, "id", v)
  {
    if v.Some? && !masks("id") { CleanIffFixpoint(masks, Plain, "id", v.value); }
  }

  lemma {:induction false} IdTextIff(a: Option<Json>, b: Option<Json>)
    ensures (match a case Some(id) => Some(Text(id)) case None => None) ==
      (match b case Some(id) => Some(Text(id)) case None => None)
      <==> a == b
  {
    if a.Some? && b.Some? { TextInjective(a.value, b.value); }
  }

  lemma {:induction false} MethodSurvivesIff(masks: string -> bool, context: Context, v: Json)
    requires v.Obj?
    ensures GetStr(Rewrite(masks, Placeholder, Message(context), v), "method") == GetStr(v, "method") <==>
      FieldMasked(masks, "method", v.Get("method"))
  {
    MessageGet(masks, context, v, "method");
    TextAfter(masks, "method", v.Get("method"));
  }

  lemma {:induction false} ToolSurvivesIff(masks: string -> bool, context: Context, v: Json)
    requires v.Obj?
    requires GetStr(Rewrite(masks, Placeholder, Message(context), v), "method") == GetStr(v, "method")
    ensures ToolName(Rewrite(masks, Placeholder, Message(context), v)) == ToolName(v) <==> ToolClean(masks, v)
  {
    MessageGet(masks, context, v, "params");
    if v.Get("params").Some? {
      var params := v.fields["params"];
      PlainGet(masks, params, "name");
      TextAfter(masks, "name", params.Get("name"));
    }
  }

  lemma {:induction false} CodeSurvivesIff(masks: string -> bool, context: Context, v: Json)
    requires v.Obj?
    ensures ErrorCode(Rewrite(masks, Placeholder, Message(context), v)) == ErrorCode(v) <==> CodeClean(masks, v)
  {
    MessageGet(masks, context, v, "error");
    if v.Get("error").Some? {
      var error := v.fields["error"];
      PlainGet(masks, error, "code");
      if error.Get("code").Some? { PlainKeeps(masks, error.fields["code"]); }
    }
  }

  /** Whatever is masked: the columns derived from a payload are those of the redacted payload exactly when redaction
   *  finds nothing to change in their sources. */
  lemma {:induction false} DerivedSurvivesIff(masks: string -> bool, context: Context, v: Json)
    requires v.Obj?
    ensures Derived(Rewrite(masks, Placeholder, Message(context), v)) == Derived(v) <==> ColumnsClean(masks, v)
  {
    var w := Rewrite(masks, Placeholder, Message(context), v);
    MessageGet(masks, context, v, "id");
    IdSurvivesIff(masks, v.Get("id"));
    IdTextIff(w.Get("id"), v.Get("id"));
    MethodSurvivesIff(masks, context, v);
    if GetStr(w, "method") == GetStr(v, "method") { ToolSurvivesIff(masks, context, v); }
    CodeSurvivesIff(masks, context, v);
    MessageKeeps(masks, context, v, "error");
  }

  // ---------------------------------------------------------------- what the tracker makes of it

  /** Masking the id changes every event that has one, masking the version whatever asks or claims, and masking the
   *  method whatever asks. */
  predicate TrackedClean(masks: string -> bool, direction: string, v: Json) {
    var e := Classify(direction, v);
    && (e.UnknownDirection? || FieldMasked(masks, "id", v.Get("id")))
    && (masks("jsonrpc") ==> !Asks(e) && !Claims(e))
    && (masks("method") ==> !Asks(e))
  }

  lemma {:induction false} FlagsAfter(masks: string -> bool, context: Context, v: Json)
    requires v.Obj?
    ensures var w := Rewrite(masks, Placeholder, Message(context), v);
      && (IsListRequest(w) <==> IsListRequest(v) && !masks("jsonrpc") && !masks("method"))
      && (IsWellFormedResult(w) <==> IsWellFormedResult(v) && !masks("jsonrpc"))
      && (w.Get("method").Some? <==> v.Get("method").Some?)
  {
    MessageGet(masks, context, v, "jsonrpc");
    MessageGet(masks, context, v, "method");
    TextAfter(masks, "jsonrpc", v.Get("jsonrpc"));
    TextAfter(masks, "method", v.Get("method"));
    MessageKeeps(masks, context, v, "result");
    MessageKeeps(masks, context, v, "error");
  }

  lemma {:induction false} TrackedId(masks: string -> bool, context: Context, v: Json)
    requires v.Obj?
    ensures var w := Rewrite(masks, Placeholder, Message(context), v);
      && (FieldMasked(masks, "id", v.Get("id")) && v.Get("id").Some? && (v.fields["id"].Str? || v.fields["id"].Num?) ==>
        w.Get("id") == v.Get("id"))
      && (FieldMasked(masks, "id", v.Get("id")) && v.Get("id").Some? && !v.fields["id"].Str? && !v.fields["id"].Num? ==>
        w.Get("id").Some? && !w.fields["id"].Str? && !w.fields["id"].Num?)
      && (!FieldMasked(masks, "id", v.Get("id")) ==> w.Get("id") == Some(MASK))
      && (v.Get("id").None? ==> w.Get("id").None?)
  {
    MessageGet(masks, context, v, "id");
    if v.Get("id").Some? { PlainKeeps(masks, v.fields["id"]); }
  }

  lemma {:induction false} EscapeShort(s: string)
    ensures |Escape(s)| <= 6 * |s|
  {
    if s != [] { EscapeShort(s[1..]); }
  }

  lemma {:induction false} Utf8Short(s: string)
    ensures Utf8Len(s) <= 4 * |s|
  {
    if s != [] { Utf8Short(s[1..]); }
  }

  /** A masked id is short enough to track. */
  lemma {:induction false} MaskShort()
    ensures Utf8Len(PLACEHOLDER) <= MAX_TRACKED_ID_BYTES && Utf8Len(Text(MASK)) <= MAX_TRACKED_ID_BYTES
  {
    EscapeShort(PLACEHOLDER);
    Utf8Short(PLACEHOLDER);
    Utf8Short(Text(MASK));
    assert |PLACEHOLDER| == 14;
    assert |Text(MASK)| == |Quoted(PLACEHOLDER)| == |Escape(PLACEHOLDER)| + 2;
  }

  /** Another id in the place of the old one, short enough to track, makes another event. */
  lemma {:induction false} OtherIdTracked(direction: string, v: Json, w: Json, id: Json)
    requires (direction == "c2s" || direction == "s2c") && w.Get("id") == Some(id) && id.Str?
    requires Utf8Len(id.s) <= MAX_TRACKED_ID_BYTES && Utf8Len(Text(id)) <= MAX_TRACKED_ID_BYTES
    requires v.Get("id").Some? && v.fields["id"] != id
    ensures Classify(direction, w) != Classify(direction, v)
  {
    TextInjective(v.fields["id"], id);
  }

  /** With the id as it was, what is left to compare are the flags. */
  lemma {:induction false} SameIdTracked(masks: string -> bool, direction: string, v: Json, w: Json)
    requires v.Get("id").Some? && (v.fields["id"].Str? || v.fields["id"].Num?) && w.Get("id") == v.Get("id")
    requires IsListRequest(w) <==> IsListRequest(v) && !masks("jsonrpc") && !masks("method")
    requires IsWellFormedResult(w) <==> IsWellFormedResult(v) && !masks("jsonrpc")
    requires w.Get("method").Some? <==> v.Get("method").Some?
    ensures var e := Classify(direction, v);
      Classify(direction, w) == e <==>
        (masks("jsonrpc") ==> !Asks(e) && !Claims(e)) && (masks("method") ==> !Asks(e))
  {
  }

  lemma {:induction false} UntrackedAlike(direction: string, v: Json, w: Json)
    requires v.Get("id").Some? && !v.fields["id"].Str? && !v.fields["id"].Num?
    requires w.Get("id").Some? && !w.fields["id"].Str? && !w.fields["id"].Num?
    ensures var e := Classify(direction, v); Classify(direction, w) == e && !Asks(e) && !Claims(e)
  {
  }

  lemma {:induction false} NoIdAlike(direction: string, v: Json, w: Json)
    requires (direction != "c2s" && direction != "s2c") || (v.Get("id").None? && w.Get("id").None?)
    ensures var e := Classify(direction, v); Classify(direction, w) == e && !Asks(e) && !Claims(e)
  {
  }

  /** Redaction as the tracker meets it: what becomes of the id, and of what asks and claims. */
  ghost predicate TrackedRewrite(masks: string -> bool, v: Json, w: Json, mask: Json) {
    && (IsListRequest(w) <==> IsListRequest(v) && !masks("jsonrpc") && !masks("method"))
    && (IsWellFormedResult(w) <==> IsWellFormedResult(v) && !masks("jsonrpc"))
    && (w.Get("method").Some? <==> v.Get("method").Some?)
    && match v.Get("id")
       case None => w.Get("id").None?
       case Some(id) =>
         if masks("id") && id != mask then w.Get("id") == Some(mask)
         else if id.Str? || id.Num? then w.Get("id") == Some(id)
         else w.Get("id").Some? && !w.fields["id"].Str? && !w.fields["id"].Num?
  }

  lemma {:induction false} RewriteTracked(masks: string -> bool, context: Context, v: Json)
    requires v.Obj?
    ensures TrackedRewrite(masks, v, Rewrite(masks, Placeholder, Message(context), v), MASK)
  {
    FlagsAfter(masks, context, v);
    TrackedId(masks, context, v);
  }

  lemma {:induction false} TrackedRewriteIff(masks: string -> bool, direction: string, v: Json, w: Json, mask: Json)
    requires TrackedRewrite(masks, v, w, mask) && mask.Str?
    requires Utf8Len(mask.s) <= MAX_TRACKED_ID_BYTES && Utf8Len(Text(mask)) <= MAX_TRACKED_ID_BYTES
    ensures var e := Classify(direction, v);
      Classify(direction, w) == e <==>
        && (e.UnknownDirection? || (masks("id") && v.Get("id").Some? ==> v.Get("id") == Some(mask)))
        && (masks("jsonrpc") ==> !Asks(e) && !Claims(e)) && (masks("method") ==> !Asks(e))
  {
    if (direction == "c2s" || direction == "s2c") && v.Get("id").Some? {
      var id := v.fields["id"];
      if masks("id") && id != mask {
        OtherIdTracked(direction, v, w, mask);
      } else if id.Str? || id.Num? {
        SameIdTracked(masks, direction, v, w);
      } else {
        UntrackedAlike(direction, v, w);
      }
    } else {
      NoIdAlike(direction, v, w);
    }
  }

  /** The tracker makes the same of a payload before and after redaction exactly under that condition. */
  lemma {:induction false} TrackedAlikeIff(masks: string -> bool, context: Context, direction: string, v: Json)
    requires v.Obj?
    ensures Classify(direction, Rewrite(masks, Placeholder, Message(context), v)) == Classify(direction, v) <==>
      TrackedClean(masks, direction, v)
  {
    RewriteTracked(masks, context, v);
    MaskShort();
    TrackedRewriteIff(masks, direction, v, Rewrite(masks, Placeholder, Message(context), v), MASK);
  }

  // ---------------------------------------------------------------- exporter against validator

  /** Rows as the recorder writes them: a known direction, and the columns the payload implies. */
  predicate Recorded(rows: seq<StoredMessage>) {
    forall i :: 0 <= i < |rows| ==>
      FromName(rows[i].direction).Some? && (rows[i].payload.Some? ==> rows[i].fields == Derived(rows[i].payload.value))
  }

  predicate Valid(d: Document) { DocumentFault(d).None? }

  predicate InOrder(rows: seq<StoredMessage>, i: nat)
    requires i < |rows|
  {
    i > 0 ==> rows[i - 1].num < rows[i].num
  }

  predicate RowClean(policy: Policy, row: StoredMessage) {
    policy.Active() ==> row.payload.Some? && ColumnsClean(Masks(policy.RedactorKeys()), row.payload.value)
  }

  predicate AllClean(policy: Policy, rows: seq<StoredMessage>) {
    forall i :: 0 <= i < |rows| ==> RowClean(policy, rows[i])
  }

  /** Only a masked version hides list requests from the validator that the exporter has seen. */
  predicate HidesVersion(policy: Policy) { policy.Active() && Masks(policy.RedactorKeys())("jsonrpc") }

  /** Then a row exported as a tool list must keep no name for its place in one. */
  predicate NamesClean(policy: Policy, rows: seq<StoredMessage>, i: nat)
    requires i < |rows|
  {
    HidesVersion(policy) && rows[i].payload.Some? && ContextAt(AtCapacity(), RowTrace(rows), i) == ToolListResponse ==>
      KeepsNoName(Masks(policy.RedactorKeys()), Message(ToolListResponse), rows[i].payload.value)
  }

  /** Exporter and validator run their trackers over different payloads and see the same trace. */
  lemma {:induction false} SameTrace(policy: Policy, rows: seq<StoredMessage>)
    requires Exportable(policy, rows) && AllClean(policy, rows) && !HidesVersion(policy)
    ensures Trace(ExportedRows(policy, rows)) == RowTrace(rows)
  {
    var p, q := Trace(ExportedRows(policy, rows)), RowTrace(rows);
    forall i | 0 <= i < |rows| ensures p[i] == q[i] {
      assert RowFault(policy, rows, i).None? && RowClean(policy, rows[i]);
      if policy.Active() {
        CleanTracked(Masks(policy.RedactorKeys()), ContextAt(AtCapacity(), RowTrace(rows), i), rows[i].direction,
                     rows[i].payload.value);
      }
    }
  }

  lemma {:induction false} CleanTracked(masks: string -> bool, context: Context, direction: string, v: Json)
    requires v.Obj? && ColumnsClean(masks, v) && !masks("jsonrpc")
    ensures Classify(direction, Rewrite(masks, Placeholder, Message(context), v)) == Classify(direction, v)
  {
    TrackedAlikeIff(masks, context, direction, v);
    assert masks("method") ==> GetStr(v, "method") != Some("tools/list");
  }

  /** A masked version leaves the validator's tracker nothing that asks or claims. */
  lemma {:induction false} QuietTrace(policy: Policy, rows: seq<StoredMessage>, k: nat)
    requires Exportable(policy, rows) && HidesVersion(policy) && k < |rows|
    ensures var e := Trace(ExportedRows(policy, rows))[k].event; !Asks(e) && !Claims(e)
  {
    assert RowFault(policy, rows, k).None?;
    FlagsAfter(Masks(policy.RedactorKeys()), ContextAt(AtCapacity(), RowTrace(rows), k), rows[k].payload.value);
  }

  /** The context in which the validator looks at an exported row. */
  function Meant(policy: Policy, rows: seq<StoredMessage>, i: nat): Context
    requires i < |rows|
  {
    if HidesVersion(policy) then Runtime else ContextAt(AtCapacity(), RowTrace(rows), i)
  }

  /** The context the validator finds for an exported row. */
  lemma {:induction false} ValidatorContext(policy: Policy, rows: seq<StoredMessage>, i: nat)
    requires i < |rows| && InNormalForm(policy) && Exportable(policy, rows) && AllClean(policy, rows)
    ensures var trace := Trace(ExportedRows(policy, rows));
      && ContextAt(AtCapacity(), trace, i) == Meant(policy, rows, i)
      && (policy.Active() ==> !StateAfter(AtCapacity(), trace, i + 1).lostContext)
  {
    var trace := Trace(ExportedRows(policy, rows));
    if HidesVersion(policy) {
      forall k | 0 <= k < |rows| ensures !Asks(trace[k].event) { QuietTrace(policy, rows, k); }
      NobodyAsks(AtCapacity(), trace, i);
      NobodyAsks(AtCapacity(), trace, i + 1);
    } else {
      SameTrace(policy, rows);
      ExportedRowAt(policy, rows, i);
    }
  }

  lemma {:induction false} ExportedFieldsMatchIff(policy: Policy, rows: seq<StoredMessage>, i: nat)
    requires i < |rows| && Recorded(rows) && RowFault(policy, rows, i).None?
    ensures var m := ExportedRow(policy, rows, i);
      && m.payload.Obj? && m.fields.kind in ["request", "response", "notification"]
      && (FieldFault(m).None? <==> RowClean(policy, rows[i]))
  {
    var m, v := ExportedRow(policy, rows, i), rows[i].payload.value;
    assert FieldFault(m).None? <==> Derived(m.payload) == m.fields;
    if policy.Active() {
      DerivedSurvivesIff(Masks(policy.RedactorKeys()), ContextAt(AtCapacity(), RowTrace(rows), i), v);
      MessageKeeps(Masks(policy.RedactorKeys()), ContextAt(AtCapacity(), RowTrace(rows), i), v, "id");
    }
  }

  /** What is checked of a message on its own. */
  predicate ShapeOk(m: Entry) {
    && FromName(m.direction).Some? && m.fields.kind in ["request", "response", "notification"] && m.payload.Obj?
    && FieldFault(m).None?
  }

  /** And beside the one before it. */
  predicate EntryOk(messages: seq<Entry>, i: nat)
    requires i < |messages|
  {
    (i > 0 ==> messages[i - 1].num < messages[i].num) && ShapeOk(messages[i])
  }

  /** The checks of one message, as one conjunction. */
  predicate MessageOk(policy: Policy, messages: seq<Entry>, i: nat)
    requires i < |messages|
  {
    var m, trace := messages[i], Trace(messages);
    && EntryOk(messages, i)
    && (policy.Active() ==> !StateAfter(AtCapacity(), trace, i + 1).lostContext)
    && Unredacted(policy, ContextAt(AtCapacity(), trace, i), m.payload) == {}
  }

  lemma {:induction false} MessageOkIff(policy: Policy, messages: seq<Entry>, i: nat)
    requires i < |messages|
    ensures MessageFault(policy, messages, i).None? <==> MessageOk(policy, messages, i)
  {
  }

  lemma {:induction false} ExportedNums(policy: Policy, rows: seq<StoredMessage>)
    requires Exportable(policy, rows)
    ensures forall j :: 0 <= j < |rows| ==> ExportedRows(policy, rows)[j].num == rows[j].num
  {
    forall j | 0 <= j < |rows| ensures ExportedRows(policy, rows)[j].num == rows[j].num {
      assert RowFault(policy, rows, j).None?;
    }
  }

  lemma {:induction false} ExportedShapeIff(policy: Policy, rows: seq<StoredMessage>, i: nat)
    requires i < |rows| && Recorded(rows) && Exportable(policy, rows)
    ensures ShapeOk(ExportedRows(policy, rows)[i]) <==> RowClean(policy, rows[i])
  {
    assert RowFault(policy, rows, i).None?;
    ExportedFieldsMatchIff(policy, rows, i);
  }

  lemma {:induction false} EntryIff(messages: seq<Entry>, rows: seq<StoredMessage>, i: nat, clean: bool)
    requires i < |messages| == |rows| && messages[i].num == rows[i].num && (ShapeOk(messages[i]) <==> clean)
    requires i > 0 ==> messages[i - 1].num == rows[i - 1].num
    ensures EntryOk(messages, i) <==> InOrder(rows, i) && clean
  {
  }

  /** Those checks pass exactly on a clean row in order, whatever the rest of the document is like. */
  lemma {:induction false} ExportedEntryIff(policy: Policy, rows: seq<StoredMessage>, i: nat)
    requires i < |rows| && Recorded(rows) && Exportable(policy, rows)
    ensures EntryOk(ExportedRows(policy, rows), i) <==> InOrder(rows, i) && RowClean(policy, rows[i])
  {
    ExportedNums(policy, rows);
    ExportedShapeIff(policy, rows, i);
    EntryIff(ExportedRows(policy, rows), rows, i, RowClean(policy, rows[i]));
  }

  lemma {:induction false} ExportedMessageOk(policy: Policy, rows: seq<StoredMessage>, i: nat)
    requires i < |rows| && Recorded(rows) && InNormalForm(policy) && Exportable(policy, rows) && AllClean(policy, rows)
    ensures MessageOk(policy, ExportedRows(policy, rows), i) <==> InOrder(rows, i) && NamesClean(policy, rows, i)
  {
    ExportedEntryIff(policy, rows, i);
    ExportedRowAt(policy, rows, i);
    assert RowClean(policy, rows[i]);
    ValidatorContext(policy, rows, i);
    ExportedNamesIff(policy, rows, i);
  }

  lemma {:induction false} ExportedNamesIff(policy: Policy, rows: seq<StoredMessage>, i: nat)
    requires i < |rows| && InNormalForm(policy) && Exportable(policy, rows) && rows[i].payload.Some?
    ensures Unredacted(policy, Meant(policy, rows, i), ExportedRow(policy, rows, i).payload) == {} <==>
      NamesClean(policy, rows, i)
  {
    ExportedRowAt(policy, rows, i);
    RuntimeClean(policy, rows[i].payload.value);
    if policy.Active() { ToolListClean(policy, rows[i].payload.value); }
  }

  /** As plain data the checker passes a redacted tool list exactly when it keeps no name for its place in one. */
  lemma {:induction false} ToolListClean(policy: Policy, v: Json)
    requires InNormalForm(policy) && policy.Active()
    ensures Unredacted(policy, Runtime, Redacted(policy, Placeholder, ToolListResponse, v)) == {} <==>
      KeepsNoName(Masks(policy.RedactorKeys()), Message(ToolListResponse), v)
  {
    CheckerMirrorsRedactor(policy, Runtime, Redacted(policy, Placeholder, ToolListResponse, v));
    SecondRedactionIff(Masks(policy.RedactorKeys()), ToolListResponse, Runtime, v);
  }

  lemma {:induction false} RuntimeClean(policy: Policy, v: Json)
    requires InNormalForm(policy)
    ensures Unredacted(policy, Runtime, Redacted(policy, Placeholder, Runtime, v)) == {}
  {
    CheckerMirrorsRedactor(policy, Runtime, v);
  }

  /** An exported row keeps its number, holds nothing to mask, and was exported in a context not lost. */
  lemma {:induction false} ExportedRowAt(policy: Policy, rows: seq<StoredMessage>, i: nat)
    requires i < |rows| && InNormalForm(policy) && Exportable(policy, rows)
    ensures rows[i].payload.Some? && rows[i].payload.value.Obj? && RowFault(policy, rows, i).None?
    ensures ExportedRows(policy, rows)[i] == ExportedRow(policy, rows, i)
    ensures policy.Active() ==> !StateAfter(AtCapacity(), RowTrace(rows), i + 1).lostContext
    ensures Unredacted(policy, ContextAt(AtCapacity(), RowTrace(rows), i), ExportedRow(policy, rows, i).payload) == {}
  {
    assert RowFault(policy, rows, i).None?;
    CheckerMirrorsRedactor(policy, ContextAt(AtCapacity(), RowTrace(rows), i), rows[i].payload.value);
  }

  predicate RowOk(policy: Policy, rows: seq<StoredMessage>, i: nat)
    requires i < |rows|
  {
    InOrder(rows, i) && RowClean(policy, rows[i]) && NamesClean(policy, rows, i)
  }

  lemma {:induction false} AllOkIff(n: nat, ok: int -> bool, ordered: int -> bool, clean: int -> bool,
                                    names: int -> bool)
    requires forall i :: 0 <= i < n && ok(i) ==> ordered(i) && clean(i)
    requires (forall i :: 0 <= i < n ==> clean(i)) ==> forall i :: 0 <= i < n ==> (ok(i) <==> ordered(i) && names(i))
    ensures (forall i :: 0 <= i < n ==> ok(i)) <==> (forall i :: 0 <= i < n ==> ordered(i) && clean(i) && names(i))
  {
  }

  function Accepted(policy: Policy, rows: seq<StoredMessage>): int -> bool
    requires Exportable(policy, rows)
  {
    i => 0 <= i < |rows| && MessageFault(policy, ExportedRows(policy, rows), i).None?
  }

  function Ordered(rows: seq<StoredMessage>): int -> bool { i => 0 <= i < |rows| && InOrder(rows, i) }

  function CleanColumns(policy: Policy, rows: seq<StoredMessage>): int -> bool {
    i => 0 <= i < |rows| && RowClean(policy, rows[i])
  }

  function CleanNames(policy: Policy, rows: seq<StoredMessage>): int -> bool {
    i => 0 <= i < |rows| && NamesClean(policy, rows, i)
  }

  lemma {:induction false} AcceptedAt(policy: Policy, rows: seq<StoredMessage>, i: nat)
    requires i < |rows| && Recorded(rows) && InNormalForm(policy) && Exportable(policy, rows)
    ensures Accepted(policy, rows)(i) ==> Ordered(rows)(i) && CleanColumns(policy, rows)(i)
    ensures AllClean(policy, rows) ==> (Accepted(policy, rows)(i) <==> Ordered(rows)(i) && CleanNames(policy, rows)(i))
  {
    MessageOkIff(policy, ExportedRows(policy, rows), i);
    ExportedEntryIff(policy, rows, i);
    if AllClean(policy, rows) { ExportedMessageOk(policy, rows, i); }
  }

  lemma {:induction false} AllCleanIff(policy: Policy, rows: seq<StoredMessage>)
    ensures AllClean(policy, rows) <==> forall i :: 0 <= i < |rows| ==> CleanColumns(policy, rows)(i)
  {
    forall i | 0 <= i < |rows| ensures CleanColumns(policy, rows)(i) <==> RowClean(policy, rows[i]) {
    }
  }

  lemma {:induction false} AllAcceptedIff(policy: Policy, rows: seq<StoredMessage>)
    requires Exportable(policy, rows)
    ensures (forall i :: 0 <= i < |rows| ==> Accepted(policy, rows)(i)) <==>
      (forall i :: 0 <= i < |rows| ==> MessageFault(policy, ExportedRows(policy, rows), i).None?)
  {
    forall i | 0 <= i < |rows|
      ensures Accepted(policy, rows)(i) <==> MessageFault(policy, ExportedRows(policy, rows), i).None?
    {
    }
  }

  lemma {:induction false} AllRowsOkIff(policy: Policy, rows: seq<StoredMessage>)
    ensures (forall i :: 0 <= i < |rows| ==>
               Ordered(rows)(i) && CleanColumns(policy, rows)(i) && CleanNames(policy, rows)(i))
      <==> (forall i :: 0 <= i < |rows| ==> RowOk(policy, rows, i))
  {
    forall i | 0 <= i < |rows|
      ensures Ordered(rows)(i) && CleanColumns(policy, rows)(i) && CleanNames(policy, rows)(i) <==>
        RowOk(policy, rows, i)
    {
    }
  }

  lemma {:induction false} AllMessagesOkIff(policy: Policy, rows: seq<StoredMessage>)
    requires Recorded(rows) && InNormalForm(policy) && Exportable(policy, rows)
    ensures (forall i :: 0 <= i < |rows| ==> MessageFault(policy, ExportedRows(policy, rows), i).None?) <==>
      (forall i :: 0 <= i < |rows| ==> RowOk(policy, rows, i))
  {
    AllCleanIff(policy, rows);
    AllAcceptedIff(policy, rows);
    AllRowsOkIff(policy, rows);
    forall i | 0 <= i < |rows|
      ensures Accepted(policy, rows)(i) ==> Ordered(rows)(i) && CleanColumns(policy, rows)(i)
      ensures AllClean(policy, rows) ==>
        (Accepted(policy, rows)(i) <==> Ordered(rows)(i) && CleanNames(policy, rows)(i))
    {
      AcceptedAt(policy, rows, i);
    }
    AllOkIff(|rows|, Accepted(policy, rows), Ordered(rows), CleanColumns(policy, rows), CleanNames(policy, rows));
  }

  lemma {:induction false} EffectiveNormal(session: Session, options: ExportOptions)
    requires EffectivePolicy(session, options).Ok?
    ensures InNormalForm(EffectivePolicy(session, options).value)
  {
    FromCliNormal("default", session.policyKeys);
  }

  /** Whatever the exporter builds from recorded rows under whatever policy, the validator accepts exactly when the
   *  rows fit one document, their sequence numbers increase, the drop count is no negative number, redaction finds
   *  nothing to change in the sources of the columns, and, if it masks the version, no tool list keeps a masked name
   *  among its schemas and dependencies. */
  lemma {:induction false} ExportedValidIff(session: Session, rows: seq<StoredMessage>, options: ExportOptions,
                                            now: int, exporter: string)
    requires Recorded(rows)
    requires ExportDocument(session, rows, options, now, exporter).Ok?
    ensures var p := EffectivePolicy(session, options).value;
      Valid(ExportDocument(session, rows, options, now, exporter).value) <==>
        && |rows| <= MAX_MESSAGES && session.dropped >= 0
        && forall i :: 0 <= i < |rows| ==> RowOk(p, rows, i)
  {
    var p := EffectivePolicy(session, options).value;
    EffectiveNormal(session, options);
    StorageRoundTrip(p);
    ExportableIff(p, rows);
    var faults := MessageFaults(p, ExportedRows(p, rows));
    FirstNone(faults, 0);
    assert forall i :: 0 <= i < |rows| ==> faults[i] == MessageFault(p, ExportedRows(p, rows), i);
    AllMessagesOkIff(p, rows);
  }

  // ---------------------------------------------------------------- rows as the writer stores them

  /** A row recorded under the policy: its payload is an object redacted in some context. */
  ghost predicate StoredUnder(policy: Policy, row: StoredMessage) {
    && row.payload.Some?
    && exists context, v: Json :: v.Obj? && row.payload.value == Redacted(policy, Placeholder, context, v)
  }

  /** What redaction has left it has nothing to change in any more. */
  lemma {:induction false} RedactedClean(masks: string -> bool, context: Context, v: Json)
    requires v.Obj?
    ensures ColumnsClean(masks, Rewrite(masks, Placeholder, Message(context), v))
  {
    MessageGet(masks, context, v, "id");
    if v.Get("id").Some? && !masks("id") { RewriteClean(masks, Plain, "id", v.fields["id"]); }
    MessageGet(masks, context, v, "method");
    RedactedToolClean(masks, context, v);
    RedactedCodeClean(masks, context, v);
  }

  lemma {:induction false} RedactedToolClean(masks: string -> bool, context: Context, v: Json)
    requires v.Obj?
    ensures ToolClean(masks, Rewrite(masks, Placeholder, Message(context), v))
  {
    MessageGet(masks, context, v, "params");
    if v.Get("params").Some? { PlainGet(masks, v.fields["params"], "name"); }
  }

  lemma {:induction false} RedactedCodeClean(masks: string -> bool, context: Context, v: Json)
    requires v.Obj?
    ensures CodeClean(masks, Rewrite(masks, Placeholder, Message(context), v))
  {
    MessageGet(masks, context, v, "error");
    if v.Get("error").Some? { PlainGet(masks, v.fields["error"], "code"); }
  }

  lemma {:induction false} StoredRowClean(policy: Policy, row: StoredMessage)
    requires StoredUnder(policy, row)
    ensures RowClean(policy, row)
  {
    var context, v: Json :| v.Obj? && row.payload.value == Redacted(policy, Placeholder, context, v);
    if policy.Active() { RedactedClean(Masks(policy.RedactorKeys()), context, v); }
  }

  lemma {:induction false} NoFlags(direction: string, w: Json)
    requires !IsListRequest(w) && !IsWellFormedResult(w)
    ensures var e := Classify(direction, w); !Asks(e) && !Claims(e)
  {
  }

  lemma {:induction false} RewrittenQuiet(masks: string -> bool, context: Context, direction: string, v: Json)
    requires v.Obj? && masks("jsonrpc")
    ensures var e := Classify(direction, Rewrite(masks, Placeholder, Message(context), v)); !Asks(e) && !Claims(e)
  {
    FlagsAfter(masks, context, v);
    NoFlags(direction, Rewrite(masks, Placeholder, Message(context), v));
  }

  /** So under any policy every export of what the writer has stored under it, in order, is valid. */
  lemma {:induction false} StoredExportValid(session: Session, rows: seq<StoredMessage>, options: ExportOptions,
                                             now: int, exporter: string)
    requires Recorded(rows) && ExportDocument(session, rows, options, now, exporter).Ok?
    requires forall row :: row in rows ==> StoredUnder(EffectivePolicy(session, options).value, row)
    requires |rows| <= MAX_MESSAGES && session.dropped >= 0
    requires forall i :: 0 <= i < |rows| ==> InOrder(rows, i)
    ensures Valid(ExportDocument(session, rows, options, now, exporter).value)
  {
    var p := EffectivePolicy(session, options).value;
    forall i | 0 <= i < |rows| ensures RowOk(p, rows, i) {
      StoredRowClean(p, rows[i]);
      if HidesVersion(p) {
        var context, v: Json :| v.Obj? && rows[i].payload.value == Redacted(p, Placeholder, context, v);
        RewrittenQuiet(Masks(p.RedactorKeys()), context, rows[i].direction, v);
        NoClaim(AtCapacity(), RowTrace(rows), i);
      }
    }
    ExportedValidIff(session, rows, options, now, exporter);
  }

  // ---------------------------------------------------------------- which policies keep the structure

  lemma {:induction false} NormalFormOf(key: string)
    requires forall i :: 0 <= i < |key| ==> 'a' <= key[i] <= 'z'
    ensures NormalizeKey(key) == key
  {
    if key != [] {
      NormalFormOf(key[1..]);
      assert key == [key[0]] + key[1..];
    }
  }

  lemma {:induction false} ShortTokens(i: nat)
    requires i < |CONTAINS_TOKENS|
    ensures |CONTAINS_TOKENS[i]| >= 8 || CONTAINS_TOKENS[i] == "passwd" || CONTAINS_TOKENS[i] == "secret"
      || CONTAINS_TOKENS[i] == "apikey"
  {
  }

  /** A short key holds no six-letter token that differs from it in a leading letter. */
  lemma {:induction false} TokenNotIn(key: string, token: string)
    requires |token| == 6 && |key| <= 7
    requires |key| >= 6 ==> key[0] != token[0] || key[2] != token[2]
    requires |key| == 7 ==> key[2] != token[1]
    ensures !ContainsToken(key, token)
  {
    forall i | 0 <= i <= |key| ensures !TokenAt(key, token, i) {
      if i + |token| <= |key| {
        var part := key[i..i + |token|];
        assert part[0] == key[i] && part[1] == key[i + 1] && part[2] == key[i + 2];
      }
    }
  }

  /** Lower-case, short, and with no letter where one of the tokens that would fit has its own. */
  predicate ShortKey(key: string) {
    && |key| <= 7 && (forall i :: 0 <= i < |key| ==> 'a' <= key[i] <= 'z')
    && (|key| >= 5 ==> key[|key| - 1] != 'n')
    && (|key| >= 6 ==> key[2] in "trwo" && key[|key| - 1] in "cds")
  }

  lemma {:induction false} NoTokenInside(key: string, i: nat)
    requires ShortKey(key) && i < |CONTAINS_TOKENS|
    ensures !ContainsToken(key, CONTAINS_TOKENS[i])
  {
    ShortTokens(i);
    if |CONTAINS_TOKENS[i]| < 8 { TokenNotIn(key, CONTAINS_TOKENS[i]); }
  }

  lemma {:induction false} NoTokenAtEnd(key: string, i: nat)
    requires ShortKey(key) && i < |SUFFIX_TOKENS|
    ensures !EndsWithToken(key, SUFFIX_TOKENS[i])
  {
    var t := SUFFIX_TOKENS[i];
    if |t| <= |key| { assert key[|key| - |t|..][|t| - 1] == key[|key| - 1]; }
  }

  lemma {:induction false} ShortKeyKept(key: string)
    requires ShortKey(key)
    ensures !IsSensitiveKey(key)
  {
    NormalFormOf(key);
    forall i | 0 <= i < |CONTAINS_TOKENS| ensures !ContainsToken(key, CONTAINS_TOKENS[i]) { NoTokenInside(key, i); }
    forall i | 0 <= i < |SUFFIX_TOKENS| ensures !EndsWithToken(key, SUFFIX_TOKENS[i]) { NoTokenAtEnd(key, i); }
  }

  lemma {:induction false} StructuralKeysShort(masks: string -> bool)
    requires forall key :: ShortKey(key) ==> !masks(key)
    ensures KeepsStructure(masks)
  {
    assert ShortKey("jsonrpc") && ShortKey("id") && ShortKey("method") && ShortKey("params");
    assert ShortKey("name") && ShortKey("error") && ShortKey("code");
  }

  /** The default policy masks none of the keys that the stored columns and the tracker read. */
  lemma {:induction false} DefaultKeepsStructure()
    ensures KeepsStructure(Masks(Default.RedactorKeys()))
  {
    forall key | ShortKey(key) ensures !Masks(Default.RedactorKeys())(key) { ShortKeyKept(key); }
    StructuralKeysShort(Masks(Default.RedactorKeys()));
  }

  /** A payload with a scalar id, under keys that mask none of those, has columns redaction cannot change. */
  lemma {:induction false} ScalarIdClean(masks: string -> bool, v: Json)
    requires KeepsStructure(masks)
    requires v.Get("id").Some? ==> !v.Get("id").value.Obj? && !v.Get("id").value.Arr?
    ensures ColumnsClean(masks, v)
  {
  }

  /** So a default-policy export of recorded rows with scalar ids, in order and within bounds, is always valid. */
  lemma {:induction false} DefaultExportValid(session: Session, rows: seq<StoredMessage>, options: ExportOptions,
                                              now: int, exporter: string)
    requires Recorded(rows) && EffectivePolicy(session, options) == Ok(Default)
    requires ExportDocument(session, rows, options, now, exporter).Ok?
    requires |rows| <= MAX_MESSAGES && session.dropped >= 0
    requires forall i :: 0 <= i < |rows| ==> InOrder(rows, i)
    requires forall i :: 0 <= i < |rows| && rows[i].payload.Some? && rows[i].payload.value.Get("id").Some? ==>
      !rows[i].payload.value.Get("id").value.Obj? && !rows[i].payload.value.Get("id").value.Arr?
    ensures Valid(ExportDocument(session, rows, options, now, exporter).value)
  {
    DefaultKeepsStructure();
    ExportableIff(Default, rows);
    forall i | 0 <= i < |rows| ensures RowOk(Default, rows, i) {
      assert RowFault(Default, rows, i).None?;
      ScalarIdClean(Masks(Default.RedactorKeys()), rows[i].payload.value);
    }
    ExportedValidIff(session, rows, options, now, exporter);
  }

  // ---------------------------------------------------------------- import and back

  datatype ImportError = Invalid(fault: Fault) | SeqTooLarge(num: nat) | SizeTooLarge(num: nat)

  datatype Imported = Imported(session: Session, rows: seq<StoredMessage>)

  function ImportedRow(m: Entry): StoredMessage {
    StoredMessage(m.num, m.ts, m.direction, m.fields, Some(m.payload), m.payloadBytes)
  }

  function ImportFault(m: Entry): Option<ImportError> {
    if m.num > I64_MAX then Some(SeqTooLarge(m.num))
    else if m.payloadBytes > I64_MAX then Some(SizeTooLarge(m.num))
    else None
  }

  function ImportFaults(messages: seq<Entry>): seq<Option<ImportError>> {
    seq(|messages|, i requires 0 <= i < |messages| => ImportFault(messages[i]))
  }

  function ImportedRows(messages: seq<Entry>): seq<StoredMessage> {
    seq(|messages|, i requires 0 <= i < |messages| => ImportedRow(messages[i]))
  }

  function ImportDocument(d: Document): Result<Imported, ImportError> {
    if DocumentFault(d).Some? then Err(Invalid(DocumentFault(d).value))
    else if First(ImportFaults(d.messages), 0).Some? then Err(First(ImportFaults(d.messages), 0).value)
    else Ok(Imported(d.session, ImportedRows(d.messages)))
  }

  /** `import_mtrace_document`: validate, then insert row by row; one failure inserts nothing. */
  method Import(d: Document) returns (r: Result<Imported, ImportError>)
    ensures r == ImportDocument(d)
  {
    var fault := Validate(d);
    if fault.Some? { return Err(Invalid(fault.value)); }
    var failed, rows := InsertRows(d.messages);
    if failed.Some? { return Err(failed.value); }
    return Ok(Imported(d.session, rows));
  }

  method InsertRows(messages: seq<Entry>) returns (fault: Option<ImportError>, rows: seq<StoredMessage>)
    ensures fault == First(ImportFaults(messages), 0)
    ensures fault.None? ==> rows == ImportedRows(messages)
  {
    rows := [];
    ghost var faults, all := ImportFaults(messages), ImportedRows(messages);
    for i := 0 to |messages|
      invariant First(faults, 0) == First(faults, i)
      invariant rows == all[..i]
    {
      var m := messages[i];
      assert faults[i] == ImportFault(m) && all[i] == ImportedRow(m);
      if m.num > I64_MAX { return Some(SeqTooLarge(m.num)), []; }
      if m.payloadBytes > I64_MAX { return Some(SizeTooLarge(m.num)), []; }
      rows := rows + [ImportedRow(m)];
    }
    return None, rows;
  }

  /** The evidence a document's digest covers: everything but when and by whom it was exported. */
  function Identity(d: Document): (string, int, Session, seq<Entry>) {
    (d.format, d.version, d.session, d.messages)
  }

  /** Importing any valid document and exporting it again gives its identity back, hence the same digest:
      validated payloads are fixpoints of redaction, stored key lists fixpoints of normalization. */
  lemma {:induction false} ReexportIsIdentity(d: Document, options: ExportOptions, now: int, exporter: string)
    requires ImportDocument(d).Ok?
    requires !(options.forceDefaultRedaction && options.allowUnredacted)
    requires d.session.policyName == "none" ==> options.allowUnredacted
    ensures var stored := ImportDocument(d).value;
      var again := ExportDocument(stored.session, stored.rows, options, now, exporter);
      again.Ok? && Identity(again.value) == Identity(d) && Valid(again.value)
  {
    var stored := ImportDocument(d).value;
    var p := FromStorage(d.session.policyName, d.session.policyKeys).value;
    StoredKeysFixpoint(d.session.policyName, d.session.policyKeys);
    assert EffectivePolicy(stored.session, options) == Ok(p);
    ImportedTrace(d.messages);
    var faults := MessageFaults(p, d.messages);
    FirstNone(faults, 0);
    forall i | 0 <= i < |stored.rows|
      ensures RowFault(p, stored.rows, i).None? && ExportedRow(p, stored.rows, i) == d.messages[i]
    {
      assert faults[i].None?;
      ImportedRowExports(p, d.messages, i);
    }
    ExportableIff(p, stored.rows);
    assert ExportedRows(p, stored.rows) == d.messages;
  }

  lemma {:induction false} ImportedTrace(messages: seq<Entry>)
    ensures RowTrace(ImportedRows(messages)) == Trace(messages)
  {
  }

  lemma {:induction false} ImportedRowExports(p: Policy, messages: seq<Entry>, i: nat)
    requires i < |messages| && MessageFault(p, messages, i).None? && InNormalForm(p)
    ensures var rows := ImportedRows(messages);
      RowFault(p, rows, i).None? && ExportedRow(p, rows, i) == messages[i]
  {
    ImportedTrace(messages);
    CheckerMirrorsRedactor(p, ContextAt(AtCapacity(), Trace(messages), i), messages[i].payload);
  }
}
