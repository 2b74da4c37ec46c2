/** The Server-Sent Events decoder, and the line parser it stands for. */
module Sse {
  import opened Json

  type Byte = b: int | 0 <= b < 256

  const NEWLINE: Byte := 10
  const RETURN: Byte := 13
  const SPACE: Byte := 32
  const COLON: Byte := 58
  const DATA: seq<Byte> := [100, 97, 116, 97]
  const DATA_COLON: seq<Byte> := DATA + [COLON]

  /** A frame, and with it the data of an event, is at most this long. */
  const MAX_FRAME_BYTES: nat := 8 * 1024 * 1024

  /** A line may add the field name, one space and a carriage return. */
  const MAX_LINE_BYTES: nat := MAX_FRAME_BYTES + 7

  datatype Event = Data(bytes: seq<Byte>) | Oversized | Incomplete

  // ---------------------------------------------------------------- one line

  function StripReturn(line: seq<Byte>): seq<Byte> {
    if |line| > 0 && line[|line| - 1] == RETURN then line[..|line| - 1] else line
  }

  function StripSpace(value: seq<Byte>): seq<Byte> {
    if |value| > 0 && value[0] == SPACE then value[1..] else value
  }

  /** The value of a `data:` line; every other line has none. */
  function Value(line: seq<Byte>): Option<seq<Byte>> {
    if DATA_COLON <= line then Some(StripSpace(line[|DATA_COLON|..])) else None
  }

  // ---------------------------------------------------------------- byte by byte

  datatype State = State(line: seq<Byte>, data: seq<Byte>, oversized: bool, discarding: bool)

  const START := State([], [], false, false)

  predicate Fits(s: State) { |s.line| <= MAX_LINE_BYTES && (s.discarding ==> s.line == []) }

  function EndEvent(s: State): (State, seq<Event>) {
    (s.(data := [], oversized := false),
     if s.oversized then [Oversized] else if s.data != [] then [Data(s.data)] else [])
  }

  function Extended(data: seq<Byte>, value: seq<Byte>): seq<Byte> {
    if data == [] then value else data + [NEWLINE] + value
  }

  /** What a complete line does to the event being read. */
  function EndLine(s: State, line: seq<Byte>): (State, seq<Event>) {
    if line == [] then EndEvent(s)
    else if Value(line).None? || s.oversized then (s, [])
    else
      var data := Extended(s.data, Value(line).value);
      (if |data| > MAX_FRAME_BYTES then s.(data := [], oversized := true) else s.(data := data), [])
  }

  function Feed(s: State, b: Byte): (State, seq<Event>) {
    if b == NEWLINE then
      if s.discarding then (s.(discarding := false), []) else EndLine(s.(line := []), StripReturn(s.line))
    else if s.discarding then (s, [])
    else if |s.line| + 1 > MAX_LINE_BYTES then (State([], [], true, true), [])
    else (s.(line := s.line + [b]), [])
  }

  function Fed(s: State, bytes: seq<Byte>): State {
    if |bytes| == 0 then s else Feed(Fed(s, bytes[..|bytes| - 1]), bytes[|bytes| - 1]).0
  }

  function Emitted(s: State, bytes: seq<Byte>): seq<Event> {
    if |bytes| == 0 then [] else
    var before := bytes[..|bytes| - 1];
    Emitted(s, before) + Feed(Fed(s, before), bytes[|bytes| - 1]).1
  }

  function Finished(s: State): (State, seq<Event>) {
    (START, if s.oversized then [Oversized] else if Pending(s) then [Incomplete] else [])
  }

  predicate Pending(s: State) { s.line != [] || s.data != [] || s.oversized || s.discarding }

  lemma {:induction false} FedChunks(s: State, a: seq<Byte>, b: seq<Byte>)
    ensures Fed(s, a + b) == Fed(Fed(s, a), b)
  {
    if |b| == 0 {
      assert a + b == a;
    } else {
      FedChunks(s, a, b[..|b| - 1]);
      assert (a + b)[..|a + b| - 1] == a + b[..|b| - 1];
    }
  }

  /** How a stream is cut into chunks does not matter. */
  lemma {:induction false} ChunkIndependence(s: State, a: seq<Byte>, b: seq<Byte>)
    ensures Fed(s, a + b) == Fed(Fed(s, a), b)
    ensures Emitted(s, a + b) == Emitted(s, a) + Emitted(Fed(s, a), b)
  {
    FedChunks(s, a, b);
    if |b| == 0 {
      assert a + b == a;
    } else {
      var init := b[..|b| - 1];
      ChunkIndependence(s, a, init);
      assert (a + b)[..|a + b| - 1] == a + init && (a + b)[|a + b| - 1] == b[|b| - 1];
      ghost var more := Feed(Fed(s, a + init), b[|b| - 1]).1;
      assert Emitted(s, a + b) == Emitted(s, a + init) + more;
      assert Emitted(Fed(s, a), b) == Emitted(Fed(s, a), init) + more;
    }
  }

  lemma {:induction false} FedOn(s: State, chunk: seq<Byte>, i: nat, next: nat)
    requires i <= next <= |chunk|
    ensures Fed(s, chunk[..next]) == Fed(Fed(s, chunk[..i]), chunk[i..next])
    ensures Emitted(s, chunk[..next]) == Emitted(s, chunk[..i]) + Emitted(Fed(s, chunk[..i]), chunk[i..next])
  {
    assert chunk[..next] == chunk[..i] + chunk[i..next];
    ChunkIndependence(s, chunk[..i], chunk[i..next]);
  }

  lemma {:induction false} FitsKept(s: State, bytes: seq<Byte>)
    requires Fits(s)
    ensures Fits(Fed(s, bytes))
  {
    if |bytes| > 0 { FitsKept(s, bytes[..|bytes| - 1]); }
  }

  /** A run of bytes without a newline is taken or refused as a whole. */
  lemma {:induction false} FeedFragment(s: State, bytes: seq<Byte>)
    requires Fits(s) && NEWLINE !in bytes
    ensures Emitted(s, bytes) == []
    ensures Fed(s, bytes) ==
      if s.discarding then s
      else if |s.line| + |bytes| > MAX_LINE_BYTES then State([], [], true, true)
      else s.(line := s.line + bytes)
  {
    if |bytes| > 0 {
      FeedFragment(s, bytes[..|bytes| - 1]);
      assert bytes[|bytes| - 1] in bytes;
      assert s.line + bytes == s.line + bytes[..|bytes| - 1] + [bytes[|bytes| - 1]];
    } else {
      assert s.line + bytes == s.line;
    }
  }

  // ---------------------------------------------------------------- the decoder

  class SseDecoder {
    var line: seq<Byte>
    var data: seq<Byte>
    var oversized: bool
    var discardingLine: bool

    function Now(): State
      reads this
    {
      State(line, data, oversized, discardingLine)
    }

    predicate Valid()
      reads this
    {
      Fits(Now())
    }

    constructor ()
      ensures Valid() && Now() == START
    {
      line, data, oversized, discardingLine := [], [], false, false;
    }

    method HasPendingEvent() returns (r: bool)
      ensures r == Pending(Now())
    {
      r := line != [] || data != [] || oversized || discardingLine;
    }

    /** Newlines are searched only in the chunk; the result is that of feeding its bytes one by one. */
    method Push(chunk: seq<Byte>) returns (events: seq<Event>)
      requires Valid()
      modifies this
      ensures Valid() && Now() == Fed(old(Now()), chunk) && events == Emitted(old(Now()), chunk)
    {
      events := [];
      ghost var start := Now();
      var i := 0;
      while i < |chunk|
        invariant 0 <= i <= |chunk| && Valid()
        invariant Now() == Fed(start, chunk[..i]) && events == Emitted(start, chunk[..i])
      {
        var next, more := PushNext(chunk, i);
        FedOn(start, chunk, i, next);
        events := events + more;
        i := next;
      }
      assert chunk[..i] == chunk;
    }

    /** Takes the fragment that starts at `i`, up to and including the next newline of the chunk. */
    method PushNext(chunk: seq<Byte>, i: nat) returns (next: nat, events: seq<Event>)
      requires Valid() && i < |chunk|
      modifies this
      ensures Valid() && i < next <= |chunk|
      ensures Now() == Fed(old(Now()), chunk[i..next]) && events == Emitted(old(Now()), chunk[i..next])
    {
      var j := i;
      while j < |chunk| && chunk[j] != NEWLINE
        invariant i <= j <= |chunk| && NEWLINE !in chunk[i..j]
      {
        j := j + 1;
      }
      var complete := j < |chunk|;
      next := if complete then j + 1 else j;
      assert chunk[i..next] == chunk[i..j] + if complete then [NEWLINE] else [];
      events := PushFragment(chunk[i..j], complete);
    }

    method PushFragment(bytes: seq<Byte>, complete: bool) returns (events: seq<Event>)
      requires Valid() && NEWLINE !in bytes
      modifies this
      ensures Valid() && Now() == Fed(old(Now()), bytes + if complete then [NEWLINE] else [])
      ensures events == Emitted(old(Now()), bytes + if complete then [NEWLINE] else [])
    {
      events := [];
      FeedFragment(Now(), bytes);
      FitsKept(Now(), bytes + if complete then [NEWLINE] else []);
      if !discardingLine {
        if |line| + |bytes| > MAX_LINE_BYTES {
          line, data, oversized, discardingLine := [], [], true, true;
        } else {
          line := line + bytes;
        }
      }
      if complete {
        assert (bytes + [NEWLINE])[..|bytes|] == bytes;
        if discardingLine {
          discardingLine := false;
        } else {
          var whole := StripReturn(line);
          line := [];
          events := ProcessLine(whole);
        }
      } else {
        assert bytes + [] == bytes;
      }
    }

    method ProcessLine(whole: seq<Byte>) returns (events: seq<Event>)
      modifies this
      ensures Now() == EndLine(old(Now()), whole).0 && events == EndLine(old(Now()), whole).1
    {
      events := [];
      if whole == [] {
        events := FinishEvent();
        return;
      }
      if !(DATA_COLON <= whole) { return; }
      var value := StripSpace(whole[|DATA_COLON|..]);
      if oversized { return; }
      var separator := if data == [] then 0 else 1;
      if |data| + separator + |value| > MAX_FRAME_BYTES {
        data := [];
        oversized := true;
        return;
      }
      if separator == 1 { data := data + [NEWLINE]; }
      data := data + value;
    }

    method FinishEvent() returns (events: seq<Event>)
      modifies this
      ensures (Now(), events) == EndEvent(old(Now()))
    {
      events := [];
      if oversized {
        events := [Oversized];
      } else if data != [] {
        events := [Data(data)];
      }
      data := [];
      oversized := false;
    }

    /** The end of the stream dispatches nothing: an unfinished event is reported, and the decoder starts afresh. */
    method Finish() returns (events: seq<Event>)
      modifies this
      ensures Valid() && (Now(), events) == Finished(old(Now()))
    {
      events := [];
      var pending := HasPendingEvent();
      if oversized {
        events := [Oversized];
      } else if pending {
        events := [Incomplete];
      }
      line, data, oversized, discardingLine := [], [], false, false;
    }
  }

  // ---------------------------------------------------------------- the stream as lines

  /** The lines ended by a newline, without it. */
  function Lines(stream: seq<Byte>): seq<seq<Byte>> {
    if |stream| == 0 then [] else
    var before := stream[..|stream| - 1];
    if stream[|stream| - 1] == NEWLINE then Lines(before) + [Tail(before)] else Lines(before)
  }

  /** What follows the last newline. */
  function Tail(stream: seq<Byte>): seq<Byte> {
    if |stream| == 0
      || stream[|stream| - 1] == NEWLINE then [] else Tail(stream[..|stream| - 1]) + [stream[|stream| - 1]]
  }

  function Unlines(lines: seq<seq<Byte>>): seq<Byte> {
    if |lines| == 0 then [] else Unlines(lines[..|lines| - 1]) + lines[|lines| - 1] + [NEWLINE]
  }

  /** The lines and the tail are newline-free and spell the stream. */
  lemma {:induction false} LinesSpell(stream: seq<Byte>)
    ensures Unlines(Lines(stream)) + Tail(stream) == stream
    ensures NEWLINE !in Tail(stream) && forall line :: line in Lines(stream) ==> NEWLINE !in line
  {
    if |stream| > 0 {
      var before, last := stream[..|stream| - 1], stream[|stream| - 1];
      LinesSpell(before);
      assert stream == before + [last];
      if last == NEWLINE { assert Lines(stream)[..|Lines(stream)| - 1] == Lines(before); }
    }
  }

  predicate TooLong(line: seq<Byte>) { |line| > MAX_LINE_BYTES }

  /** The event delimiter: nothing before the newline but perhaps a carriage return. */
  predicate Blank(line: seq<Byte>) { !TooLong(line) && StripReturn(line) == [] }

  /** The lines since the last blank one. */
  function Open(lines: seq<seq<Byte>>): seq<seq<Byte>> {
    if |lines| == 0 || Blank(lines[|lines| - 1]) then [] else Open(lines[..|lines| - 1]) + [lines[|lines| - 1]]
  }

  /** The `data:` values of the lines, those of too long lines left out. */
  function Values(lines: seq<seq<Byte>>): seq<seq<Byte>> {
    if |lines| == 0 then [] else
    var last := lines[|lines| - 1];
    var value := if TooLong(last) then None else Value(StripReturn(last));
    Values(lines[..|lines| - 1]) + if value.Some? then [value.value] else []
  }

  /** The values joined by newlines; leading empty values leave no trace. */
  function Joined(values: seq<seq<Byte>>): seq<Byte> {
    if |values| == 0 then [] else Extended(Joined(values[..|values| - 1]), values[|values| - 1])
  }

  predicate Overflows(lines: seq<seq<Byte>>) {
    (exists line :: line in lines && TooLong(line)) || |Joined(Values(lines))| > MAX_FRAME_BYTES
  }

  /** The event of the lines before a blank one. */
  function BlockEvent(lines: seq<seq<Byte>>): seq<Event> {
    if Overflows(lines) then [Oversized]
    else if Joined(Values(lines)) != [] then [Data(Joined(Values(lines)))]
    else []
  }

  /** The events of a whole stream, read line by line. */
  function Dispatched(lines: seq<seq<Byte>>): seq<Event> {
    if |lines| == 0 then [] else
    var before, last := lines[..|lines| - 1], lines[|lines| - 1];
    Dispatched(before) + if Blank(last) then BlockEvent(Open(before)) else []
  }

  /** The decoder's state after a stream, read off its lines. */
  function Rest(stream: seq<Byte>): State {
    var block, tail := Open(Lines(stream)), Tail(stream);
    if TooLong(tail) then State([], [], true, true)
    else if Overflows(block) then State(tail, [], true, false)
    else State(tail, Joined(Values(block)), false, false)
  }

  function WithLine(data: seq<Byte>, line: seq<Byte>): seq<Byte> {
    var value := Value(StripReturn(line));
    if value.Some? then Extended(data, value.value) else data
  }

  lemma {:induction false} OverflowsNext(lines: seq<seq<Byte>>, line: seq<Byte>)
    ensures Overflows(lines + [line]) <==>
      || Overflows(lines) || TooLong(line)
      || |WithLine(Joined(Values(lines)), line)| > MAX_FRAME_BYTES
    ensures !TooLong(line) ==> Joined(Values(lines + [line])) == WithLine(Joined(Values(lines)), line)
  {
    var all := lines + [line];
    assert all[..|lines|] == lines;
    assert forall l :: l in all <==> l in lines || l == line;
    var value := if TooLong(line) then None else Value(StripReturn(line));
    if value.Some? {
      assert (Values(lines) + [value.value])[..|Values(lines)|] == Values(lines);
    } else {
      assert Values(all) == Values(lines);
    }
  }

  lemma {:induction false} EndOfLine(lines: seq<seq<Byte>>, tail: seq<Byte>)
    requires !TooLong(tail)
    ensures var block := Open(lines);
      var s := if Overflows(block) then State([], [], true, false) else State([], Joined(Values(block)), false, false);
      var later := Open(lines + [tail]);
      && EndLine(s, StripReturn(tail)).0 ==
        (if Overflows(later) then State([], [], true, false) else State([], Joined(Values(later)), false, false))
      && EndLine(s, StripReturn(tail)).1 == if Blank(tail) then BlockEvent(block) else []
  {
    assert (lines + [tail])[..|lines|] == lines;
    if !Blank(tail) { OverflowsNext(Open(lines), tail); }
  }

  lemma {:induction false} DispatchedNext(lines: seq<seq<Byte>>, line: seq<Byte>)
    ensures Dispatched(lines + [line]) == Dispatched(lines) + if Blank(line) then BlockEvent(Open(lines)) else []
    ensures Open(lines + [line]) == if Blank(line) then [] else Open(lines) + [line]
  {
    assert (lines + [line])[..|lines|] == lines;
  }

  /** Byte by byte and line by line, a stream means the same: the events are those of its lines, and the state holds the
   *  rest. */
  lemma {:induction false} StreamMeaning(stream: seq<Byte>)
    ensures Fed(START, stream) == Rest(stream) && Emitted(START, stream) == Dispatched(Lines(stream))
  {
    if |stream| > 0 {
      var before, last := stream[..|stream| - 1], stream[|stream| - 1];
      StreamMeaning(before);
      if last == NEWLINE {
        DispatchedNext(Lines(before), Tail(before));
        if TooLong(Tail(before)) {
          OverflowsNext(Open(Lines(before)), Tail(before));
        } else {
          EndOfLine(Lines(before), Tail(before));
        }
      }
    }
  }

  /** At the end of the stream an unfinished event is reported: too large, or incomplete if there is anything of it. */
  lemma {:induction false} EndMeaning(stream: seq<Byte>)
    ensures var block, tail := Open(Lines(stream)), Tail(stream);
      Finished(Fed(START, stream)).1 ==
        if TooLong(tail) || Overflows(block) then [Oversized]
        else if tail != [] || Joined(Values(block)) != [] then [Incomplete]
        else []
  {
    StreamMeaning(stream);
  }

  // ---------------------------------------------------------------- against section 9.2.6 of the HTML Living Standard

  function ColonAt(line: seq<Byte>): (i: nat)
    ensures i <= |line| && COLON !in line[..i] && (i < |line| ==> line[i] == COLON)
  {
    if |line| == 0 || line[0] == COLON then 0 else 1 + ColonAt(line[1..])
  }

  /** A line is a field name up to the first colon and a value after it, one leading space taken off; without a colon
   *  the value is empty. */
  function StandardValue(line: seq<Byte>): Option<seq<Byte>> {
    var i := ColonAt(line);
    if line[..i] != DATA then None else Some(if i < |line| then StripSpace(line[i + 1..]) else [])
  }

  function StandardValues(lines: seq<seq<Byte>>): seq<seq<Byte>> {
    if |lines| == 0 then [] else
    var value := StandardValue(StripReturn(lines[|lines| - 1]));
    StandardValues(lines[..|lines| - 1]) + if value.Some? then [value.value] else []
  }

  function JoinAll(values: seq<seq<Byte>>): seq<Byte> {
    if |values| == 0 then [] else if |values| == 1 then values[0]
    else JoinAll(values[..|values| - 1]) + [NEWLINE] + values[|values| - 1]
  }

  /** One event for a block with at least one data field, whatever its value. */
  function StandardEvent(lines: seq<seq<Byte>>): seq<Event> {
    if StandardValues(lines) == [] then [] else [Data(JoinAll(StandardValues(lines)))]
  }

  lemma {:induction false} ColonIs(line: seq<Byte>, k: nat)
    requires k <= |line| && COLON !in line[..k] && (k < |line| ==> line[k] == COLON)
    ensures ColonAt(line) == k
  {
    assert k > 0 ==> line[..k][0] == line[0];
    if k > 0 {
      assert line[1..][..k - 1] == line[..k][1..];
      ColonIs(line[1..], k - 1);
    }
  }

  /** The decoder takes the standard's data fields but the bare field name. */
  lemma {:induction false} StandardValueIff(line: seq<Byte>)
    ensures StandardValue(line) == if line == DATA then Some([]) else Value(line)
  {
    var i := ColonAt(line);
    if DATA <= line && (line == DATA || line[4] == COLON) {
      assert line[..4] == DATA;
      ColonIs(line, 4);
      assert line != DATA ==> line[..5] == DATA_COLON;
    } else {
      assert i == 4 ==> line[..i] != DATA;
      assert !(DATA_COLON <= line);
    }
  }

  /** The length of the joined values and one more. */
  function Weight(values: seq<seq<Byte>>): nat {
    if |values| == 0 then 0 else Weight(values[..|values| - 1]) + |values[|values| - 1]| + 1
  }

  lemma {:induction false} JoinAllWeight(values: seq<seq<Byte>>)
    ensures |values| > 0 ==> |JoinAll(values)| + 1 == Weight(values)
  {
    if |values| > 1 { JoinAllWeight(values[..|values| - 1]); }
  }

  lemma {:induction false} JoinedWeight(values: seq<seq<Byte>>)
    ensures |values| > 0 && values[0] != [] ==> Joined(values) == JoinAll(values) != []
    ensures |values| > 0 && values[0] == [] ==> Joined(values) == [] || |Joined(values)| + 1 < Weight(values)
  {
    if |values| > 1 { JoinedWeight(values[..|values| - 1]); }
  }

  predicate HasBareData(lines: seq<seq<Byte>>) { exists line :: line in lines && StripReturn(line) == DATA }

  lemma {:induction false} BareWeight(lines: seq<seq<Byte>>)
    requires forall line :: line in lines ==> !TooLong(line)
    ensures if HasBareData(lines) then StandardValues(lines) != []
      && Weight(StandardValues(lines)) > Weight(Values(lines))
            else StandardValues(lines) == Values(lines)
  {
    if |lines| > 0 {
      var before, last := lines[..|lines| - 1], lines[|lines| - 1];
      BareWeight(before);
      StandardValueIff(StripReturn(last));
      assert lines == before + [last];
      assert HasBareData(lines) <==> HasBareData(before) || StripReturn(last) == DATA;
      WeightAppend(StandardValues(before), StandardValue(StripReturn(last)));
      WeightAppend(Values(before), Value(StripReturn(last)));
    }
  }

  lemma {:induction false} WeightAppend(values: seq<seq<Byte>>, value: Option<seq<Byte>>)
    ensures Weight(values + if value.Some? then [value.value] else []) == Weight(values)
      + if value.Some? then |value.value| + 1 else 0
  {
    if value.Some? {
      assert (values + [value.value])[..|values|] == values;
    } else {
      assert values + [] == values;
    }
  }

  /** Within the limits the decoder reports what the standard dispatches, exactly when no line is the bare field name
   *  and the first data value, if any, is not empty. */
  lemma {:induction false} StandardIff(lines: seq<seq<Byte>>)
    requires !Overflows(lines)
    ensures BlockEvent(lines) == StandardEvent(lines) <==>
      !HasBareData(lines) && (Values(lines) == [] || Values(lines)[0] != [])
  {
    BareWeight(lines);
    JoinedWeight(Values(lines));
    JoinAllWeight(Values(lines));
    JoinAllWeight(StandardValues(lines));
  }
}
