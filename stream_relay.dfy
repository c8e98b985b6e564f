/** The streaming endpoint `/api/chat/stream` of `ollama-proxy/main.py`: the
    guards and payload it shares with the plain chat endpoint, and the
    `generate_stream` generator that turns the server's newline-delimited
    JSON into an event stream. A recursive relay function is the
    specification; `GenerateStream` is the loop of the source and is proved
    to produce exactly that relay's frames. */
module StreamRelay {
  import opened Wrappers
  import opened OllamaApi
  import opened EventStream
  import OllamaProxy

  /** One line from `aiter_lines()`: its text, and what `json.loads` makes of it. */
  datatype Line = Line(raw: string, parsed: Reply)

  /** The upstream stream: it could not be opened, or it opened with a
      status, delivered some lines and then either ended or raised
      (`broken`). */
  datatype StreamUpstream = ConnectFailed | Opened(status: nat, lines: seq<Line>, broken: bool)

  const ConnectFailure := "Failed to connect to AI model"
  const StreamingFailed := "Streaming failed"

  /** The headers of the `StreamingResponse`. */
  const StreamHeaders: seq<(string, string)> := [
    ("Cache-Control", "no-cache"),
    ("Connection", "keep-alive"),
    ("Access-Control-Allow-Origin", "*"),
    ("Access-Control-Allow-Methods", "GET, POST, OPTIONS"),
    ("Access-Control-Allow-Headers", "*")]

  datatype StreamStart = StreamStart(payload: OllamaProxy.Payload, mediaType: string, headers: seq<(string, string)>)

  /** What the endpoint does before the body is produced: the same guards as
      the plain chat endpoint, then a streaming payload whatever the request's
      own `stream` flag says. */
  function ChatStream(config: Config, clientReady: bool, req: OllamaProxy.ChatRequest)
    : (r: Result<StreamStart, OllamaProxy.HttpError>)
    ensures r.Failure? <==> OllamaProxy.CheckRequest(clientReady, req).Some?
    ensures r.Failure? ==> r.error == OllamaProxy.CheckRequest(clientReady, req).value
    ensures r.Success? ==> r.value.payload.stream == Some(true) && r.value.mediaType == "text/event-stream"
    ensures r.Success? ==> r.value.payload == OllamaProxy.ChatPayload(config, req).(stream := Some(true))
  {
    match OllamaProxy.CheckRequest(clientReady, req)
    case Some(e) => Failure(e)
    case None => Success(StreamStart(OllamaProxy.BuildPayload(config, req, Some(true)), "text/event-stream", StreamHeaders))
  }

  /** What one line contributes. An empty line and one that is not JSON are
      skipped. A decoded value whose `.get` fails (null, a non-object, or a
      truthy non-object `message`) raises out of the loop. Otherwise a
      non-empty content is relayed, else a truthy `done` is. */
  datatype Step = Emit(event: Event) | Skip | Abort

  function LineStep(line: Line): (s: Step)
    ensures s.Emit? && s.event.ContentEvent? <==> line.raw != [] && HasContent(line.parsed)
    ensures s.Emit? && s.event.ContentEvent? ==> s.event.text == line.parsed.message.content.value
    ensures s.Emit? ==> !s.event.ErrorEvent?
    ensures s == Emit(DoneEvent) <==> line.raw != [] && line.parsed.Object? && line.parsed.done
                                      && !line.parsed.message.NonObjectMessage? && !HasContent(line.parsed)
  {
    if line.raw == [] then Skip
    else match line.parsed
      case NotJson => Skip
      case Object(message, done) =>
        if message.NonObjectMessage? then Abort
        else if HasContent(line.parsed) then Emit(ContentEvent(message.content.value))
        else if done then Emit(DoneEvent)
        else Skip
      case _ => Abort
  }

  function StepEvents(s: Step): seq<Event> {
    match s
    case Emit(e) => [e]
    case Skip => []
    case Abort => [ErrorEvent(StreamingFailed)]
  }

  predicate Aborts(lines: seq<Line>) {
    exists i :: 0 <= i < |lines| && LineStep(lines[i]).Abort?
  }

  /** The events relayed for the lines that arrived: each line's contribution
      in order, until the first line that raises, whose error ends the relay. */
  function RelayLines(lines: seq<Line>): seq<Event>
    decreases |lines|
  {
    if lines == [] then []
    else if LineStep(lines[0]).Abort? then [ErrorEvent(StreamingFailed)]
    else StepEvents(LineStep(lines[0])) + RelayLines(lines[1..])
  }

  /** All events the generator yields. */
  function Relay(up: StreamUpstream): (events: seq<Event>)
    ensures up.ConnectFailed? ==> events == [ErrorEvent(StreamingFailed)]
    ensures up.Opened? && !IsSuccess(up.status) ==> events == [ErrorEvent(ConnectFailure)]
  {
    match up
    case ConnectFailed => [ErrorEvent(StreamingFailed)]
    case Opened(status, lines, broken) =>
      if !IsSuccess(status) then [ErrorEvent(ConnectFailure)]
      else RelayLines(lines) + (if broken && !Aborts(lines) then [ErrorEvent(StreamingFailed)] else [])
  }

  // ---------------------------------------------------------------------
  // Relay lemmas

  lemma {:induction false} StreamSnoc(events: seq<Event>, e: Event)
    ensures Stream(events + [e]) == Stream(events) + Frame(e)
    decreases |events|
  {
    if events == [] {
      assert Stream([e]) == Frame(e) + Stream([]);
    } else {
      assert (events + [e])[1..] == events[1..] + [e];
      StreamSnoc(events[1..], e);
    }
  }

  lemma AbortsSnoc(lines: seq<Line>, line: Line)
    ensures Aborts(lines + [line]) <==> Aborts(lines) || LineStep(line).Abort?
  {
    var all := lines + [line];
    assert forall i :: 0 <= i < |lines| ==> all[i] == lines[i];
    assert all[|lines|] == line;
  }

  lemma {:induction false} RelayLinesSnoc(lines: seq<Line>, line: Line)
    requires !Aborts(lines)
    ensures RelayLines(lines + [line]) == RelayLines(lines) + StepEvents(LineStep(line))
    decreases |lines|
  {
    var all := lines + [line];
    if lines == [] {
      assert all == [line];
      assert RelayLines([line][1..]) == [];
    } else {
      assert all[0] == lines[0] && all[1..] == lines[1..] + [line];
      AbortsCons(lines);
      RelayLinesSnoc(lines[1..], line);
    }
  }

  /** Once a line has raised, later lines change nothing. */
  lemma {:induction false} RelayLinesAfterAbort(lines: seq<Line>, rest: seq<Line>)
    requires Aborts(lines)
    ensures RelayLines(lines + rest) == RelayLines(lines)
    ensures Aborts(lines + rest)
    decreases |lines|
  {
    var all := lines + rest;
    var i :| 0 <= i < |lines| && LineStep(lines[i]).Abort?;
    assert all[i] == lines[i];
    assert all[0] == lines[0];
    if !LineStep(lines[0]).Abort? {
      assert all[1..] == lines[1..] + rest;
      assert lines[1..][i - 1] == lines[i];
      RelayLinesAfterAbort(lines[1..], rest);
    }
  }

  /** A `done` line does not end the relay: lines after it, up to a raising
      one, are relayed too. In general the relay of two runs of lines is the
      relay of the first followed by the relay of the second. */
  lemma {:induction false} RelayLinesAppend(lines: seq<Line>, rest: seq<Line>)
    requires !Aborts(lines)
    ensures RelayLines(lines + rest) == RelayLines(lines) + RelayLines(rest)
    decreases |lines|
  {
    if lines == [] {
      assert lines + rest == rest;
    } else {
      assert (lines + rest)[0] == lines[0] && (lines + rest)[1..] == lines[1..] + rest;
      AbortsCons(lines);
      RelayLinesAppend(lines[1..], rest);
    }
  }

  lemma AbortsCons(lines: seq<Line>)
    requires lines != []
    ensures Aborts(lines) <==> LineStep(lines[0]).Abort? || Aborts(lines[1..])
  {
    if Aborts(lines) && !LineStep(lines[0]).Abort? {
      var i :| 0 <= i < |lines| && LineStep(lines[i]).Abort?;
      assert lines[1..][i - 1] == lines[i];
    }
    if Aborts(lines[1..]) {
      var i :| 0 <= i < |lines[1..]| && LineStep(lines[1..][i]).Abort?;
      assert lines[1..][i] == lines[i + 1];
    }
  }

  predicate NoError(events: seq<Event>) {
    forall i :: 0 <= i < |events| ==> !events[i].ErrorEvent?
  }

  lemma NoErrorConcat(a: seq<Event>, b: seq<Event>)
    requires NoError(a) && NoError(b)
    ensures NoError(a + b)
  {
    forall i | 0 <= i < |a + b| ensures !(a + b)[i].ErrorEvent? {
      if i >= |a| { assert (a + b)[i] == b[i - |a|]; }
    }
  }

  /** Without a raising line the relay holds no error. */
  lemma {:induction false} RelayLinesNoError(lines: seq<Line>)
    requires !Aborts(lines)
    ensures NoError(RelayLines(lines))
    decreases |lines|
  {
    if lines != [] {
      AbortsCons(lines);
      RelayLinesNoError(lines[1..]);
      NoErrorConcat(StepEvents(LineStep(lines[0])), RelayLines(lines[1..]));
    }
  }

  lemma DropLastConcat(a: seq<Event>, b: seq<Event>)
    requires |b| > 0
    ensures (a + b)[..|a + b| - 1] == a + b[..|b| - 1] && (a + b)[|a + b| - 1] == b[|b| - 1]
  {
  }

  /** With a raising line the relay is error-free up to a single final error. */
  lemma {:induction false} RelayLinesAbortShape(lines: seq<Line>)
    requires Aborts(lines)
    ensures var r := RelayLines(lines);
            |r| > 0 && r[|r| - 1] == ErrorEvent(StreamingFailed) && NoError(r[..|r| - 1])
    decreases |lines|
  {
    AbortsCons(lines);
    var r := RelayLines(lines);
    if LineStep(lines[0]).Abort? {
      assert r == [ErrorEvent(StreamingFailed)];
    } else {
      RelayLinesAbortShape(lines[1..]);
      var head := StepEvents(LineStep(lines[0]));
      var tail := RelayLines(lines[1..]);
      assert r == head + tail;
      DropLastConcat(head, tail);
      NoErrorConcat(head, tail[..|tail| - 1]);
    }
  }

  /** The error event, if any, is the last event of the lines' relay. */
  lemma RelayLinesErrorLast(lines: seq<Line>)
    ensures forall i :: 0 <= i < |RelayLines(lines)| - 1 ==> !RelayLines(lines)[i].ErrorEvent?
    ensures |RelayLines(lines)| > 0 && RelayLines(lines)[|RelayLines(lines)| - 1].ErrorEvent? <==> Aborts(lines)
  {
    var r := RelayLines(lines);
    if !Aborts(lines) {
      RelayLinesNoError(lines);
    } else {
      RelayLinesAbortShape(lines);
      forall i | 0 <= i < |r| - 1 ensures !r[i].ErrorEvent? {
        assert r[..|r| - 1][i] == r[i];
      }
    }
  }

  /** Every stream ends with at most one error event, and only as its last
      event; the error appears exactly when the connection could not be
      opened, was refused, a line raised, or the stream broke. */
  lemma RelayErrorOnlyLast(up: StreamUpstream)
    ensures forall i :: 0 <= i < |Relay(up)| - 1 ==> !Relay(up)[i].ErrorEvent?
    ensures (|Relay(up)| > 0 && Relay(up)[|Relay(up)| - 1].ErrorEvent?)
            <==> (up.ConnectFailed? || !IsSuccess(up.status) || Aborts(up.lines) || up.broken)
  {
    if up.Opened? && IsSuccess(up.status) {
      var lines := up.lines;
      var r := RelayLines(lines);
      var all := Relay(up);
      if Aborts(lines) {
        RelayLinesAbortShape(lines);
        assert all == r + [];
        forall i | 0 <= i < |r| - 1 ensures !r[i].ErrorEvent? {
          assert r[..|r| - 1][i] == r[i];
        }
      } else if up.broken {
        RelayLinesNoError(lines);
        assert all == r + [ErrorEvent(StreamingFailed)];
        assert forall i :: 0 <= i < |r| ==> all[i] == r[i];
      } else {
        RelayLinesNoError(lines);
        assert all == r + [];
      }
    }
  }

  /** Lines that are empty, not JSON, or carry neither content nor a truthy
      `done` leave no trace in the relay. */
  lemma SkippedLineInvisible(before: seq<Line>, line: Line, after: seq<Line>)
    requires !Aborts(before) && LineStep(line).Skip?
    ensures RelayLines(before + [line] + after) == RelayLines(before + after)
  {
    RelayLinesSnoc(before, line);
    AbortsSnoc(before, line);
    RelayLinesAppend(before + [line], after);
    RelayLinesAppend(before, after);
  }

  /** The text of the content events, in order. */
  function Contents(events: seq<Event>): seq<string>
    decreases |events|
  {
    if events == [] then []
    else (if events[0].ContentEvent? then [events[0].text] else []) + Contents(events[1..])
  }

  /** The non-empty `message.content` of the non-empty lines, in order. */
  function LineContents(lines: seq<Line>): seq<string>
    decreases |lines|
  {
    if lines == [] then []
    else (if lines[0].raw != [] && HasContent(lines[0].parsed) then [lines[0].parsed.message.content.value] else [])
         + LineContents(lines[1..])
  }

  lemma {:induction false} ContentsAppend(a: seq<Event>, b: seq<Event>)
    ensures Contents(a + b) == Contents(a) + Contents(b)
    decreases |a|
  {
    if a == [] {
      assert a + b == b;
    } else {
      assert (a + b)[0] == a[0] && (a + b)[1..] == a[1..] + b;
      ContentsAppend(a[1..], b);
    }
  }

  /** Without a raising line, every content the server streamed reaches the
      client, unchanged and in the order it was sent. */
  lemma {:induction false} RelayedContents(lines: seq<Line>)
    requires !Aborts(lines)
    ensures Contents(RelayLines(lines)) == LineContents(lines)
    decreases |lines|
  {
    if lines != [] {
      AbortsCons(lines);
      RelayedContents(lines[1..]);
      ContentsAppend(StepEvents(LineStep(lines[0])), RelayLines(lines[1..]));
    }
  }

  /** What a browser's `EventSource` delivers for the generated body: one
      message per relayed event, each decoding back to that event. */
  lemma ClientReceivesRelay(up: StreamUpstream, i: nat)
    requires i < |Relay(up)|
    ensures |Dispatched(Stream(Relay(up)))| == |Relay(up)|
    ensures ParseEventJson(Dispatched(Stream(Relay(up)))[i]) == Some(Relay(up)[i])
  {
    DispatchedStream(Relay(up));
    ReceivedEvents(Relay(up), i);
  }

  lemma {:induction false} StreamAppend(a: seq<Event>, b: seq<Event>)
    ensures Stream(a + b) == Stream(a) + Stream(b)
    decreases |a|
  {
    if a == [] {
      assert a + b == b;
    } else {
      assert (a + b)[0] == a[0] && (a + b)[1..] == a[1..] + b;
      StreamAppend(a[1..], b);
    }
  }

  /** One more line of the loop: the relay of the longer prefix. */
  lemma RelayPrefixNext(lines: seq<Line>, i: nat)
    requires i < |lines| && !Aborts(lines[..i])
    ensures RelayLines(lines[..i + 1]) == RelayLines(lines[..i]) + StepEvents(LineStep(lines[i]))
  {
    var p := lines[..i];
    var q := lines[..i + 1];
    assert q == p + [lines[i]];
    RelayLinesSnoc(p, lines[i]);
  }

  lemma AbortsPrefixNext(lines: seq<Line>, i: nat)
    requires i < |lines| && !Aborts(lines[..i])
    ensures Aborts(lines[..i + 1]) <==> LineStep(lines[i]).Abort?
  {
    var p := lines[..i];
    var q := lines[..i + 1];
    assert q == p + [lines[i]];
    AbortsSnoc(p, lines[i]);
  }

  /** The line that raises ends the relay of the whole stream. */
  lemma AbortEndsRelay(lines: seq<Line>, i: nat)
    requires i < |lines| && !Aborts(lines[..i]) && LineStep(lines[i]).Abort?
    ensures Aborts(lines) && RelayLines(lines) == RelayLines(lines[..i + 1])
  {
    var q := lines[..i + 1];
    assert q[i] == lines[i];
    assert lines == q + lines[i + 1..];
    RelayLinesAfterAbort(q, lines[i + 1..]);
  }

  lemma SingleFrame(e: Event)
    ensures Stream([e]) == Frame(e)
  {
    assert Stream([e]) == Frame(e) + Stream([]);
  }

  // ---------------------------------------------------------------------
  // The generator

  /** The body of the `async for` loop for one line: what it yields, and
      whether the line raised out of the loop. */
  method HandleLine(chunk: Line) returns (yielded: string, raised: bool)
    ensures raised <==> LineStep(chunk).Abort?
    ensures yielded == Stream(StepEvents(LineStep(chunk)))
  {
    var step := LineStep(chunk);
    yielded := [];
    raised := false;
    if chunk.raw != [] {
      var data := chunk.parsed;
      if data.NotJson? {
        // json.JSONDecodeError: next line
        assert step == Skip;
      } else if !data.Object? || data.message.NonObjectMessage? {
        // `.get` raised: the handler yields the error and the generator ends
        assert step == Abort;
        SingleFrame(ErrorEvent(StreamingFailed));
        yielded := Frame(ErrorEvent(StreamingFailed));
        raised := true;
      } else if data.message.MessageObject? && data.message.content.Some? && data.message.content.value != "" {
        assert step == Emit(ContentEvent(data.message.content.value));
        SingleFrame(ContentEvent(data.message.content.value));
        yielded := Frame(ContentEvent(data.message.content.value));
      } else if data.done {
        assert step == Emit(DoneEvent);
        SingleFrame(DoneEvent);
        yielded := Frame(DoneEvent);
      } else {
        assert step == Skip;
      }
    } else {
      assert step == Skip;
    }
  }

  /** `generate_stream`: the response body it yields, frame by frame. */
  method GenerateStream(up: StreamUpstream) returns (body: string)
    ensures body == Stream(Relay(up))
  {
    if up.ConnectFailed? {
      SingleFrame(ErrorEvent(StreamingFailed));
      body := Frame(ErrorEvent(StreamingFailed));
      return;
    }
    if !IsSuccess(up.status) {
      SingleFrame(ErrorEvent(ConnectFailure));
      body := Frame(ErrorEvent(ConnectFailure));
      return;
    }
    var lines := up.lines;
    body := [];
    var i := 0;
    var failed := false;
    while i < |lines| && !failed
      invariant 0 <= i <= |lines|
      invariant !failed ==> !Aborts(lines[..i]) && body == Stream(RelayLines(lines[..i]))
      invariant failed ==> Aborts(lines) && body == Stream(RelayLines(lines))
    {
      RelayPrefixNext(lines, i);
      AbortsPrefixNext(lines, i);
      StreamAppend(RelayLines(lines[..i]), StepEvents(LineStep(lines[i])));
      var yielded, raised := HandleLine(lines[i]);
      body := body + yielded;
      if raised {
        failed := true;
        AbortEndsRelay(lines, i);
      }
      i := i + 1;
    }
    if failed {
      assert RelayLines(lines) + [] == RelayLines(lines);
      assert Relay(up) == RelayLines(lines);
    } else {
      assert lines[..i] == lines;
      if up.broken {
        // the line iterator raised: the handler yields the error
        StreamAppend(RelayLines(lines), [ErrorEvent(StreamingFailed)]);
        SingleFrame(ErrorEvent(StreamingFailed));
        body := body + Frame(ErrorEvent(StreamingFailed));
      } else {
        assert RelayLines(lines) + [] == RelayLines(lines);
        assert Relay(up) == RelayLines(lines);
      }
    }
  }
}
