/** The legacy demo routes (`POST /demo`, `GET /demo-stream` without the
    security middleware): every upstream `data:` payload is forwarded as it
    came, with no JSON check, and a failure is reported as one
    `{"error": message}` event. */
module DemoLegacy {

  import opened JsText
  import opened HttpResponse
  import opened Sse
  import opened JsonText
  import DemoSecure

  /** What the analysis service does with the forwarded request, with the
      error messages the runtime attaches: the fetch fails, or it answers
      with a status and a body read chunk by chunk that may break off with a
      read error after the given chunks. */
  datatype Fetch =
    | FetchFailed(message: string)
    | Fetched(status: int, chunks: seq<string>, readFailure: Option<string>)

  const UrlRequired: JsonBody := MessageBody("URL parameter is required")

  /** An SSE frame whose data is the JSON object `{"error": message}`. */
  function ErrorEvent(message: string): string
  {
    Frame(ErrorObject(message))
  }

  /** The message of the error thrown for a status that is not ok. */
  function HttpErrorMessage(status: int): string
  {
    "HTTP error! status: " + IntToString(status)
  }

  /** The events forwarded for a list of upstream payloads: every payload,
      verbatim, in order. */
  function LegacyFrames(payloads: seq<string>): (fs: seq<string>)
    ensures |fs| == |payloads|
  {
    if payloads == [] then [] else [Frame(payloads[0])] + LegacyFrames(payloads[1..])
  }

  /** Each forwarded event carries the payload at the same position. */
  lemma {:induction false} LegacyFramesAt(payloads: seq<string>, i: nat)
    requires i < |payloads|
    ensures LegacyFrames(payloads)[i] == Frame(payloads[i])
    decreases i
  {
    if i > 0 {
      LegacyFramesAt(payloads[1..], i - 1);
    }
  }

  lemma {:induction false} LegacyFramesAppend(a: seq<string>, b: seq<string>)
    ensures LegacyFrames(a + b) == LegacyFrames(a) + LegacyFrames(b)
    decreases |a|
  {
    if a == [] {
      assert a + b == b;
    } else {
      assert (a + b)[1..] == a[1..] + b;
      LegacyFramesAppend(a[1..], b);
    }
  }

  /** Where the upstream sends only JSON that `JSON.stringify` writes back
      unchanged, the secure relay forwards exactly what the legacy one does. */
  lemma {:induction false} SecureAgreesOnCanonicalJson(payloads: seq<string>, reparse: string -> Option<string>)
    requires forall i :: 0 <= i < |payloads| ==> reparse(payloads[i]) == Some(payloads[i])
    ensures DemoSecure.JsonFrames(payloads, reparse) == LegacyFrames(payloads)
    decreases |payloads|
  {
    if payloads != [] {
      assert reparse(payloads[0]) == Some(payloads[0]);
      SecureAgreesOnCanonicalJson(payloads[1..], reparse);
    }
  }

  /** A payload that is not JSON is forwarded by the legacy relay and
      dropped by the secure one. */
  lemma NonJsonOnlyLegacy(payloads: seq<string>, reparse: string -> Option<string>, i: nat)
    requires i < |payloads| && reparse(payloads[i]).None?
    ensures Frame(payloads[i]) in LegacyFrames(payloads)
    ensures Frame(payloads[i]) in DemoSecure.JsonFrames(payloads, reparse) <==>
      exists j :: 0 <= j < |payloads| && reparse(payloads[j]) == Some(payloads[i])
  {
    LegacyFramesAt(payloads, i);
    DemoSecure.JsonFramesMember(payloads, reparse, Frame(payloads[i]));
    FrameInjective(payloads[i]);
  }

  lemma FrameInjective(p: string)
    ensures forall q :: Frame(q) == Frame(p) ==> q == p
  {
    forall q | Frame(q) == Frame(p)
      ensures q == p
    {
      assert Frame(q)[6..|Frame(q)| - 2] == q;
    }
  }

  /** An error event is a single line of JSON, so a client splitting the
      stream on line breaks reads back exactly `{"error": message}`, and the
      message itself decodes back from it. */
  lemma ErrorEventReadable(message: string)
    ensures StreamPayloads([ErrorEvent(message)]) == [ErrorObject(message)]
    ensures Unescape(Escape(message)) == Some(message)
  {
    ErrorObjectOneLine(message);
    SingleEventRoundTrip(ErrorObject(message));
    UnescapeEscape(message);
  }

  /** The calls the legacy handler makes on `res`. `url` is the `url` query
      parameter; `POST /demo` does not look at it. */
  function LegacyTrace(route: DemoSecure.Route, url: Option<string>, f: Fetch): seq<Call>
  {
    if route == DemoSecure.GetDemoStream && !Truthy(url) then [Json(400, UrlRequired)]
    else
      [WriteHead(200)] +
      match f
      case FetchFailed(m) => [Write(ErrorEvent(m)), End]
      case Fetched(status, chunks, failure) =>
        if !DemoSecure.Ok(status) then [Write(ErrorEvent(HttpErrorMessage(status))), End]
        else
          WriteAll(LegacyFrames(StreamPayloads(chunks))) + [End] + ReadFailureTail(failure)
  }

  /** What the outer `catch` adds after the inner `finally` has ended the
      response: the error event of a read that broke off, and a second end. */
  function ReadFailureTail(failure: Option<string>): seq<Call>
  {
    match failure
    case None => []
    case Some(m) => [Write(ErrorEvent(m)), End]
  }

  /** A GET without `url` is refused before any header is written and the
      service is never called; a failed fetch or a status that is not ok
      becomes one error event. */
  lemma LegacyEarlyOutcomes(route: DemoSecure.Route, url: Option<string>, f: Fetch)
    ensures route == DemoSecure.GetDemoStream && !Truthy(url) ==> LegacyTrace(route, url, f) == [Json(400, UrlRequired)]
    ensures (route == DemoSecure.PostDemo || Truthy(url)) && f.FetchFailed? ==>
      LegacyTrace(route, url, f) == [WriteHead(200), Write(ErrorEvent(f.message)), End]
    ensures (route == DemoSecure.PostDemo || Truthy(url)) && f.Fetched? && !DemoSecure.Ok(f.status) ==>
      LegacyTrace(route, url, f) == [WriteHead(200), Write(ErrorEvent(HttpErrorMessage(f.status))), End]
  {
  }

  /** On each of those early outcomes the response is finished exactly once. */
  lemma LegacyEarlyClosedOnce(route: DemoSecure.Route, url: Option<string>, f: Fetch)
    requires (route == DemoSecure.GetDemoStream && !Truthy(url)) || f.FetchFailed? || (f.Fetched? && !DemoSecure.Ok(f.status))
    ensures ClosedOnce(LegacyTrace(route, url, f))
  {
    LegacyEarlyOutcomes(route, url, f);
    CloseLast(LegacyTrace(route, url, f));
  }

  /** A stream that was read: headers, the forwarded events, the end of the
      inner `finally`, then what the outer `catch` adds when reading broke off. */
  lemma LegacyStreamShape(route: DemoSecure.Route, url: Option<string>, status: int, chunks: seq<string>, failure: Option<string>)
    requires route == DemoSecure.PostDemo || Truthy(url)
    requires DemoSecure.Ok(status)
    ensures LegacyTrace(route, url, Fetched(status, chunks, failure)) ==
      [WriteHead(200)] + WriteAll(LegacyFrames(StreamPayloads(chunks))) + [End] + ReadFailureTail(failure)
  {
  }

  /** When the body is read to its end the response is finished once. */
  lemma LegacyStreamClosedOnce(route: DemoSecure.Route, url: Option<string>, status: int, chunks: seq<string>)
    requires route == DemoSecure.PostDemo || Truthy(url)
    requires DemoSecure.Ok(status)
    ensures ClosedOnce(LegacyTrace(route, url, Fetched(status, chunks, None)))
  {
    LegacyStreamShape(route, url, status, chunks, None);
    StreamThenTailClosings(LegacyFrames(StreamPayloads(chunks)), []);
  }

  /** When reading breaks off, the inner `finally` ends the response, the
      outer `catch` then writes the error event after that end and ends it a
      second time. */
  lemma ReadFailureEndsTwice(route: DemoSecure.Route, url: Option<string>, status: int, chunks: seq<string>, message: string)
    requires route == DemoSecure.PostDemo || Truthy(url)
    requires DemoSecure.Ok(status)
    ensures var t := LegacyTrace(route, url, Fetched(status, chunks, Some(message)));
      Closings(t) == 2 && t[|t| - 3..] == [End, Write(ErrorEvent(message)), End]
  {
    var tail := [Write(ErrorEvent(message)), End];
    LegacyStreamShape(route, url, status, chunks, Some(message));
    StreamThenTailClosings(LegacyFrames(StreamPayloads(chunks)), tail);
    assert tail[1..][1..] == [];
  }

  /** What a client receives from a stream that was read: every payload
      verbatim, then the error event when reading broke off. */
  lemma LegacyStreamWrites(route: DemoSecure.Route, url: Option<string>, status: int, chunks: seq<string>, failure: Option<string>)
    requires route == DemoSecure.PostDemo || Truthy(url)
    requires DemoSecure.Ok(status)
    ensures Written(LegacyTrace(route, url, Fetched(status, chunks, failure))) ==
      LegacyFrames(StreamPayloads(chunks)) + (if failure.Some? then [ErrorEvent(failure.value)] else [])
  {
    LegacyStreamShape(route, url, status, chunks, failure);
    var tail := ReadFailureTail(failure);
    StreamThenTailWritten(LegacyFrames(StreamPayloads(chunks)), tail);
    if failure.Some? {
      assert tail[1..][1..] == [];
    }
  }

  /** Headers, writes, an end, then whatever follows: one closing more than
      the tail has. */
  lemma StreamThenTailClosings(frames: seq<string>, tail: seq<Call>)
    ensures Closings([WriteHead(200)] + WriteAll(frames) + [End] + tail) == 1 + Closings(tail)
  {
    var w := WriteAll(frames);
    var rest := [End] + tail;
    assert rest[1..] == tail;
    WriteAllShape(frames);
    ClosingsAppend(w, rest);
    var t := [WriteHead(200)] + (w + rest);
    assert t[1..] == w + rest;
    assert [WriteHead(200)] + w + [End] + tail == t;
  }

  /** Headers, writes, an end, then whatever follows: the writes, then the
      tail's. */
  lemma StreamThenTailWritten(frames: seq<string>, tail: seq<Call>)
    ensures Written([WriteHead(200)] + WriteAll(frames) + [End] + tail) == frames + Written(tail)
  {
    var w := WriteAll(frames);
    var rest := [End] + tail;
    assert rest[1..] == tail;
    WriteAllShape(frames);
    WrittenAppend(w, rest);
    assert Written(rest) == Written(tail);
    var t := [WriteHead(200)] + (w + rest);
    assert t[1..] == w + rest;
    assert Written(t) == Written(w + rest);
    CallsAssoc([WriteHead(200)] + w, [End], tail);
    CallsAssoc([WriteHead(200)], w, rest);
  }

  /* ---------------------------------------------------------------------- */
  /* The handler                                                             */

  /** One line: forwarded verbatim when it starts with `data: ` and the rest
      is not blank. */
  method LegacyRelayLine(res: Response, line: string)
    modifies res
    ensures res.calls == old(res.calls) + WriteAll(LegacyFrames(LinePayloads([line])))
  {
    assert [line][1..] == [];
    if StartsWith(line, DataPrefix) {
      var data := line[6..];
      if !IsBlank(data) {
        res.Write(Frame(data));
      }
    }
  }

  /** One chunk: `chunk.split('\n')`, then each line in order. */
  method LegacyRelayChunk(res: Response, chunk: string)
    modifies res
    ensures res.calls == old(res.calls) + WriteAll(LegacyFrames(ChunkPayloads(chunk)))
  {
    var lines := Split(chunk, '\n');
    var j := 0;
    while j < |lines|
      invariant 0 <= j <= |lines|
      invariant res.calls == old(res.calls) + WriteAll(LegacyFrames(LinePayloads(lines[..j])))
    {
      ghost var before := res.calls;
      LegacyRelayLine(res, lines[j]);
      LineStep(old(res.calls), before, res.calls, lines, j);
      j := j + 1;
    }
    assert lines[..j] == lines;
  }

  lemma LineStep(c0: seq<Call>, c1: seq<Call>, c2: seq<Call>, lines: seq<string>, j: nat)
    requires j < |lines|
    requires c1 == c0 + WriteAll(LegacyFrames(LinePayloads(lines[..j])))
    requires c2 == c1 + WriteAll(LegacyFrames(LinePayloads([lines[j]])))
    ensures c2 == c0 + WriteAll(LegacyFrames(LinePayloads(lines[..j + 1])))
  {
    assert lines[..j + 1] == lines[..j] + [lines[j]];
    LinePayloadsAppend(lines[..j], [lines[j]]);
    LegacyFramesAppend(LinePayloads(lines[..j]), LinePayloads([lines[j]]));
    ExtendWrites(c0, LegacyFrames(LinePayloads(lines[..j])), LegacyFrames(LinePayloads([lines[j]])), c2);
  }

  /** The read loop: every chunk until the body is done. */
  method LegacyRelay(res: Response, chunks: seq<string>)
    modifies res
    ensures res.calls == old(res.calls) + WriteAll(LegacyFrames(StreamPayloads(chunks)))
  {
    var i := 0;
    while i < |chunks|
      invariant 0 <= i <= |chunks|
      invariant res.calls == old(res.calls) + WriteAll(LegacyFrames(StreamPayloads(chunks[..i])))
    {
      ghost var before := res.calls;
      LegacyRelayChunk(res, chunks[i]);
      ChunkStep(old(res.calls), before, res.calls, chunks, i);
      i := i + 1;
    }
    assert chunks[..i] == chunks;
  }

  lemma ChunkStep(c0: seq<Call>, c1: seq<Call>, c2: seq<Call>, chunks: seq<string>, i: nat)
    requires i < |chunks|
    requires c1 == c0 + WriteAll(LegacyFrames(StreamPayloads(chunks[..i])))
    requires c2 == c1 + WriteAll(LegacyFrames(ChunkPayloads(chunks[i])))
    ensures c2 == c0 + WriteAll(LegacyFrames(StreamPayloads(chunks[..i + 1])))
  {
    assert chunks[..i + 1] == chunks[..i] + [chunks[i]];
    StreamPayloadsAppend(chunks[..i], [chunks[i]]);
    assert StreamPayloads([chunks[i]]) == ChunkPayloads(chunks[i]) by {
      assert [chunks[i]][1..] == [];
    }
    LegacyFramesAppend(StreamPayloads(chunks[..i]), ChunkPayloads(chunks[i]));
    ExtendWrites(c0, LegacyFrames(StreamPayloads(chunks[..i])), LegacyFrames(ChunkPayloads(chunks[i])), c2);
  }

  /** The route handler of `POST /demo` and `GET /demo-stream`. */
  method HandleLegacy(res: Response, route: DemoSecure.Route, url: Option<string>, f: Fetch)
    modifies res
    ensures res.calls == old(res.calls) + LegacyTrace(route, url, f)
  {
    if route == DemoSecure.GetDemoStream && !Truthy(url) {
      res.Json(400, UrlRequired);
      return;
    }
    res.WriteHead(200);
    ghost var start := res.calls;
    match f {
      case FetchFailed(m) =>
        res.Write(ErrorEvent(m));
        res.End();
      case Fetched(status, chunks, failure) =>
        if !DemoSecure.Ok(status) {
          res.Write(ErrorEvent(HttpErrorMessage(status)));
          res.End();
        } else {
          LegacyRelay(res, chunks);
          res.End();
          if failure.Some? {
            res.Write(ErrorEvent(failure.value));
            res.End();
          }
        }
    }
    LegacyTraceSplit(old(res.calls), start, res.calls, route, url, f);
  }

  lemma LegacyTraceSplit(c0: seq<Call>, start: seq<Call>, t: seq<Call>, route: DemoSecure.Route, url: Option<string>, f: Fetch)
    requires route == DemoSecure.PostDemo || Truthy(url)
    requires start == c0 + [WriteHead(200)]
    requires f.FetchFailed? ==> t == start + [Write(ErrorEvent(f.message))] + [End]
    requires f.Fetched? && !DemoSecure.Ok(f.status) ==> t == start + [Write(ErrorEvent(HttpErrorMessage(f.status)))] + [End]
    requires f.Fetched? && DemoSecure.Ok(f.status) && f.readFailure.None? ==>
      t == start + WriteAll(LegacyFrames(StreamPayloads(f.chunks))) + [End]
    requires f.Fetched? && DemoSecure.Ok(f.status) && f.readFailure.Some? ==>
      t == start + WriteAll(LegacyFrames(StreamPayloads(f.chunks))) + [End] + [Write(ErrorEvent(f.readFailure.value))] + [End]
    ensures t == c0 + LegacyTrace(route, url, f)
  {
    var head := [WriteHead(200)];
    match f
    case FetchFailed(m) =>
      var e := [Write(ErrorEvent(m))];
      CallsAssoc(c0, head, e);
      CallsAssoc(c0, head + e, [End]);
      assert head + e + [End] == head + [Write(ErrorEvent(m)), End];
    case Fetched(status, chunks, failure) =>
      if DemoSecure.Ok(status) {
        var w := WriteAll(LegacyFrames(StreamPayloads(chunks)));
        CallsAssoc(c0, head, w);
        CallsAssoc(c0, head + w, [End]);
        CallsAssoc(head, w, [End]);
        match failure
        case None =>
          assert w + [End] + ReadFailureTail(failure) == w + [End];
        case Some(m) =>
          var e := [Write(ErrorEvent(m))];
          var body := head + (w + [End]);
          CallsAssoc(c0, body, e);
          CallsAssoc(c0, body + e, [End]);
          assert body + e + [End] == head + (w + [End] + [Write(ErrorEvent(m)), End]);
      } else {
        var e := [Write(ErrorEvent(HttpErrorMessage(status)))];
        CallsAssoc(c0, head, e);
        CallsAssoc(c0, head + e, [End]);
        assert head + e + [End] == head + [Write(ErrorEvent(HttpErrorMessage(status))), End];
      }
  }
}
