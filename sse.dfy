/** The server-sent-event line filter that both demo relays apply to the
    upstream body: each chunk is split on '\n' on its own, and a line counts
    when it starts with `data: ` and the rest of it is not blank. */
module Sse {

  import opened JsText

  const DataPrefix: string := "data: "

  /** One server-sent event as the relays write it: `data: <payload>\n\n`. */
  function Frame(payload: string): (f: string)
    ensures StartsWith(f, DataPrefix)
    ensures |f| == |payload| + 8
    ensures f[6..|f| - 2] == payload && f[|f| - 2..] == "\n\n"
  {
    DataPrefix + payload + "\n\n"
  }

  /** The payload of an upstream line: what follows `data: `, when the line
      starts with it and that rest is not blank. */
  function DataPayload(line: string): (r: Option<string>)
    ensures r.Some? <==> StartsWith(line, DataPrefix) && !IsBlank(line[6..])
    ensures r.Some? ==> line == DataPrefix + r.value
  {
    if StartsWith(line, DataPrefix) && !IsBlank(line[6..]) then Some(line[6..]) else None
  }

  /** The payloads of a sequence of lines, in order. */
  function LinePayloads(lines: seq<string>): (ps: seq<string>)
    ensures |ps| <= |lines|
  {
    if lines == [] then []
    else
      (match DataPayload(lines[0]) case Some(p) => [p] case None => [])
      + LinePayloads(lines[1..])
  }

  /** The payloads of one chunk: `chunk.split('\n')`, then the line filter. */
  function ChunkPayloads(chunk: string): seq<string>
  {
    LinePayloads(Split(chunk, '\n'))
  }

  /** The payloads of the whole upstream body, chunk after chunk. */
  function StreamPayloads(chunks: seq<string>): seq<string>
  {
    if chunks == [] then [] else ChunkPayloads(chunks[0]) + StreamPayloads(chunks[1..])
  }

  lemma {:induction false} LinePayloadsAppend(a: seq<string>, b: seq<string>)
    ensures LinePayloads(a + b) == LinePayloads(a) + LinePayloads(b)
    decreases |a|
  {
    if a == [] {
      assert a + b == b;
    } else {
      assert (a + b)[1..] == a[1..] + b;
      LinePayloadsAppend(a[1..], b);
    }
  }

  /** Chunks are filtered independently: no line is carried from one chunk
      into the next, so the payloads of two stretches of the body are those of
      each stretch, in order. */
  lemma {:induction false} StreamPayloadsAppend(a: seq<string>, b: seq<string>)
    ensures StreamPayloads(a + b) == StreamPayloads(a) + StreamPayloads(b)
    decreases |a|
  {
    if a == [] {
      assert a + b == b;
    } else {
      assert (a + b)[1..] == a[1..] + b;
      StreamPayloadsAppend(a[1..], b);
    }
  }

  /** A payload is relayed iff some line of some chunk carries it. */
  lemma {:induction false} LinePayloadsMember(lines: seq<string>, p: string)
    ensures p in LinePayloads(lines) <==> exists j :: 0 <= j < |lines| && DataPayload(lines[j]) == Some(p)
    decreases |lines|
  {
    if lines != [] {
      LinePayloadsMember(lines[1..], p);
      if DataPayload(lines[0]) == Some(p) {
        assert p in LinePayloads(lines);
      }
      if exists j :: 0 <= j < |lines[1..]| && DataPayload(lines[1..][j]) == Some(p) {
        var j :| 0 <= j < |lines[1..]| && DataPayload(lines[1..][j]) == Some(p);
        assert DataPayload(lines[j + 1]) == Some(p);
      }
      if exists j :: 0 <= j < |lines| && DataPayload(lines[j]) == Some(p) {
        var j :| 0 <= j < |lines| && DataPayload(lines[j]) == Some(p);
        if j > 0 {
          assert DataPayload(lines[1..][j - 1]) == Some(p);
        }
      }
    }
  }

  /** An upstream that sends one event `data: p\n\n` (p on one line, not
      blank) in one chunk yields exactly that payload and nothing else. */
  lemma SingleEventRoundTrip(p: string)
    requires '\n' !in p && !IsBlank(p)
    ensures StreamPayloads([Frame(p)]) == [p]
  {
    var f := Frame(p);
    var line := DataPrefix + p;
    assert f == line + "\n" + "\n";
    SplitNoSeparator(line, '\n');
    assert IndexOfFrom(f, '\n', 0) == Some(|line|) by {
      assert f[|line|] == '\n';
      assert forall k :: 0 <= k < |line| ==> f[k] == line[k];
      IndexOfFromAt(f, '\n', 0, |line|);
    }
    assert f[|line| + 1..] == "\n";
    assert Split("\n", '\n') == ["", ""] by {
      assert IndexOfFrom("\n", '\n', 0) == Some(0);
      assert IndexOfFrom("", '\n', 0) == None;
    }
    assert Split(f, '\n') == [line, "", ""];
    assert line[6..] == p;
    assert DataPayload(line) == Some(p);
    assert DataPayload("") == None;
    assert LinePayloads([""]) == [];
    assert [line, "", ""][1..] == ["", ""] && ["", ""][1..] == [""];
    assert LinePayloads([line, "", ""]) == [p];
    assert [Frame(p)][1..] == [];
  }
}
