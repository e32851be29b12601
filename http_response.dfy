/** The Express response object `res` as the demo routes use it: every call
    the handlers make on it is appended, in order, to `calls`. */
module HttpResponse {

  import opened JsText

  /** The body of a `res.status(code).json(...)` error reply: the secure
      routes send `{error, code[, retryAfter]}`, the legacy ones `{error}`. */
  datatype JsonBody =
    | ErrorBody(error: string, code: string, retryAfter: Option<int>)
    | MessageBody(error: string)

  datatype Call =
    | WriteHead(status: int)          // res.writeHead(status, SSE headers)
    | Write(text: string)             // res.write(text)
    | End                             // res.end()
    | Json(status: int, body: JsonBody)  // res.status(status).json(body), which also ends the response

  /** A call that finishes the response. */
  predicate Closes(c: Call)
  {
    c.End? || c.Json?
  }

  /** Number of calls in `t` that finish the response. */
  function Closings(t: seq<Call>): (n: nat)
    ensures n <= |t|
  {
    if t == [] then 0 else (if Closes(t[0]) then 1 else 0) + Closings(t[1..])
  }

  /** No call finishes the response exactly when none of them closes it. */
  lemma {:induction false} ClosingsZero(t: seq<Call>)
    ensures Closings(t) == 0 <==> forall i :: 0 <= i < |t| ==> !Closes(t[i])
  {
    if t != [] {
      ClosingsZero(t[1..]);
      assert forall i :: 1 <= i < |t| ==> t[i] == t[1..][i - 1];
    }
  }

  lemma {:induction false} ClosingsAppend(a: seq<Call>, b: seq<Call>)
    ensures Closings(a + b) == Closings(a) + Closings(b)
    decreases |a|
  {
    if a != [] {
      assert (a + b)[1..] == a[1..] + b;
      ClosingsAppend(a[1..], b);
    } else {
      assert a + b == b;
    }
  }

  /** The texts written with `res.write`, in order. */
  function Written(t: seq<Call>): (w: seq<string>)
    ensures |w| <= |t|
  {
    if t == [] then []
    else (if t[0].Write? then [t[0].text] else []) + Written(t[1..])
  }

  lemma {:induction false} WrittenAppend(a: seq<Call>, b: seq<Call>)
    ensures Written(a + b) == Written(a) + Written(b)
    decreases |a|
  {
    if a != [] {
      assert (a + b)[1..] == a[1..] + b;
      WrittenAppend(a[1..], b);
    } else {
      assert a + b == b;
    }
  }

  /** Appending in two steps is appending once. */
  lemma CallsAssoc(a: seq<Call>, b: seq<Call>, c: seq<Call>)
    ensures (a + b) + c == a + (b + c)
  {
  }

  /** `t` is a well-formed response: it is finished exactly once, by its last call. */
  predicate ClosedOnce(t: seq<Call>)
  {
    |t| > 0 && Closes(t[|t| - 1]) && Closings(t) == 1
  }

  /** Calls that do not close, then one that does: closed exactly once. */
  lemma CloseLast(t: seq<Call>)
    requires |t| > 0 && Closes(t[|t| - 1])
    requires forall i :: 0 <= i < |t| - 1 ==> !Closes(t[i])
    ensures ClosedOnce(t)
  {
    var init := t[..|t| - 1];
    ClosingsZero(init);
    ClosingsAppend(init, [t[|t| - 1]]);
    assert init + [t[|t| - 1]] == t;
    assert [t[|t| - 1]][1..] == [];
  }

  /** Writes only, then one `res.end()`: the response is closed exactly once. */
  lemma WritesThenEnd(writes: seq<string>, prefix: seq<Call>)
    requires forall i :: 0 <= i < |prefix| ==> !Closes(prefix[i])
    ensures ClosedOnce(prefix + WriteAll(writes) + [End])
  {
    var w := WriteAll(writes);
    WriteAllShape(writes);
    ClosingsZero(prefix);
    ClosingsAppend(prefix, w);
    ClosingsAppend(prefix + w, [End]);
  }

  /** One `res.write` per text, in order. */
  function WriteAll(texts: seq<string>): (t: seq<Call>)
    ensures |t| == |texts|
  {
    if texts == [] then [] else [Write(texts[0])] + WriteAll(texts[1..])
  }

  /** Writing texts one by one never finishes the response, and what is
      written is exactly those texts. */
  lemma {:induction false} WriteAllShape(texts: seq<string>)
    ensures Closings(WriteAll(texts)) == 0
    ensures Written(WriteAll(texts)) == texts
    decreases |texts|
  {
    if texts != [] {
      var rest := WriteAll(texts[1..]);
      WriteAllShape(texts[1..]);
      WrittenAppend([Write(texts[0])], rest);
      ClosingsAppend([Write(texts[0])], rest);
    }
  }

  lemma {:induction false} WriteAllAppend(a: seq<string>, b: seq<string>)
    ensures WriteAll(a + b) == WriteAll(a) + WriteAll(b)
    decreases |a|
  {
    if a == [] {
      assert a + b == b;
    } else {
      assert (a + b)[1..] == a[1..] + b;
      WriteAllAppend(a[1..], b);
    }
  }

  /** Writing one more text extends the trace by one `res.write`. */
  lemma WriteAllSnoc(a: seq<string>, x: string)
    ensures WriteAll(a + [x]) == WriteAll(a) + [Write(x)]
  {
    WriteAllAppend(a, [x]);
  }

  /** A trace that already holds `done` written after `base`, extended by
      writing `more`, holds `done + more` written after `base`. */
  lemma ExtendWrites(base: seq<Call>, done: seq<string>, more: seq<string>, t: seq<Call>)
    requires t == base + WriteAll(done) + WriteAll(more)
    ensures t == base + WriteAll(done + more)
  {
    WriteAllAppend(done, more);
  }

  /** The one-text case of `ExtendWrites`. */
  lemma ExtendWrite(base: seq<Call>, done: seq<string>, x: string, t: seq<Call>)
    requires t == base + WriteAll(done) + [Write(x)]
    ensures t == base + WriteAll(done + [x])
  {
    WriteAllSnoc(done, x);
  }

  class Response {
    var calls: seq<Call>

    constructor ()
      ensures calls == []
    {
      calls := [];
    }

    method WriteHead(status: int)
      modifies this
      ensures calls == old(calls) + [Call.WriteHead(status)]
    {
      calls := calls + [Call.WriteHead(status)];
    }

    method Write(text: string)
      modifies this
      ensures calls == old(calls) + [Call.Write(text)]
    {
      calls := calls + [Call.Write(text)];
    }

    method End()
      modifies this
      ensures calls == old(calls) + [Call.End]
    {
      calls := calls + [Call.End];
    }

    method Json(status: int, body: JsonBody)
      modifies this
      ensures calls == old(calls) + [Call.Json(status, body)]
    {
      calls := calls + [Call.Json(status, body)];
    }
  }
}
