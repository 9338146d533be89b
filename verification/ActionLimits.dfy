/** One Action request through the adapter's limiter: bounded request, replayed body, bounded response. */
module ActionLimits {
  import opened Ordering
  import opened JsonPointer
  import opened JsonValues

  newtype byte = n: int | 0 <= n < 256

  type Bytes = seq<byte>

  datatype Incoming = Disconnect | Request(body: Bytes, more: bool)

  datatype Outgoing = Start(status: nat) | Body(chunk: Bytes, more: bool) | Other(kind: string)

  /** What the client is sent: one complete error response, or messages of the application. */
  datatype Sent = ErrorResponse(status: nat) | Passed(message: Outgoing)

  /** What the application asks of the two channels it is given. */
  datatype Call = Receive | Send(message: Outgoing)

  // ---------- Reading the request ----------

  datatype Reading = Waiting | Gone | TooLarge | Complete(body: Bytes)

  /** The outcome of reading the rest of the stream after `body`. */
  function Read(body: Bytes, stream: seq<Incoming>, limit: nat): Reading
    decreases |stream|
  {
    if stream == [] then Waiting
    else
      match stream[0]
      case Disconnect => Gone
      case Request(chunk, more) =>
        if |body| + |chunk| > limit then TooLarge
        else if more then Read(body + chunk, stream[1..], limit)
        else Complete(body + chunk)
  }

  /** All chunks of some request messages. */
  function Concatenated(stream: seq<Incoming>): Bytes {
    if stream == [] then []
    else (if stream[0].Request? then stream[0].body else []) + Concatenated(stream[1..])
  }

  /** The first `n` messages are chunks with more to follow. */
  predicate Continues(stream: seq<Incoming>, n: nat) {
    n <= |stream| && forall i :: 0 <= i < n ==> stream[i].Request? && stream[i].more
  }

  /** Message `n` is the last chunk of a body. */
  predicate EndsAt(stream: seq<Incoming>, n: nat) {
    n < |stream| && Continues(stream, n) && stream[n].Request? && !stream[n].more
  }

  lemma {:induction false} ConcatenatedJoined(a: seq<Incoming>, b: seq<Incoming>)
    ensures Concatenated(a + b) == Concatenated(a) + Concatenated(b)
  {
    if a == [] {
      assert a + b == b;
    } else {
      assert (a + b)[1..] == a[1..] + b;
      ConcatenatedJoined(a[1..], b);
    }
  }

  lemma ConcatenatedMore(stream: seq<Incoming>, n: nat)
    requires n < |stream|
    ensures Concatenated(stream[..n + 1]) == Concatenated(stream[..n])
      + (if stream[n].Request? then stream[n].body else [])
  {
    assert stream[..n + 1] == stream[..n] + [stream[n]];
    assert [stream[n]][1..] == [];
    ConcatenatedJoined(stream[..n], [stream[n]]);
  }

  /** After `n` accepted chunks the reader holds exactly their concatenation. */
  lemma {:induction false} ReadFrom(stream: seq<Incoming>, n: nat, limit: nat)
    requires Continues(stream, n) && |Concatenated(stream[..n])| <= limit
    ensures Read([], stream, limit) == Read(Concatenated(stream[..n]), stream[n..], limit)
  {
    if n > 0 {
      ConcatenatedMore(stream, n - 1);
      ReadFrom(stream, n - 1, limit);
      assert stream[n - 1..][1..] == stream[n..];
    } else {
      assert stream[..0] == [] && stream[0..] == stream;
    }
  }

  /** The reader stops somewhere: at the end of the stream, a disconnect, an excess or a last chunk. */
  lemma {:induction false} StopsAt(stream: seq<Incoming>, n: nat, limit: nat) returns (stop: nat)
    requires Continues(stream, n) && |Concatenated(stream[..n])| <= limit
    ensures Continues(stream, stop) && |Concatenated(stream[..stop])| <= limit
    ensures || stop == |stream|
            || stream[stop].Disconnect?
            || |Concatenated(stream[..stop + 1])| > limit
            || EndsAt(stream, stop)
    decreases |stream| - n
  {
    stop := n;
    if n >= |stream| {
    } else {
      ConcatenatedMore(stream, n);
      if stream[n].Request? && stream[n].more && |Concatenated(stream[..n + 1])| <= limit {
        stop := StopsAt(stream, n + 1, limit);
      }
    }
  }

  lemma ReadStopped(stream: seq<Incoming>, stop: nat, limit: nat)
    requires Continues(stream, stop) && |Concatenated(stream[..stop])| <= limit
    ensures stop == |stream| ==> Read([], stream, limit) == Waiting
    ensures stop < |stream| && stream[stop].Disconnect? ==> Read([], stream, limit) == Gone
    ensures stop < |stream| && stream[stop].Request? && |Concatenated(stream[..stop + 1])| > limit ==>
      Read([], stream, limit) == TooLarge
    ensures EndsAt(stream, stop) && |Concatenated(stream[..stop + 1])| <= limit ==>
      Read([], stream, limit) == Complete(Concatenated(stream[..stop + 1]))
  {
    ReadFrom(stream, stop, limit);
    if stop < |stream| {
      ConcatenatedMore(stream, stop);
    }
  }

  lemma {:induction false} PrefixFits(stream: seq<Incoming>, n: nat, m: nat)
    requires n <= m <= |stream|
    ensures |Concatenated(stream[..n])| <= |Concatenated(stream[..m])|
  {
    if n >= m {
    } else {
      ConcatenatedMore(stream, m - 1);
      PrefixFits(stream, n, m - 1);
    }
  }

  /** A body is accepted exactly when it is the concatenation of all chunks up to the last one and fits the limit. */
  lemma AcceptedExactly(stream: seq<Incoming>, limit: nat, body: Bytes)
    ensures Read([], stream, limit) == Complete(body)
      <==> exists n ::
        0 <= n < |stream| && EndsAt(stream, n) && body == Concatenated(stream[..n + 1]) && |body| <= limit
  {
    if n :| 0 <= n < |stream| && EndsAt(stream, n) && body == Concatenated(stream[..n + 1]) && |body| <= limit {
      PrefixFits(stream, n, n + 1);
      ReadStopped(stream, n, limit);
    }
    if Read([], stream, limit) == Complete(body) {
      assert stream[..0] == [];
      var stop := StopsAt(stream, 0, limit);
      ReadStopped(stream, stop, limit);
      assert EndsAt(stream, stop);
    }
  }

  /** The request is refused exactly when some chunk carries the running total over the limit. */
  lemma RefusedExactly(stream: seq<Incoming>, limit: nat)
    ensures Read([], stream, limit) == TooLarge
      <==> exists n ::
        && 0 <= n < |stream| && Continues(stream, n) && stream[n].Request?
        && |Concatenated(stream[..n + 1])| > limit
  {
    assert stream[..0] == [];
    var stop := StopsAt(stream, 0, limit);
    ReadStopped(stream, stop, limit);
    if n :| 0 <= n < |stream| && Continues(stream, n) && stream[n].Request? && |Concatenated(stream[..n + 1])| > limit {
      if stop > n {
        PrefixFits(stream, n + 1, stop);
      } else if stop < n {
        assert stream[stop].Request? && stream[stop].more;
      }
    }
  }

  // ---------- The response ----------

  function BodyBytes(messages: seq<Outgoing>): nat {
    if messages == [] then 0
    else
      var last := messages[|messages| - 1];
      BodyBytes(messages[..|messages| - 1]) + if last.Body? then |last.chunk| else 0
  }

  /** The longest beginning of the messages whose body bytes fit the limit. */
  function Fitting(messages: seq<Outgoing>, limit: nat): (kept: seq<Outgoing>)
    ensures kept <= messages && BodyBytes(kept) <= limit
    ensures kept == messages <==> BodyBytes(messages) <= limit
  {
    if messages == [] then []
    else if BodyBytes(messages) <= limit then messages
    else Fitting(messages[..|messages| - 1], limit)
  }

  lemma {:induction false} FittingIsLongest(messages: seq<Outgoing>, limit: nat, n: nat)
    requires n <= |messages| && BodyBytes(messages[..n]) <= limit
    ensures n <= |Fitting(messages, limit)|
  {
    if n == |messages| {
      assert messages[..n] == messages;
    } else if BodyBytes(messages) > limit {
      assert messages[..|messages| - 1][..n] == messages[..n];
      FittingIsLongest(messages[..|messages| - 1], limit, n);
    }
  }

  function SentBy(calls: seq<Call>): seq<Outgoing> {
    if calls == [] then []
    else
      var last := calls[|calls| - 1];
      SentBy(calls[..|calls| - 1]) + if last.Send? then [last.message] else []
  }

  /** What the application's receive calls return: the whole body once, then empty final chunks. */
  function Replies(body: Bytes, calls: seq<Call>): seq<Incoming> {
    if calls == [] then []
    else
      var before := Replies(body, calls[..|calls| - 1]);
      if calls[|calls| - 1].Receive? then before + [Request(if before == [] then body else [], false)] else before
  }

  function Wrapped(messages: seq<Outgoing>): (r: seq<Sent>)
    ensures |r| == |messages|
  {
    seq(|messages|, i requires 0 <= i < |messages| => Passed(messages[i]))
  }

  lemma {:induction false} RepliesConcatenate(body: Bytes, calls: seq<Call>)
    ensures Replies(body, calls) != [] ==> Concatenated(Replies(body, calls)) == body
    ensures forall r :: r in Replies(body, calls) ==> r.Request? && !r.more
  {
    if calls == [] {
    } else {
      var before := Replies(body, calls[..|calls| - 1]);
      RepliesConcatenate(body, calls[..|calls| - 1]);
      if calls[|calls| - 1].Receive? {
        var next := [Request(if before == [] then body else [], false)];
        ConcatenatedJoined(before, next);
        assert next[1..] == [];
      }
    }
  }

  // ---------- Required controls ----------

  /** Where a trusted control stands: a request header, or a place in the JSON body. */
  datatype Target = HeaderTarget(name: string) | BodyTarget(pointer: string)

  datatype Safety = Safety(maxRequestBytes: nat, maxResponseBytes: nat, idempotency: Target, precondition: Target)

  /** The request around the body, with `str.casefold` and `json.loads`, which are not part of this model. */
  datatype Envelope = Envelope(
    headers: seq<(string, string)>,
    casefold: string -> string,
    parse: Bytes -> Option<Json>)

  /** The last header of a name, in any letter case. */
  function HeaderValue(r: Envelope, name: string): Option<string> {
    LastHeader(r.headers, r.casefold, r.casefold(name))
  }

  function LastHeader(headers: seq<(string, string)>, casefold: string -> string, name: string): Option<string> {
    if headers == [] then None
    else
      var last := headers[|headers| - 1];
      if casefold(last.0) == name then Some(last.1) else LastHeader(headers[..|headers| - 1], casefold, name)
  }

  /** `pointer.split("/")[1:]`, each token unescaped. */
  function PlaceTokens(pointer: string): (tokens: seq<string>)
    ensures |tokens| == |Split(pointer, '/')| - 1
  {
    var raw := Split(pointer, '/')[1..];
    seq(|raw|, i requires 0 <= i < |raw| => Unescape(raw[i]))
  }

  predicate Digits(token: string) {
    token != "" && forall c :: c in token ==> '0' <= c <= '9'
  }

  /** One step into the body; a list position may have leading zeros here. */
  function Inside(value: Json, token: string): Option<Json> {
    match value
    case Obj(fields) => if token in fields then Some(fields[token]) else None
    case Arr(items) => if Digits(token) && IndexOf(token) < |items| then Some(items[IndexOf(token)]) else None
    case _ => None
  }

  function Place(value: Json, tokens: seq<string>): Option<Json>
    decreases |tokens|
  {
    if tokens == [] then Some(value)
    else
      match Inside(value, tokens[0])
      case None => None
      case Some(next) => Place(next, tokens[1..])
  }

  /** On positions without leading zeros this is the lookup of RFC 6901. */
  lemma {:induction false} PlaceIsLookup(value: Json, tokens: seq<string>)
    requires forall t :: t in tokens && Digits(t) ==> IsIndex(t)
    ensures Place(value, tokens) == Lookup(value, tokens)
    decreases |tokens|
  {
    if tokens == [] {
    } else {
      assert tokens[0] in tokens;
      match Inside(value, tokens[0])
      case None =>
      case Some(next) => PlaceIsLookup(next, tokens[1..]);
    }
  }

  /** The control is there and says something. */
  predicate Carries(r: Envelope, body: Bytes, target: Target) {
    match target
    case HeaderTarget(name) => HeaderValue(r, name).Some? && HeaderValue(r, name).value != ""
    case BodyTarget(pointer) =>
      && r.parse(body).Some?
      && var place := Place(r.parse(body).value, PlaceTokens(pointer));
         place.Some? && place.value != Null && place.value != Str("")
  }

  /** `_body_pointer_present`. */
  method BodyPointerPresent(document: Json, pointer: string) returns (present: bool)
    ensures present <==>
      var place := Place(document, PlaceTokens(pointer));
      place.Some? && place.value != Null && place.value != Str("")
  {
    var tokens := PlaceTokens(pointer);
    var current := document;
    for i := 0 to |tokens|
      invariant Place(document, tokens) == Place(current, tokens[i..])
    {
      PlaceStep(current, tokens, i);
      var next := Inside(current, tokens[i]);
      if next.None? {
        return false;
      }
      current := next.value;
    }
    present := current != Null && current != Str("");
  }

  lemma PlaceStep(value: Json, tokens: seq<string>, i: nat)
    requires i < |tokens|
    ensures Place(value, tokens[i..]) == match Inside(value, tokens[i])
      case None => None
      case Some(next) => Place(next, tokens[i + 1..])
  {
    assert tokens[i..][0] == tokens[i] && tokens[i..][1..] == tokens[i + 1..];
  }

  /** `_controls_present`: a body target asks for a JSON body before any target is looked at. */
  method ControlsPresent(r: Envelope, body: Bytes, safety: Safety) returns (present: bool)
    ensures present <==> Carries(r, body, safety.idempotency) && Carries(r, body, safety.precondition)
  {
    var targets := [safety.idempotency, safety.precondition];
    var document := None;
    if targets[0].BodyTarget? || targets[1].BodyTarget? {
      document := r.parse(body);
      if document.None? {
        return false;
      }
    }
    for i := 0 to |targets|
      invariant forall j :: 0 <= j < i ==> Carries(r, body, targets[j])
    {
      match targets[i] {
        case HeaderTarget(name) =>
          var value := HeaderValue(r, name);
          if value.None? || value.value == "" {
            assert !Carries(r, body, targets[i]);
            return false;
          }
        case BodyTarget(pointer) =>
          var there := BodyPointerPresent(document.value, pointer);
          if !there {
            assert !Carries(r, body, targets[i]);
            return false;
          }
      }
    }
    assert Carries(r, body, targets[0]) && Carries(r, body, targets[1]);
    present := true;
  }

  // ---------- The limiter ----------

  class Exchange {
    const requestLimit: nat
    const responseLimit: nat
    var body: Bytes
    var delivered: bool
    var messages: seq<Outgoing>
    var responseBytes: nat
    var exceeded: bool
    ghost var sent: seq<Outgoing>

    constructor (requestLimit: nat, responseLimit: nat)
      ensures Valid() && body == [] && !delivered && sent == []
      ensures this.requestLimit == requestLimit && this.responseLimit == responseLimit
    {
      this.requestLimit, this.responseLimit := requestLimit, responseLimit;
      body, delivered, messages, responseBytes, exceeded, sent := [], false, [], 0, false, [];
    }

    /** The request buffer and the response buffer never exceed their limits. */
    ghost predicate Valid()
      reads this
    {
      && |body| <= requestLimit
      && responseBytes == BodyBytes(sent)
      && (exceeded <==> responseBytes > responseLimit)
      && messages == Fitting(sent, responseLimit)
    }

    method ReadRequest(stream: seq<Incoming>) returns (reading: Reading)
      requires Valid() && body == []
      modifies this`body
      ensures Valid()
      ensures reading == Read([], stream, requestLimit)
      ensures reading.Complete? ==> body == reading.body
    {
      var i := 0;
      while i < |stream|
        invariant 0 <= i <= |stream| && Valid()
        invariant Read(body, stream[i..], requestLimit) == Read([], stream, requestLimit)
      {
        assert stream[i..][1..] == stream[i + 1..];
        match stream[i] {
          case Disconnect => return Gone;
          case Request(chunk, more) =>
            if |body| + |chunk| > requestLimit {
              return TooLarge;
            }
            body := body + chunk;
            if !more {
              return Complete(body);
            }
        }
        i := i + 1;
      }
      reading := Waiting;
    }

    method Replay() returns (message: Incoming)
      requires Valid()
      modifies this`delivered
      ensures Valid() && delivered
      ensures message == Request(if old(delivered) then [] else body, false)
    {
      if delivered {
        return Request([], false);
      }
      delivered := true;
      message := Request(body, false);
    }

    method BoundedSend(message: Outgoing)
      requires Valid()
      modifies this`messages, this`responseBytes, this`exceeded, this`sent
      ensures Valid() && sent == old(sent) + [message]
    {
      ghost var all := sent + [message];
      assert all[..|all| - 1] == sent;
      if message.Body? {
        responseBytes := responseBytes + |message.chunk|;
        exceeded := exceeded || responseBytes > responseLimit;
      }
      if !exceeded {
        messages := messages + [message];
      }
      sent := all;
    }

    /** The application with the replayed request and the bounded response channel. */
    method RunApp(calls: seq<Call>) returns (replies: seq<Incoming>)
      requires Valid() && !delivered && sent == []
      modifies this`delivered, this`messages, this`responseBytes, this`exceeded, this`sent
      ensures Valid() && sent == SentBy(calls)
      ensures replies == Replies(body, calls)
    {
      replies := [];
      for i := 0 to |calls|
        invariant Valid() && sent == SentBy(calls[..i]) && replies == Replies(body, calls[..i])
        invariant delivered <==> replies != []
      {
        assert calls[..i + 1][..i] == calls[..i];
        match calls[i] {
          case Receive =>
            var reply := Replay();
            replies := replies + [reply];
          case Send(message) => BoundedSend(message);
        }
      }
      assert calls[..|calls|] == calls;
    }
  }

  /** What the client gets when the application does not run. */
  function Refusal(reading: Reading): seq<Sent> {
    match reading
    case TooLarge => [ErrorResponse(413)]
    case Complete(_) => [ErrorResponse(400)]
    case _ => []
  }

  /** The request is complete and carries both controls. */
  predicate Admitted(safety: Safety, r: Envelope, reading: Reading) {
    && reading.Complete?
    && Carries(r, reading.body, safety.idempotency) && Carries(r, reading.body, safety.precondition)
  }

  /**
   * The whole exchange, for every request and every sequence of calls the application makes, after which it may
   * raise: then nothing of its response has been sent.
   */
  method Handle(safety: Safety, r: Envelope, stream: seq<Incoming>, calls: seq<Call>, raises: bool)
    returns (client: seq<Sent>, ran: bool, replies: seq<Incoming>)
    ensures ran <==> Admitted(safety, r, Read([], stream, safety.maxRequestBytes))
    ensures ran ==> replies == Replies(Read([], stream, safety.maxRequestBytes).body, calls)
    ensures ran && raises ==> client == []
    ensures ran && !raises ==>
      client ==
        if BodyBytes(SentBy(calls)) > safety.maxResponseBytes then [ErrorResponse(502)] else Wrapped(SentBy(calls))
    ensures !ran ==> replies == []
    ensures !ran ==> client == Refusal(Read([], stream, safety.maxRequestBytes))
  {
    var exchange := new Exchange(safety.maxRequestBytes, safety.maxResponseBytes);
    client, ran, replies := [], false, [];
    var reading := exchange.ReadRequest(stream);
    match reading {
      case Waiting =>
      case Gone =>
      case TooLarge => client := [ErrorResponse(413)];
      case Complete(body) =>
        var present := ControlsPresent(r, exchange.body, safety);
        if !present {
          client := [ErrorResponse(400)];
        } else {
          ran := true;
          replies := exchange.RunApp(calls);
          if !raises {
            client := if exchange.exceeded then [ErrorResponse(502)] else Wrapped(exchange.messages);
          }
        }
    }
  }
}
