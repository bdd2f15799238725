/** The daemon's socket protocol: command dispatch on the server, the list
    of connected clients, and the two client classes.  Messages arrive
    already decoded; what a socket does (a send that fails, a reply that is
    empty or garbled, a connection attempt that is refused) is an input. */
module Ipc {
  import opened Values

  /** What a registered handler does with a message. */
  datatype HandlerOutcome = Returns(reply: Message) | Raises(error: string)

  type Handler = Message -> HandlerOutcome

  type Handlers = map<string, Handler>

  /** The result of `_process_message`: a reply, or an exception that
      escapes to `_handle_client`. */
  datatype Processed = Replied(reply: Message) | Escaped(error: string)

  function UnhashableError(v: Value): string {
    "unhashable type: '" + TypeName(v) + "'"
  }

  /** `_process_message`.  The handler table is keyed by strings, so only a
      string command can find a handler; a list or dict command cannot even
      be looked up. */
  function ProcessMessage(handlers: Handlers, m: Message): Processed {
    var command := Get(m, "command", Null);
    if !Truthy(command) then Replied(ErrorReply("Missing command"))
    else if !Hashable(command) then Escaped(UnhashableError(command))
    else if command.Str? && command.s in handlers then
      match handlers[command.s](m)
      case Returns(reply) => Replied(reply)
      case Raises(e) => Replied(ErrorReply("Handler error: " + e))
    else Replied(ErrorReply("Unknown command: " + Display(command)))
  }

  /** A registered string command runs its handler; every other message
      gets one of the three dispatch errors or escapes, and which one is
      decided by the command field alone. */
  lemma DispatchCases(handlers: Handlers, m: Message)
    ensures var command := Get(m, "command", Null);
      var r := ProcessMessage(handlers, m);
      && (!Truthy(command) ==> r == Replied(ErrorReply("Missing command")))
      && (r.Escaped? <==> Truthy(command) && !Hashable(command))
      && (Truthy(command) && Hashable(command) && !(command.Str? && command.s in handlers) ==>
            r == Replied(ErrorReply("Unknown command: " + Display(command))))
      && (command.Str? && command.s in handlers && command.s != "" ==>
            r == (match handlers[command.s](m)
                  case Returns(reply) => Replied(reply)
                  case Raises(e) => Replied(ErrorReply("Handler error: " + e))))
  {}

  /** `register_handler` affects exactly the messages that name it: they
      now reach the new handler, and every other message is dispatched as
      before. */
  lemma RegisterThenDispatch(handlers: Handlers, name: string, h: Handler, m: Message)
    ensures Get(m, "command", Null) == Str(name) && name != "" ==>
      ProcessMessage(handlers[name := h], m) ==
        (match h(m) case Returns(reply) => Replied(reply) case Raises(e) => Replied(ErrorReply("Handler error: " + e)))
    ensures Get(m, "command", Null) != Str(name) ==>
      ProcessMessage(handlers[name := h], m) == ProcessMessage(handlers, m)
  {}

  /** A registered name that is empty can never be reached: an empty
      command is falsy and is answered "Missing command". */
  lemma EmptyNameUnreachable(handlers: Handlers, m: Message)
    requires "" in handlers && Get(m, "command", Null) == Str("")
    ensures ProcessMessage(handlers, m) == Replied(ErrorReply("Missing command"))
  {}

  /** What `recv` and `json.loads` made of one read on the server. */
  datatype Incoming = Json(v: Value) | InvalidJson | InvalidText(error: string)

  /** The one reply `_handle_client` sends for each received message. */
  function ReplyTo(handlers: Handlers, incoming: Incoming): Message {
    match incoming
    case InvalidJson => ErrorReply("Invalid JSON")
    case InvalidText(e) => ErrorReply(e)
    case Json(v) =>
      if v.Obj? then
        match ProcessMessage(handlers, v.fields)
        case Replied(reply) => reply
        case Escaped(e) => ErrorReply(e)
      else ErrorReply("'" + TypeName(v) + "' object has no attribute 'get'")
  }

  /** Handlers that always answer with a protocol status. */
  ghost predicate StatusHandlers(handlers: Handlers) {
    forall name, m :: name in handlers && handlers[name](m).Returns? ==> HasProtocolStatus(handlers[name](m).reply)
  }

  /** With well-behaved handlers every reply the server sends carries
      "success" or "error", whatever arrives on the socket. */
  lemma ReplyHasStatus(handlers: Handlers, incoming: Incoming)
    requires StatusHandlers(handlers)
    ensures HasProtocolStatus(ReplyTo(handlers, incoming))
  {
    if incoming.Json? && incoming.v.Obj? {
      var m := incoming.v.fields;
      var command := Get(m, "command", Null);
      if Truthy(command) && Hashable(command) && command.Str? && command.s in handlers {
        assert handlers[command.s](m).Returns? ==> HasProtocolStatus(handlers[command.s](m).reply);
      }
    }
  }

  /** One read on a client connection and whether the reply could be sent. */
  datatype Delivery = Data(incoming: Incoming, sendOk: bool)

  /** The replies `_handle_client` writes: one per message, until the
      connection closes or a send fails. */
  function ServeRun(handlers: Handlers, ds: seq<Delivery>): (r: seq<Message>)
    ensures |r| <= |ds|
  {
    if ds == [] || !ds[0].sendOk then []
    else [ReplyTo(handlers, ds[0].incoming)] + ServeRun(handlers, ds[1..])
  }

  /** When every send succeeds there is exactly one reply per message, in
      order, and a message that is not JSON does not end the connection. */
  lemma {:induction false} OneReplyPerMessage(handlers: Handlers, ds: seq<Delivery>)
    requires forall i :: 0 <= i < |ds| ==> ds[i].sendOk
    ensures |ServeRun(handlers, ds)| == |ds|
    ensures forall i :: 0 <= i < |ds| ==> ServeRun(handlers, ds)[i] == ReplyTo(handlers, ds[i].incoming)
  {
    if ds != [] {
      OneReplyPerMessage(handlers, ds[1..]);
    }
  }

  type ClientId = nat

  predicate Distinct(cs: seq<ClientId>) {
    forall i, j :: 0 <= i < j < |cs| ==> cs[i] != cs[j]
  }

  /** `list.remove`: the first occurrence goes, and nothing else. */
  function RemoveFirst(cs: seq<ClientId>, c: ClientId): (r: seq<ClientId>)
    ensures c !in cs ==> r == cs
    ensures forall x :: x in r ==> x in cs
  {
    if cs == [] then []
    else if cs[0] == c then cs[1..]
    else [cs[0]] + RemoveFirst(cs[1..], c)
  }

  /** The clients whose send did not fail, in their original order. */
  function Survivors(cs: seq<ClientId>, failing: set<ClientId>): (r: seq<ClientId>)
    ensures |r| <= |cs|
    ensures forall x :: x in r ==> x in cs && x !in failing
  {
    if cs == [] then []
    else Survivors(cs[..|cs| - 1], failing) + (if cs[|cs| - 1] in failing then [] else [cs[|cs| - 1]])
  }

  /** Broadcast keeps every client whose send succeeded. */
  lemma {:induction false} SurvivorsKeep(cs: seq<ClientId>, failing: set<ClientId>, x: ClientId)
    requires x in cs && x !in failing
    ensures x in Survivors(cs, failing)
    decreases |cs|
  {
    var init := cs[..|cs| - 1];
    if cs[|cs| - 1] != x {
      assert cs == init + [cs[|cs| - 1]];
      SurvivorsKeep(init, failing, x);
    }
  }

  lemma DistinctAppend(a: seq<ClientId>, x: ClientId)
    requires Distinct(a) && x !in a
    ensures Distinct(a + [x])
  {}

  lemma {:induction false} SurvivorsDistinct(cs: seq<ClientId>, failing: set<ClientId>)
    requires Distinct(cs)
    ensures Distinct(Survivors(cs, failing))
    decreases |cs|
  {
    if cs != [] {
      var init := cs[..|cs| - 1];
      assert Distinct(init);
      SurvivorsDistinct(init, failing);
      if cs[|cs| - 1] !in failing {
        DistinctAppend(Survivors(init, failing), cs[|cs| - 1]);
      }
    }
  }

  lemma {:induction false} RemoveFirstDistinct(cs: seq<ClientId>, c: ClientId)
    requires Distinct(cs)
    ensures Distinct(RemoveFirst(cs, c)) && c !in RemoveFirst(cs, c)
    decreases |cs|
  {
    if cs != [] && cs[0] != c {
      assert Distinct(cs[1..]);
      RemoveFirstDistinct(cs[1..], c);
      assert cs[0] !in cs[1..];
      assert cs[0] !in RemoveFirst(cs[1..], c);
    }
  }

  lemma {:induction false} RemoveFirstSkip(a: seq<ClientId>, x: ClientId, b: seq<ClientId>)
    requires x !in a
    ensures RemoveFirst(a + [x] + b, x) == a + b
    decreases |a|
  {
    if a == [] {
      assert a + [x] + b == [x] + b;
    } else {
      var l := a + [x] + b;
      assert l[0] == a[0] && a[0] != x;
      assert l[1..] == a[1..] + [x] + b;
      assert RemoveFirst(l, x) == [a[0]] + RemoveFirst(l[1..], x);
      RemoveFirstSkip(a[1..], x, b);
      assert a == [a[0]] + a[1..];
      assert [a[0]] + (a[1..] + b) == ([a[0]] + a[1..]) + b;
    }
  }

  /** One client of the broadcast loop: a failing one leaves the list, the
      others stay where they are. */
  lemma BroadcastStep(snapshot: seq<ClientId>, i: nat, failing: set<ClientId>)
    requires Distinct(snapshot) && i < |snapshot|
    ensures var before := Survivors(snapshot[..i], failing) + snapshot[i..];
      var after := Survivors(snapshot[..i + 1], failing) + snapshot[i + 1..];
      if snapshot[i] in failing then RemoveFirst(before, snapshot[i]) == after else before == after
  {
    var x := snapshot[i];
    var pre := Survivors(snapshot[..i], failing);
    var post := snapshot[i + 1..];
    assert Survivors(snapshot[..i + 1], failing) == pre + (if x in failing then [] else [x]) by {
      assert snapshot[..i + 1][..i] == snapshot[..i];
      assert snapshot[..i + 1][i] == x;
    }
    assert snapshot[i..] == [x] + post;
    if x in failing {
      assert x !in pre by {
        assert x !in snapshot[..i] by {
          forall j | 0 <= j < i
            ensures snapshot[..i][j] != x
          {
            assert snapshot[..i][j] == snapshot[j];
          }
        }
      }
      RemoveFirstSkip(pre, x, post);
      assert pre + snapshot[i..] == pre + [x] + post;
      assert pre + [] == pre;
    } else {
      assert pre + snapshot[i..] == (pre + [x]) + post;
    }
  }

  lemma BroadcastEnd(snapshot: seq<ClientId>, failing: set<ClientId>)
    requires Distinct(snapshot)
    ensures Survivors(snapshot[..|snapshot|], failing) + snapshot[|snapshot|..] == Survivors(snapshot, failing)
    ensures Distinct(Survivors(snapshot, failing))
    ensures snapshot == [] ==> Survivors(snapshot, failing) == []
  {
    assert snapshot[..|snapshot|] == snapshot;
    SurvivorsDistinct(snapshot, failing);
  }

  class IpcServer {
    var running: bool
    var clients: seq<ClientId>
    var handlers: Handlers

    /** Every connection is a distinct socket, and a stopped server has no
        clients. */
    ghost predicate Valid()
      reads this`running, this`clients
    {
      Distinct(clients) && (!running ==> clients == [])
    }

    constructor ()
      ensures Valid() && !running && clients == [] && handlers == map[]
    {
      running := false;
      clients := [];
      handlers := map[];
    }

    /** `register_handler` */
    method RegisterHandler(command: string, handler: Handler)
      modifies this`handlers
      ensures handlers == old(handlers)[command := handler]
    {
      handlers := handlers[command := handler];
    }

    /** `start`: a no-op while running. */
    method Start()
      requires Valid()
      modifies this`running
      ensures Valid() && running
    {
      if running {
        return;
      }
      running := true;
    }

    /** `stop`: a no-op while stopped; otherwise every client is closed and
        dropped.  Either way the server ends stopped with no clients. */
    method Stop()
      requires Valid()
      modifies this`running, this`clients
      ensures Valid() && !running && clients == []
      ensures !old(running) ==> clients == old(clients)
    {
      if !running {
        return;
      }
      running := false;
      clients := [];
    }

    /** One pass of `_server_loop`: a new connection joins the list while
        the server runs. */
    method Accept(c: ClientId)
      requires Valid() && c !in clients
      modifies this`clients
      ensures Valid()
      ensures clients == if running then old(clients) + [c] else old(clients)
    {
      if running {
        DistinctAppend(clients, c);
        clients := clients + [c];
      }
    }

    /** `_handle_client` for connection `c`: one reply per message until the
        connection closes or a send fails; then the client leaves the list. */
    method ServeClient(c: ClientId, ds: seq<Delivery>) returns (replies: seq<Message>)
      requires Valid()
      modifies this`clients
      ensures Valid() && c !in clients
      ensures replies == if running then ServeRun(handlers, ds) else []
      ensures clients == RemoveFirst(old(clients), c)
    {
      replies := [];
      var i := 0;
      while running && i < |ds|
        invariant 0 <= i <= |ds|
        invariant replies + ServeRun(handlers, ds[i..]) == ServeRun(handlers, ds)
        invariant !running ==> replies == []
        decreases |ds| - i
      {
        var d := ds[i];
        var reply := ReplyTo(handlers, d.incoming);
        if !d.sendOk {
          assert ServeRun(handlers, ds[i..]) == [];
          break;
        }
        assert ds[i..][1..] == ds[i + 1..];
        replies := replies + [reply];
        i := i + 1;
      }
      RemoveFirstDistinct(clients, c);
      clients := RemoveFirst(clients, c);
    }

    /** `broadcast_message`: every client gets the message; those whose
        send fails are closed and dropped.  Returns the clients reached. */
    method Broadcast(message: Message, failing: set<ClientId>) returns (reached: seq<ClientId>)
      requires Valid()
      modifies this`clients
      ensures Valid()
      ensures reached == Survivors(old(clients), failing) && clients == reached
    {
      var snapshot := clients;
      var i := 0;
      while i < |snapshot|
        invariant 0 <= i <= |snapshot|
        invariant clients == Survivors(snapshot[..i], failing) + snapshot[i..]
        invariant Distinct(snapshot)
        decreases |snapshot| - i
      {
        var client := snapshot[i];
        BroadcastStep(snapshot, i, failing);
        if client in failing {
          clients := RemoveFirst(clients, client);
        }
        i := i + 1;
      }
      BroadcastEnd(snapshot, failing);
      reached := clients;
    }
  }

  // ---------------------------------------------------------------------
  // Clients

  /** What one `recv` on a client socket produced. */
  datatype Arrival = Received(m: Message) | Closed | Garbled | TimedOut | Broken(error: string)

  /** One connection attempt of `connect`. */
  datatype Attempt = Refused | Accepted | Failed(error: string)

  /** Whether the attempts made before the timeout end in a connection:
      refused attempts are retried, any other error gives up. */
  function Connects(attempts: seq<Attempt>): bool {
    if attempts == [] then false
    else match attempts[0]
      case Refused => Connects(attempts[1..])
      case Accepted => true
      case Failed(_) => false
  }

  lemma {:induction false} ConnectsIffFirstAcceptedAfterRefusals(attempts: seq<Attempt>)
    ensures Connects(attempts) <==>
      exists k :: 0 <= k < |attempts| && attempts[k] == Accepted && forall i :: 0 <= i < k ==> attempts[i] == Refused
  {
    if attempts != [] {
      ConnectsIffFirstAcceptedAfterRefusals(attempts[1..]);
      if attempts[0] == Refused && Connects(attempts[1..]) {
        var k :| 0 <= k < |attempts[1..]| && attempts[1..][k] == Accepted
                 && forall i :: 0 <= i < k ==> attempts[1..][i] == Refused;
        assert forall i :: 0 <= i < k + 1 ==> attempts[i] == Refused || i == k + 1;
      }
      if exists k :: 0 <= k < |attempts| && attempts[k] == Accepted && forall i :: 0 <= i < k ==> attempts[i] == Refused {
        var k :| 0 <= k < |attempts| && attempts[k] == Accepted && forall i :: 0 <= i < k ==> attempts[i] == Refused;
        if k > 0 {
          assert attempts[1..][k - 1] == Accepted;
          assert forall i :: 0 <= i < k - 1 ==> attempts[1..][i] == Refused;
        }
      }
    }
  }

  /** `{"command": command, **kwargs}`; Python rejects a keyword argument
      named `command`. */
  function Outgoing(command: string, kwargs: Message): (m: Message)
    requires "command" !in kwargs
    ensures m.Keys == kwargs.Keys + {"command"} && m["command"] == Str(command)
    ensures forall k :: k in kwargs ==> m[k] == kwargs[k]
  {
    kwargs["command" := Str(command)]
  }

  /** The reply `send_command` returns for what came back. */
  function CommandReply(arrival: Arrival): Message {
    match arrival
    case Received(m) => m
    case Closed => ErrorReply("Connection closed")
    case Garbled => ErrorReply("Invalid response from daemon")
    case TimedOut => ErrorReply("Communication error: timed out")
    case Broken(e) => ErrorReply("Communication error: " + e)
  }

  /** What `receive_message` returns for what came back. */
  function ReceivedMessage(arrival: Arrival): Option<Message> {
    match arrival
    case Received(m) => Some(m)
    case Closed => None
    case TimedOut => None
    case Garbled => Some(ErrorReply("Invalid message from daemon"))
    case Broken(e) => Some(ErrorReply("Receive error: " + e))
  }

  /** A failure on the socket never looks like success to the caller of
      `send_command`: only a received reply can carry another status. */
  lemma CommandReplyFailures(arrival: Arrival)
    ensures !arrival.Received? ==> CommandReply(arrival)["status"] == Str("error")
    ensures arrival.Received? ==> CommandReply(arrival) == arrival.m
  {}

  class IpcClient {
    var connected: bool
    /** Whether `self.socket` is not None. */
    var hasSocket: bool

    constructor ()
      ensures !connected && !hasSocket
    {
      connected := false;
      hasSocket := false;
    }

    /** `connect`: true at once when connected; otherwise the attempts made
        within the timeout are tried in turn. */
    method Connect(attempts: seq<Attempt>) returns (ok: bool)
      modifies this
      ensures ok == (old(connected) || Connects(attempts))
      ensures connected == ok
      ensures hasSocket == (old(hasSocket) || (!old(connected) && attempts != []))
    {
      if connected {
        return true;
      }
      var i := 0;
      while i < |attempts|
        invariant 0 <= i <= |attempts|
        invariant Connects(attempts) == Connects(attempts[i..])
        invariant !connected
        invariant hasSocket == (old(hasSocket) || i > 0)
        decreases |attempts| - i
      {
        hasSocket := true;
        assert attempts[i..][1..] == attempts[i + 1..];
        match attempts[i]
        case Accepted =>
          connected := true;
          return true;
        case Failed(_) =>
          return false;
        case Refused =>
          i := i + 1;
      }
      return false;
    }

    /** `disconnect` */
    method Disconnect()
      modifies this
      ensures !connected && !hasSocket
    {
      hasSocket := false;
      connected := false;
    }

    /** `send_command`: nothing is sent while not connected.  Returns the
        message that was sent and the reply. */
    method SendCommand(command: string, kwargs: Message, arrival: Arrival) returns (sent: Option<Message>, reply: Message)
      requires "command" !in kwargs
      ensures !connected ==> sent == None && reply == ErrorReply("Not connected to daemon")
      ensures connected ==> sent == Some(Outgoing(command, kwargs)) && reply == CommandReply(arrival)
    {
      if !connected {
        return None, ErrorReply("Not connected to daemon");
      }
      sent := Some(Outgoing(command, kwargs));
      reply := CommandReply(arrival);
    }

    /** `receive_message` */
    method ReceiveMessage(arrival: Arrival) returns (r: Option<Message>)
      ensures !connected ==> r == None
      ensures connected ==> r == ReceivedMessage(arrival)
    {
      if !connected {
        return None;
      }
      r := ReceivedMessage(arrival);
    }
  }

  /** The branch `_stream_loop` takes for a message. */
  datatype Classified = Transcript(text: Value) | Ignored | ErrorEnd(message: Value) | StoppedEnd

  function Classify(m: Message): Classified {
    if Get(m, "type", Null) == Str("transcription") then
      var text := Get(m, "text", Str(""));
      if Truthy(text) then Transcript(text) else Ignored
    else if Get(m, "status", Null) == Str("error") then ErrorEnd(Get(m, "message", Str("Unknown error")))
    else if Get(m, "type", Null) == Str("recording_stopped") then StoppedEnd
    else Ignored
  }

  predicate Ends(c: Classified) {
    c.ErrorEnd? || c.StoppedEnd?
  }

  /** What one `receive_message` result does in `_stream_loop`: the
      transcriptions and errors passed to the callbacks, and whether the
      loop ends. */
  function Effect(m: Option<Message>, onTranscription: bool, onError: bool): (seq<Value>, seq<Value>, bool) {
    if m.None? then ([], [], false)
    else match Classify(m.value)
      case Transcript(t) => (if onTranscription then [t] else [], [], false)
      case Ignored => ([], [], false)
      case ErrorEnd(e) => ([], if onError then [e] else [], true)
      case StoppedEnd => ([], [], true)
  }

  /** The callbacks `_stream_loop` makes for the results of successive
      `receive_message` calls, and the results it did not read because the
      loop had ended. */
  function StreamRun(ms: seq<Option<Message>>, onTranscription: bool, onError: bool)
    : (seq<Value>, seq<Value>, seq<Option<Message>>)
  {
    if ms == [] then ([], [], [])
    else
      var e := Effect(ms[0], onTranscription, onError);
      if e.2 then (e.0, e.1, ms[1..])
      else
        var r := StreamRun(ms[1..], onTranscription, onError);
        (e.0 + r.0, e.1 + r.1, r.2)
  }

  /** The results left unread are a tail of the input. */
  lemma {:induction false} StreamRunUnread(ms: seq<Option<Message>>, onT: bool, onE: bool)
    ensures var rest := StreamRun(ms, onT, onE).2;
      |rest| <= |ms| && rest == ms[|ms| - |rest|..]
  {
    if ms != [] && !Effect(ms[0], onT, onE).2 {
      StreamRunUnread(ms[1..], onT, onE);
      var rest := StreamRun(ms[1..], onT, onE).2;
      assert ms[1..][|ms[1..]| - |rest|..] == ms[|ms| - |rest|..];
    }
  }

  /** What one result contributes: at most one non-empty transcription,
      only when the callback is set, and an error only when it both has a
      callback and ends the loop. */
  lemma EffectFacts(m: Option<Message>, onT: bool, onE: bool)
    ensures var e := Effect(m, onT, onE);
      && |e.0| <= 1 && (e.0 != [] ==> onT && Truthy(e.0[0]))
      && (e.1 != [] ==> onE && e.2 && |e.1| == 1)
      && (e.2 <==> m.Some? && Ends(Classify(m.value)))
  {}

  /** Every delivered transcription is non-empty, at most one error is
      delivered, and the loop reads past a result only when it neither ends
      the loop nor is the last. */
  lemma {:induction false} StreamRunFacts(ms: seq<Option<Message>>, onT: bool, onE: bool)
    ensures var (ts, es, rest) := StreamRun(ms, onT, onE);
      && (forall i :: 0 <= i < |ts| ==> Truthy(ts[i]))
      && |es| <= 1
      && (ts != [] ==> onT)
      && (es != [] ==> onE)
      && (rest != [] ==> exists k :: 0 <= k < |ms| && ms[k].Some? && Ends(Classify(ms[k].value)))
  {
    if ms != [] {
      var e := Effect(ms[0], onT, onE);
      EffectFacts(ms[0], onT, onE);
      if e.2 {
        assert StreamRun(ms, onT, onE) == (e.0, e.1, ms[1..]);
        assert 0 <= 0 < |ms| && ms[0].Some? && Ends(Classify(ms[0].value));
      } else {
        StreamRunFacts(ms[1..], onT, onE);
        var r := StreamRun(ms[1..], onT, onE);
        assert StreamRun(ms, onT, onE) == (e.0 + r.0, e.1 + r.1, r.2);
        assert e.1 == [] && e.1 + r.1 == r.1;
        forall i | 0 <= i < |e.0 + r.0|
          ensures Truthy((e.0 + r.0)[i])
        {
          if i >= |e.0| {
            assert (e.0 + r.0)[i] == r.0[i - |e.0|];
          }
        }
        if r.2 != [] {
          var k :| 0 <= k < |ms[1..]| && ms[1..][k].Some? && Ends(Classify(ms[1..][k].value));
          assert ms[k + 1] == ms[1..][k];
        }
      }
    }
  }

  /** A message that ends the loop hides everything after it. */
  lemma StreamEndsAt(m: Message, post: seq<Option<Message>>, post': seq<Option<Message>>, onT: bool, onE: bool)
    requires Ends(Classify(m))
    ensures StreamRun([Some(m)] + post, onT, onE).0 == StreamRun([Some(m)] + post', onT, onE).0
    ensures StreamRun([Some(m)] + post, onT, onE).1 == StreamRun([Some(m)] + post', onT, onE).1
  {}

  /** `StreamRun` from position `i`, one result at a time: what it delivers
      after callbacks `ts` and `es` have been made. */
  lemma StreamStep(ms: seq<Option<Message>>, i: nat, ts: seq<Value>, es: seq<Value>, onT: bool, onE: bool)
    requires i < |ms|
    ensures var r := StreamRun(ms[i..], onT, onE);
      var r' := StreamRun(ms[i + 1..], onT, onE);
      var e := Effect(ms[i], onT, onE);
      && (e.2 ==> ts + e.0 == ts + r.0 && es + e.1 == es + r.1 && r.2 == ms[i + 1..])
      && (!e.2 ==> (ts + e.0) + r'.0 == ts + r.0 && (es + e.1) + r'.1 == es + r.1 && r'.2 == r.2)
  {
    assert ms[i..][0] == ms[i];
    assert ms[i..][1..] == ms[i + 1..];
    var r' := StreamRun(ms[i + 1..], onT, onE);
    var e := Effect(ms[i], onT, onE);
    assert (ts + e.0) + r'.0 == ts + (e.0 + r'.0);
    assert (es + e.1) + r'.1 == es + (e.1 + r'.1);
  }

  class StreamingClient {
    const client: IpcClient
    var streaming: bool
    var onTranscription: bool
    var onError: bool
    /** The texts passed to `on_transcription` and `on_error`, in order. */
    var transcripts: seq<Value>
    var errors: seq<Value>

    constructor (client: IpcClient)
      ensures this.client == client && !streaming && !onTranscription && !onError
      ensures transcripts == [] && errors == []
    {
      this.client := client;
      streaming := false;
      onTranscription := false;
      onError := false;
      transcripts := [];
      errors := [];
    }

    /** `start_streaming`: a no-op while streaming; otherwise the callbacks
        are stored and start_recording is sent, and streaming begins only on
        a "success" reply. */
    method StartStreaming(withTranscription: bool, withError: bool, arrival: Arrival) returns (sent: Option<Message>)
      modifies this`streaming, this`onTranscription, this`onError, this`errors
      ensures old(streaming) ==> (sent == None && streaming && onError == old(onError)
        && onTranscription == old(onTranscription) && errors == old(errors))
      ensures !old(streaming) ==>
        var reply := if client.connected then CommandReply(arrival) else ErrorReply("Not connected to daemon");
        && onTranscription == withTranscription && onError == withError
        && sent == (if client.connected then Some(Outgoing("start_recording", map[])) else None)
        && (streaming <==> Get(reply, "status", Null) == Str("success"))
        && errors == old(errors) + (if !streaming && withError
             then [Str("Failed to start recording: " + Display(Get(reply, "message", Str("Unknown error"))))]
             else [])
    {
      if streaming {
        return None;
      }
      onTranscription := withTranscription;
      onError := withError;
      var reply;
      sent, reply := client.SendCommand("start_recording", map[], arrival);
      if Get(reply, "status", Null) != Str("success") {
        if onError {
          errors := errors + [Str("Failed to start recording: " + Display(Get(reply, "message", Str("Unknown error"))))];
        }
        return;
      }
      streaming := true;
    }

    /** `stop_streaming`: a no-op while not streaming; otherwise streaming
        ends and stop_recording is sent (its reply is ignored). */
    method StopStreaming(arrival: Arrival) returns (sent: Option<Message>)
      modifies this`streaming
      ensures !streaming
      ensures !old(streaming) ==> sent == None
      ensures old(streaming) ==> sent == if client.connected then Some(Outgoing("stop_recording", map[])) else None
    {
      if !streaming {
        return None;
      }
      streaming := false;
      var reply;
      sent, reply := client.SendCommand("stop_recording", map[], arrival);
    }

    /** One pass of `_stream_loop` on a `receive_message` result. */
    method Deliver(m: Option<Message>) returns (ends: bool)
      modifies this`transcripts, this`errors
      ensures var e := Effect(m, onTranscription, onError);
        transcripts == old(transcripts) + e.0 && errors == old(errors) + e.1 && ends == e.2
    {
      if m.None? {
        return false;
      }
      match Classify(m.value)
      case Transcript(text) =>
        if onTranscription {
          transcripts := transcripts + [text];
        }
        return false;
      case Ignored =>
        return false;
      case ErrorEnd(e) =>
        if onError {
          errors := errors + [e];
        }
        return true;
      case StoppedEnd =>
        return true;
    }

    /** `_stream_loop` over the results of successive `receive_message`
        calls. */
    method StreamLoop(ms: seq<Option<Message>>) returns (unread: seq<Option<Message>>)
      modifies this`transcripts, this`errors
      ensures !streaming ==> unread == ms && transcripts == old(transcripts) && errors == old(errors)
      ensures streaming ==>
        && transcripts == old(transcripts) + StreamRun(ms, onTranscription, onError).0
        && errors == old(errors) + StreamRun(ms, onTranscription, onError).1
        && unread == StreamRun(ms, onTranscription, onError).2
    {
      if !streaming {
        return ms;
      }
      ghost var goal := StreamRun(ms, onTranscription, onError);
      var i := 0;
      while i < |ms|
        invariant 0 <= i <= |ms|
        invariant transcripts + StreamRun(ms[i..], onTranscription, onError).0 == old(transcripts) + goal.0
        invariant errors + StreamRun(ms[i..], onTranscription, onError).1 == old(errors) + goal.1
        invariant StreamRun(ms[i..], onTranscription, onError).2 == goal.2
      {
        StreamStep(ms, i, transcripts, errors, onTranscription, onError);
        var ends := Deliver(ms[i]);
        i := i + 1;
        if ends {
          return ms[i..];
        }
      }
      assert ms[i..] == [];
      unread := ms[i..];
    }
  }
}
