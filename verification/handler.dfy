/**
 The per-connection event handler as a pure state machine. Each callback the
 transport makes on the handler (a message read, activation, deactivation,
 read completion, an exception) is one step from the connection's state and
 the shared broadcast group to a new state, a new group and the list of I/O
 actions the callback performs. The group is a plain set of channel
 identities threaded through every step.
 */
module Handler {
  import opened Wrappers
  import opened HttpStatus
  import opened BroadcastFormat

  /** A channel's identity, as Channel.toString() renders it. */
  type ChannelId = string

  type Bytes = seq<bv8>

  /** The only Upgrade header value the handshake gate accepts (compared case-sensitively). */
  const UpgradeToken := "websocket"

  /** A handshaker built by the factory; opaque beyond the protocol version it negotiated. */
  datatype Handshaker = Handshaker(version: string)

  /**
   An aggregated HTTP request as the handler sees it: whether decoding
   succeeded, the Upgrade header if present, and what the handshaker
   factory returns for it (None when the requested version is unsupported).
   */
  datatype Request = Request(decodeOk: bool, upgrade: Option<string>, negotiated: Option<Handshaker>)

  /** A decoded WebSocket frame. */
  datatype Frame =
    | Close(payload: Bytes)
    | Ping(payload: Bytes)
    | Pong(payload: Bytes)
    | Text(text: string)
    | Binary(payload: Bytes)
    | Continuation(payload: Bytes)

  /** Whatever the pipeline hands to messageReceived. */
  datatype Message = HttpRequest(req: Request) | WsFrame(frame: Frame) | OtherMessage

  /** The callbacks the transport makes on the handler. */
  datatype Event = Read(msg: Message) | Active | Inactive | ReadComplete | ExceptionRaised

  /**
   Per-connection state: the stored handshaker and the pong frames written to
   the channel but not yet flushed (the only writes the handler does not flush).
   */
  datatype Conn = Conn(handshaker: Option<Handshaker>, pending: seq<Bytes>)

  const Fresh := Conn(None, [])

  /**
   The I/O a callback performs, in order; every action but Broadcast concerns
   this connection's channel. SendResponse, UnsupportedVersion, Handshake,
   CloseHandshake and Broadcast are write-and-flush: a write-and-flush on a
   channel first sends whatever that channel had queued, which this channel's
   actions show as a Flush just ahead of them. Flush(frames) puts the queued
   frames on the wire in the order written. CloseChannel fails whatever is
   still queued.
   */
  datatype Action =
    | SendResponse(status: Status, body: string, closeAfterWrite: bool)
    | UnsupportedVersion
    | Handshake(h: Handshaker)
    | CloseHandshake(h: Handshaker, payload: Bytes)
    | WritePong(payload: Bytes)
    | Flush(frames: seq<Bytes>)
    | Broadcast(text: string, recipients: set<ChannelId>)
    | CloseChannel

  /** What a callback that cannot touch the group leaves behind. */
  datatype Reaction = Reaction(conn: Conn, actions: seq<Action>)

  /** What one step leaves behind. */
  datatype Outcome = Outcome(conn: Conn, group: set<ChannelId>, actions: seq<Action>)

  /** The request asks for the WebSocket upgrade and decoded cleanly. */
  predicate IsUpgrade(req: Request) {
    req.decodeOk && req.upgrade == Some(UpgradeToken)
  }

  /** Actions only the HTTP handshake path performs. */
  predicate HandshakeOnly(a: Action) {
    a.SendResponse? || a.UnsupportedVersion? || a.Handshake?
  }

  /** Actions only the WebSocket frame path performs. */
  predicate FrameOnly(a: Action) {
    a.CloseHandshake? || a.WritePong? || a.Broadcast? || a.CloseChannel?
  }

  predicate NoBroadcast(actions: seq<Action>) {
    forall a :: a in actions ==> !a.Broadcast?
  }

  /** The pong payloads the actions write, in order. */
  function Written(actions: seq<Action>): seq<Bytes>
    decreases |actions|
  {
    if actions == [] then []
    else (if actions[0].WritePong? then [actions[0].payload] else []) + Written(actions[1..])
  }

  /** The frames the actions put on the wire by flushing, in order. */
  function Flushed(actions: seq<Action>): seq<Bytes>
    decreases |actions|
  {
    if actions == [] then []
    else (if actions[0].Flush? then actions[0].frames else []) + Flushed(actions[1..])
  }

  /** What a write-and-flush on this channel sends ahead of its own message. */
  function SendQueued(conn: Conn): (actions: seq<Action>)
    ensures Flushed(actions) == conn.pending && Written(actions) == []
    ensures forall a :: a in actions ==> a.Flush?
  {
    if conn.pending == [] then [] else [Flush(conn.pending)]
  }

  /** exceptionCaught: the channel is closed, failing every unflushed write. */
  function ExceptionCaught(conn: Conn): (r: Reaction)
    ensures r.actions == [CloseChannel]
    ensures r.conn.handshaker == conn.handshaker && r.conn.pending == []
  {
    Reaction(conn.(pending := []), [CloseChannel])
  }

  /** channelActive: the channel joins the group, whatever its handshake later does. */
  function ChannelActive(group: set<ChannelId>, self: ChannelId): (g: set<ChannelId>)
    ensures self in g
    ensures forall c :: c != self ==> (c in g <==> c in group)
  {
    group + {self}
  }

  /** channelInactive: the channel leaves the group. */
  function ChannelInactive(group: set<ChannelId>, self: ChannelId): (g: set<ChannelId>)
    ensures self !in g
    ensures forall c :: c != self ==> (c in g <==> c in group)
  {
    group - {self}
  }

  /** channelReadComplete: every queued write goes out, in the order written. */
  function ChannelReadComplete(conn: Conn): (r: Reaction)
    ensures r.conn.handshaker == conn.handshaker && r.conn.pending == []
    ensures Flushed(r.actions) == conn.pending && |r.actions| == 1 && r.actions[0].Flush?
  {
    Reaction(conn.(pending := []), [Flush(conn.pending)])
  }

  /**
   sendHttpResponse: a non-200 response gets its status text appended to the
   body and the channel closes once the write completes; a 200 response goes
   out as given and the channel stays open.
   */
  function SendHttpResponse(status: Status, body: string): (a: Action)
    ensures a.SendResponse? && a.status == status
    ensures a.closeAfterWrite <==> status.code != 200
    ensures status.code == 200 ==> a.body == body
    ensures status.code != 200 ==>
              |body| < |a.body| && a.body[..|body|] == body && ParseStatusText(a.body[|body|..]) == Some(status)
  {
    if status.code != 200 then
      var b := body + StatusText(status);
      assert b[..|body|] == body && b[|body|..] == StatusText(status);
      StatusTextRoundTrip(status);
      SendResponse(status, b, true)
    else
      SendResponse(status, body, false)
  }

  /**
   handHttpRequest: the handshake gate. A request that failed to decode or
   does not carry exactly "Upgrade: websocket" gets 400 and the channel
   closes, with the stored handshaker untouched. Otherwise the stored
   handshaker becomes the factory's result: none means only the
   unsupported-version response, some means exactly one handshake. Each of
   these is a write-and-flush, so any queued pong goes out just before it.
   */
  function HandleHttpRequest(conn: Conn, req: Request): (r: Reaction)
    ensures r.conn.pending == [] && |r.actions| > 0
    ensures r.actions[..|r.actions| - 1] == SendQueued(conn)
    ensures forall a :: a in r.actions ==> !FrameOnly(a)
    ensures (exists a :: a in r.actions && a.SendResponse? && a.status == BadRequest) <==> !IsUpgrade(req)
    ensures !IsUpgrade(req) ==>
              var last := r.actions[|r.actions| - 1];
              && r.conn.handshaker == conn.handshaker
              && last.SendResponse?
              && last.closeAfterWrite
              && last.body == StatusText(BadRequest)
    ensures IsUpgrade(req) ==> r.conn.handshaker == req.negotiated
    ensures IsUpgrade(req) && req.negotiated.None? ==> r.actions[|r.actions| - 1] == UnsupportedVersion
    ensures IsUpgrade(req) && req.negotiated.Some? ==> r.actions[|r.actions| - 1] == Handshake(req.negotiated.value)
  {
    var out := GateAnswer(req);
    var stored :=
      if IsUpgrade(req) then conn.(handshaker := req.negotiated, pending := [])
      else conn.(pending := []);
    QueuedThen(conn, out);
    Reaction(stored, SendQueued(conn) + [out])
  }

  /** A write-and-flush of `out`: the queue's flush, if any, then `out`, and nothing else. */
  lemma QueuedThen(conn: Conn, out: Action)
    ensures var actions := SendQueued(conn) + [out];
            && |actions| > 0
            && actions[..|actions| - 1] == SendQueued(conn)
            && actions[|actions| - 1] == out
            && (forall a :: a in actions ==> a.Flush? || a == out)
            && (HandshakeOnly(out) ==> forall a :: a in actions ==> !FrameOnly(a))
  {
    var actions := SendQueued(conn) + [out];
    assert actions[..|actions| - 1] == SendQueued(conn);
  }

  /** The one response the gate gives a request, leaving aside what was queued before it. */
  function GateAnswer(req: Request): (a: Action)
    ensures HandshakeOnly(a)
    ensures a.SendResponse? && a.status == BadRequest <==> !IsUpgrade(req)
    ensures !IsUpgrade(req) ==> a.closeAfterWrite && a.body == StatusText(BadRequest)
    ensures IsUpgrade(req) && req.negotiated.None? ==> a == UnsupportedVersion
    ensures IsUpgrade(req) && req.negotiated.Some? ==> a == Handshake(req.negotiated.value)
  {
    if !req.decodeOk || req.upgrade != Some(UpgradeToken) then SendHttpResponse(BadRequest, "")
    else match req.negotiated
      case None => UnsupportedVersion
      case Some(h) => Handshake(h)
  }

  /**
   handWebSocketFrame. A close frame runs the stored handshaker's close
   handshake (a write-and-flush) and then, having no return, falls into the
   unsupported-frame throw; with no stored handshaker the dereference throws
   first. Either throw reaches exceptionCaught, which closes the channel. A
   ping queues a pong with the same payload (unflushed). A text frame is
   broadcast to the whole group, which flushes this channel too when it is a
   member. Every other kind throws before writing anything and so only
   closes the channel.
   */
  function HandleFrame(conn: Conn, group: set<ChannelId>, self: ChannelId, now: string, f: Frame): (r: Reaction)
    ensures r.conn.handshaker == conn.handshaker
    ensures forall a :: a in r.actions ==> !HandshakeOnly(a)
    ensures f.Ping? ==> r.actions == [WritePong(f.payload)] && r.conn.pending == conn.pending + [f.payload]
    ensures f.Text? ==> |r.actions| > 0
    ensures f.Text? ==>
              var last := r.actions[|r.actions| - 1];
              && r.actions[..|r.actions| - 1] == (if self in group then SendQueued(conn) else [])
              && r.conn.pending == (if self in group then [] else conn.pending)
              && last.Broadcast?
              && last.recipients == group
              && RecoverText(now, self, last.text) == Some(f.text)
    ensures CloseChannel in r.actions <==> !f.Text? && !f.Ping?
    ensures !f.Text? && !f.Ping? ==> r.conn.pending == [] && r.actions[|r.actions| - 1] == CloseChannel && NoBroadcast(r.actions)
    ensures f.Close? && conn.handshaker.Some? ==>
              r.actions == SendQueued(conn) + [CloseHandshake(conn.handshaker.value, f.payload), CloseChannel]
    ensures (f.Close? && conn.handshaker.None?) || f.Pong? || f.Binary? || f.Continuation? ==> r.actions == [CloseChannel]
  {
    match f
    case Close(p) =>
      (match conn.handshaker
       case None => ExceptionCaught(conn)
       case Some(h) =>
         var thrown := ExceptionCaught(conn);
         Reaction(thrown.conn, SendQueued(conn) + [CloseHandshake(h, p)] + thrown.actions))
    case Ping(p) => Reaction(conn.(pending := conn.pending + [p]), [WritePong(p)])
    case Text(text) =>
      FormatRoundTrip(now, self, text);
      var out := Broadcast(Format(now, self, text), group);
      if self in group then Reaction(conn.(pending := []), SendQueued(conn) + [out])
      else Reaction(conn, [out])
    case _ => ExceptionCaught(conn)
  }

  /**
   messageReceived: dispatch by message kind. A request reaches only the
   handshake path, a frame only the frame path, and anything else does
   nothing. No message changes the group.
   */
  function MessageReceived(conn: Conn, group: set<ChannelId>, self: ChannelId, now: string, msg: Message): (r: Outcome)
    ensures r.group == group
    ensures msg.HttpRequest? ==> r.conn.pending == [] && forall a :: a in r.actions ==> !FrameOnly(a)
    ensures msg.WsFrame? ==> r.conn.handshaker == conn.handshaker && forall a :: a in r.actions ==> !HandshakeOnly(a)
    ensures msg.OtherMessage? ==> r.conn == conn && r.actions == []
  {
    match msg
    case HttpRequest(req) =>
      var h := HandleHttpRequest(conn, req);
      Outcome(h.conn, group, h.actions)
    case WsFrame(f) =>
      var h := HandleFrame(conn, group, self, now, f);
      Outcome(h.conn, group, h.actions)
    case OtherMessage => Outcome(conn, group, [])
  }

  /**
   One callback on channel `self`, with `now` the wall-clock text a broadcast
   would carry. Only activation and deactivation change the group, and they
   change it only at `self`.
   */
  function Step(conn: Conn, group: set<ChannelId>, self: ChannelId, now: string, ev: Event): (r: Outcome)
    ensures forall c :: c != self ==> (c in r.group <==> c in group)
    ensures self in r.group <==> ev.Active? || (self in group && !ev.Inactive?)
    ensures ev.Active? || ev.Inactive? ==> r.conn == conn && r.actions == []
    ensures ev.ReadComplete? ==> r.conn.handshaker == conn.handshaker && r.conn.pending == [] && r.actions == [Flush(conn.pending)]
    ensures ev.ExceptionRaised? ==> r.conn == conn.(pending := []) && r.actions == [CloseChannel]
  {
    match ev
    case Read(msg) => MessageReceived(conn, group, self, now, msg)
    case Active => Outcome(conn, ChannelActive(group, self), [])
    case Inactive => Outcome(conn, ChannelInactive(group, self), [])
    case ReadComplete =>
      var h := ChannelReadComplete(conn);
      Outcome(h.conn, group, h.actions)
    case ExceptionRaised =>
      var h := ExceptionCaught(conn);
      Outcome(h.conn, group, h.actions)
  }

  lemma {:induction false} WrittenAppend(a: seq<Action>, b: seq<Action>)
    ensures Written(a + b) == Written(a) + Written(b)
    decreases |a|
  {
    if a == [] {
      assert a + b == b;
    } else {
      assert (a + b)[1..] == a[1..] + b;
      WrittenAppend(a[1..], b);
    }
  }

  lemma {:induction false} FlushedAppend(a: seq<Action>, b: seq<Action>)
    ensures Flushed(a + b) == Flushed(a) + Flushed(b)
    decreases |a|
  {
    if a == [] {
      assert a + b == b;
    } else {
      assert (a + b)[1..] == a[1..] + b;
      FlushedAppend(a[1..], b);
    }
  }

  /**
   Queued writes are neither lost nor reordered: what was queued plus what a
   step writes equals what it flushes plus what stays queued. The one step
   that breaks this only closes the channel, and it empties the queue without
   sending any of it.
   */
  lemma QueuedWritesConserved(conn: Conn, group: set<ChannelId>, self: ChannelId, now: string, ev: Event)
    ensures var r := Step(conn, group, self, now, ev);
            r.actions != [CloseChannel] ==> conn.pending + Written(r.actions) == Flushed(r.actions) + r.conn.pending
    ensures var r := Step(conn, group, self, now, ev);
            r.actions == [CloseChannel] ==> r.conn.pending == [] && Flushed(r.actions) == []
  {
    match ev
    case Read(HttpRequest(req)) =>
      var r := HandleHttpRequest(conn, req);
      FlushFirstConserves(conn, r.actions, [r.actions[|r.actions| - 1]]);
    case Read(WsFrame(f)) =>
      FrameConservesQueue(conn, group, self, now, f);
    case _ =>
  }

  /** Actions that flush the queue and then write nothing more send exactly what was queued. */
  lemma FlushFirstConserves(conn: Conn, actions: seq<Action>, tail: seq<Action>)
    requires actions == SendQueued(conn) + tail
    requires forall a :: a in tail ==> !a.Flush? && !a.WritePong?
    ensures conn.pending + Written(actions) == Flushed(actions)
  {
    WrittenAppend(SendQueued(conn), tail);
    FlushedAppend(SendQueued(conn), tail);
    NoWritesNoFlushes(tail);
  }

  lemma {:induction false} NoWritesNoFlushes(actions: seq<Action>)
    requires forall a :: a in actions ==> !a.Flush? && !a.WritePong?
    ensures Written(actions) == [] && Flushed(actions) == []
    decreases |actions|
  {
    if actions != [] {
      assert actions[0] in actions;
      NoWritesNoFlushes(actions[1..]);
    }
  }

  lemma FrameConservesQueue(conn: Conn, group: set<ChannelId>, self: ChannelId, now: string, f: Frame)
    ensures var r := HandleFrame(conn, group, self, now, f);
            r.actions != [CloseChannel] ==> conn.pending + Written(r.actions) == Flushed(r.actions) + r.conn.pending
    ensures var r := HandleFrame(conn, group, self, now, f);
            r.actions == [CloseChannel] ==> r.conn.pending == [] && Flushed(r.actions) == []
  {
    var r := HandleFrame(conn, group, self, now, f);
    match f
    case Ping(p) =>
      assert r.actions == [WritePong(p)] && r.actions[1..] == [];
    case Text(_) =>
      TextConservesQueue(conn, group, self, now, f);
    case Close(p) =>
      if conn.handshaker.Some? {
        CloseConservesQueue(conn, group, self, now, f);
      } else {
        NoWritesNoFlushes(r.actions);
      }
    case _ =>
      NoWritesNoFlushes(r.actions);
  }

  /** A close frame with a stored handshaker flushes the queue with the close handshake and writes no pong. */
  lemma CloseConservesQueue(conn: Conn, group: set<ChannelId>, self: ChannelId, now: string, f: Frame)
    requires f.Close? && conn.handshaker.Some?
    ensures var r := HandleFrame(conn, group, self, now, f);
            conn.pending + Written(r.actions) == Flushed(r.actions) + r.conn.pending
  {
    var r := HandleFrame(conn, group, self, now, f);
    FlushFirstConserves(conn, r.actions, [CloseHandshake(conn.handshaker.value, f.payload), CloseChannel]);
  }

  /** A text frame flushes the sender's queue exactly when the sender is a member, and writes no pong. */
  lemma TextConservesQueue(conn: Conn, group: set<ChannelId>, self: ChannelId, now: string, f: Frame)
    requires f.Text?
    ensures var r := HandleFrame(conn, group, self, now, f);
            conn.pending + Written(r.actions) == Flushed(r.actions) + r.conn.pending
  {
    var r := HandleFrame(conn, group, self, now, f);
    if self in group {
      FlushFirstConserves(conn, r.actions, [r.actions[|r.actions| - 1]]);
    } else {
      NoWritesNoFlushes(r.actions);
    }
  }

  /** Adding a channel that is already a member, or removing one that is not, changes nothing. */
  lemma MembershipIdempotent(group: set<ChannelId>, self: ChannelId)
    ensures ChannelActive(ChannelActive(group, self), self) == ChannelActive(group, self)
    ensures ChannelInactive(ChannelInactive(group, self), self) == ChannelInactive(group, self)
    ensures self in group ==> ChannelActive(group, self) == group
    ensures self !in group ==> ChannelInactive(group, self) == group
  {
  }

  /** The Upgrade header comparison is exact: any other spelling is refused with 400. */
  lemma UpgradeIsCaseSensitive(conn: Conn, negotiated: Option<Handshaker>)
    ensures !IsUpgrade(Request(true, Some("WebSocket"), negotiated))
    ensures HandleHttpRequest(conn, Request(true, Some("WebSocket"), negotiated)).conn.handshaker == conn.handshaker
  {
  }

  /** A ping followed by read completion puts exactly that pong on the wire, after what was already queued. */
  lemma PingThenReadCompleteFlushesPong(conn: Conn, group: set<ChannelId>, self: ChannelId, now: string, payload: Bytes)
    ensures var r1 := Step(conn, group, self, now, Read(WsFrame(Ping(payload))));
            var r2 := Step(r1.conn, r1.group, self, now, ReadComplete);
            && r1.actions == [WritePong(payload)]
            && r2.actions == [Flush(conn.pending + [payload])]
            && r2.conn.pending == []
            && r2.group == group
  {
  }

  /**
   A member that pings and then sends text gets its pong on the wire ahead of
   the broadcast; the read completion that follows has nothing left to send.
   */
  lemma PingThenTextSendsPongFirst(group: set<ChannelId>, self: ChannelId, now: string, payload: Bytes, text: string)
    requires self in group
    ensures var r1 := Step(Fresh, group, self, now, Read(WsFrame(Ping(payload))));
            var r2 := Step(r1.conn, r1.group, self, now, Read(WsFrame(Text(text))));
            var r3 := Step(r2.conn, r2.group, self, now, ReadComplete);
            && r2.actions == [Flush([payload]), Broadcast(Format(now, self, text), group)]
            && r3.actions == [Flush([])]
  {
    var r1 := Step(Fresh, group, self, now, Read(WsFrame(Ping(payload))));
    assert r1.conn.pending == [payload] && r1.group == group;
    var r2 := Step(r1.conn, r1.group, self, now, Read(WsFrame(Text(text))));
    assert SendQueued(r1.conn) == [Flush([payload])];
    assert r2.conn.pending == [];
  }
}
