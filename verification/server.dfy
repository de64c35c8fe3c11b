/**
 Many connections served by one handler each, sharing one broadcast group.
 The transport delivers callbacks one at a time; a trace is the order in
 which they were delivered. Channels the transport has not yet reported are
 in the fresh state (no handshaker, nothing queued).
 */
module Server {
  import opened Wrappers
  import opened HttpStatus
  import opened BroadcastFormat
  import opened Handler

  datatype Server = Server(conns: map<ChannelId, Conn>, group: set<ChannelId>)

  /** One callback delivered to one channel's handler, with the wall-clock text at that moment. */
  datatype Delivery = Delivery(channel: ChannelId, now: string, ev: Event)

  /**
   What one delivery leaves behind: the server, the addressed channel's
   actions, and, for every other channel a broadcast reached, the queued
   frames the broadcast's flush sent ahead of the text on that channel.
   */
  datatype Delivered = Delivered(server: Server, actions: seq<Action>, flushedElsewhere: map<ChannelId, seq<Bytes>>)

  const Empty := Server(map[], {})

  function ConnOf(s: Server, c: ChannelId): Conn {
    if c in s.conns then s.conns[c] else Fresh
  }

  /** The channels the broadcasts among the actions write to. */
  function Recipients(actions: seq<Action>): set<ChannelId> {
    set a, c | a in actions && a.Broadcast? && c in a.recipients :: c
  }

  /** A server step: the addressed handler steps, and the group is what its step leaves. */
  function Deliver(s: Server, d: Delivery): (r: Delivered)
    ensures var o := Step(ConnOf(s, d.channel), s.group, d.channel, d.now, d.ev);
            ConnOf(r.server, d.channel) == o.conn && r.actions == o.actions
    ensures forall c :: c != d.channel ==> (c in r.server.group <==> c in s.group)
    ensures d.channel in r.server.group <==> d.ev.Active? || (d.channel in s.group && !d.ev.Inactive?)
  {
    var o := Step(ConnOf(s, d.channel), s.group, d.channel, d.now, d.ev);
    var reached := Recipients(o.actions) - {d.channel};
    var flushed := map c | c in s.conns && c in reached && s.conns[c].pending != [] :: s.conns[c].pending;
    var others := map c | c in s.conns :: if c in reached then s.conns[c].(pending := []) else s.conns[c];
    Delivered(Server(others[d.channel := o.conn], o.group), o.actions, flushed)
  }

  /**
   A delivery touches no other channel's handler except through a broadcast,
   which writes and flushes on every recipient: each other recipient's queue
   goes out and empties, and the handshakers stay as they were.
   */
  lemma DeliverTouchesOnlyRecipients(s: Server, d: Delivery)
    ensures var r := Deliver(s, d);
            && (forall c :: c != d.channel && c !in Recipients(r.actions) ==> ConnOf(r.server, c) == ConnOf(s, c))
            && (forall c :: c != d.channel ==> ConnOf(r.server, c).handshaker == ConnOf(s, c).handshaker)
            && (forall c :: c != d.channel && c in Recipients(r.actions) ==> ConnOf(r.server, c).pending == [])
            && (forall c :: c in r.flushedElsewhere <==>
                  c != d.channel && c in Recipients(r.actions) && ConnOf(s, c).pending != [])
            && (forall c :: c in r.flushedElsewhere ==> r.flushedElsewhere[c] == ConnOf(s, c).pending)
  {
  }

  /** The server after a whole trace. */
  function Run(s: Server, t: seq<Delivery>): Server
    decreases |t|
  {
    if t == [] then s else Run(Deliver(s, t[0]).server, t[1..])
  }

  /** Whether c's most recent activation or deactivation in t was an activation; None if t has neither. */
  function LastToggle(t: seq<Delivery>, c: ChannelId): Option<bool>
    decreases |t|
  {
    if t == [] then None
    else
      var d := t[|t| - 1];
      if d.channel == c && (d.ev.Active? || d.ev.Inactive?) then Some(d.ev.Active?)
      else LastToggle(t[..|t| - 1], c)
  }

  /** Running a trace extended by one delivery is one more step after the trace. */
  lemma {:induction false} RunSnoc(s: Server, t: seq<Delivery>, d: Delivery)
    ensures Run(s, t + [d]) == Deliver(Run(s, t), d).server
    decreases |t|
  {
    if t == [] {
      assert [d][1..] == [];
    } else {
      assert (t + [d])[0] == t[0];
      assert (t + [d])[1..] == t[1..] + [d];
      RunSnoc(Deliver(s, t[0]).server, t[1..], d);
    }
  }

  /**
   After any trace, a channel is in the group exactly
   when its last activation/deactivation was an activation, or, if it had
   neither, when it was in the group to begin with. Repeated joins and
   leaves collapse; no other channel's events matter.
   */
  lemma {:induction false} MembershipFollowsLastToggle(s: Server, t: seq<Delivery>, c: ChannelId)
    ensures c in Run(s, t).group <==> (match LastToggle(t, c) case Some(joined) => joined case None => c in s.group)
    decreases |t|
  {
    if t != [] {
      var t', d := t[..|t| - 1], t[|t| - 1];
      assert t == t' + [d];
      RunSnoc(s, t', d);
      MembershipFollowsLastToggle(s, t', c);
    }
  }

  /**
   A text frame from any channel ends in one broadcast, to the group as it
   stands, which it leaves as it is; anything before it only flushes the
   sender's queue.
   */
  lemma TextBroadcastsToGroup(s: Server, c: ChannelId, now: string, text: string)
    ensures var r := Deliver(s, Delivery(c, now, Read(WsFrame(Text(text)))));
            && |r.actions| > 0
            && r.actions[|r.actions| - 1] == Broadcast(Format(now, c, text), s.group)
            && NoBroadcast(r.actions[..|r.actions| - 1])
            && (ConnOf(s, c).pending == [] ==> r.actions == [Broadcast(Format(now, c, text), s.group)])
            && r.server.group == s.group
  {
  }

  /**
   Every channel whose last membership event after a trace was an
   activation, the sender included, is among the recipients of the one
   broadcast a text frame then causes, which carries the payload unchanged.
   */
  lemma TextReachesEveryJoinedChannel(s: Server, t: seq<Delivery>, c: ChannelId, now: string, text: string, peer: ChannelId)
    requires LastToggle(t, peer) == Some(true)
    ensures var r := Deliver(Run(s, t), Delivery(c, now, Read(WsFrame(Text(text)))));
            && |r.actions| > 0
            && r.actions[|r.actions| - 1].Broadcast?
            && NoBroadcast(r.actions[..|r.actions| - 1])
            && peer in r.actions[|r.actions| - 1].recipients
            && RecoverText(now, c, r.actions[|r.actions| - 1].text) == Some(text)
  {
    MembershipFollowsLastToggle(s, t, peer);
    TextBroadcastsToGroup(Run(s, t), c, now, text);
  }

  /**
   A broadcast flushes every recipient: a pong another member had queued
   goes out ahead of the text, and that member's queue is left empty.
   */
  lemma BroadcastFlushesPeerQueue(s: Server, c: ChannelId, now: string, text: string, peer: ChannelId)
    requires peer != c && peer in s.group && ConnOf(s, peer).pending != []
    ensures var r := Deliver(s, Delivery(c, now, Read(WsFrame(Text(text)))));
            && peer in r.flushedElsewhere
            && r.flushedElsewhere[peer] == ConnOf(s, peer).pending
            && ConnOf(r.server, peer).pending == []
  {
    DeliverTouchesOnlyRecipients(s, Delivery(c, now, Read(WsFrame(Text(text)))));
    var r := Deliver(s, Delivery(c, now, Read(WsFrame(Text(text)))));
    var last := r.actions[|r.actions| - 1];
    assert last in r.actions && last.Broadcast? && peer in last.recipients;
    assert peer in Recipients(r.actions);
  }

  /** Only a text frame broadcasts, so every other delivery leaves the other channels' handlers as they were. */
  lemma OnlyTextTouchesOthers(s: Server, d: Delivery)
    requires !(d.ev.Read? && d.ev.msg.WsFrame? && d.ev.msg.frame.Text?)
    ensures forall x :: x != d.channel ==> ConnOf(Deliver(s, d).server, x) == ConnOf(s, x)
  {
    var r := Deliver(s, d);
    assert NoBroadcast(r.actions);
    assert Recipients(r.actions) == {};
    DeliverTouchesOnlyRecipients(s, d);
  }

  /**
   A request the gate refuses is answered with a 400 that closes the channel
   after the write, and leaves the group as it was.
   */
  lemma RefusedRequestKeepsGroup(s: Server, c: ChannelId, req: Request, now: string)
    requires !IsUpgrade(req)
    ensures var r := Deliver(s, Delivery(c, now, Read(HttpRequest(req))));
            && r.server.group == s.group
            && exists a :: a in r.actions && a.SendResponse? && a.status == BadRequest && a.closeAfterWrite
  {
    var r := Deliver(s, Delivery(c, now, Read(HttpRequest(req))));
    var h := HandleHttpRequest(ConnOf(s, c), req);
    assert r.actions == h.actions;
    var last := h.actions[|h.actions| - 1];
    assert last in h.actions;
  }

  /**
   The group admits a channel on activation, before and regardless of its
   handshake: once active, a channel whose upgrade request is refused with
   400 stays in the group and receives the next broadcast.
   */
  lemma RefusedChannelStillReceivesBroadcasts(s: Server, c: ChannelId, req: Request, other: ChannelId, now: string, text: string)
    requires !IsUpgrade(req)
    ensures c in Deliver(s, Delivery(c, now, Active)).server.group
    ensures c in s.group ==>
              var r2 := Deliver(s, Delivery(c, now, Read(HttpRequest(req))));
              var r3 := Deliver(r2.server, Delivery(other, now, Read(WsFrame(Text(text)))));
              && (exists a :: a in r2.actions && a.SendResponse? && a.closeAfterWrite)
              && (exists a :: a in r3.actions && a.Broadcast? && c in a.recipients)
  {
    if c in s.group {
      RefusedRequestKeepsGroup(s, c, req, now);
      var r2 := Deliver(s, Delivery(c, now, Read(HttpRequest(req))));
      TextBroadcastsToGroup(r2.server, other, now, text);
      var r3 := Deliver(r2.server, Delivery(other, now, Read(WsFrame(Text(text)))));
      assert r3.actions[|r3.actions| - 1] in r3.actions;
    }
  }

  /** Deactivation twice in a row leaves the same group as once, and the second one does nothing. */
  lemma DisconnectIdempotent(s: Server, c: ChannelId, now: string)
    ensures var r1 := Deliver(s, Delivery(c, now, Inactive));
            var r2 := Deliver(r1.server, Delivery(c, now, Inactive));
            && c !in r1.server.group
            && r2.server.group == r1.server.group
            && r2.actions == []
  {
  }

  /**
   A close frame on a channel with a stored handshaker: queued pongs go out
   with the close handshake, the fall-through throw closes the channel,
   nothing is broadcast, and the channel leaves the group only when the
   transport reports it inactive.
   */
  lemma CloseFrameThenInactive(s: Server, c: ChannelId, now: string, payload: Bytes, h: Handshaker)
    requires ConnOf(s, c).handshaker == Some(h)
    ensures var r1 := Deliver(s, Delivery(c, now, Read(WsFrame(Close(payload)))));
            var r2 := Deliver(r1.server, Delivery(c, now, Inactive));
            && r1.actions == SendQueued(ConnOf(s, c)) + [CloseHandshake(h, payload), CloseChannel]
            && r1.server.group == s.group
            && c !in r2.server.group
  {
  }

  const UpgradeA := Delivery("A", "t0", Read(HttpRequest(Request(true, Some("websocket"), Some(Handshaker("13"))))))
  const UpgradeB := Delivery("B", "t1", Read(HttpRequest(Request(true, Some("websocket"), Some(Handshaker("13"))))))

  /** Two clients connected and upgraded, in that order. */
  function TwoClients(): Server {
    var a := Deliver(Deliver(Empty, Delivery("A", "t0", Active)).server, UpgradeA).server;
    Deliver(Deliver(a, Delivery("B", "t1", Active)).server, UpgradeB).server
  }

  /**
   Every request is answered by write-and-flush, so whatever the gate decides,
   the channel is left with nothing queued; the group and every other channel
   stay as they were.
   */
  lemma RequestLeavesNothingQueued(s: Server, c: ChannelId, now: string, req: Request)
    ensures var r := Deliver(s, Delivery(c, now, Read(HttpRequest(req))));
            && r.server.group == s.group
            && ConnOf(r.server, c).pending == []
            && forall x :: x != c ==> ConnOf(r.server, x) == ConnOf(s, x)
  {
    var d := Delivery(c, now, Read(HttpRequest(req)));
    assert ConnOf(Deliver(s, d).server, c) == MessageReceived(ConnOf(s, c), s.group, c, now, d.ev.msg).conn;
    OnlyTextTouchesOthers(s, d);
  }

  /** After both upgrades the group holds exactly the two clients, and A has nothing queued. */
  lemma TwoClientsJoined()
    ensures TwoClients().group == {"A", "B"}
    ensures ConnOf(TwoClients(), "A").pending == []
  {
    var a := Deliver(Empty, Delivery("A", "t0", Active)).server;
    assert a.group == {"A"};
    RequestLeavesNothingQueued(a, "A", "t0", UpgradeA.ev.msg.req);
    var b := Deliver(a, UpgradeA).server;
    var c := Deliver(b, Delivery("B", "t1", Active)).server;
    assert c.group == {"A", "B"};
    OnlyTextTouchesOthers(b, Delivery("B", "t1", Active));
    RequestLeavesNothingQueued(c, "B", "t1", UpgradeB.ev.msg.req);
  }

  /**
   Two clients connect and upgrade; A's "hi" reaches both as
   "<ts> [A] ===>>> hi"; after B goes inactive, A's next text reaches only A.
   */
  lemma TwoClientScenario()
    ensures var hi := Deliver(TwoClients(), Delivery("A", "t2", Read(WsFrame(Text("hi")))));
            var s2 := Deliver(hi.server, Delivery("B", "t3", Inactive)).server;
            var again := Deliver(s2, Delivery("A", "t4", Read(WsFrame(Text("ping test")))));
            && hi.actions == [Broadcast("t2 [A] ===>>> hi", {"A", "B"})]
            && s2.group == {"A"}
            && again.actions == [Broadcast("t4 [A] ===>>> ping test", {"A"})]
  {
    TwoClientsJoined();
    AfterTwoClients(TwoClients());
  }

  /** The scenario's messages, from any server whose group is exactly the two clients and where A has nothing queued. */
  lemma AfterTwoClients(s1: Server)
    requires s1.group == {"A", "B"} && ConnOf(s1, "A").pending == []
    ensures var hi := Deliver(s1, Delivery("A", "t2", Read(WsFrame(Text("hi")))));
            var s2 := Deliver(hi.server, Delivery("B", "t3", Inactive)).server;
            var again := Deliver(s2, Delivery("A", "t4", Read(WsFrame(Text("ping test")))));
            && hi.actions == [Broadcast("t2 [A] ===>>> hi", {"A", "B"})]
            && s2.group == {"A"}
            && again.actions == [Broadcast("t4 [A] ===>>> ping test", {"A"})]
  {
    var hi := Deliver(s1, Delivery("A", "t2", Read(WsFrame(Text("hi")))));
    ScenarioTexts();
    TextWithNothingQueued(s1, "A", "t2", "hi");
    var s2 := Deliver(hi.server, Delivery("B", "t3", Inactive)).server;
    OtherLeaves(hi.server, "A", "B", "t3");
    assert s2.group == {"A"};
    TextWithNothingQueued(s2, "A", "t4", "ping test");
  }

  /** The two broadcast texts of the scenario, spelled out. */
  lemma ScenarioTexts()
    ensures Format("t2", "A", "hi") == "t2 [A] ===>>> hi"
    ensures Format("t4", "A", "ping test") == "t4 [A] ===>>> ping test"
  {
  }

  /** With nothing queued, a text frame is exactly one broadcast to the group, and nothing is queued after. */
  lemma TextWithNothingQueued(s: Server, c: ChannelId, now: string, text: string)
    requires ConnOf(s, c).pending == []
    ensures var r := Deliver(s, Delivery(c, now, Read(WsFrame(Text(text)))));
            && r.actions == [Broadcast(Format(now, c, text), s.group)]
            && r.server.group == s.group
            && ConnOf(r.server, c).pending == []
  {
  }

  /** Another channel going inactive leaves c's membership and queue as they were. */
  lemma OtherLeaves(s: Server, c: ChannelId, other: ChannelId, now: string)
    requires c != other
    ensures var r := Deliver(s, Delivery(other, now, Inactive));
            && r.server.group == s.group - {other}
            && ConnOf(r.server, c) == ConnOf(s, c)
  {
    OnlyTextTouchesOthers(s, Delivery(other, now, Inactive));
  }
}
