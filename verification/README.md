# WebSocket broadcast handler — a Dafny model

This project models the per-connection event handler of a small Netty
WebSocket broadcast server (`MyChannelHandler`). Clients connect and send an
HTTP upgrade request. The handler answers it through the handshake gate. After
that, every text frame a client sends is rebroadcast to every channel in the
shared channel group as `"<timestamp> [<channel>] ===>>> <text>"`.

Every callback the transport makes on the handler is modelled as one pure step:
`messageReceived`, `exceptionCaught`, `channelActive`, `channelInactive` and
`channelReadComplete`. A step maps the connection state, the group and an
event to a new connection state, a new group and a list of I/O actions. The
connection state is the stored handshaker plus the pong frames written but not
yet flushed. The process-global channel group is an explicit `set` of channel
identities.

Modules:

- `Wrappers` (`wrappers.dfy`): `Option`.
- `HttpStatus` (`http_status.dfy`): the status text Netty writes into an error body (`"400 Bad Request"`), and a parser that reads it back.
- `BroadcastFormat` (`broadcast_format.dfy`): the broadcast text and the recovery of its payload.
- `Handler` (`handler.dfy`): events, frames, actions and the handler's callbacks. `Step` dispatches them.
- `Server` (`server.dfy`): many channels, one handler each, sharing one group. It covers traces of deliveries and the properties that span several steps.

Inputs the model takes as opaque values:

- the wall-clock text (`new Date().toString()`), passed as `now`;
- the channel identity (`Channel.toString()`), used as `ChannelId`;
- the handshaker factory's result for a request, carried in `Request.negotiated`. `None` means Netty's version check refused the request.

Behaviours of the code that the model keeps as they are:

- The handler keeps no session state beyond the stored handshaker. A channel joins the group on `channelActive`, before any handshake. So a client refused with 400 is still a broadcast target until its channel goes inactive (`Server.RefusedChannelStillReceivesBroadcasts`).
- A close frame has no `return` after the close handshake. It falls through to the unsupported-frame `throw`, and `exceptionCaught` closes the channel. The group changes only when the transport later reports the channel inactive.
- Frames are not checked against the handshake state. A text frame is broadcast whether or not this handler stored a handshaker.
- A close frame that arrives while no handshaker is stored throws a null dereference at line 116. Like every other throw, it reaches `exceptionCaught`: the channel is closed and no close handshake runs.
- Only the pong write is left unflushed (`write`, line 120). Every other write is a write-and-flush: the HTTP responses, the handshake, the close handshake and the group broadcast. A write-and-flush sends whatever that channel had queued ahead of its own message. For this channel, the model shows that as a `Flush` action just before it. A broadcast flushes every member of the group. So a broadcast from one channel also sends the pongs queued on the other members; `Server.Deliver` reports those as `flushedElsewhere`.
- Closing a channel fails its unflushed writes, so the exception path empties the queue without sending it.

## Model

| member | source | states |
|---|---|---|
| Handler.MessageReceived | src/main/java/com/imooc/netty/MyChannelHandler.java:31-40 | A request reaches only handshake-path actions; it sends any queued pong ahead of its response and leaves nothing queued. A frame reaches only frame-path actions and leaves the stored handshaker alone. Any other message does nothing. No message changes the group. |
| Handler.ChannelActive | src/main/java/com/imooc/netty/MyChannelHandler.java:54-58 | The channel is a member afterwards. Every other channel's membership is unchanged. |
| Handler.ChannelInactive | src/main/java/com/imooc/netty/MyChannelHandler.java:63-67 | The channel is not a member afterwards. Every other channel's membership is unchanged. |
| Handler.ChannelReadComplete | src/main/java/com/imooc/netty/MyChannelHandler.java:72-75 | Read completion flushes every queued write in order and leaves nothing pending. The handshaker is kept. |
| Handler.HandleHttpRequest | src/main/java/com/imooc/netty/MyChannelHandler.java:80-92 | A 400 response is sent exactly when decoding failed or the Upgrade header is not exactly `websocket`. That response closes after the write and leaves the stored handshaker unchanged. Otherwise the stored handshaker becomes the factory result: absent gives only the unsupported-version response; present gives exactly one handshake with it. Any queued pong goes out just before the response, and nothing stays queued. |
| Handler.SendHttpResponse | src/main/java/com/imooc/netty/MyChannelHandler.java:97-108 | The channel is closed after the write exactly when the code is not 200. A non-200 body keeps the original body as a prefix, followed by text that parses back to the status; since the parser is an exact inverse (`HttpStatus.StatusTextParseExact`), that text is exactly the status's `"<code> <reason>"` text. A 200 body is unchanged. |
| Handler.HandleFrame | src/main/java/com/imooc/netty/MyChannelHandler.java:113-135 | A ping queues exactly one pong with the same payload and sends nothing. A text frame gives exactly one broadcast to the whole group, and its payload can be recovered from the broadcast text. When the sender is a member, its queued pongs go out first and its queue empties. A close frame with a stored handshaker sends the queue, then runs the close handshake, then closes the channel. A close frame without one, and every Pong, Binary or Continuation frame, gives exactly one action: closing the channel, which drops the queue. The handshaker is never changed. |
| Handler.ExceptionCaught | src/main/java/com/imooc/netty/MyChannelHandler.java:46-49 | The channel is closed, unflushed writes are dropped, and the handshaker is kept. |
| Handler.Step | src/main/java/com/imooc/netty/MyChannelHandler.java:30-75 | Only activation and deactivation change the group, and only at this channel. Read completion flushes the pending writes. An exception (lines 46-49) only closes the channel, dropping unflushed writes. |
| Handler.MembershipIdempotent | src/main/java/com/imooc/netty/MyChannelHandler.java:54-67 | A repeated join or leave is a no-op. Joining as a member and leaving as a non-member change nothing. |
| Handler.UpgradeIsCaseSensitive | src/main/java/com/imooc/netty/MyChannelHandler.java:81 | `Upgrade: WebSocket` is refused and the stored handshaker is untouched. |
| Handler.PingThenReadCompleteFlushesPong | src/main/java/com/imooc/netty/MyChannelHandler.java:119-122 | After a ping, the following read completion puts exactly that payload on the wire after earlier queued writes. The group is unchanged. |
| HttpStatus.DecimalRoundTrip | src/main/java/com/imooc/netty/MyChannelHandler.java:99 | Reading back the decimal rendering of a status code gives the code. |
| HttpStatus.StatusTextRoundTrip | src/main/java/com/imooc/netty/MyChannelHandler.java:99-100 | The code and reason phrase can be recovered from the status text written into an error body. |
| HttpStatus.StatusTextParseExact | src/main/java/com/imooc/netty/MyChannelHandler.java:99-100 | A text parses back to a status exactly when it is that status's text: code without leading zeros, one space, reason phrase. |
| BroadcastFormat.Format | src/main/java/com/imooc/netty/MyChannelHandler.java:132 | The broadcast text is the timestamp/sender prefix followed by the unchanged payload. |
| BroadcastFormat.RecoverText | src/main/java/com/imooc/netty/MyChannelHandler.java:132 | Recovery succeeds exactly on texts formatted for that timestamp and sender, and returns their payload. |
| BroadcastFormat.FormatRoundTrip | src/main/java/com/imooc/netty/MyChannelHandler.java:131-132 | Every payload is recovered from its broadcast text. |
| BroadcastFormat.FormatInjective | src/main/java/com/imooc/netty/MyChannelHandler.java:132 | Different payloads from one sender at one timestamp give different texts. |
| Server.Deliver | src/main/java/com/imooc/netty/MyChannelHandler.java:23-135 | Each channel has its own handler with its own handshaker field (line 23), and all share one group (lines 56, 65, 134). The addressed channel's handler steps, its actions are the server's output, and only that channel's membership can change. |
| Server.MembershipFollowsLastToggle | src/main/java/com/imooc/netty/MyChannelHandler.java:54-67 | After any trace, a channel is in the group exactly when its last activation or deactivation was an activation. A channel with neither keeps its initial membership. |
| Server.TextReachesEveryJoinedChannel | src/main/java/com/imooc/netty/MyChannelHandler.java:129-134 | A text frame after any trace gives one broadcast. It reaches every channel whose last membership event was a join, the sender included, and carries the payload unchanged. |
| Server.TextBroadcastsToGroup | src/main/java/com/imooc/netty/MyChannelHandler.java:129-134 | A text frame ends in one broadcast, to the group as it stands, and leaves the group unchanged. Anything before the broadcast only flushes the sender's queue. With nothing queued, the broadcast is the only action. |
| Server.RefusedChannelStillReceivesBroadcasts | src/main/java/com/imooc/netty/MyChannelHandler.java:54-58 | Activation puts the channel in the group. Once it is a member, a request refused with 400 (closing after the write) leaves it there, and the next text frame from any channel broadcasts to it. |
| Server.DisconnectIdempotent | src/main/java/com/imooc/netty/MyChannelHandler.java:63-67 | A second deactivation leaves the same group and does nothing. |
| Server.CloseFrameThenInactive | src/main/java/com/imooc/netty/MyChannelHandler.java:113-127 | A close frame sends the queued pongs, runs the close handshake and then closes the channel, with no broadcast and no group change. The following deactivation removes the channel. |
| Server.TwoClientsJoined | src/main/java/com/imooc/netty/MyChannelHandler.java:54-58 | After two clients connect and upgrade, the group is exactly those two, and A has nothing queued. |
| Server.TwoClientScenario | src/main/java/com/imooc/netty/MyChannelHandler.java:129-134 | `"hi"` from A reaches A and B as `"t2 [A] ===>>> hi"`. After B leaves, A's next text reaches only A. |
| Server.AfterTwoClients | src/main/java/com/imooc/netty/MyChannelHandler.java:129-134 | The same message sequence from any server whose group is exactly A and B and where A has nothing queued. |
| Handler.QueuedWritesConserved | src/main/java/com/imooc/netty/MyChannelHandler.java:46-135 | Unless a step's only action is closing the channel, the earlier queue followed by the pongs the step writes equals what it flushes followed by what stays queued; a step whose only action is closing the channel empties the queue and flushes nothing. |
| Handler.PingThenTextSendsPongFirst | src/main/java/com/imooc/netty/MyChannelHandler.java:119-134 | A member's ping followed by its text puts the pong on the wire before the broadcast, and the next read completion has nothing left to send. |
| Server.DeliverTouchesOnlyRecipients | src/main/java/com/imooc/netty/MyChannelHandler.java:134 | A delivery leaves every other channel's handler unchanged unless a broadcast reached it. Every other recipient's queue is sent, reported per channel, and emptied. No other handshaker changes. |
| Server.BroadcastFlushesPeerQueue | src/main/java/com/imooc/netty/MyChannelHandler.java:134 | A text frame from one member sends another member's queued pongs and empties that member's queue. |
| Server.TextWithNothingQueued | src/main/java/com/imooc/netty/MyChannelHandler.java:129-134 | With nothing queued, a text frame gives exactly one broadcast to the current group, and nothing is queued afterwards. |
| Server.OnlyTextTouchesOthers | src/main/java/com/imooc/netty/MyChannelHandler.java:129-134 | A delivery that is not a text frame broadcasts nothing, so it leaves every other channel's handler unchanged. |
| Server.RequestLeavesNothingQueued | src/main/java/com/imooc/netty/MyChannelHandler.java:80-108 | Whatever the gate decides, a request leaves its channel with nothing queued, and the group and every other channel stay as they were. |
| Server.RefusedRequestKeepsGroup | src/main/java/com/imooc/netty/MyChannelHandler.java:81-84 | A refused request is answered with a 400 that closes after the write, and the group stays as it was. |
| Server.OtherLeaves | src/main/java/com/imooc/netty/MyChannelHandler.java:63-67 | Another channel going inactive removes only that channel and leaves this channel's state as it was. |

## Left out

- Process bootstrap (`Main.java`): event loops, binding port 8888 and shutdown are I/O plumbing.
- `NettyConfig.java`'s global `DefaultChannelGroup` and its concurrent access. The group is a set value threaded through each step, and callbacks are delivered one at a time.
- `ChannelGroup`'s own removal of a channel when it closes. Only `channelInactive` removes a channel here.
- Handshaker construction and version negotiation, the Sec-WebSocket-Accept computation (section 4.2.2 of RFC 6455), and the bytes of the handshake, unsupported-version and close responses. These are Netty library code and appear as abstract actions or as the `negotiated` input.
- WebSocket frame encoding and decoding, and `writeAndFlush` delivery to each group member.
- Buffer reference counting (`retain` / `release`): a memory-management concern with no observable logic.
- The UTF-8 encoding of the status text. The body is modelled as characters, and the status text is ASCII.
- Logging (`println`, `printStackTrace`).
- `MyWebSocketChannelHandler`, the pipeline initializer, is not part of this model. One handler instance per channel is assumed, so the stored handshaker is per connection.
