# A verified model of a TCP chat relay's frame codec and channel server

The system is a small chat relay over TCP. Clients exchange frames
(`type`, `length`, `body`) with a server. The server keeps a registry of
named channels, each holding at most two participants, and forwards a
MESSAGE frame from one member to every other member of its channel.

This project models two pieces of it.

- **The frame codec.** Module `Protocol` holds:
  - the package record and the twelve package types;
  - the header, body and package length limits;
  - the type check;
  - `encodePackage` and `decodePackage`, with their two failure kinds as
    result variants.

  Module `Wire` holds the byte layout that the server writes and reads: the
  type field, then the length field, then the body, with no padding. The
  byte order of the two 16-bit fields is a parameter.
- **The server engine.** Module `Relay` describes it as a state machine on
  values. The state is:
  - the channel registry by name;
  - the set of live participants;
  - each participant's channel field and outbound queue;
  - a record, for the proofs only, of what each participant's write pump has
    handed to its socket and what has completed.

  There is one step function per handler. Module `RelayServer` performs the
  same handlers in place on a `Server` object holding those tables, and each
  method is proved equal to its step. Module `RelayProperties` proves what
  the steps promise:
  - every handler keeps the registry invariant:
    - (a) a participant's channel field names `n` exactly when `n` is
      registered and the participant is among its connections;
    - (b) no channel is over capacity;
    - (c) no registered channel is empty;
    - (d) nobody is in two channels, which follows from (a);
    - channel names are non-empty and free of commas;
    - every pump is consistent;
  - each handler's replies and state changes, case by case;
  - the write pump sends in enqueue order with one write in flight;
  - the channel list splits back into the registered names.

Channels and participants are records in the server's tables, keyed by
channel name and by participant identity. The source's shared pointers are
not modelled. A participant's channel field therefore holds the channel's
name, not a pointer. This loses nothing for two reasons:
- the source erases a registry entry only when its connections have become
  empty (src/server.cpp:103-106);
- every member resets its channel field when it leaves
  (src/server.cpp:138 and src/server.cpp:290).

So a pointer held in a channel field always refers to the channel
registered under that name, and invariant (a) states exactly this link
between the field and the registry entry.

A handler builds its reply with the encoder. If the encoder fails, the
exception propagates to `handle`, which logs and swallows it. So an
over-long reply text means no reply is queued, while the state changes the
handler already made stay. The model does exactly that. It can happen in
three ways:
- on a successful create or join, when the name makes the success text
  longer than 65535 bytes;
- on a refused join by a participant already in a channel, when that
  channel's name makes "already in channel: " + name longer than 65535
  bytes (a name of 65516 bytes or more);
- on a channel list longer than 65535 bytes.

Three branches of the source cannot be reached when the invariant holds.
The model marks each of them with a proved `assert false`:
- the roll-back in `createChannel`, because a fresh channel is never full;
- "fail to join in selected channel" in `joinInChannel`, because `join`
  refuses only a full channel;
- "transmit package failed" in `transmit`, because a channel of two or more
  always holds a peer.

## Model

| member | source | states |
|---|---|---|
| Protocol.TypeOf | inc/protocol.hpp:22-41 | decoding a numeric type gives back the enum value with that number |
| Protocol.CheckType | inc/protocol.hpp:43-62 | the type check accepts a 16-bit value exactly when it is at most 11 (so 0xFF is refused) |
| Protocol.Code | inc/protocol.hpp:22-41 | every enumerator's number, as the encoder casts it to the type field, is at most 11 |
| Protocol.CodesDistinct | inc/protocol.hpp:22-41 | the twelve type numbers are pairwise distinct and each decodes back to its own type |
| Protocol.PackageMaxLength | inc/protocol.hpp:18-20 | header length 4, body maximum 65535, package maximum 65539 |
| Protocol.LengthFieldBounded | inc/protocol.hpp:11-16 | a stored length field never exceeds the body maximum; so neither does the body of a consistent package |
| Protocol.Encode | src/protocol.cpp:12-27 | fails with InvalidType exactly for an unknown type, and with InvalidLength exactly for a known type with a body over 65535 bytes; on success the type, the length (= body size) and the body bytes in order |
| Protocol.EncodeChecksTypeFirst | src/protocol.cpp:15-23 | an unknown type fails with InvalidType whatever the body size |
| Protocol.EncodeSucceeds | src/protocol.cpp:12-27 | encoding succeeds exactly when the type number is at most 11 and the body is at most 65535 bytes |
| Protocol.EncodeMessage | src/protocol.cpp:7-10 | encoding a message is encoding with type MESSAGE: it fails only with InvalidLength, exactly for more than 65535 bytes |
| Protocol.Decode | src/protocol.cpp:29-43 | fails with InvalidLength exactly when the length field differs from the body size; fails with InvalidType exactly for a consistent package with an unknown type; otherwise returns the type whose number is in the package |
| Protocol.DecodeChecksLengthFirst | src/protocol.cpp:31-36 | an inconsistent length fails with InvalidLength whatever the type field holds |
| Protocol.DecodeEncode | src/protocol.cpp:12-43 | for every type and every body of at most 65535 bytes, encoding succeeds and decoding the result gives the type back |
| Protocol.EncodeDecodeExamples | test/test.cpp:5-31 | the unit test's cases: "Hello World" encodes to type 0, length 11, its bytes; 65536 bytes fail with InvalidLength; type 0xFF fails with InvalidType; the three decode cases |
| Wire.FieldBytes | src/server.cpp:197-201 | a 16-bit header field occupies exactly two bytes on the wire |
| Wire.FieldOf | src/server.cpp:158-162 | the 16-bit field read from two header bytes is the value whose in-memory bytes are exactly those two |
| Wire.FieldRoundTrip | src/server.cpp:158-162 | reading a field back from its two bytes gives the value, and every pair of bytes is the image of the value read from it, in either byte order |
| Wire.Serialize | src/server.cpp:195-201 | a written frame is the 4-byte header followed by the body bytes unchanged |
| Wire.SerializeAll | src/server.cpp:195-217 | the pump's output for a sequence of packages holds at least one header per package |
| Wire.ReadFrame | src/server.cpp:155-193 | a frame read off the input is exactly a written package followed by the rest of the input |
| Wire.ReadFrames | src/server.cpp:155-193 | reading frame by frame yields at most one package per 4 input bytes |
| Wire.SerializeLength | src/server.cpp:195-201 | a written frame is the 4-byte header plus the body, so at most 65539 bytes for a consistent package |
| Wire.ReadFrameWellFormed | src/server.cpp:155-193 | a frame read as header, then exactly `length` body bytes, is consistent, so decoding it never fails with InvalidLength; it consumes at least the header |
| Wire.ReadSerialized | src/server.cpp:155-201 | reading a written consistent package gives it back and leaves the following bytes untouched |
| Wire.ReadAllSerialized | src/server.cpp:155-217 | reading a stream of written consistent packages frame by frame gives back exactly those packages, in order |
| Relay.Count | src/server.cpp:61-64 | `count` is zero exactly when the channel has no connections |
| Relay.IsFull | src/server.cpp:56-59 | for a channel within its capacity, `ifFull` is false exactly when there is room for one more |
| Relay.Initial | src/server.cpp:13-14 | the server starts with no channels, no participants and the next identity 0, and the invariant holds |
| Relay.Head | src/server.cpp:195-201 | the package a pump has in flight is a prefix of its queue: the head when the queue is non-empty, nothing otherwise |
| Relay.Join | src/server.cpp:76-84 | `join` reports success exactly when the channel is not full; the capacity is kept; the connections afterward lie between the old ones and the old ones plus the joiner |
| Relay.Leave | src/server.cpp:100-107 | `leave` only ever erases registry entries; the channel's name stays registered exactly when someone besides the leaver remains |
| Relay.Enqueue | src/server.cpp:145-153 | `write` puts the package at the back of the participant's queue; no queue or pump record appears or disappears |
| Relay.StartWrite | src/server.cpp:195-201 | handing the head to the socket records it as started; the queues and the completed record are unchanged |
| Relay.CompleteWrite | src/server.cpp:202-210 | a completed write removes exactly the queue's head and records it as completed |
| Relay.EnqueueAll | src/server.cpp:86-98 | broadcasting puts the package at the back of every target's queue and leaves every other queue as it was |
| Relay.Reply | src/server.cpp:312-313 | a reply text of at most 65535 bytes queues exactly one package of the reply's type, length and text; a longer one changes nothing; the registry, the participants and the channel fields never change |
| Relay.TransmitStep | src/server.cpp:257-283 | `transmit` never changes the registry, the participants or any channel field |
| Relay.LeaveChannelStep | src/server.cpp:285-296 | after `leaveChannel` the caller is in no channel; no name is added to the registry; the participants are unchanged |
| Relay.JoinNames | src/server.cpp:300-311 | a non-empty channel list begins with the first name visited |
| Relay.ListAllChannelsStep | src/server.cpp:298-314 | `listAllChannels` never changes the registry, the participants or any channel field |
| Relay.CreateChannelStep | src/server.cpp:316-355 | `createChannel` registers at most the requested name and removes none; the participants are unchanged |
| Relay.JoinInChannelStep | src/server.cpp:357-395 | `joinInChannel` leaves the set of registered names and the participants unchanged |
| Relay.ExitStep | src/server.cpp:132-143 | after `exit` the participant is gone from the participant set; no name is added to the registry |
| Relay.AcceptStep | src/server.cpp:23-35 | `accept` adds exactly one participant, under the next identity, which then advances; the registry is unchanged |
| Relay.IsRequest | src/server.cpp:224-248 | `handle` dispatches exactly the types numbered 0, 1, 4, 6 and 9 (MESSAGE, CREATE_CHANNEL, LIST_ALL_CHANNELS, JOIN_IN_CHANNEL, LEAVE_CHANNEL) |
| Relay.HandleStep | src/server.cpp:219-255 | handling an inbound frame never adds or removes a participant |
| Relay.PeerExists | src/server.cpp:86-98 | a channel of two or more holds someone other than the sender, so `send` always writes at least once |
| Relay.Enumeration | src/server.cpp:298-311 | every set of channel names has a listing order naming each exactly once |
| RelayProperties.JoinSpec | src/server.cpp:56-84 | `join` refuses exactly a full channel and then changes nothing; otherwise it adds the participant (set semantics) and the channel stays within its capacity |
| RelayProperties.ChannelLeaveSpec | src/server.cpp:100-107 | `leave` removes the participant; the name leaves the registry exactly when nobody else was in the channel; other channels are untouched |
| RelayProperties.EnqueueAppends | src/server.cpp:145-153 | `write` appends at the back of the participant's stream and starts a send exactly when the queue was empty before the push; nothing else changes |
| RelayProperties.CompleteWritePops | src/server.cpp:202-210 | a completed write pops exactly the head, records it as sent, and starts the next write exactly when a package is left |
| RelayProperties.SingleFlight | src/server.cpp:145-217 | what was handed to the socket is a prefix of everything written, in enqueue order; exactly one write is in flight when the queue is non-empty, none otherwise, and the one in flight is the head |
| RelayProperties.StreamReadsBack | src/server.cpp:155-217 | the bytes handed to a participant's socket read back, frame by frame, as the packages sent, in order |
| RelayProperties.EnqueueKeepsInv | src/server.cpp:145-153 | writing a consistent package keeps the invariant |
| RelayProperties.CompleteWriteKeepsInv | src/server.cpp:202-210 | a completed write keeps the invariant |
| RelayProperties.ReplyKeepsInv | src/server.cpp:312-313 | a reply queues one package for the participant when its text fits, none otherwise; the participant's completed writes and everything else are unchanged; the invariant is kept |
| RelayProperties.EnqueueAllKeepsInv | src/server.cpp:86-98 | broadcasting appends the package to every target's queue, touches nobody else and keeps the invariant |
| RelayProperties.AtMostOne | inc/server.hpp:38-70 | invariant (d): a participant is in at most one channel |
| RelayProperties.TransmitSpec | src/server.cpp:257-283 | an unjoined sender gets OTHER_ERROR "did not join any channel"; a sender alone gets OTHER_ERROR "no other members"; otherwise the unchanged frame goes to every other member and nobody else, each peer's completed writes are unchanged, and the sender gets nothing; the invariant is kept |
| RelayProperties.LeaveChannelUnjoined | src/server.cpp:285-287 | `leaveChannel` when not in a channel changes nothing and replies nothing |
| RelayProperties.LeaveChannelSpec | src/server.cpp:285-296 | `leaveChannel` when joined leaves the channel (erasing it when it was the last member), clears the channel field (and no other participant's), replies SUCCEED_IN_LEAVE_CHANNEL, leaves other channels alone and keeps the invariant |
| RelayProperties.ExitSpec | src/server.cpp:132-143 | `exit` leaves the channel silently and drops the participant and its queue; others' queues and channel fields are untouched; a second exit changes nothing; the invariant is kept |
| RelayProperties.ListAllChannelsSpec | src/server.cpp:298-314 | `listAllChannels` queues at most one CHANNEL_LIST reply, none when the list exceeds 65535 bytes; its body is the names joined by ", " (empty with no channels); nothing else changes and the invariant is kept |
| RelayProperties.ListNamesRegistry | src/server.cpp:298-314 | the channel list splits back at ", " into exactly the registered names, each once; its body is empty exactly when there are no channels |
| RelayProperties.SplitJoin | src/server.cpp:300-311 | splitting names joined by ", " gives them back when none contains a comma |
| RelayProperties.CreateChannelSpec | src/server.cpp:316-355 | an invalid name fails first; then being in a channel, then a taken name fail; all three leave the registry unchanged and reply FAIL_IN_CREATE_CHANNEL with their texts; otherwise the name is registered with the caller alone, the channel field is set and the reply is "create and join in channel: " + name; each case queues at most one reply, and none when its text exceeds 65535 bytes; the invariant is kept |
| RelayProperties.CreatedKeepsInv | src/server.cpp:329-340 | registering a free valid name with an unjoined creator as its only member keeps the invariant |
| RelayProperties.JoinInChannelSpec | src/server.cpp:357-395 | already in a channel, unknown name and full channel each fail with their own FAIL_IN_JOIN_IN_CHANNEL text and change nothing else; otherwise the caller is added, its channel field set, and the reply is "join in channel: " + name; each case queues at most one reply, and none when its text exceeds 65535 bytes; the invariant is kept |
| RelayProperties.EnteredKeepsInv | src/server.cpp:367-375 | an unjoined participant entering a channel that is not full keeps the invariant |
| RelayProperties.MessageDispatch | src/server.cpp:221-228 | `handle` sends a consistent MESSAGE frame to `transmit`, whatever the registry's listing order |
| RelayProperties.AcceptSpec | src/server.cpp:23-35 | `accept` adds a fresh participant in no channel with an empty queue and an empty pump; the id counter advances by one, the registry is unchanged, every other participant's channel field, queue and pump record are untouched, and the invariant is kept |
| RelayProperties.Fresh | src/server.cpp:29-30 | the next identity is neither live nor in any channel |
| RelayProperties.HandleDrops | src/server.cpp:219-255 | a frame that does not decode, or whose type is not a request, is dropped with no change and no reply |
| RelayProperties.HandleKeepsInv | src/server.cpp:219-255 | every inbound frame, consistent or not, keeps the invariant |
| RelayProperties.CapacityScenario | src/server.cpp:56-107 | a full registered channel of the default capacity refuses a newcomer; after one member leaves it through `leave`, the channel is still registered and the newcomer's join succeeds |
| RelayProperties.RelayScenario | src/server.cpp:219-395 | A creates a channel and B joins it, each getting its success reply; A's MESSAGE frame, dispatched by `handle` under any listing order, reaches B unchanged while A's queue is untouched; B leaves with SUCCEED_IN_LEAVE_CHANNEL; A's next message earns A OTHER_ERROR "no other members in this channel"; the invariant holds throughout |
| RelayProperties.EnumerationLength | src/server.cpp:298-311 | a listing of the registry has exactly one entry per registered channel |
| RelayProperties.TwoNames | src/server.cpp:298-311 | the channels "a" and "b" are listed as "a, b" or as "b, a" |
| RelayProperties.ListTwoScenario | src/server.cpp:298-314 | with exactly the channels "a" and "b" registered, the caller receives one CHANNEL_LIST reply of length 4 whose body is "a, b" or "b, a" |
| RelayProperties.LastLeaveFreesName | src/server.cpp:100-355 | once the last member leaves, the name is free again and creating it registers it with the creator alone |
| RelayServer.Server.constructor | inc/server.hpp:22-24 | the server starts with no channels, no participants and the invariant |
| RelayServer.Server.Accept | src/server.cpp:23-35 | performs the accept step in place and returns a fresh identity; keeps the invariant |
| RelayServer.Server.ChannelJoin | src/server.cpp:76-84 | reports success exactly when the channel was not full, and performs `join` on the registry entry |
| RelayServer.Server.ChannelLeave | src/server.cpp:100-107 | performs `leave` on the registry in place |
| RelayServer.Server.ChannelSend | src/server.cpp:86-98 | its loop writes the package to every member but the sender; reports whether it wrote to anyone |
| RelayServer.Server.Write | src/server.cpp:145-153 | pushes onto the queue and starts the pump exactly when it was idle |
| RelayServer.Server.ExecWriteAction | src/server.cpp:195-201 | hands the queue's head to the socket |
| RelayServer.Server.OnWriteComplete | src/server.cpp:202-210 | pops the head and starts the next write if any; keeps the invariant |
| RelayServer.Server.SendReply | src/server.cpp:312-313 | encodes a reply and writes it; an encoding failure writes nothing |
| RelayServer.Server.Transmit | src/server.cpp:257-283 | performs the transmit step in place; keeps the invariant |
| RelayServer.Server.LeaveChannel | src/server.cpp:285-296 | performs the leaveChannel step in place; keeps the invariant |
| RelayServer.ListNames | src/server.cpp:300-311 | its loop visits every name of the registry exactly once and builds the ", "-joined list in that order |
| RelayServer.Server.ListAllChannels | src/server.cpp:298-314 | builds the ", "-joined list in some listing order of the registry, replies with it and thereby performs the listAllChannels step in place; keeps the invariant |
| RelayServer.Server.CreateChannel | src/server.cpp:316-355 | performs the createChannel step in place; keeps the invariant |
| RelayServer.Server.Enter | src/server.cpp:367-371 | joins the registered channel and records it in the channel field exactly when it was not full; a full channel leaves the state as it was |
| RelayServer.Server.JoinInChannel | src/server.cpp:357-395 | performs the joinInChannel step in place; keeps the invariant |
| RelayServer.Server.Create | src/server.cpp:331-337 | registers a fresh channel of default capacity under the name with the caller as its member, and sets the caller's channel field |
| RelayServer.Server.Depart | src/server.cpp:132-143 | given only that the tables agree, performs the exit step in place |
| RelayServer.Server.Forget | src/server.cpp:132-143 | drops the participant from the participant set together with its channel field, queue and pump record, changing nothing else |
| RelayServer.Server.Exit | src/server.cpp:132-143 | performs the exit step in place; keeps the invariant |
| RelayServer.Server.Handle | src/server.cpp:219-255 | decodes the frame and dispatches it to the handler of its type, or drops it; keeps the invariant |

## Left out

- Boost.Asio: sockets, `async_accept`, `async_read`, `async_write` and the chaining of their callbacks. These become the abstract steps "accept", "deliver an inbound frame" (`Handle`) and "write completed" (`OnWriteComplete`).
- A failed read or a failed write calls `exit`. The model offers `Exit` as a step, but does not model the errors themselves.
- The server program, the client and the client program. They are argument parsing, an interactive terminal loop and output rendering.
- Logging. It has no behavioural effect.
- The lifetimes of shared pointers, and destructors. A participant is an identity; a channel is a registry entry keyed by its name.
- Aliasing between Channel and Participant objects. Both are records in the server's tables, not separate heap objects.
- The source's callbacks capture `this` raw, so a callback that fires after `exit` has dropped the participant touches a destroyed object. The model has no such step.
- Concurrency. The server runs on one event loop thread, so the steps are sequential.
- Host byte order of the header fields. The source writes the raw bytes of the two fields; the model takes the byte order as a parameter and proves every property for both orders.
- The two-argument Channel constructor, which sets a custom capacity. Nothing in the core calls it; every channel is created with capacity 2. The model's channels still carry their capacity.
- The order in which the registry is iterated when listing channels is unspecified in the source. `RelayServer.Server.ListAllChannels` returns it as a ghost value, constrained only to name every registered channel exactly once.
- `getName` and `getPtr` are not separate members. The name is the registry key, and the pointer is the identity.
- Relay.Text: models a reply text's characters as bytes modulo 256. Every reply literal in the source is ASCII.
