/**
 * The server's session and channel engine as a state machine on values.
 * The state is the registry of channels by name, the set of live
 * participants, each participant's current channel and outbound queue, and
 * (for the proofs) each participant's ghost write history. There is one step
 * function per handler; the class in module RelayServer performs the same
 * steps in place and is proved to agree with them.
 */
module Relay {
  import opened Wrappers
  import opened Protocol
  import Wire

  /** A participant, identified by the allocation that created it. */
  type Pid = nat
  /** A channel name: the body bytes of the request that named it. */
  type Name = seq<byte>

  /** The capacity a channel receives when it is created by a client. */
  const DEFAULT_CAPACITY: nat := 2
  const COMMA: byte := 44
  const SPACE: byte := 32
  /** What the channel list puts between two names. */
  const SEPARATOR: seq<byte> := [COMMA, SPACE]

  /** The bytes of a text literal (each character narrowed to one byte). */
  function Text(s: string): (r: seq<byte>)
    ensures |r| == |s|
  {
    seq(|s|, i requires 0 <= i < |s| => (s[i] as int % 0x100) as byte)
  }

  // ---------------- Channels ----------------

  /** A room: its capacity and the participants in it. */
  datatype Channel = Channel(capacity: nat, connections: set<Pid>)

  /** Channel::count. */
  function Count(c: Channel): (r: nat)
    ensures r == 0 <==> c.connections == {}
  {
    |c.connections|
  }

  /** Channel::ifFull: a channel within its capacity is not full exactly when it has room. */
  predicate IsFull(c: Channel)
    ensures Count(c) <= c.capacity ==> (!IsFull(c) <==> Count(c) < c.capacity)
  {
    |c.connections| == c.capacity
  }

  /** Channel::join: refuses when full, otherwise adds `p` (set semantics). */
  function Join(c: Channel, p: Pid): (r: (Channel, bool))
    ensures r.1 <==> !IsFull(c)
    ensures r.0.capacity == c.capacity
    ensures c.connections <= r.0.connections <= c.connections + {p}
  {
    if IsFull(c) then (c, false) else (c.(connections := c.connections + {p}), true)
  }

  /** Channel::leave: removes `p`; a channel left empty is erased from the registry. */
  function Leave(channels: map<Name, Channel>, name: Name, p: Pid): (r: map<Name, Channel>)
    requires name in channels
    ensures r.Keys <= channels.Keys
    ensures name in r <==> channels[name].connections - {p} != {}
  {
    var rest := channels[name].connections - {p};
    if rest == {} then channels - {name}
    else channels[name := channels[name].(connections := rest)]
  }

  // ---------------- Server state ----------------

  /**
   * Ghost record of one participant's write pump: the packages handed to
   * the stream (in order) and the packages whose write has completed.
   */
  datatype History = History(started: seq<Package>, completed: seq<Package>)

  datatype ServerState = ServerState(
    channels: map<Name, Channel>,
    members: set<Pid>,
    channelOf: map<Pid, Option<Name>>,
    queues: map<Pid, seq<Package>>,
    history: map<Pid, History>,
    nextId: nat)

  /** The empty static registries the server starts with. */
  function Initial(): (r: ServerState)
    ensures Inv(r) && r.members == {} && r.channels == map[] && r.nextId == 0
  {
    ServerState(map[], {}, map[], map[], map[], 0)
  }

  /** The tables agree on who is live, and a participant's channel field names a registered channel. */
  predicate WF(s: ServerState) {
    && s.channelOf.Keys == s.members
    && s.queues.Keys == s.members
    && s.history.Keys == s.members
    && forall p :: p in s.channelOf && s.channelOf[p].Some? ==> s.channelOf[p].value in s.channels
  }

  /** (a) `p`'s channel is `n` if and only if `n` is registered and `p` is among its connections. */
  predicate MembershipAgrees(channels: map<Name, Channel>, channelOf: map<Pid, Option<Name>>) {
    && (forall p :: p in channelOf && channelOf[p].Some? ==>
          channelOf[p].value in channels && p in channels[channelOf[p].value].connections)
    && (forall n, p :: n in channels && p in channels[n].connections ==>
          p in channelOf && channelOf[p] == Some(n))
  }

  /** (b) No channel holds more participants than its capacity. */
  predicate WithinCapacity(channels: map<Name, Channel>) {
    forall n :: n in channels ==> |channels[n].connections| <= channels[n].capacity
  }

  /** (c) Every registered channel has at least one participant. */
  predicate NoEmptyChannel(channels: map<Name, Channel>) {
    forall n :: n in channels ==> channels[n].connections != {}
  }

  /** (d) A participant is in at most one channel. */
  predicate AtMostOneChannel(channels: map<Name, Channel>) {
    forall p, n1, n2 ::
      n1 in channels && n2 in channels && p in channels[n1].connections && p in channels[n2].connections
      ==> n1 == n2
  }

  /** The only names a client can register: non-empty and free of commas. */
  predicate ValidName(n: Name) {
    n != [] && COMMA !in n
  }

  predicate ValidNames(channels: map<Name, Channel>) {
    forall n :: n in channels ==> ValidName(n)
  }

  predicate AllWellFormed(q: seq<Package>) {
    forall i :: 0 <= i < |q| ==> WellFormed(q[i])
  }

  /** The package in flight on a pump whose queue is `q`: its head, if any. */
  function Head(q: seq<Package>): (r: seq<Package>)
    ensures r <= q && |r| == (if q == [] then 0 else 1)
  {
    if q == [] then [] else [q[0]]
  }

  /**
   * The pump of one participant: what was handed to the stream is what has
   * completed plus the queue's head (the only write in flight), and every
   * package it holds is well formed.
   */
  predicate PumpOk(q: seq<Package>, h: History) {
    && h.started == h.completed + Head(q)
    && AllWellFormed(q)
    && AllWellFormed(h.completed)
  }

  predicate PumpsOk(queues: map<Pid, seq<Package>>, history: map<Pid, History>) {
    forall p :: p in queues && p in history ==> PumpOk(queues[p], history[p])
  }

  /** The invariant every handler keeps. */
  predicate Inv(s: ServerState) {
    && WF(s)
    && MembershipAgrees(s.channels, s.channelOf)
    && WithinCapacity(s.channels)
    && NoEmptyChannel(s.channels)
    && ValidNames(s.channels)
    && PumpsOk(s.queues, s.history)
    && (forall p :: p in s.members ==> p < s.nextId)
  }

  // ---------------- The write pump ----------------

  /** execWriteAction: the queue's head is handed to the stream. */
  function StartWrite(s: ServerState, p: Pid): (r: ServerState)
    requires p in s.queues && p in s.history && s.queues[p] != []
    ensures r.queues == s.queues && r.history.Keys == s.history.Keys
    ensures r.history[p].completed == s.history[p].completed
    ensures r.history[p].started == s.history[p].started + Head(s.queues[p])
  {
    s.(history := s.history[p := s.history[p].(started := s.history[p].started + [s.queues[p][0]])])
  }

  /** Participant::write: push at the back; start sending only if the queue was empty. */
  function Enqueue(s: ServerState, p: Pid, pkg: Package): (r: ServerState)
    requires p in s.queues && p in s.history
    ensures r.queues.Keys == s.queues.Keys && r.history.Keys == s.history.Keys
    ensures r.queues[p] == s.queues[p] + [pkg]
  {
    var pushed := s.(queues := s.queues[p := s.queues[p] + [pkg]]);
    if s.queues[p] == [] then StartWrite(pushed, p) else pushed
  }

  /** Completion of the write in flight: pop the head; start the next one if any is left. */
  function CompleteWrite(s: ServerState, p: Pid): (r: ServerState)
    requires p in s.queues && p in s.history && s.queues[p] != []
    ensures r.queues.Keys == s.queues.Keys && r.history.Keys == s.history.Keys
    ensures [s.queues[p][0]] + r.queues[p] == s.queues[p]
    ensures r.history[p].completed == s.history[p].completed + [s.queues[p][0]]
  {
    var q := s.queues[p];
    var h := s.history[p];
    var popped := s.(queues := s.queues[p := q[1..]],
                     history := s.history[p := h.(completed := h.completed + [q[0]])]);
    if q[1..] != [] then StartWrite(popped, p) else popped
  }

  /** `pkg` written to every participant of `targets`, nobody else touched. */
  function EnqueueAll(s: ServerState, targets: set<Pid>, pkg: Package): (r: ServerState)
    ensures r.queues.Keys == s.queues.Keys && r.history.Keys == s.history.Keys
    ensures forall q :: q in targets && q in s.queues ==> r.queues[q] == s.queues[q] + [pkg]
    ensures forall q :: q !in targets && q in s.queues ==> r.queues[q] == s.queues[q]
  {
    s.(queues := map q | q in s.queues :: if q in targets then s.queues[q] + [pkg] else s.queues[q],
       history := map q | q in s.history ::
         if q in targets && q in s.queues && s.queues[q] == []
         then s.history[q].(started := s.history[q].started + [pkg])
         else s.history[q])
  }

  /**
   * A reply: encode, then write. An encoding failure raises in the source
   * and the handler's caller swallows it, so nothing is written.
   */
  function Reply(s: ServerState, p: Pid, t: Type, text: seq<byte>): (r: ServerState)
    requires p in s.queues && p in s.history
    ensures r.channels == s.channels && r.members == s.members && r.channelOf == s.channelOf && r.nextId == s.nextId
    ensures r.queues.Keys == s.queues.Keys && r.history.Keys == s.history.Keys
    ensures |text| <= BODY_MAX_LENGTH ==> r.queues[p] == s.queues[p] + [Package(Code(t), |text| as u16, text)]
    ensures |text| > BODY_MAX_LENGTH ==> r == s
  {
    match Encode(Code(t), text)
    case Ok(pkg) => Enqueue(s, p, pkg)
    case Err(_) => s
  }

  // ---------------- Handlers ----------------

  /** Participant::transmit of an inbound MESSAGE frame. */
  function TransmitStep(s: ServerState, p: Pid, pkg: Package): (r: ServerState)
    requires WF(s) && p in s.members
    ensures r.channels == s.channels && r.members == s.members && r.channelOf == s.channelOf && r.nextId == s.nextId
  {
    match s.channelOf[p]
    case None => Reply(s, p, OtherError, Text("Error: did not join any channel"))
    case Some(n) =>
      var conns := s.channels[n].connections;
      if Count(s.channels[n]) <= 1 then
        Reply(s, p, OtherError, Text("Error: no other members in this channel"))
      else
        PeerExists(conns, p);
        if conns - {p} == {} then
          // Channel::send found no peer ("Error: transmit package failed"): unreachable.
          assert false; s
        else EnqueueAll(s, conns - {p}, pkg)
  }

  /** Participant::leaveChannel. */
  function LeaveChannelStep(s: ServerState, p: Pid): (r: ServerState)
    requires WF(s) && p in s.members
    ensures r.members == s.members && r.nextId == s.nextId && r.channels.Keys <= s.channels.Keys
    ensures p in r.channelOf && r.channelOf[p] == None
  {
    match s.channelOf[p]
    case None => s
    case Some(n) =>
      var left := s.(channels := Leave(s.channels, n, p), channelOf := s.channelOf[p := None]);
      Reply(left, p, SucceedInLeaveChannel, Text("leaved channel"))
  }

  /** `order` lists every key of `keys` exactly once. */
  predicate IsEnumeration(order: seq<Name>, keys: set<Name>) {
    && (forall n :: n in order ==> n in keys)
    && (forall n :: n in keys ==> n in order)
    && (forall i, j :: 0 <= i < j < |order| ==> order[i] != order[j])
  }

  /** The names joined by ", ". */
  function JoinNames(names: seq<Name>): (r: seq<byte>)
    ensures names != [] ==> names[0] <= r
  {
    if |names| == 0 then []
    else if |names| == 1 then names[0]
    else JoinNames(names[..|names| - 1]) + SEPARATOR + names[|names| - 1]
  }

  /**
   * Participant::listAllChannels. `order` is the registry's iteration order,
   * which the source leaves unspecified.
   */
  function ListAllChannelsStep(s: ServerState, p: Pid, order: seq<Name>): (r: ServerState)
    requires WF(s) && p in s.members && IsEnumeration(order, s.channels.Keys)
    ensures r.channels == s.channels && r.members == s.members && r.channelOf == s.channelOf && r.nextId == s.nextId
  {
    Reply(s, p, ChannelList, JoinNames(order))
  }

  /** Participant::createChannel. */
  function CreateChannelStep(s: ServerState, p: Pid, name: Name): (r: ServerState)
    requires WF(s) && p in s.members
    ensures r.members == s.members && r.nextId == s.nextId
    ensures s.channels.Keys <= r.channels.Keys <= s.channels.Keys + {name}
  {
    if name == [] || COMMA in name then
      Reply(s, p, FailInCreateChannel, Text("Error: invalid channel name"))
    else if s.channelOf[p].Some? then
      Reply(s, p, FailInCreateChannel, Text("Error: already in one channel"))
    else if name in s.channels then
      Reply(s, p, FailInCreateChannel, Text("Error: channel already exist"))
    else
      var joined := Join(Channel(DEFAULT_CAPACITY, {}), p);
      if !joined.1 then
        // Roll-back of the registration ("Error: failed to join in created channel"): unreachable.
        assert false; s
      else
        var created := s.(channels := s.channels[name := joined.0], channelOf := s.channelOf[p := Some(name)]);
        Reply(created, p, SucceedInCreateChannel, Text("create and join in channel: ") + name)
  }

  /** Participant::joinInChannel. */
  function JoinInChannelStep(s: ServerState, p: Pid, name: Name): (r: ServerState)
    requires WF(s) && p in s.members
    ensures r.members == s.members && r.nextId == s.nextId && r.channels.Keys == s.channels.Keys
  {
    match s.channelOf[p]
    case Some(current) =>
      Reply(s, p, FailInJoinInChannel, Text("already in channel: ") + current)
    case None =>
      if name !in s.channels then
        Reply(s, p, FailInJoinInChannel, Text("Error: selected channel not exist"))
      else
        var joined := Join(s.channels[name], p);
        if joined.1 then
          var entered := s.(channels := s.channels[name := joined.0], channelOf := s.channelOf[p := Some(name)]);
          Reply(entered, p, SucceedInJoinInChannel, Text("join in channel: ") + name)
        else if IsFull(s.channels[name]) then
          Reply(s, p, FailInJoinInChannel, Text("Error: selected channel is full"))
        else
          // "Error: fail to join in selected channel": unreachable, join only refuses a full channel.
          assert false; s
  }

  /**
   * Participant::exit: leave the channel silently, then drop out of the
   * participant set; the participant (its channel field and queue) is gone.
   * A participant that already exited is left alone.
   */
  function ExitStep(s: ServerState, p: Pid): (r: ServerState)
    requires WF(s)
    ensures r.members == s.members - {p} && r.nextId == s.nextId && r.channels.Keys <= s.channels.Keys
  {
    if p !in s.members then s
    else
      var channels := match s.channelOf[p]
        case None => s.channels
        case Some(n) => Leave(s.channels, n, p);
      ServerState(channels, s.members - {p}, s.channelOf - {p}, s.queues - {p}, s.history - {p}, s.nextId)
  }

  /** Server::accept: a new participant, in no channel, with an empty queue. */
  function AcceptStep(s: ServerState): (r: ServerState)
    ensures r.members == s.members + {s.nextId} && r.nextId == s.nextId + 1 && r.channels == s.channels
  {
    var p := s.nextId;
    ServerState(s.channels, s.members + {p}, s.channelOf[p := None], s.queues[p := []],
                s.history[p := History([], [])], p + 1)
  }

  /** True for the types a client may send as a request. */
  predicate IsRequest(t: Type)
    ensures IsRequest(t) <==> Code(t) in {0, 1, 4, 6, 9}
  {
    t in {Message, LeaveChannel, ListAllChannels, CreateChannel, JoinInChannel}
  }

  /** Participant::handle: decode, dispatch requests, drop everything else. */
  function HandleStep(s: ServerState, p: Pid, pkg: Package, order: seq<Name>): (r: ServerState)
    requires WF(s) && p in s.members && IsEnumeration(order, s.channels.Keys)
    ensures r.members == s.members && r.nextId == s.nextId
  {
    match Decode(pkg)
    case Err(_) => s
    case Ok(t) =>
      match t
      case Message => TransmitStep(s, p, pkg)
      case LeaveChannel => LeaveChannelStep(s, p)
      case ListAllChannels => ListAllChannelsStep(s, p, order)
      case CreateChannel => CreateChannelStep(s, p, pkg.body)
      case JoinInChannel => JoinInChannelStep(s, p, pkg.body)
      case _ => s
  }

  // ---------------- Helper facts ----------------

  /** A channel of two or more holds someone other than `p`. */
  lemma PeerExists(conns: set<Pid>, p: Pid)
    requires |conns| > 1
    ensures conns - {p} != {}
  {
    assert conns == (conns - {p}) + (conns * {p});
    assert |conns * {p}| <= 1;
  }

  /** Some listing order of a set of names. */
  ghost function Enumeration(keys: set<Name>): (order: seq<Name>)
    ensures IsEnumeration(order, keys)
    decreases keys
  {
    if keys == {} then []
    else
      var n :| n in keys;
      var rest := Enumeration(keys - {n});
      assert forall i :: 0 <= i < |rest| ==> rest[i] != n;
      [n] + rest
  }
}
