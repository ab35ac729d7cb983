/**
 * What the server's steps promise: the write pump sends in enqueue order
 * with at most one write in flight, every handler keeps the registry
 * invariant, each handler's replies and state changes case by case, the
 * channel list can be split back into the registry's names, and four
 * scenarios: a full channel refusing a newcomer, a freed name being
 * created again, a message relayed and then refused once the peer has
 * left, and the listing of two channels.
 */
module RelayProperties {
  import opened Wrappers
  import opened Protocol
  import Wire
  import opened Relay

  // ---------------- Vocabulary ----------------

  /** Everything ever written to `p`, in order: completed writes, then the queue. */
  function Stream(s: ServerState, p: Pid): (r: seq<Package>)
    requires p in s.queues && p in s.history
    ensures s.history[p].completed <= r && r[|s.history[p].completed|..] == s.queues[p]
  {
    s.history[p].completed + s.queues[p]
  }

  /** `t` differs from `s` at most in the pumps of the participants in `ps`. */
  predicate OnlyPumpsOf(s: ServerState, t: ServerState, ps: set<Pid>) {
    && t.channels == s.channels && t.members == s.members
    && t.channelOf == s.channelOf && t.nextId == s.nextId
    && t.queues.Keys == s.queues.Keys && t.history.Keys == s.history.Keys
    && (forall q :: q in s.queues && q !in ps ==> t.queues[q] == s.queues[q])
    && (forall q :: q in s.history && q !in ps ==> t.history[q] == s.history[q])
  }

  /** The package a reply of type `t` with text `text` puts on the queue, if it encodes. */
  function ReplyPackages(t: Type, text: seq<byte>): (r: seq<Package>)
    ensures Encode(Code(t), text).Ok? ==> r == [Encode(Code(t), text).value]
    ensures Encode(Code(t), text).Err? ==> r == []
  {
    if |text| <= BODY_MAX_LENGTH then [Package(Code(t), |text| as u16, text)] else []
  }

  /** `r` is `s` with one reply queued for `p` (none if the text does not fit) and nothing else changed. */
  predicate Replied(s: ServerState, r: ServerState, p: Pid, t: Type, text: seq<byte>) {
    && OnlyPumpsOf(s, r, {p})
    && p in s.queues && p in r.queues
    && r.queues[p] == s.queues[p] + ReplyPackages(t, text)
    && p in s.history && p in r.history
    && r.history[p].completed == s.history[p].completed
  }

  // ---------------- Channels ----------------

  /**
   * join refuses exactly a full channel and then changes nothing; otherwise
   * it adds the participant, so a channel within its capacity stays within it.
   */
  lemma JoinSpec(c: Channel, p: Pid)
    requires Count(c) <= c.capacity
    ensures var r := Join(c, p);
      && (r.1 <==> Count(c) < c.capacity)
      && (!r.1 ==> r.0 == c)
      && (r.1 ==> r.0.capacity == c.capacity && r.0.connections == c.connections + {p})
      && Count(r.0) <= r.0.capacity
      && (p in c.connections ==> r.0 == c)
  {
    if !IsFull(c) {
      assert |c.connections + {p}| <= |c.connections| + 1;
      if p in c.connections {
        assert c.connections + {p} == c.connections;
      }
    }
  }

  /**
   * leave drops the participant from the named channel; the name leaves the
   * registry exactly when nobody else was in it, and every other channel is
   * untouched.
   */
  lemma ChannelLeaveSpec(channels: map<Name, Channel>, name: Name, p: Pid)
    requires name in channels
    ensures var r := Leave(channels, name, p);
      && (name in r <==> channels[name].connections - {p} != {})
      && (name in r ==> r[name] == channels[name].(connections := channels[name].connections - {p}))
      && (forall m :: m != name ==> (m in r <==> m in channels))
      && (forall m :: m != name && m in channels ==> r[m] == channels[m])
  {
  }

  // ---------------- The write pump ----------------

  lemma PumpsOkUpdate(s: ServerState, p: Pid, q: seq<Package>, h: History)
    requires PumpsOk(s.queues, s.history) && PumpOk(q, h)
    ensures PumpsOk(s.queues[p := q], s.history[p := h])
  {
  }

  /**
   * write appends at the back of the stream and starts a send exactly when
   * the queue was empty before the push; nothing else changes.
   */
  lemma EnqueueAppends(s: ServerState, p: Pid, pkg: Package)
    requires p in s.queues && p in s.history
    ensures var t := Enqueue(s, p, pkg);
      && OnlyPumpsOf(s, t, {p})
      && Stream(t, p) == Stream(s, p) + [pkg]
      && t.history[p].completed == s.history[p].completed
      && (s.queues[p] == [] ==> t.history[p].started == s.history[p].started + [pkg])
      && (s.queues[p] != [] ==> t.history[p].started == s.history[p].started)
  {
  }

  /** Completion pops exactly the head, records it as written and starts the next one if any. */
  lemma CompleteWritePops(s: ServerState, p: Pid)
    requires p in s.queues && p in s.history && s.queues[p] != []
    ensures var t := CompleteWrite(s, p);
      && OnlyPumpsOf(s, t, {p})
      && Stream(t, p) == Stream(s, p)
      && t.queues[p] == s.queues[p][1..]
      && t.history[p].completed == s.history[p].completed + [s.queues[p][0]]
      && (|s.queues[p]| > 1 ==> t.history[p].started == s.history[p].started + [s.queues[p][1]])
      && (|s.queues[p]| == 1 ==> t.history[p].started == s.history[p].started)
  {
    var q := s.queues[p];
    assert Stream(CompleteWrite(s, p), p) == (s.history[p].completed + [q[0]]) + q[1..];
    assert q == [q[0]] + q[1..];
  }

  /** A change confined to the pumps keeps the invariant if the pumps stay consistent. */
  lemma PumpsOnly(s: ServerState, t: ServerState)
    requires Inv(s) && OnlyPumpsOf(s, t, s.members) && PumpsOk(t.queues, t.history)
    ensures Inv(t)
  {
  }

  /** Pushing a well-formed package keeps one pump consistent, starting it if it was idle. */
  lemma PushKeepsPump(q: seq<Package>, h: History, pkg: Package)
    requires PumpOk(q, h) && WellFormed(pkg)
    ensures PumpOk(q + [pkg], if q == [] then h.(started := h.started + [pkg]) else h)
  {
    assert Head(q + [pkg]) == if q == [] then [pkg] else Head(q);
    assert AllWellFormed(q + [pkg]) by {
      assert forall i :: 0 <= i < |q| ==> (q + [pkg])[i] == q[i];
    }
  }

  lemma EnqueueKeepsInv(s: ServerState, p: Pid, pkg: Package)
    requires Inv(s) && p in s.members && WellFormed(pkg)
    ensures Inv(Enqueue(s, p, pkg))
  {
    var t := Enqueue(s, p, pkg);
    var q, h := s.queues[p], s.history[p];
    assert PumpOk(q, h);
    PushKeepsPump(q, h, pkg);
    assert t.queues == s.queues[p := t.queues[p]] && t.history == s.history[p := t.history[p]];
    PumpsOkUpdate(s, p, t.queues[p], t.history[p]);
    PumpsOnly(s, t);
  }

  lemma CompleteWriteKeepsInv(s: ServerState, p: Pid)
    requires Inv(s) && p in s.members && s.queues[p] != []
    ensures Inv(CompleteWrite(s, p))
  {
    assert PumpOk(s.queues[p], s.history[p]);
    CompleteWritePops(s, p);
    CompletedPumpOk(s, p);
    OnePumpKeepsInv(s, CompleteWrite(s, p), p);
  }

  /** Completing the head keeps that participant's pump consistent. */
  lemma CompletedPumpOk(s: ServerState, p: Pid)
    requires p in s.queues && p in s.history && s.queues[p] != [] && PumpOk(s.queues[p], s.history[p])
    ensures PumpOk(CompleteWrite(s, p).queues[p], CompleteWrite(s, p).history[p])
  {
    var q, h := s.queues[p], s.history[p];
    CompleteWritePops(s, p);
    assert AllWellFormed(q[1..]);
    assert AllWellFormed(h.completed + [q[0]]) by {
      assert forall i :: 0 <= i < |h.completed| ==> (h.completed + [q[0]])[i] == h.completed[i];
    }
    if |q| > 1 {
      assert Head(q[1..]) == [q[1]];
    } else {
      assert Head(q[1..]) == [];
    }
  }

  /** A change to one participant's pump that leaves it consistent keeps the invariant. */
  lemma OnePumpKeepsInv(s: ServerState, t: ServerState, p: Pid)
    requires Inv(s) && p in s.members && OnlyPumpsOf(s, t, {p}) && PumpOk(t.queues[p], t.history[p])
    ensures Inv(t)
  {
    assert PumpsOk(t.queues, t.history) by {
      forall q | q in t.queues && q in t.history ensures PumpOk(t.queues[q], t.history[q]) {
        if q != p {
          assert PumpOk(s.queues[q], s.history[q]);
        }
      }
    }
    PumpsOnly(s, t);
  }

  /**
   * Single flight, in enqueue order: the packages handed to the stream are
   * a prefix of everything written to `p`; at most one of them has not
   * completed, and there is one exactly when the queue is non-empty, in
   * which case it is the queue's head.
   */
  lemma SingleFlight(s: ServerState, p: Pid)
    requires Inv(s) && p in s.members
    ensures var h, q := s.history[p], s.queues[p];
      && h.started <= Stream(s, p)
      && |h.started| == |h.completed| + (if q == [] then 0 else 1)
      && (q != [] ==> h.started[|h.started| - 1] == q[0])
  {
    var h, q := s.history[p], s.queues[p];
    assert PumpOk(q, h);
    if q != [] {
      assert Stream(s, p) == h.started + q[1..];
    }
  }

  /** The bytes handed to `p`'s stream read back, frame by frame, as the packages written. */
  lemma StreamReadsBack(s: ServerState, p: Pid, order: Wire.ByteOrder)
    requires Inv(s) && p in s.members
    ensures Wire.ReadFrames(order, Wire.SerializeAll(order, s.history[p].started)) == s.history[p].started
  {
    var h, q := s.history[p], s.queues[p];
    assert PumpOk(q, h);
    assert AllWellFormed(h.started) by {
      forall i | 0 <= i < |h.started| ensures WellFormed(h.started[i]) {
        if i < |h.completed| {
          assert h.started[i] == h.completed[i];
        } else {
          assert h.started[i] == q[0];
        }
      }
    }
    Wire.ReadAllSerialized(order, h.started);
  }

  // ---------------- Replies and broadcast ----------------

  /** A reply queues one well-formed package for `p` when the text fits, and changes nothing else. */
  lemma ReplyKeepsInv(s: ServerState, p: Pid, t: Type, text: seq<byte>)
    requires Inv(s) && p in s.members
    ensures Inv(Reply(s, p, t, text))
    ensures Replied(s, Reply(s, p, t, text), p, t, text)
  {
    DecodeEncode(t, text[..if |text| <= BODY_MAX_LENGTH then |text| else 0]);
    match Encode(Code(t), text)
    case Ok(pkg) =>
      EnqueueKeepsInv(s, p, pkg);
      EnqueueAppends(s, p, pkg);
    case Err(_) =>
  }

  /** Writing `pkg` to every participant in `targets` after another one. */
  lemma EnqueueAllStep(s: ServerState, done: set<Pid>, x: Pid, pkg: Package)
    requires x in s.queues && x in s.history && x !in done
    ensures var d := EnqueueAll(s, done, pkg);
      x in d.queues && x in d.history && EnqueueAll(s, done + {x}, pkg) == Enqueue(d, x, pkg)
  {
    var d := EnqueueAll(s, done, pkg);
    var a, b := EnqueueAll(s, done + {x}, pkg), Enqueue(d, x, pkg);
    assert a.queues == b.queues;
    assert a.history == b.history;
  }

  /** Writing to nobody changes nothing. */
  lemma EnqueueAllNone(s: ServerState, pkg: Package)
    ensures EnqueueAll(s, {}, pkg) == s
  {
    var d := EnqueueAll(s, {}, pkg);
    assert d.queues == s.queues;
    assert d.history == s.history;
  }

  /** Broadcast: `pkg` at the back of every target's queue, every other queue as it was. */
  lemma EnqueueAllKeepsInv(s: ServerState, targets: set<Pid>, pkg: Package)
    requires Inv(s) && targets <= s.members && WellFormed(pkg)
    ensures var t := EnqueueAll(s, targets, pkg);
      && Inv(t)
      && OnlyPumpsOf(s, t, targets)
      && (forall q :: q in targets ==> t.queues[q] == s.queues[q] + [pkg])
  {
    var t := EnqueueAll(s, targets, pkg);
    forall q | q in t.queues && q in t.history ensures PumpOk(t.queues[q], t.history[q]) {
      var qs, h := s.queues[q], s.history[q];
      assert PumpOk(qs, h);
      if q in targets {
        PushKeepsPump(qs, h, pkg);
      }
    }
  }

  // ---------------- Handlers ----------------

  /** Invariant (d) follows from invariant (a). */
  lemma AtMostOne(s: ServerState)
    requires Inv(s)
    ensures AtMostOneChannel(s.channels)
  {
    forall p, n1, n2 | n1 in s.channels && n2 in s.channels
      && p in s.channels[n1].connections && p in s.channels[n2].connections
      ensures n1 == n2
    {
      assert s.channelOf[p] == Some(n1);
      assert s.channelOf[p] == Some(n2);
    }
  }

  /**
   * transmit: an unjoined sender, or one alone in its channel, gets a single
   * OTHER_ERROR; otherwise the unchanged frame goes to every other member of
   * the sender's channel and to nobody else, and the sender gets nothing.
   */
  lemma TransmitSpec(s: ServerState, p: Pid, pkg: Package)
    requires Inv(s) && p in s.members && WellFormed(pkg)
    ensures var t := TransmitStep(s, p, pkg);
      && Inv(t)
      && (s.channelOf[p].None? ==>
            Replied(s, t, p, OtherError, Text("Error: did not join any channel")))
      && (s.channelOf[p].Some? && Count(s.channels[s.channelOf[p].value]) <= 1 ==>
            Replied(s, t, p, OtherError, Text("Error: no other members in this channel")))
      && (s.channelOf[p].Some? && Count(s.channels[s.channelOf[p].value]) > 1 ==>
            var peers := s.channels[s.channelOf[p].value].connections - {p};
            && peers != {}
            && OnlyPumpsOf(s, t, peers)
            && peers <= s.queues.Keys && peers <= s.history.Keys
            && (forall q :: q in peers ==> t.queues[q] == s.queues[q] + [pkg])
            && (forall q :: q in peers ==> t.history[q].completed == s.history[q].completed))
  {
    match s.channelOf[p]
    case None =>
      ReplyKeepsInv(s, p, OtherError, Text("Error: did not join any channel"));
    case Some(n) =>
      var conns := s.channels[n].connections;
      if Count(s.channels[n]) <= 1 {
        ReplyKeepsInv(s, p, OtherError, Text("Error: no other members in this channel"));
      } else {
        PeerExists(conns, p);
        EnqueueAllKeepsInv(s, conns - {p}, pkg);
      }
  }

  /** leaveChannel when unjoined: no change and no reply. */
  lemma LeaveChannelUnjoined(s: ServerState, p: Pid)
    requires WF(s) && p in s.members && s.channelOf[p].None?
    ensures LeaveChannelStep(s, p) == s
  {
  }

  /** Leaving keeps the registry invariant; the channel disappears exactly when `p` was its last member. */
  lemma LeaveKeepsRegistry(s: ServerState, p: Pid, n: Name)
    requires Inv(s) && p in s.members && s.channelOf[p] == Some(n)
    ensures var t := s.(channels := Leave(s.channels, n, p), channelOf := s.channelOf[p := None]);
      && Inv(t)
      && (n in t.channels <==> s.channels[n].connections != {p})
      && t.channels.Keys <= s.channels.Keys
  {
    var t := s.(channels := Leave(s.channels, n, p), channelOf := s.channelOf[p := None]);
    var rest := s.channels[n].connections - {p};
    assert rest == {} <==> s.channels[n].connections == {p};
    LeftMembership(s, p, n);
    assert WithinCapacity(t.channels) by {
      if rest != {} {
        assert rest <= s.channels[n].connections;
      }
    }
  }

  /** Leaving the channel and clearing the field keeps invariant (a). */
  lemma LeftMembership(s: ServerState, p: Pid, n: Name)
    requires Inv(s) && p in s.members && s.channelOf[p] == Some(n)
    ensures MembershipAgrees(Leave(s.channels, n, p), s.channelOf[p := None])
  {
    var channels, channelOf := Leave(s.channels, n, p), s.channelOf[p := None];
    var rest := s.channels[n].connections - {p};
    forall q | q in channelOf && channelOf[q].Some?
      ensures channelOf[q].value in channels && q in channels[channelOf[q].value].connections
    {
      assert q != p;
      var m := channelOf[q].value;
      assert q in s.channels[m].connections;
      if m == n {
        assert q in rest;
      }
    }
  }

  /**
   * leaveChannel when joined: leaves the channel (erasing it if it is now
   * empty), clears the channel field and replies SUCCEED_IN_LEAVE_CHANNEL.
   */
  lemma LeaveChannelSpec(s: ServerState, p: Pid)
    requires Inv(s) && p in s.members && s.channelOf[p].Some?
    ensures var n, t := s.channelOf[p].value, LeaveChannelStep(s, p);
      && Inv(t)
      && t.channelOf == s.channelOf[p := None]
      && (n in t.channels <==> s.channels[n].connections != {p})
      && (n in t.channels ==> t.channels[n].connections == s.channels[n].connections - {p})
      && (forall m :: m != n ==> (m in t.channels <==> m in s.channels))
      && (forall m :: m != n && m in s.channels ==> t.channels[m] == s.channels[m])
      && Replied(s.(channels := t.channels, channelOf := s.channelOf[p := None]), t, p,
                 SucceedInLeaveChannel, Text("leaved channel"))
  {
    var n := s.channelOf[p].value;
    LeaveKeepsRegistry(s, p, n);
    var left := s.(channels := Leave(s.channels, n, p), channelOf := s.channelOf[p := None]);
    ReplyKeepsInv(left, p, SucceedInLeaveChannel, Text("leaved channel"));
  }

  /**
   * exit: a participant in a channel leaves it silently; it then drops out
   * of the participant set with its queue. Another participant's queue and
   * channel field are untouched. Exiting twice changes nothing.
   */
  lemma ExitSpec(s: ServerState, p: Pid)
    requires Inv(s)
    ensures var t := ExitStep(s, p);
      && Inv(t)
      && (p !in s.members ==> t == s)
      && (p in s.members ==>
            && t.members == s.members - {p}
            && p !in t.channelOf && p !in t.queues
            && t.nextId == s.nextId
            && (forall q :: q in t.queues ==>
                  && t.queues[q] == s.queues[q] && t.history[q] == s.history[q]
                  && t.channelOf[q] == s.channelOf[q])
            && (s.channelOf[p].None? ==> t.channels == s.channels)
            && (s.channelOf[p].Some? ==> t.channels == Leave(s.channels, s.channelOf[p].value, p)))
  {
    ExitKeepsInv(s, p);
  }

  /** exit keeps the invariant: once out of its channel, nothing refers to the participant. */
  lemma ExitKeepsInv(s: ServerState, p: Pid)
    requires Inv(s)
    ensures Inv(ExitStep(s, p))
  {
    if p in s.members {
      match s.channelOf[p]
      case None =>
        Unjoined(s, p);
      case Some(n) =>
        LeaveKeepsRegistry(s, p, n);
        var left := s.(channels := Leave(s.channels, n, p), channelOf := s.channelOf[p := None]);
        Unjoined(left, p);
    }
  }

  /** listAllChannels keeps the invariant and queues a single CHANNEL_LIST reply with the joined names. */
  lemma ListAllChannelsSpec(s: ServerState, p: Pid, order: seq<Name>)
    requires Inv(s) && p in s.members && IsEnumeration(order, s.channels.Keys)
    ensures var t := ListAllChannelsStep(s, p, order);
      && Inv(t)
      && Replied(s, t, p, ChannelList, JoinNames(order))
      && (s.channels == map[] ==> JoinNames(order) == [])
  {
    ReplyKeepsInv(s, p, ChannelList, JoinNames(order));
    assert order != [] ==> order[0] in order;
  }

  /**
   * createChannel: an invalid name fails first, whatever the registry holds;
   * then being in a channel and a taken name fail; all three leave the
   * registry as it was and reply FAIL_IN_CREATE_CHANNEL. Otherwise the name
   * is registered with the creator as sole member, its channel field is set
   * and the reply is SUCCEED_IN_CREATE_CHANNEL.
   */
  lemma CreateChannelSpec(s: ServerState, p: Pid, name: Name)
    requires Inv(s) && p in s.members
    ensures var t := CreateChannelStep(s, p, name);
      && Inv(t)
      && (!ValidName(name) ==>
            Replied(s, t, p, FailInCreateChannel, Text("Error: invalid channel name")))
      && (ValidName(name) && s.channelOf[p].Some? ==>
            Replied(s, t, p, FailInCreateChannel, Text("Error: already in one channel")))
      && (ValidName(name) && s.channelOf[p].None? && name in s.channels ==>
            Replied(s, t, p, FailInCreateChannel, Text("Error: channel already exist")))
      && (ValidName(name) && s.channelOf[p].None? && name !in s.channels ==>
            && t.channels == s.channels[name := Channel(DEFAULT_CAPACITY, {p})]
            && t.channelOf == s.channelOf[p := Some(name)]
            && Replied(s.(channels := t.channels, channelOf := t.channelOf), t, p,
                       SucceedInCreateChannel, Text("create and join in channel: ") + name))
  {
    if !ValidName(name) {
      ReplyKeepsInv(s, p, FailInCreateChannel, Text("Error: invalid channel name"));
    } else if s.channelOf[p].Some? {
      ReplyKeepsInv(s, p, FailInCreateChannel, Text("Error: already in one channel"));
    } else if name in s.channels {
      ReplyKeepsInv(s, p, FailInCreateChannel, Text("Error: channel already exist"));
    } else {
      var created := s.(channels := s.channels[name := Channel(DEFAULT_CAPACITY, {p})],
                        channelOf := s.channelOf[p := Some(name)]);
      assert {} + {p} == {p};
      CreatedKeepsInv(s, p, name);
      ReplyKeepsInv(created, p, SucceedInCreateChannel, Text("create and join in channel: ") + name);
    }
  }

  /** A participant in no channel belongs to no channel's connections. */
  lemma Unjoined(s: ServerState, p: Pid)
    requires Inv(s) && p in s.members && s.channelOf[p].None?
    ensures forall m :: m in s.channels ==> p !in s.channels[m].connections
  {
  }

  /** Registering a free valid name with an unjoined creator as sole member keeps the invariant. */
  lemma CreatedKeepsInv(s: ServerState, p: Pid, name: Name)
    requires Inv(s) && p in s.members && s.channelOf[p].None? && ValidName(name) && name !in s.channels
    ensures Inv(s.(channels := s.channels[name := Channel(DEFAULT_CAPACITY, {p})],
                   channelOf := s.channelOf[p := Some(name)]))
  {
    Unjoined(s, p);
  }

  /** An unjoined participant entering a channel that is not full keeps the invariant. */
  lemma EnteredKeepsInv(s: ServerState, p: Pid, name: Name)
    requires Inv(s) && p in s.members && s.channelOf[p].None? && name in s.channels && !IsFull(s.channels[name])
    ensures var c := s.channels[name];
      Inv(s.(channels := s.channels[name := c.(connections := c.connections + {p})],
             channelOf := s.channelOf[p := Some(name)]))
  {
    var c := s.channels[name];
    Unjoined(s, p);
    assert |c.connections + {p}| <= |c.connections| + 1;
  }

  /**
   * joinInChannel: being in a channel, an unknown name and a full channel
   * each fail with FAIL_IN_JOIN_IN_CHANNEL and change nothing else;
   * otherwise the caller is added, its channel field set, and the reply is
   * SUCCEED_IN_JOIN_IN_CHANNEL.
   */
  lemma JoinInChannelSpec(s: ServerState, p: Pid, name: Name)
    requires Inv(s) && p in s.members
    ensures var t := JoinInChannelStep(s, p, name);
      && Inv(t)
      && (s.channelOf[p].Some? ==>
            Replied(s, t, p, FailInJoinInChannel, Text("already in channel: ") + s.channelOf[p].value))
      && (s.channelOf[p].None? && name !in s.channels ==>
            Replied(s, t, p, FailInJoinInChannel, Text("Error: selected channel not exist")))
      && (s.channelOf[p].None? && name in s.channels && IsFull(s.channels[name]) ==>
            Replied(s, t, p, FailInJoinInChannel, Text("Error: selected channel is full")))
      && (s.channelOf[p].None? && name in s.channels && !IsFull(s.channels[name]) ==>
            && t.channels == s.channels[name := s.channels[name].(connections := s.channels[name].connections + {p})]
            && t.channelOf == s.channelOf[p := Some(name)]
            && Replied(s.(channels := t.channels, channelOf := t.channelOf), t, p,
                       SucceedInJoinInChannel, Text("join in channel: ") + name))
  {
    match s.channelOf[p]
    case Some(current) =>
      ReplyKeepsInv(s, p, FailInJoinInChannel, Text("already in channel: ") + current);
    case None =>
      if name !in s.channels {
        ReplyKeepsInv(s, p, FailInJoinInChannel, Text("Error: selected channel not exist"));
      } else if IsFull(s.channels[name]) {
        ReplyKeepsInv(s, p, FailInJoinInChannel, Text("Error: selected channel is full"));
      } else {
        var c := s.channels[name];
        var entered := s.(channels := s.channels[name := c.(connections := c.connections + {p})],
                          channelOf := s.channelOf[p := Some(name)]);
        EnteredKeepsInv(s, p, name);
        ReplyKeepsInv(entered, p, SucceedInJoinInChannel, Text("join in channel: ") + name);
      }
  }

  /** accept keeps the invariant: the fresh identity is in no table and in no channel. */
  lemma AcceptKeepsInv(s: ServerState)
    requires Inv(s)
    ensures Inv(AcceptStep(s))
  {
    AcceptKeepsTables(s);
    AcceptKeepsMembership(s);
    AcceptKeepsPumps(s);
  }

  lemma AcceptKeepsTables(s: ServerState)
    requires Inv(s)
    ensures WF(AcceptStep(s))
  {
  }

  lemma AcceptKeepsMembership(s: ServerState)
    requires Inv(s)
    ensures MembershipAgrees(AcceptStep(s).channels, AcceptStep(s).channelOf)
  {
    Fresh(s);
  }

  lemma AcceptKeepsPumps(s: ServerState)
    requires Inv(s)
    ensures PumpsOk(AcceptStep(s).queues, AcceptStep(s).history)
  {
  }

  /** The next identity is not live and belongs to no channel. */
  lemma Fresh(s: ServerState)
    requires Inv(s)
    ensures s.nextId !in s.members
    ensures forall n :: n in s.channels ==> s.nextId !in s.channels[n].connections
  {
  }

  /** accept: a fresh participant, in no channel, with an empty pump. */
  lemma AcceptSpec(s: ServerState)
    requires Inv(s)
    ensures var p, t := s.nextId, AcceptStep(s);
      && Inv(t)
      && p !in s.members
      && t.members == s.members + {p}
      && t.channelOf[p] == None && t.queues[p] == [] && t.history[p] == History([], [])
      && t.channels == s.channels
      && t.nextId == s.nextId + 1
      && (forall q :: q in s.members ==>
            && t.channelOf[q] == s.channelOf[q] && t.queues[q] == s.queues[q]
            && t.history[q] == s.history[q])
  {
    assert Inv(AcceptStep(s)) by { AcceptKeepsInv(s); }
    assert s.nextId !in s.members && s.members <= s.channelOf.Keys;
    AcceptFrame(s);
  }

  /** accept writes only the new participant's entries. */
  lemma AcceptFrame(s: ServerState)
    ensures var p, t := s.nextId, AcceptStep(s);
      forall q :: q in s.members && q != p && q in s.channelOf && q in s.queues && q in s.history ==>
        && t.channelOf[q] == s.channelOf[q] && t.queues[q] == s.queues[q]
        && t.history[q] == s.history[q]
  {
  }

  /** handle drops a frame that does not decode, or whose type is not a request, without any change. */
  lemma HandleDrops(s: ServerState, p: Pid, pkg: Package, order: seq<Name>)
    requires WF(s) && p in s.members && IsEnumeration(order, s.channels.Keys)
    requires Decode(pkg).Err? || !IsRequest(Decode(pkg).value)
    ensures HandleStep(s, p, pkg, order) == s
  {
  }

  /** Every inbound frame, well formed or not, leaves the invariant intact. */
  lemma HandleKeepsInv(s: ServerState, p: Pid, pkg: Package, order: seq<Name>)
    requires Inv(s) && p in s.members && IsEnumeration(order, s.channels.Keys)
    ensures Inv(HandleStep(s, p, pkg, order))
  {
    match Decode(pkg)
    case Err(_) =>
    case Ok(t) =>
      match t
      case Message => TransmitSpec(s, p, pkg);
      case LeaveChannel =>
        if s.channelOf[p].Some? { LeaveChannelSpec(s, p); }
      case ListAllChannels => ListAllChannelsSpec(s, p, order);
      case CreateChannel => CreateChannelSpec(s, p, pkg.body);
      case JoinInChannel => JoinInChannelSpec(s, p, pkg.body);
      case _ =>
  }

  // ---------------- The channel list ----------------

  /** A list entry with the space after its comma removed. */
  function DropSpace(b: seq<byte>): (r: seq<byte>)
    ensures |b| - 1 <= |r| <= |b| && (|r| < |b| ==> b[0] == SPACE)
  {
    if b != [] && b[0] == SPACE then b[1..] else b
  }

  /** The position of the last `x` in `b`. */
  function LastIndex(b: seq<byte>, x: byte): (r: Option<nat>)
    ensures r.Some? ==> r.value < |b| && b[r.value] == x && x !in b[r.value + 1..]
    ensures r.None? ==> x !in b
  {
    if b == [] then None
    else if b[|b| - 1] == x then Some(|b| - 1)
    else
      var r := LastIndex(b[..|b| - 1], x);
      assert b == b[..|b| - 1] + [b[|b| - 1]];
      r
  }

  /** Splits a channel list at each ", " (reading it from the right). */
  function SplitNames(b: seq<byte>): (r: seq<Name>)
    ensures r == [] <==> b == []
    decreases |b|
  {
    if b == [] then []
    else match LastIndex(b, COMMA)
      case None => [b]
      case Some(i) => SplitNames(b[..i]) + [DropSpace(b[i + 1..])]
  }

  /** Splitting a joined list of valid names gives the names back. */
  lemma {:induction false} SplitJoin(names: seq<Name>)
    requires forall i :: 0 <= i < |names| ==> ValidName(names[i])
    ensures SplitNames(JoinNames(names)) == names
  {
    if |names| == 1 {
      assert COMMA !in names[0];
    } else if |names| > 1 {
      var init, last := names[..|names| - 1], names[|names| - 1];
      SplitLast(JoinNames(init), last);
      SplitJoin(init);
      assert names == init + [last];
    }
  }

  /** The separator before a comma-free name is the last comma; splitting there gives both parts back. */
  lemma SplitLast(a: seq<byte>, last: Name)
    requires COMMA !in last
    ensures SplitNames(a + SEPARATOR + last) == SplitNames(a) + [last]
  {
    var b := a + SEPARATOR + last;
    assert b[|a|] == COMMA && b[|a| + 1..] == [SPACE] + last;
    assert LastIndex(b, COMMA) == Some(|a|);
    assert b[..|a|] == a;
  }

  /**
   * The reply to listAllChannels names exactly the registered channels,
   * each once, in iteration order; with no channels its body is empty.
   */
  lemma ListNamesRegistry(s: ServerState, order: seq<Name>)
    requires Inv(s) && IsEnumeration(order, s.channels.Keys)
    ensures SplitNames(JoinNames(order)) == order
    ensures forall n :: n in SplitNames(JoinNames(order)) <==> n in s.channels
    ensures s.channels == map[] <==> JoinNames(order) == []
  {
    SplitJoin(order);
    if order != [] {
      assert order[0] in s.channels;
      assert SplitNames(JoinNames(order)) != [];
    }
  }

  // ---------------- Scenarios ----------------

  /**
   * A full registered channel of the default capacity refuses a newcomer;
   * once one member has left it, the channel is still registered and the
   * newcomer's join succeeds.
   */
  lemma CapacityScenario(channels: map<Name, Channel>, n: Name, r: Pid, q: Pid)
    requires n in channels && channels[n].capacity == DEFAULT_CAPACITY && IsFull(channels[n])
    requires r in channels[n].connections && q !in channels[n].connections
    ensures !Join(channels[n], q).1
    ensures var left := Leave(channels, n, r);
      && n in left
      && Join(left[n], q).1
      && Join(left[n], q).0.connections == channels[n].connections - {r} + {q}
  {
    var c := channels[n];
    assert |c.connections - {r}| == |c.connections| - 1;
    assert c.connections - {r} != {};
  }

  /** Creating a free valid name from outside any channel registers it with the creator alone. */
  lemma CreateRegisters(t: ServerState, p: Pid, n: Name)
    requires Inv(t) && p in t.members && t.channelOf[p].None? && ValidName(n) && n !in t.channels
    ensures CreateChannelStep(t, p, n).channels == t.channels[n := Channel(DEFAULT_CAPACITY, {p})]
  {
    CreateChannelSpec(t, p, n);
  }

  /** After the last member leaves, the name is free again and creating it succeeds. */
  lemma LastLeaveFreesName(s: ServerState, p: Pid, n: Name, t: ServerState)
    requires Inv(s) && p in s.members && s.channelOf[p] == Some(n) && s.channels[n].connections == {p}
    requires t == LeaveChannelStep(s, p)
    ensures Inv(t) && p in t.members && t.channelOf[p].None? && n !in t.channels
    ensures CreateChannelStep(t, p, n).channels == t.channels[n := Channel(DEFAULT_CAPACITY, {p})]
  {
    assert Inv(t) && p in t.members && t.channelOf[p].None? && n !in t.channels by {
      LeaveChannelSpec(s, p);
    }
    assert ValidName(n);
    CreateRegisters(t, p, n);
  }

  /**
   * A creates a channel and B joins it, each with its success reply; A's
   * message reaches B unchanged and A receives nothing; B leaves with
   * SUCCEED_IN_LEAVE_CHANNEL; A's next message earns A the OTHER_ERROR
   * "no other members in this channel". Both messages arrive as MESSAGE
   * frames through handle, whatever the registry's listing order. The
   * invariant holds throughout.
   */
  lemma RelayScenario(s0: ServerState, a: Pid, b: Pid, lobby: Name, msg: Package)
      returns (s1: ServerState, s2: ServerState, s3: ServerState, s4: ServerState, s5: ServerState)
    requires Inv(s0) && a in s0.members && b in s0.members && a != b
    requires s0.channelOf[a].None? && s0.channelOf[b].None? && ValidName(lobby) && lobby !in s0.channels
    requires WellFormed(msg) && msg.kind == Code(Message)
    ensures s1 == CreateChannelStep(s0, a, lobby) && Inv(s1) && a in s1.members && b in s1.members
    ensures s1.queues[a] == s0.queues[a] + ReplyPackages(SucceedInCreateChannel, Text("create and join in channel: ") + lobby)
    ensures s2 == JoinInChannelStep(s1, b, lobby) && Inv(s2) && a in s2.members && b in s2.members
    ensures s2.queues[b] == s1.queues[b] + ReplyPackages(SucceedInJoinInChannel, Text("join in channel: ") + lobby)
    ensures s3 == TransmitStep(s2, a, msg) && Inv(s3) && a in s3.members && b in s3.members
    ensures forall order :: IsEnumeration(order, s2.channels.Keys) ==> HandleStep(s2, a, msg, order) == s3
    ensures s3.queues[b] == s2.queues[b] + [msg] && s3.queues[a] == s2.queues[a]
    ensures s4 == LeaveChannelStep(s3, b) && Inv(s4) && a in s4.members && b in s4.members
    ensures s4.queues[b] == s3.queues[b] + ReplyPackages(SucceedInLeaveChannel, Text("leaved channel"))
    ensures s5 == TransmitStep(s4, a, msg) && Inv(s5) && a in s5.members
    ensures forall order :: IsEnumeration(order, s4.channels.Keys) ==> HandleStep(s4, a, msg, order) == s5
    ensures s5.queues[a] == s4.queues[a] + ReplyPackages(OtherError, Text("Error: no other members in this channel"))
  {
    s1 := CreateStage(s0, a, b, lobby);
    s2 := JoinStage(s1, a, b, lobby);
    s3 := MessageStage(s2, a, b, lobby, msg);
    s4 := LeaveStage(s3, a, b, lobby);
    s5 := TransmitStep(s4, a, msg);
    MessageDispatch(s2, a, msg);
    MessageDispatch(s4, a, msg);
    assert Inv(s5) && s5.queues[a] == s4.queues[a] + ReplyPackages(OtherError, Text("Error: no other members in this channel")) by {
      TransmitSpec(s4, a, msg);
    }
  }

  /** handle passes a consistent MESSAGE frame to transmit. */
  lemma MessageDispatch(s: ServerState, p: Pid, msg: Package)
    requires WF(s) && p in s.members
    requires WellFormed(msg) && msg.kind == Code(Message)
    ensures forall order :: IsEnumeration(order, s.channels.Keys) ==>
      HandleStep(s, p, msg, order) == TransmitStep(s, p, msg)
  {
    CodesDistinct(Decode(msg).value, Message);
  }

  lemma CreateStage(s0: ServerState, a: Pid, b: Pid, lobby: Name) returns (s1: ServerState)
    requires Inv(s0) && a in s0.members && b in s0.members && a != b
    requires s0.channelOf[a].None? && s0.channelOf[b].None? && ValidName(lobby) && lobby !in s0.channels
    ensures s1 == CreateChannelStep(s0, a, lobby)
    ensures Inv(s1) && a in s1.members && b in s1.members && s1.channelOf[b].None? && s1.channelOf[a] == Some(lobby)
    ensures lobby in s1.channels && s1.channels[lobby] == Channel(DEFAULT_CAPACITY, {a})
    ensures s1.queues[a] == s0.queues[a] + ReplyPackages(SucceedInCreateChannel, Text("create and join in channel: ") + lobby)
  {
    s1 := CreateChannelStep(s0, a, lobby);
    CreateChannelSpec(s0, a, lobby);
  }

  lemma JoinStage(s1: ServerState, a: Pid, b: Pid, lobby: Name) returns (s2: ServerState)
    requires Inv(s1) && a in s1.members && b in s1.members && a != b
    requires s1.channelOf[b].None? && s1.channelOf[a] == Some(lobby)
    requires lobby in s1.channels && s1.channels[lobby] == Channel(DEFAULT_CAPACITY, {a})
    ensures s2 == JoinInChannelStep(s1, b, lobby)
    ensures Inv(s2) && a in s2.members && b in s2.members
    ensures s2.channelOf[a] == Some(lobby) && s2.channelOf[b] == Some(lobby)
    ensures lobby in s2.channels && s2.channels[lobby].connections == {a, b}
    ensures s2.queues[b] == s1.queues[b] + ReplyPackages(SucceedInJoinInChannel, Text("join in channel: ") + lobby)
  {
    s2 := JoinInChannelStep(s1, b, lobby);
    assert !IsFull(s1.channels[lobby]);
    assert {a} + {b} == {a, b};
    assert && Inv(s2)
           && s2.channels == s1.channels[lobby := Channel(DEFAULT_CAPACITY, {a, b})]
           && s2.channelOf == s1.channelOf[b := Some(lobby)]
           && s2.members == s1.members
           && s2.queues[b] == s1.queues[b] + ReplyPackages(SucceedInJoinInChannel, Text("join in channel: ") + lobby)
    by {
      JoinInChannelSpec(s1, b, lobby);
    }
  }

  lemma MessageStage(s2: ServerState, a: Pid, b: Pid, lobby: Name, msg: Package) returns (s3: ServerState)
    requires Inv(s2) && a in s2.members && b in s2.members && a != b && WellFormed(msg)
    requires s2.channelOf[a] == Some(lobby) && s2.channelOf[b] == Some(lobby)
    requires lobby in s2.channels && s2.channels[lobby].connections == {a, b}
    ensures s3 == TransmitStep(s2, a, msg)
    ensures Inv(s3) && a in s3.members && b in s3.members
    ensures s3.channelOf[a] == Some(lobby) && s3.channelOf[b] == Some(lobby)
    ensures lobby in s3.channels && s3.channels[lobby].connections == {a, b}
    ensures s3.queues[b] == s2.queues[b] + [msg] && s3.queues[a] == s2.queues[a]
  {
    s3 := TransmitStep(s2, a, msg);
    assert Count(s2.channels[lobby]) == 2;
    assert {a, b} - {a} == {b};
    TransmitSpec(s2, a, msg);
  }

  lemma LeaveStage(s3: ServerState, a: Pid, b: Pid, lobby: Name) returns (s4: ServerState)
    requires Inv(s3) && a in s3.members && b in s3.members && a != b
    requires s3.channelOf[a] == Some(lobby) && s3.channelOf[b] == Some(lobby)
    requires lobby in s3.channels && s3.channels[lobby].connections == {a, b}
    ensures s4 == LeaveChannelStep(s3, b)
    ensures Inv(s4) && a in s4.members && b in s4.members && s4.channelOf[a] == Some(lobby)
    ensures lobby in s4.channels && Count(s4.channels[lobby]) == 1
    ensures s4.queues[b] == s3.queues[b] + ReplyPackages(SucceedInLeaveChannel, Text("leaved channel"))
  {
    s4 := LeaveChannelStep(s3, b);
    assert {a, b} - {b} == {a};
    assert {a, b} != {b};
    LeaveChannelSpec(s3, b);
  }

  /** A listing order has one entry per channel. */
  lemma {:induction false} EnumerationLength(order: seq<Name>, keys: set<Name>)
    requires IsEnumeration(order, keys)
    ensures |order| == |keys|
  {
    if order != [] {
      var rest := order[1..];
      forall n | n in rest ensures n in keys - {order[0]} {
        var i :| 0 <= i < |rest| && rest[i] == n;
        assert order[i + 1] == n;
      }
      forall n | n in keys - {order[0]} ensures n in rest {
        assert n in order && n != order[0];
      }
      forall i, j | 0 <= i < j < |rest| ensures rest[i] != rest[j] {
        assert order[i + 1] != order[j + 1];
      }
      EnumerationLength(rest, keys - {order[0]});
    }
  }

  /** The two channels "a" and "b" are enumerated in one of two orders. */
  lemma TwoOrders(order: seq<Name>)
    requires IsEnumeration(order, {[97], [98]})
    ensures order == [[97], [98]] || order == [[98], [97]]
  {
    var a: Name, b: Name := [97], [98];
    assert a != b;
    assert |{a, b}| == 2;
    EnumerationLength(order, {a, b});
    assert order[0] in {a, b} && order[1] in {a, b} && order[0] != order[1];
    assert order == [order[0], order[1]];
  }

  /** The two channels "a" and "b" are listed as "a, b" or as "b, a". */
  lemma TwoNames(order: seq<Name>)
    requires IsEnumeration(order, {[97], [98]})
    ensures JoinNames(order) == [97, 44, 32, 98] || JoinNames(order) == [98, 44, 32, 97]
  {
    TwoOrders(order);
    if order == [[97], [98]] {
      assert JoinNames(order) == [97] + SEPARATOR + [98];
    } else {
      assert JoinNames(order) == [98] + SEPARATOR + [97];
    }
  }

  /** With the channels "a" and "b" registered, the channel list is "a, b" or "b, a". */
  lemma ListTwoScenario(s: ServerState, p: Pid, order: seq<Name>)
    requires Inv(s) && p in s.members && s.channels.Keys == {[97], [98]} && IsEnumeration(order, s.channels.Keys)
    ensures var t := ListAllChannelsStep(s, p, order);
      && (JoinNames(order) == [97, 44, 32, 98] || JoinNames(order) == [98, 44, 32, 97])
      && t.queues[p] == s.queues[p] + [Package(Code(ChannelList), 4, JoinNames(order))]
  {
    TwoNames(order);
    ListAllChannelsSpec(s, p, order);
  }
}
