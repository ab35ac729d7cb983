/**
 * The server engine in place: one object holding the channel registry, the
 * participant set and each participant's channel field and outbound queue.
 * Every handler mutates these tables as the source does and is proved to
 * perform exactly the corresponding step of module Relay, which keeps the
 * registry invariant (Valid).
 */
module RelayServer {
  import opened Wrappers
  import opened Protocol
  import opened Relay
  import opened RelayProperties

  /**
   * The loop of Participant::listAllChannels: the names of `keys` joined by
   * ", ", visited in an unspecified order that is returned as `order`.
   */
  method ListNames(keys: set<Name>) returns (list: seq<byte>, ghost order: seq<Name>)
    ensures IsEnumeration(order, keys) && list == JoinNames(order)
  {
    var rest := keys;
    list := [];
    order := [];
    if rest != {} {
      var n :| n in rest;
      list := n;
      order := [n];
      rest := rest - {n};
    }
    while rest != {}
      invariant rest <= keys
      invariant forall n :: n in order ==> n in keys && n !in rest
      invariant forall n :: n in keys ==> n in order || n in rest
      invariant forall i, j :: 0 <= i < j < |order| ==> order[i] != order[j]
      invariant order != [] || rest == {}
      invariant list == JoinNames(order)
      decreases rest
    {
      var n :| n in rest;
      AppendName(order, n);
      list := list + SEPARATOR + n;
      order := order + [n];
      rest := rest - {n};
    }
  }

  /** One more name extends the list by ", " and that name. */
  lemma AppendName(order: seq<Name>, n: Name)
    requires order != []
    ensures JoinNames(order + [n]) == JoinNames(order) + SEPARATOR + n
  {
    assert (order + [n])[..|order|] == order;
  }

  class Server {
    /** Server::channels, the registry. */
    var channels: map<Name, Channel>
    /** Server::members, the live participants. */
    var members: set<Pid>
    /** Each participant's channel field. */
    var channelOf: map<Pid, Option<Name>>
    /** Each participant's pkgQueue. */
    var pkgQueue: map<Pid, seq<Package>>
    /** What each participant's pump has handed to the stream and completed. */
    ghost var history: map<Pid, History>
    /** The next participant identity to allocate. */
    var nextId: nat

    ghost function State(): ServerState
      reads this
    {
      ServerState(channels, members, channelOf, pkgQueue, history, nextId)
    }

    ghost predicate Valid()
      reads this
    {
      Inv(State())
    }

    constructor ()
      ensures Valid() && State() == Initial()
    {
      channels := map[];
      members := {};
      channelOf := map[];
      pkgQueue := map[];
      history := map[];
      nextId := 0;
    }

    /** Server::accept: registers a new participant. */
    method Accept() returns (p: Pid)
      requires Valid()
      modifies this
      ensures Valid() && p !in old(members)
      ensures State() == AcceptStep(old(State())) && p == old(nextId)
    {
      ghost var s0 := State();
      assert Inv(AcceptStep(s0)) && nextId !in members by {
        AcceptKeepsInv(s0);
        Fresh(s0);
      }
      p := nextId;
      members := members + {p};
      channelOf := channelOf[p := None];
      pkgQueue := pkgQueue[p := []];
      history := history[p := History([], [])];
      nextId := nextId + 1;
      assert State() == AcceptStep(s0);
    }

    // ---------------- Channel ----------------

    /** Channel::join on the registered channel `name`. */
    method ChannelJoin(name: Name, p: Pid) returns (ok: bool)
      requires name in channels
      modifies this
      ensures ok == !IsFull(old(channels[name]))
      ensures State() == old(State()).(channels := old(channels)[name := Join(old(channels[name]), p).0])
    {
      if IsFull(channels[name]) {
        return false;
      }
      channels := channels[name := channels[name].(connections := channels[name].connections + {p})];
      ok := true;
    }

    /** Channel::leave on the registered channel `name`. */
    method ChannelLeave(name: Name, p: Pid)
      requires name in channels
      modifies this
      ensures State() == old(State()).(channels := Leave(old(channels), name, p))
    {
      var rest := channels[name].connections - {p};
      channels := channels[name := channels[name].(connections := rest)];
      if rest == {} {
        channels := channels - {name};
      }
    }

    /** Channel::send: writes `pkg` to every participant of the channel but the sender. */
    method ChannelSend(name: Name, sender: Pid, pkg: Package) returns (sent: bool)
      requires name in channels
      requires channels[name].connections <= pkgQueue.Keys && channels[name].connections <= history.Keys
      modifies this
      ensures sent <==> old(channels[name].connections) - {sender} != {}
      ensures State() == EnqueueAll(old(State()), old(channels[name].connections) - {sender}, pkg)
    {
      ghost var s0 := State();
      var conns := channels[name].connections;
      var rest := conns;
      sent := false;
      EnqueueAllNone(s0, pkg);
      while rest != {}
        invariant rest <= conns
        invariant State() == EnqueueAll(s0, (conns - rest) - {sender}, pkg)
        invariant sent <==> (conns - rest) - {sender} != {}
        decreases rest
      {
        var item :| item in rest;
        if item != sender {
          EnqueueAllStep(s0, (conns - rest) - {sender}, item, pkg);
          Write(item, pkg);
          sent := true;
        }
        assert (conns - (rest - {item})) - {sender}
            == if item != sender then ((conns - rest) - {sender}) + {item} else (conns - rest) - {sender};
        rest := rest - {item};
      }
    }

    // ---------------- The write pump ----------------

    /** Participant::write: push; start sending only if nothing was queued. */
    method Write(p: Pid, pkg: Package)
      requires p in pkgQueue && p in history
      modifies this
      ensures State() == Enqueue(old(State()), p, pkg)
    {
      var busy := pkgQueue[p] != [];
      pkgQueue := pkgQueue[p := pkgQueue[p] + [pkg]];
      if !busy {
        ExecWriteAction(p);
      }
    }

    /** Participant::execWriteAction: the queue's head goes to the stream. */
    method ExecWriteAction(p: Pid)
      requires p in pkgQueue && p in history && pkgQueue[p] != []
      modifies this
      ensures State() == StartWrite(old(State()), p)
    {
      history := history[p := history[p].(started := history[p].started + [pkgQueue[p][0]])];
    }

    /** The completion handler of a successful write: pop, then send the next one if any. */
    method OnWriteComplete(p: Pid)
      requires Valid() && p in members && pkgQueue[p] != []
      modifies this
      ensures Valid() && State() == CompleteWrite(old(State()), p)
    {
      CompleteWriteKeepsInv(State(), p);
      history := history[p := history[p].(completed := history[p].completed + [pkgQueue[p][0]])];
      pkgQueue := pkgQueue[p := pkgQueue[p][1..]];
      if pkgQueue[p] != [] {
        ExecWriteAction(p);
      }
    }

    /** `encodePackage` then `write`; an encoding failure writes nothing. */
    method SendReply(p: Pid, t: Type, text: seq<byte>)
      requires p in pkgQueue && p in history
      modifies this
      ensures State() == Relay.Reply(old(State()), p, t, text)
    {
      var encoded := Encode(Code(t), text);
      if encoded.Ok? {
        Write(p, encoded.value);
      }
    }

    // ---------------- Participant handlers ----------------

    /** Participant::transmit of an inbound frame. */
    method Transmit(p: Pid, inputPkg: Package)
      requires Valid() && p in members && WellFormed(inputPkg)
      modifies this
      ensures Valid() && State() == TransmitStep(old(State()), p, inputPkg)
    {
      assert Inv(TransmitStep(State(), p, inputPkg)) by { TransmitSpec(State(), p, inputPkg); }
      match channelOf[p]
      case None =>
        SendReply(p, OtherError, Text("Error: did not join any channel"));
      case Some(n) =>
        if Count(channels[n]) <= 1 {
          SendReply(p, OtherError, Text("Error: no other members in this channel"));
        } else {
          PeerExists(channels[n].connections, p);
          assert forall q :: q in channels[n].connections ==> q in channelOf;
          var sent := ChannelSend(n, p, inputPkg);
          if !sent {
            // The source replies "Error: transmit package failed" here; unreachable.
            assert false;
          }
        }
    }

    /** Participant::leaveChannel. */
    method LeaveChannel(p: Pid)
      requires Valid() && p in members
      modifies this
      ensures Valid() && State() == LeaveChannelStep(old(State()), p)
    {
      if channelOf[p].Some? {
        assert Inv(LeaveChannelStep(State(), p)) by { LeaveChannelSpec(State(), p); }
        ChannelLeave(channelOf[p].value, p);
        channelOf := channelOf[p := None];
        SendReply(p, SucceedInLeaveChannel, Text("leaved channel"));
      }
    }

    /**
     * Participant::listAllChannels. The registry is walked in an unspecified
     * order, returned as `order`.
     */
    method ListAllChannels(p: Pid) returns (ghost order: seq<Name>)
      requires Valid() && p in members
      modifies this
      ensures IsEnumeration(order, old(channels).Keys)
      ensures Valid() && State() == ListAllChannelsStep(old(State()), p, order)
    {
      var list;
      list, order := ListNames(channels.Keys);
      ListAllChannelsSpec(State(), p, order);
      SendReply(p, ChannelList, list);
    }

    /** Participant::createChannel. */
    method CreateChannel(p: Pid, channelName: Name)
      requires Valid() && p in members
      modifies this
      ensures Valid() && State() == CreateChannelStep(old(State()), p, channelName)
    {
      ghost var s0 := State();
      assert Inv(CreateChannelStep(s0, p, channelName)) by { CreateChannelSpec(s0, p, channelName); }
      if channelName == [] || COMMA in channelName {
        SendReply(p, FailInCreateChannel, Text("Error: invalid channel name"));
      } else if channelOf[p].Some? {
        SendReply(p, FailInCreateChannel, Text("Error: already in one channel"));
      } else if channelName !in channels {
        Create(p, channelName);
        SendReply(p, SucceedInCreateChannel, Text("create and join in channel: ") + channelName);
      } else {
        SendReply(p, FailInCreateChannel, Text("Error: channel already exist"));
      }
    }

    /**
     * The success path of createChannel: emplace a fresh channel of default
     * capacity, join it and record it in the channel field.
     */
    method Create(p: Pid, channelName: Name)
      requires channelName !in channels
      modifies this
      ensures State() == old(State()).(channels := old(channels)[channelName := Join(Channel(DEFAULT_CAPACITY, {}), p).0],
                                       channelOf := old(channelOf)[p := Some(channelName)])
    {
      channels := channels[channelName := Channel(DEFAULT_CAPACITY, {})];
      var joined := ChannelJoin(channelName, p);
      if !joined {
        // The source erases the new entry and replies "Error: failed to join in
        // created channel" here; unreachable, a fresh channel is never full.
        assert false;
      }
      channelOf := channelOf[p := Some(channelName)];
    }

    /**
     * The joining part of joinInChannel: join the registered channel and, if
     * it accepts, record it in the channel field; a full channel changes nothing.
     */
    method Enter(p: Pid, channelName: Name) returns (joined: bool)
      requires channelName in channels
      modifies this
      ensures joined == !IsFull(old(channels[channelName]))
      ensures joined ==> State() == old(State()).(channels := old(channels)[channelName := Join(old(channels[channelName]), p).0],
                                                  channelOf := old(channelOf)[p := Some(channelName)])
      ensures !joined ==> State() == old(State())
    {
      joined := ChannelJoin(channelName, p);
      if joined {
        channelOf := channelOf[p := Some(channelName)];
      } else {
        assert channels == old(channels);
      }
    }

    /** Participant::joinInChannel. */
    method JoinInChannel(p: Pid, channelName: Name)
      requires Valid() && p in members
      modifies this
      ensures Valid() && State() == JoinInChannelStep(old(State()), p, channelName)
    {
      ghost var s0 := State();
      assert Inv(JoinInChannelStep(s0, p, channelName)) by { JoinInChannelSpec(s0, p, channelName); }
      match channelOf[p]
      case Some(current) =>
        SendReply(p, FailInJoinInChannel, Text("already in channel: ") + current);
      case None =>
        if channelName in channels {
          var joined := Enter(p, channelName);
          if joined {
            SendReply(p, SucceedInJoinInChannel, Text("join in channel: ") + channelName);
          } else if IsFull(channels[channelName]) {
            SendReply(p, FailInJoinInChannel, Text("Error: selected channel is full"));
          } else {
            // The source replies "Error: fail to join in selected channel" here; unreachable.
            assert false;
          }
        } else {
          SendReply(p, FailInJoinInChannel, Text("Error: selected channel not exist"));
        }
    }

    /**
     * Participant::exit, run when a read or a write fails: leave the channel
     * silently and drop out of the participant set, which destroys the
     * participant with its channel field and queue.
     */
    method Exit(p: Pid)
      requires Valid()
      modifies this
      ensures Valid() && State() == ExitStep(old(State()), p)
    {
      ghost var s0 := State();
      assert Inv(ExitStep(s0, p)) by { ExitKeepsInv(s0, p); }
      Depart(p);
    }

    /** The table updates of exit; they need only the tables' shape, not the invariant. */
    method Depart(p: Pid)
      requires WF(State())
      modifies this
      ensures State() == ExitStep(old(State()), p)
    {
      ghost var s0 := State();
      ghost var t := ExitStep(s0, p);
      if p in channelOf && channelOf[p].Some? {
        ChannelLeave(channelOf[p].value, p);
        channelOf := channelOf[p := None];
        assert channelOf - {p} == s0.channelOf - {p};
      }
      assert channels == t.channels && nextId == t.nextId;
      Forget(p);
      if p !in s0.members {
        assert channelOf == s0.channelOf && pkgQueue == s0.queues && history == s0.history;
      }
      assert channelOf == t.channelOf && pkgQueue == t.queues && history == t.history && members == t.members;
    }

    /** Drops `p` from the participant set, destroying its channel field and queue. */
    method Forget(p: Pid)
      modifies this
      ensures State() == old(State()).(members := old(members) - {p}, channelOf := old(channelOf) - {p},
                                       queues := old(pkgQueue) - {p}, history := old(history) - {p})
    {
      members := members - {p};
      channelOf := channelOf - {p};
      pkgQueue := pkgQueue - {p};
      history := history - {p};
    }

    /** Participant::handle: one inbound frame. */
    method Handle(p: Pid, pkg: Package) returns (ghost order: seq<Name>)
      requires Valid() && p in members
      modifies this
      ensures IsEnumeration(order, old(channels).Keys)
      ensures Valid() && State() == HandleStep(old(State()), p, pkg, order)
    {
      order := Enumeration(channels.Keys);
      var decoded := Decode(pkg);
      if decoded.Err? {
        // the codec's exception is logged and the frame dropped
        return;
      }
      match decoded.value
      case Message => Transmit(p, pkg);
      case LeaveChannel => LeaveChannel(p);
      case ListAllChannels => order := ListAllChannels(p);
      case CreateChannel => CreateChannel(p, pkg.body);
      case JoinInChannel => JoinInChannel(p, pkg.body);
      case _ =>
        // a valid type that is not a request: logged and dropped
    }
  }
}
