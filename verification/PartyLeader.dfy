/**
 When a leader who is present lacks the leader flag, over whole runs of the protocol.
 */
module PartyLeader {
  import opened PartyState
  import opened PartyClient
  import opened PartyProtocol

  /** The part of a handler's work that concerns the replica. */
  function StateAfter(st: PartyState, m: Message): PartyState {
    match m
    case Delta(v, u) => if st.version > 0 && v == st.version + 1 then ApplyUpdate(st.(version := v), u) else st
    case Snapshot(_, _, _, _) =>
      var snapshot := DecodeSnapshot(m);
      snapshot.(members := MoveFlag(snapshot.members, snapshot.leaderId))
  }

  function Replay(inputs: seq<Input>): PartyState {
    if inputs == [] then NoParty
    else
      match inputs[|inputs| - 1]
      case Arrived(m) => StateAfter(Replay(inputs[..|inputs| - 1]), m)
      case RequestFailed => Replay(inputs[..|inputs| - 1])
  }

  /** The leader has connected since the last snapshot or change of leader that was accepted. */
  predicate JoinedLate(inputs: seq<Input>) {
    if inputs == [] then false
    else
      var before, st := JoinedLate(inputs[..|inputs| - 1]), Replay(inputs[..|inputs| - 1]);
      match inputs[|inputs| - 1]
      case RequestFailed => before
      case Arrived(Snapshot(_, _, _, _)) => false
      case Arrived(Delta(v, u)) =>
        if !(st.version > 0 && v == st.version + 1) then before
        else
          match u
          case LeaderChanged(leaderId) => before && leaderId == st.leaderId
          case MemberConnected(user) => before || user.userId == st.leaderId
          case _ => before
  }

  /** The flag is missing exactly from a leader who is present and has joined late. */
  ghost predicate LeaderInv(s: System) {
    && Inv(s)
    && UniqueIds(s.client.state.members)
    && s.client.state == Replay(s.received)
    && (FlagComplete(s.client.state) <==> !(LeaderPresent(s.client.state) && JoinedLate(s.received)))
  }

  lemma ReceivedState(c: Client, m: Message)
    ensures Receive(c, m).state == StateAfter(c.state, m)
  {
    hide ApplyUpdate, MoveFlag, EventOf;
  }

  lemma ReplayOn(inputs: seq<Input>, m: Message)
    ensures Replay(inputs + [Arrived(m)]) == StateAfter(Replay(inputs), m)
  {
    assert (inputs + [Arrived(m)])[..|inputs|] == inputs;
  }

  lemma FailureReplaysNothing(inputs: seq<Input>)
    ensures Replay(inputs + [RequestFailed]) == Replay(inputs)
    ensures JoinedLate(inputs + [RequestFailed]) == JoinedLate(inputs)
  {
    assert (inputs + [RequestFailed])[..|inputs|] == inputs;
  }

  /** With no leader in the party there is nobody to flag. */
  lemma AbsentIsComplete(st: PartyState)
    ensures !LeaderPresent(st) ==> FlagComplete(st)
  {
  }

  lemma SnapshotCompletes(m: Message)
    requires m.Snapshot? && UniqueIds(DecodeAll(m.members))
    ensures FlagComplete(StateAfter(NoParty, m))
  {
    hide MoveFlag, UniqueIds;
    DecodedFlags(m);
    MoveFlagSound(DecodeSnapshot(m), m.leaderId);
  }

  /** An accepted update leaves the leader unflagged exactly if it joins now, or was unflagged and neither goes nor is replaced. */
  lemma UpdateAndFlag(st: PartyState, v: int, u: Update, late: bool)
    requires UniqueIds(st.members) && FlagSound(st) && Sendable(Abs(st), u)
    requires FlagComplete(st) <==> !(LeaderPresent(st) && late)
    ensures
      var st' := ApplyUpdate(st.(version := v), u);
      var late' :=
        match u
        case LeaderChanged(leaderId) => late && leaderId == st.leaderId
        case MemberConnected(user) => late || user.userId == st.leaderId
        case _ => late;
      FlagComplete(st') <==> !(LeaderPresent(st') && late')
  {
    hide FlagComplete, FlagSound, UniqueIds;
    var at := st.(version := v);
    VersionIsNoFlag(st, v);
    VersionIsNoPresence(st, v);
    AbsentIsComplete(ApplyUpdate(at, u));
    if FlagComplete(st) {
      FlagCompleteKeptExactly(at, u);
    } else {
      FlagCompleteRestoredExactly(at, u);
    }
    PresenceAfter(at, u);
  }

  lemma VersionIsNoPresence(st: PartyState, v: int)
    ensures LeaderPresent(st.(version := v)) <==> LeaderPresent(st)
    ensures FlagComplete(st.(version := v)) <==> FlagComplete(st)
  {
    if LeaderPresent(st) {
      var i :| 0 <= i < |st.members| && st.members[i].userId == st.leaderId;
      assert st.(version := v).members[i].userId == st.leaderId;
    }
  }

  lemma PresenceIsInMap(st: PartyState)
    ensures LeaderPresent(st) <==> st.leaderId in Abs(st).members
  {
    MapLookup(st.members, st.leaderId);
  }

  lemma {:induction false} StatusesKeepIds(members: map<UserId, Info>, batch: seq<StatusUpdate>)
    ensures WithStatuses(members, batch).Keys == members.Keys
    decreases |batch|
  {
    if batch != [] {
      var id := batch[0].userId;
      StatusesKeepIds(if id in members then members[id := members[id].(status := batch[0].status)] else members, batch[1..]);
    }
  }

  /** Only a connection or a disconnection of the leader changes whether it is present, unless it is replaced. */
  lemma PresenceAfter(st: PartyState, u: Update)
    requires UniqueIds(st.members) && Sendable(Abs(st), u)
    ensures
      match u
      case LeaderChanged(leaderId) => leaderId == st.leaderId ==> ApplyUpdate(st, u) == st
      case MemberConnected(user) =>
        LeaderPresent(ApplyUpdate(st, u)) <==> LeaderPresent(st) || user.userId == st.leaderId
      case MemberDisconnected(id) =>
        LeaderPresent(ApplyUpdate(st, u)) <==> LeaderPresent(st) && id != st.leaderId
      case _ => LeaderPresent(ApplyUpdate(st, u)) <==> LeaderPresent(st)
  {
    hide MemberMap, WithStatuses, LeaderPresent, UniqueIds;
    ApplyUpdateRefines(st, u);
    PresenceIsInMap(st);
    PresenceIsInMap(ApplyUpdate(st, u));
    if u.StatusesUpdated? {
      StatusesKeepIds(Abs(st).members, u.batch);
    }
  }

  // ---------------------------------------------------------------------------
  // Runs

  lemma ReceiveKeepsLeaderInv(s: System, s': System, m: Message)
    requires LeaderInv(s) && ClientReceives(s, s', m) && Inv(s')
    ensures LeaderInv(s')
  {
    hide Receive, Inv, UniqueIds, FlagComplete, LeaderPresent, StateAfter, Replay, JoinedLate;
    ReceivedState(s.client, m);
    ReplayOn(s.received, m);
    LateOn(s.received, m);
    ReceivedIsTrue(s, m);
    StaysUnique(s, s', m);
    FlagAfter(s, m);
  }

  lemma ReceivedIsTrue(s: System, m: Message)
    requires Inv(s) && m in s.net
    ensures Truthful(s, m)
  {
  }

  lemma StaysUnique(s: System, s': System, m: Message)
    requires Inv(s) && Inv(s') && Truthful(s, m) && UniqueIds(s.client.state.members)
    requires s'.client.state == StateAfter(s.client.state, m)
    ensures UniqueIds(s'.client.state.members)
  {
    hide MoveFlag, MemberMap, FlagSound, QueueSound, CallsBounded, Sendable, Depicts;
    if s'.client.state.version <= 0 {
      assert s'.client.state == s.client.state by {
        match m
        case Delta(v, u) =>
          if s.client.state.version > 0 && v == s.client.state.version + 1 {
            ApplyUpdateKeepsVersion(s.client.state.(version := v), u);
          }
        case Snapshot(_, _, _, _) =>
      }
    }
  }

  /** What a message does to the flag, whatever was received before. */
  lemma FlagAfter(s: System, m: Message)
    requires Inv(s) && Truthful(s, m) && UniqueIds(s.client.state.members)
    requires FlagComplete(s.client.state) <==> !(LeaderPresent(s.client.state) && JoinedLate(s.received))
    ensures
      var st' := StateAfter(s.client.state, m);
      s.client.state == Replay(s.received) ==>
        (FlagComplete(st') <==> !(LeaderPresent(st') && JoinedLate(s.received + [Arrived(m)])))
  {
    hide MoveFlag, ApplyUpdate, MemberMap, UniqueIds, FlagSound, FlagComplete, LeaderPresent, QueueSound, CallsBounded, Replay, JoinedLate;
    LateOn(s.received, m);
    match m
    case Delta(v, u) =>
      if Accepts(s.client, v) {
        UpdateAndFlag(s.client.state, v, u, JoinedLate(s.received));
      }
    case Snapshot(_, _, _, _) =>
      DepictsDecoded(m, s.hist[m.version - s.base]);
      SnapshotCompletes(m);
  }

  lemma LateOn(inputs: seq<Input>, m: Message)
    ensures
      var st, before := Replay(inputs), JoinedLate(inputs);
      JoinedLate(inputs + [Arrived(m)]) <==>
        match m
        case Snapshot(_, _, _, _) => false
        case Delta(v, u) =>
          if !(st.version > 0 && v == st.version + 1) then before
          else
            match u
            case LeaderChanged(leaderId) => before && leaderId == st.leaderId
            case MemberConnected(user) => before || user.userId == st.leaderId
            case _ => before
  {
    assert (inputs + [Arrived(m)])[..|inputs|] == inputs;
  }

  ghost predicate SomethingArrives(s: System, s': System) {
    exists m :: ClientReceives(s, s', m)
  }

  lemma OtherStepsReceiveNothing(s: System, s': System)
    requires |s.hist| > 0 && Next(s, s') && !SomethingArrives(s, s')
    ensures s'.client.state == s.client.state
    ensures s'.received == s.received || s'.received == s.received + [RequestFailed]
  {
    hide ClientReceives, ClientTask, StatusStep;
    if StatusStep(s, s') {
      AskingReceivesNothing(s, s');
    } else if ClientTask(s, s') {
      TaskReceivesFailureAtMost(s, s');
    }
  }

  lemma AskingReceivesNothing(s: System, s': System)
    requires StatusStep(s, s')
    ensures s'.client.state == s.client.state && s'.received == s.received
  {
    hide Settled, StatusDiffers;
  }

  lemma TaskReceivesFailureAtMost(s: System, s': System)
    requires ClientTask(s, s')
    ensures s'.client.state == s.client.state
    ensures s'.received == s.received || s'.received == s.received + [RequestFailed]
  {
  }

  lemma {:induction false} RunKeepsLeaderInv(run: seq<System>, i: nat)
    requires Run(run) && i < |run|
    ensures LeaderInv(run[i])
    decreases i
  {
    hide Inv, Next, ClientReceives;
    RunKeepsInv(run, i);
    if i > 0 {
      RunKeepsLeaderInv(run, i - 1);
      assert Next(run[i - 1], run[(i - 1) + 1]);
      if SomethingArrives(run[i - 1], run[i]) {
        var m :| ClientReceives(run[i - 1], run[i], m);
        ReceiveKeepsLeaderInv(run[i - 1], run[i], m);
      } else {
        OtherStepsReceiveNothing(run[i - 1], run[i]);
        FailureReplaysNothing(run[i - 1].received);
      }
    }
  }

  /** In every reachable state, a present leader is flagged exactly if it has not connected since the last snapshot or change of leader. */
  lemma LeaderFlaggedExactly(run: seq<System>, i: nat, k: nat)
    requires Run(run) && i < |run| && k < |run[i].client.state.members|
    requires run[i].client.state.members[k].userId == run[i].client.state.leaderId
    ensures run[i].client.state.members[k].isLeader <==> !JoinedLate(run[i].received)
  {
    hide Run, JoinedLate, Inv;
    RunKeepsLeaderInv(run, i);
    assert LeaderPresent(run[i].client.state);
  }
}
