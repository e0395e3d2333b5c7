/**
 Going ready: under which settings a status request leaves the client, and whether the
 client is by then connected to the party's game finder, over whole runs of the protocol.
 */
module PartyReady {
  import opened PartyState
  import opened PartyClient
  import opened PartyProtocol

  /** The game finder of the last connection made that no disconnection followed, or none. */
  function Connection(log: seq<Effect>): string {
    if log == [] then ""
    else
      match log[|log| - 1]
      case GameFinderConnected(name) => name
      case DisconnectGameFinder(_) => ""
      case _ => Connection(log[..|log| - 1])
  }

  /** Connected to the game finder followed as soon as the connection with the current token has been made. */
  predicate ConnectionSound(c: Client, connecting: set<ConnectTask>, made: map<nat, string>) {
    && (forall t :: t in made ==> t <= c.token)
    && (forall task :: task in connecting ==>
          task.token <= c.token && (task.token == c.token ==> task.name == c.currentGameFinder))
    && (c.token in made ==> made[c.token] == c.currentGameFinder)
    && Connection(c.log) == if c.token in made then c.currentGameFinder else ""
  }

  /** A waiting request remembers settings the party once had, with a game finder. */
  predicate WaitingSound(s: System, w: Waiting) {
    && w.request == StatusRequest(Ready, w.madeUnder.settingsVersionNumber)
    && w.madeUnder.gameFinderName != ""
    && s.client.state.version > 0
    && w.token <= s.client.token
    && (w.token == s.client.token ==> w.madeUnder.gameFinderName == s.client.currentGameFinder)
    && OnceSettings(s.hist, w.madeUnder)
  }

  predicate OnceSettings(hist: seq<Party>, settings: Settings) {
    exists k :: 0 <= k < |hist| && hist[k].settings == settings
  }

  ghost predicate ReadyInv(s: System) {
    && Inv(s)
    && (s.client.state.version > 0 || s.client.state == NoParty)
    && ConnectionSound(s.client, s.connecting, s.made)
    && forall w :: w in s.waiting ==> WaitingSound(s, w)
  }

  // ---------------------------------------------------------------------------
  // The log

  predicate NoConnection(e: Effect) {
    !e.GameFinderConnected? && !e.DisconnectGameFinder?
  }

  lemma {:induction false} ConnectionSkips(log: seq<Effect>, more: seq<Effect>)
    requires forall k :: 0 <= k < |more| ==> NoConnection(more[k])
    ensures Connection(log + more) == Connection(log)
    decreases |more|
  {
    if more == [] {
      assert log + more == log;
    } else {
      assert (log + more)[..|log + more| - 1] == log + more[..|more| - 1];
      ConnectionSkips(log, more[..|more| - 1]);
    }
  }

  // ---------------------------------------------------------------------------
  // What every handler keeps

  /** Nothing but the state, the pending flag and effects of another kind differ. */
  lemma OtherEffectsKeepConnection(c: Client, c': Client, more: seq<Effect>, connecting: set<ConnectTask>, made: map<nat, string>)
    requires ConnectionSound(c, connecting, made)
    requires c'.token == c.token && c'.queue == c.queue && c'.currentGameFinder == c.currentGameFinder
    requires c'.log == c.log + more && forall k :: 0 <= k < |more| ==> NoConnection(more[k])
    ensures ConnectionSound(c', connecting, made)
  {
    ConnectionSkips(c.log, more);
  }

  /** The game finder changes only together with the token. */
  predicate Follows(c: Client, c': Client) {
    c'.token >= c.token && (c'.token == c.token ==> c'.currentGameFinder == c.currentGameFinder)
  }

  lemma UpdateGameFinderKeepsConnection(c: Client, st: PartyState, connecting: set<ConnectTask>, made: map<nat, string>)
    requires QueueSound(c) && ConnectionSound(c, connecting, made)
    ensures
      var c' := UpdateGameFinder(c.(state := st));
      ConnectionSound(c', connecting, made) && Follows(c, c')
  {
    hide Connection;
    var gone := DisconnectGameFinder(c.currentGameFinder);
    assert Connection(c.log + [gone]) == "" by { Disconnected(c.log, c.currentGameFinder); }
  }

  lemma Disconnected(log: seq<Effect>, name: string)
    ensures Connection(log + [DisconnectGameFinder(name)]) == "" && Connection(log + [GameFinderConnected(name)]) == name
  {
  }

  lemma ReceiveKeepsConnection(c: Client, m: Message, connecting: set<ConnectTask>, made: map<nat, string>)
    requires QueueSound(c) && ConnectionSound(c, connecting, made)
    ensures ConnectionSound(Receive(c, m), connecting, made) && Follows(c, Receive(c, m))
  {
    hide QueueSound, ConnectionSound, UpdateGameFinder, ApplyUpdate, MoveFlag;
    match m
    case Delta(v, u) =>
      if Accepts(c, v) {
        var st := ApplyUpdate(c.state.(version := v), u);
        UpdateGameFinderKeepsConnection(c, st, connecting, made);
        OtherEffectsKeepConnection(UpdateGameFinder(c.(state := st)), Receive(c, m), EventOf(c.state, u, st), connecting, made);
      } else {
        OtherEffectsKeepConnection(c, Receive(c, m), if c.isPendingStateSync then [] else [GetPartyStateCall], connecting, made);
      }
    case Snapshot(_, _, _, _) =>
      var snapshot := DecodeSnapshot(m);
      var st := snapshot.(members := MoveFlag(snapshot.members, snapshot.leaderId));
      UpdateGameFinderKeepsConnection(c, st, connecting, made);
      OtherEffectsKeepConnection(UpdateGameFinder(c.(state := st)), Receive(c, m),
                                 [PartyReady, SettingsEvent(st.settings), MembersEvent(st.members)], connecting, made);
  }

  lemma TaskKeepsConnection(c: Client, connecting: set<ConnectTask>, made: map<nat, string>)
    requires QueueSound(c) && ConnectionSound(c, connecting, made) && c.queue != []
    ensures ConnectionSound(RunConnectTask(c), connecting + Started(c), made)
    ensures ConnectionSound(DropConnectTask(c), connecting, made)
  {
    hide Connection;
    ConnectionSkips(c.log, [ConnectGameFinder(c.queue[0].name)]);
  }

  lemma EndKeepsConnection(c: Client, connecting: set<ConnectTask>, made: map<nat, string>, task: ConnectTask)
    requires ConnectionSound(c, connecting, made) && task in connecting
    ensures ConnectionSound(ConnectionMade(c, task), connecting - {task}, made[task.token := task.name])
    ensures ConnectionSound(c, connecting - {task}, made)
  {
    hide Connection;
    Disconnected(c.log, task.name);
  }

  // ---------------------------------------------------------------------------
  // Steps and runs

  lemma InitReadyInv(s: System)
    requires Init(s)
    ensures ReadyInv(s)
  {
    InitInv(s);
  }

  lemma StillWaiting(s: System, s': System, w: Waiting)
    requires WaitingSound(s, w) && Follows(s.client, s'.client)
    requires s.client.state.version > 0 ==> s'.client.state.version > 0
    requires forall k :: 0 <= k < |s.hist| ==> k < |s'.hist| && s'.hist[k] == s.hist[k]
    ensures WaitingSound(s', w)
  {
    var k :| 0 <= k < |s.hist| && s.hist[k].settings == w.madeUnder;
    assert s'.hist[k].settings == w.madeUnder;
  }

  lemma ReceivedVersion(s: System, m: Message)
    requires Inv(s) && m in s.net && (s.client.state.version > 0 || s.client.state == NoParty)
    ensures Receive(s.client, m).state.version > 0 || (Receive(s.client, m).state == NoParty == s.client.state)
  {
    assert Truthful(s, m);
    hide HandleSnapshot, HandleUpdate;
    match m
    case Delta(v, u) =>
      DeltaKeepsReplica(s, v, u);
      RejectedKeepsState(s.client, v, u);
    case Snapshot(_, _, _, _) => SnapshotKeepsReplica(s, m);
  }

  lemma RejectedKeepsState(c: Client, v: int, u: Update)
    ensures !Accepts(c, v) ==> HandleUpdate(c, v, u).state == c.state
  {
  }

  lemma HeldSettings(s: System)
    requires ReadyInv(s) && s.client.state.version > 0
    ensures OnceSettings(s.hist, s.client.state.settings)
  {
    hide ConnectionSound, WaitingSound;
    assert s.hist[s.client.state.version - s.base].settings == s.client.state.settings;
  }

  lemma AskedIsSound(s: System, status: Status)
    requires ReadyInv(s) && AskStatus(s.client, s.me, status).1.AwaitsGameFinder?
    ensures WaitingSound(s, Waits(s.client, AskStatus(s.client, s.me, status).1.request))
  {
    hide ConnectionSound, OnceSettings, StatusDiffers;
    HeldSettings(s);
  }

  lemma AskKeepsReady(s: System, s': System, status: Status)
    requires ReadyInv(s) && Inv(s') && PlayerAsks(s, s', status)
    ensures ReadyInv(s')
  {
    hide Inv, ConnectionSound, WaitingSound, StatusDiffers;
    var o := AskStatus(s.client, s.me, status).1;
    SentKeepsConnection(s.client, StatusRequest(status, s.client.state.settings.settingsVersionNumber), s.connecting, s.made);
    forall w | w in s'.waiting ensures WaitingSound(s', w) {
      if o.AwaitsGameFinder? && w == Waits(s.client, o.request) {
        AskedIsSound(s, status);
      }
      StillWaiting(s, s', w);
    }
  }

  lemma ResumeKeepsReady(s: System, s': System, w: Waiting)
    requires ReadyInv(s) && Inv(s') && (ReadyResumes(s, s', w) || ReadyGivesUp(s, s', w))
    ensures ReadyInv(s')
  {
    hide Inv, ConnectionSound, WaitingSound, Settled;
    SentKeepsConnection(s.client, w.request, s.connecting, s.made);
    forall x | x in s'.waiting ensures WaitingSound(s', x) {
      StillWaiting(s, s', x);
    }
  }

  lemma StatusStepKeepsReady(s: System, s': System)
    requires ReadyInv(s) && StatusStep(s, s')
    ensures ReadyInv(s')
  {
    hide ReadyInv, PlayerAsks, ReadyResumes, ReadyGivesUp;
    InvOfReady(s);
    StatusStepKeepsInv(s, s');
    if status :| PlayerAsks(s, s', status) {
      AskKeepsReady(s, s', status);
    } else if w :| ReadyResumes(s, s', w) {
      ResumeKeepsReady(s, s', w);
    } else if w :| ReadyGivesUp(s, s', w) {
      ResumeKeepsReady(s, s', w);
    }
  }

  lemma InvOfReady(s: System)
    requires ReadyInv(s)
    ensures Inv(s)
  {
  }

  lemma SentKeepsConnection(c: Client, request: StatusRequest, connecting: set<ConnectTask>, made: map<nat, string>)
    ensures ConnectionSound(c, connecting, made) ==> ConnectionSound(Emit(c, UpdateStatusCall(request)), connecting, made)
  {
    if ConnectionSound(c, connecting, made) {
      OtherEffectsKeepConnection(c, Emit(c, UpdateStatusCall(request)), [UpdateStatusCall(request)], connecting, made);
    }
  }

  lemma NextKeepsReady(s: System, s': System)
    requires |s.hist| > 0 && ReadyInv(s) && Next(s, s')
    ensures ReadyInv(s')
  {
    hide Inv, ConnectionSound, WaitingSound, Receive, StatusStep;
    NextKeepsInv(s, s');
    if StatusStep(s, s') {
      StatusStepKeepsReady(s, s');
    } else {
      StepKeepsClient(s, s');
      forall w | w in s'.waiting ensures WaitingSound(s', w) {
        StillWaiting(s, s', w);
      }
    }
  }

  lemma StepKeepsClient(s: System, s': System)
    requires |s.hist| > 0 && ReadyInv(s) && Next(s, s') && !StatusStep(s, s')
    ensures s'.waiting == s.waiting && s.hist <= s'.hist && Follows(s.client, s'.client)
    ensures ConnectionSound(s'.client, s'.connecting, s'.made)
    ensures s'.client.state.version > 0 || (s'.client.state == NoParty == s.client.state)
  {
    hide ConnectionSound, WaitingSound, Receive, StatusStep, Replica, FlagSound, Truthful, QueueSound, CallsBounded;
    if u :| ServerUpdates(s, s', u) {
    } else if m :| ServerAnswers(s, s', m) {
    } else if m :| ClientReceives(s, s', m) {
      ReceiveKeepsConnection(s.client, m, s.connecting, s.made);
      ReceivedVersion(s, m);
    } else {
      if task :| ConnectionEnds(s, s', task) {
        EndKeepsConnection(s.client, s.connecting, s.made, task);
      } else if s.client.queue != [] {
        TaskKeepsConnection(s.client, s.connecting, s.made);
      }
      if s'.client == SyncFailed(s.client) {
        assert s.client.log + [] == s.client.log;
        OtherEffectsKeepConnection(s.client, s'.client, [], s.connecting, s.made);
      }
    }
  }

  lemma {:induction false} RunKeepsReady(run: seq<System>, i: nat)
    requires Run(run) && i < |run|
    ensures ReadyInv(run[i])
    decreases i
  {
    hide ReadyInv, Next, Init;
    if i == 0 {
      InitReadyInv(run[0]);
    } else {
      RunKeepsReady(run, i - 1);
      assert Next(run[i - 1], run[(i - 1) + 1]);
      NextKeepsReady(run[i - 1], run[i]);
    }
  }

  /** Until the first snapshot comes the client holds an empty party. */
  lemma EmptyWithoutSnapshot(run: seq<System>, i: nat)
    requires Run(run) && i < |run| && run[i].client.state.version <= 0
    ensures run[i].client.state == PartyState(Settings("", "", 0), "", [], 0)
  {
    hide Run, Inv, ConnectionSound, WaitingSound;
    RunKeepsReady(run, i);
  }

  // ---------------------------------------------------------------------------
  // What leaves the client

  lemma ReceivingSendsNoStatus(c: Client, m: Message, k: nat)
    requires |c.log| <= k < |Receive(c, m).log|
    ensures !Receive(c, m).log[k].UpdateStatusCall?
  {
    hide ApplyUpdate, MoveFlag;
  }

  /** Every status request that leaves carries the number of the settings held at that moment, and changes nothing else. */
  lemma StatusCallsAreCurrent(run: seq<System>, i: nat, k: nat)
    requires Run(run) && i + 1 < |run| && |run[i].client.log| <= k < |run[i + 1].client.log|
    requires run[i + 1].client.log[k].UpdateStatusCall?
    ensures
      var s, s', request := run[i], run[i + 1], run[i + 1].client.log[k].request;
      && request.localSettingsVersion == s.client.state.settings.settingsVersionNumber
      && s'.client == s.client.(log := s.client.log + [UpdateStatusCall(request)])
      && (request.desiredStatus.Ready? ==> exists w :: w in s.waiting && w.request == request)
  {
    var s, s' := run[i], run[i + 1];
    assert Next(s, s');
    hide Run, Receive, StatusStep;
    if StatusStep(s, s') {
      StatusStepSends(s, s', k);
    } else if m :| ClientReceives(s, s', m) {
      ReceivingSendsNoStatus(s.client, m, k);
    }
  }

  lemma StatusStepSends(s: System, s': System, k: nat)
    requires StatusStep(s, s') && |s.client.log| <= k < |s'.client.log|
    ensures
      var e := s'.client.log[k];
      && e.UpdateStatusCall? && e.request.localSettingsVersion == s.client.state.settings.settingsVersionNumber
      && s'.client == s.client.(log := s.client.log + [e])
      && (e.request.desiredStatus.Ready? ==> exists w :: w in s.waiting && w.request == e.request)
  {
    hide StatusDiffers, Settled;
  }

  /** Version numbers of settings are handed out once. */
  predicate SettingsNumbered(hist: seq<Party>) {
    forall i, j :: 0 <= i < |hist| && 0 <= j < |hist|
      && hist[i].settings.settingsVersionNumber == hist[j].settings.settingsVersionNumber
      ==> hist[i].settings == hist[j].settings
  }

  /** The request of `w` leaves the client in this step. */
  ghost predicate SendsReady(s: System, s': System, w: Waiting) {
    ReadyResumes(s, s', w) && |s'.client.log| > |s.client.log|
  }

  /** A ready request leaves only under the settings it was made under, late snapshots or not, if numbers are not used twice. */
  lemma ReadyUnderItsOwnSettings(run: seq<System>, i: nat, w: Waiting)
    requires Run(run) && i + 1 < |run| && SendsReady(run[i], run[i + 1], w)
    requires SettingsNumbered(run[i].hist)
    ensures run[i].client.state.settings == w.madeUnder && w.request.desiredStatus.Ready?
  {
    RunKeepsReady(run, i);
    hide Run, ConnectionSound, Settled, SettingsNumbered, OnceSettings, Inv;
    assert WaitingSound(run[i], w);
    HeldSettings(run[i]);
    NumberedSettings(run[i].hist, run[i].client.state.settings, w.madeUnder);
  }

  lemma NumberedSettings(hist: seq<Party>, a: Settings, b: Settings)
    requires SettingsNumbered(hist) && OnceSettings(hist, a) && OnceSettings(hist, b)
    requires a.settingsVersionNumber == b.settingsVersionNumber
    ensures a == b
  {
  }

  /** The last thing that happened to the client's connection is that it was made to the settings' game finder. */
  predicate IsConnected(c: Client) {
    Connection(c.log) == c.state.settings.gameFinderName != ""
  }

  /**
   When a ready request leaves, the client is connected exactly when the connection to
   the game finder followed at that moment has been made; so it is, always, if the game
   finder has not changed since the request was made.
   */
  lemma ReadyConnectedExactly(run: seq<System>, i: nat, w: Waiting)
    requires Run(run) && i + 1 < |run| && SendsReady(run[i], run[i + 1], w)
    ensures
      var c := run[i].client;
      && (IsConnected(c) <==> c.token in run[i].made && c.currentGameFinder != "")
      && (c.token == w.token ==> IsConnected(c))
  {
    RunKeepsReady(run, i);
    var s := run[i];
    hide Run, Connection;
    assert WaitingSound(s, w);
  }

  // ---------------------------------------------------------------------------
  // A request that overtakes its connection

  const FirstSettings := Settings("a", "", 1)
  const SecondSettings := Settings("b", "", 2)
  const Us: seq<UserDto> := [UserDto("me", NotReady, "")]
  const Joined := Snapshot(1, FirstSettings, "me", Us)
  const FirstParty := Party(FirstSettings, "me", map["me" := Info(NotReady, "")])
  const Moved := SettingsUpdated(SecondSettings)
  const SecondParty := Party(SecondSettings, "me", map["me" := Info(NotReady, "")])
  const Alone: seq<Member> := [Member("me", NotReady, "", true)]

  lemma JoinedDepicts()
    ensures Depicts(Joined, FirstParty) && ApplyToParty(FirstParty, Moved) == SecondParty && Sendable(FirstParty, Moved)
    ensures DecodeSnapshot(Joined).members == [Member("me", NotReady, "", false)]
    ensures MoveFlag(DecodeSnapshot(Joined).members, "me") == Alone
  {
    assert DecodeAll(Us) == [Member("me", NotReady, "", false)];
    assert Us[0].userId == "me";
    var cleared := [Member("me", NotReady, "", false)];
    assert cleared[1..] == [];
  }

  function Joins(c: Client): Client {
    HandleSnapshot(c, DecodeSnapshot(Joined))
  }

  lemma JoinsClient(c: Client)
    ensures Joins(c).state == PartyState(FirstSettings, "me", Alone, 1)
    ensures c.currentGameFinder != "a" ==>
      Joins(c).token == c.token + 1 && Joins(c).queue == c.queue + [ConnectTask("a", c.token + 1)]
      && Joins(c).currentGameFinder == "a" && Connection(Joins(c).log) == ""
  {
    JoinedDepicts();
    hide MoveFlag, Connection;
    if c.currentGameFinder != "a" {
      Disconnected(c.log, c.currentGameFinder);
      var log := c.log + [DisconnectGameFinder(c.currentGameFinder)];
      var more := [PartyReady, SettingsEvent(FirstSettings), MembersEvent(Alone)];
      ConnectionSkips(log, more);
      assert Joins(c).log == log + more;
    }
  }

  /**
   It does happen: settings come, a ready request waits, other settings come and a late
   snapshot brings the first ones back. The request goes out, and the client has not
   been connected to any game finder.
   */
  lemma ReadyBeforeConnecting() returns (run: seq<System>, w: Waiting)
    ensures |run| == 8 && Run(run) && SendsReady(run[6], run[7], w) && SettingsNumbered(run[6].hist)
    ensures run[6].client.state.settings == w.madeUnder && Connection(run[6].client.log) == "" && !IsConnected(run[6].client)
  {
    hide Joins, HandleUpdate, Connection, Next;
    w := Asked;
    var s0, s1, s2, s3 := JoinAndAsk();
    var s4, s5, s6, s7 := MoveAndReturn(s3);
    run := [s0, s1, s2, s3, s4, s5, s6, s7];
  }

  const Asked := Waiting(StatusRequest(Ready, 1), FirstSettings, 1)

  lemma JoinAndAsk() returns (s0: System, s1: System, s2: System, s3: System)
    ensures Init(s0) && Next(s0, s1) && |s1.hist| > 0 && Next(s1, s2) && |s2.hist| > 0 && Next(s2, s3)
    ensures s3 == System(1, [FirstParty], {Joined}, "me", Joins(NewClient), [Arrived(Joined)], multiset{Asked}, {}, map[], {}, 1, 0)
  {
    JoinedDepicts();
    hide HandleSnapshot, Joins, Depicts;
    s0 := System(1, [FirstParty], {}, "me", NewClient, [], multiset{}, {}, map[], {}, 0, 0);
    s1 := s0.(net := {Joined});
    assert ServerAnswers(s0, s1, Joined);
    s2 := s1.(client := Joins(NewClient), received := [Arrived(Joined)], snapshotsHandled := 1);
    JoinsClient(NewClient);
    assert ClientReceives(s1, s2, Joined) by { JoinsIsReceive(NewClient); }
    s3 := s2.(waiting := multiset{Asked});
    assert s2.client.state.members[0].status != Ready;
    assert PlayerAsks(s2, s3, Ready);
  }

  lemma JoinsIsReceive(c: Client)
    ensures Receive(c, Joined) == Joins(c)
  {
  }

  lemma MoveAndReturn(s3: System) returns (s4: System, s5: System, s6: System, s7: System)
    requires s3 == System(1, [FirstParty], {Joined}, "me", Joins(NewClient), [Arrived(Joined)], multiset{Asked}, {}, map[], {}, 1, 0)
    ensures Next(s3, s4) && |s4.hist| > 0 && Next(s4, s5) && |s5.hist| > 0 && Next(s5, s6)
    ensures |s6.hist| > 0 && Next(s6, s7) && SendsReady(s6, s7, Asked)
    ensures SettingsNumbered(s6.hist) && s6.client.state.settings == FirstSettings && Connection(s6.client.log) == ""
  {
    JoinedDepicts();
    hide HandleSnapshot, HandleUpdate, Joins, Connection, Depicts, Sendable;
    var delta := Delta(2, Moved);
    JoinsClient(NewClient);
    s4 := s3.(hist := [FirstParty, SecondParty], net := {Joined, delta});
    assert ServerUpdates(s3, s4, Moved);
    s5 := s4.(client := HandleUpdate(s4.client, 2, Moved), received := [Arrived(Joined), Arrived(delta)]);
    MovesClient(s4.client);
    assert ClientReceives(s4, s5, delta);
    s6 := s5.(client := Joins(s5.client), received := [Arrived(Joined), Arrived(delta), Arrived(Joined)], snapshotsHandled := 2);
    JoinsClient(s5.client);
    assert ClientReceives(s5, s6, Joined) by { JoinsIsReceive(s5.client); }
    s7 := s6.(client := SendReady(s6.client, Asked.request).0, waiting := multiset{});
    assert ReadyResumes(s6, s7, Asked);
  }

  lemma MovesClient(c: Client)
    requires c.state == PartyState(FirstSettings, "me", Alone, 1) && c.currentGameFinder == "a"
    ensures
      var c' := HandleUpdate(c, 2, Moved);
      && c'.state == PartyState(SecondSettings, "me", Alone, 2) && c'.currentGameFinder == "b"
      && c'.token == c.token + 1 && c'.queue == c.queue + [ConnectTask("b", c.token + 1)]
  {
  }
}
