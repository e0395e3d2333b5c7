/**
 The replication protocol: a server that changes the party one version at a time, a
 client, and a network that may lose, repeat and reorder messages at will.
 */
module PartyProtocol {
  import opened PartyState
  import opened PartyClient

  datatype Message =
    | Delta(version: int, update: Update)
    | Snapshot(version: int, settings: Settings, leaderId: UserId, members: seq<UserDto>)

  /** What reaches the client: a message, or the news that its request for a snapshot has failed. */
  datatype Input = Arrived(m: Message) | RequestFailed

  /** A ready request behind the connection task of its moment, with the settings it was made under. */
  datatype Waiting = Waiting(request: StatusRequest, madeUnder: Settings, token: nat)

  /**
   `hist[k]` is the party at version `base + k`; `net` holds everything ever sent,
   `received` what has reached the client, in order; `connecting` are the game finder
   connections under way, `made` those that have been made, by token, and `failed` the
   tokens of those that never will be although nothing has cancelled them.
   */
  datatype System = System(
    base: int,
    hist: seq<Party>,
    net: set<Message>,
    me: UserId,
    client: Client,
    received: seq<Input>,
    waiting: multiset<Waiting>,
    connecting: set<ConnectTask>,
    made: map<nat, string>,
    failed: set<nat>,
    snapshotsHandled: nat,
    failuresHandled: nat)
  {
    function Latest(): int {
      base + |hist| - 1
    }

    predicate HasVersion(v: int) {
      base <= v < base + |hist|
    }
  }

  function DecodeSnapshot(m: Message): PartyState
    requires m.Snapshot?
  {
    PartyState(m.settings, m.leaderId, DecodeAll(m.members), m.version)
  }

  function Receive(c: Client, m: Message): Client {
    match m
    case Delta(v, u) => HandleUpdate(c, v, u)
    case Snapshot(_, _, _, _) => HandleSnapshot(c, DecodeSnapshot(m))
  }

  /** A snapshot carries the party's settings and leader, and lists each member once. */
  predicate Depicts(m: Message, p: Party)
    requires m.Snapshot?
  {
    && m.settings == p.settings && m.leaderId == p.leaderId
    && (forall i, j :: 0 <= i < j < |m.members| ==> m.members[i].userId != m.members[j].userId)
    && p.members.Keys == (set u | u in m.members :: u.userId)
    && (forall i :: 0 <= i < |m.members| ==>
          m.members[i].userId in p.members
          && p.members[m.members[i].userId] == Info(m.members[i].status, m.members[i].userData))
  }

  /** Decoding a snapshot gives the party it depicts. */
  lemma DepictsDecoded(m: Message, p: Party)
    requires m.Snapshot? && Depicts(m, p)
    ensures UniqueIds(DecodeAll(m.members)) && Abs(DecodeSnapshot(m)) == p
  {
    hide MemberMap;
    var ms := DecodeAll(m.members);
    forall id ensures id in MemberMap(ms) <==> id in p.members {
      MapLookup(ms, id);
      if id in p.members {
        var u :| u in m.members && u.userId == id;
        var i :| 0 <= i < |m.members| && m.members[i] == u;
        assert ms[i].userId == id;
      }
    }
    forall id | id in p.members ensures MemberMap(ms)[id] == p.members[id] {
      MapLookup(ms, id);
    }
  }

  ghost predicate Init(s: System) {
    s.base >= 1 && |s.hist| == 1 && s.net == {} && s.client == NewClient
    && s.received == [] && s.waiting == multiset{} && s.connecting == {} && s.made == map[] && s.failed == {} && s.snapshotsHandled == 0 && s.failuresHandled == 0
  }

  /** The server changes the party and announces the change. */
  ghost predicate ServerUpdates(s: System, s': System, u: Update)
    requires |s.hist| > 0
  {
    var p := s.hist[|s.hist| - 1];
    Sendable(p, u)
    && s' == s.(hist := s.hist + [ApplyToParty(p, u)], net := s.net + {Delta(s.Latest() + 1, u)})
  }

  /** The server sends the party as it is. */
  ghost predicate ServerAnswers(s: System, s': System, m: Message)
    requires |s.hist| > 0
  {
    m.Snapshot? && m.version == s.Latest() && Depicts(m, s.hist[|s.hist| - 1])
    && s' == s.(net := s.net + {m})
  }

  /** Some message that was once sent arrives, maybe not for the first time. */
  ghost predicate ClientReceives(s: System, s': System, m: Message) {
    m in s.net
    && s' == s.(client := Receive(s.client, m), received := s.received + [Arrived(m)],
                snapshotsHandled := s.snapshotsHandled + if m.Snapshot? then 1 else 0)
  }

  ghost predicate ClientTask(s: System, s': System) {
    || s' == s.(client := SyncFailed(s.client), received := s.received + [RequestFailed],
                failuresHandled := s.failuresHandled + 1)
    || (s.client.queue != []
        && s' == s.(client := RunConnectTask(s.client), connecting := s.connecting + Started(s.client)))
    || (s.client.queue != []
        && s' == s.(client := DropConnectTask(s.client), failed := s.failed + Tokens(Started(s.client))))
    || (exists task :: ConnectionEnds(s, s', task))
  }

  /** The first queued connection, if it is not cancelled. */
  function Started(c: Client): set<ConnectTask>
    requires c.queue != []
  {
    if c.queue[0].token < c.token then {} else {c.queue[0]}
  }

  function Tokens(tasks: set<ConnectTask>): set<nat> {
    set task | task in tasks :: task.token
  }

  /** A connection under way is made, or fails. */
  ghost predicate ConnectionEnds(s: System, s': System, task: ConnectTask) {
    task in s.connecting
    && (|| s' == s.(client := ConnectionMade(s.client, task), connecting := s.connecting - {task},
                    made := s.made[task.token := task.name])
        || s' == s.(connecting := s.connecting - {task}, failed := s.failed + {task.token}))
  }

  /** The player asks for a status; a ready request starts to wait. */
  ghost predicate PlayerAsks(s: System, s': System, status: Status) {
    var (c, o) := AskStatus(s.client, s.me, status);
    s' == s.(client := c,
             waiting := s.waiting + if o.AwaitsGameFinder? then multiset{Waits(s.client, o.request)} else multiset{})
  }

  function Waits(c: Client, request: StatusRequest): Waiting {
    Waiting(request, c.state.settings, c.token)
  }

  /** The connection a request waits for has been made or is cancelled. */
  predicate Settled(s: System, w: Waiting) {
    w.token in s.made || w.token < s.client.token
  }

  /** A ready request has waited long enough; it is sent if its settings still look current. */
  ghost predicate ReadyResumes(s: System, s': System, w: Waiting) {
    w in s.waiting && Settled(s, w)
    && s' == s.(client := SendReady(s.client, w.request).0, waiting := s.waiting - multiset{w})
  }

  /** The connection a ready request waited for failed. */
  ghost predicate ReadyGivesUp(s: System, s': System, w: Waiting) {
    w in s.waiting && s' == s.(waiting := s.waiting - multiset{w})
  }

  ghost predicate StatusStep(s: System, s': System) {
    || (exists status :: PlayerAsks(s, s', status))
    || (exists w :: ReadyResumes(s, s', w))
    || (exists w :: ReadyGivesUp(s, s', w))
  }

  ghost predicate Next(s: System, s': System)
    requires |s.hist| > 0
  {
    || (exists u :: ServerUpdates(s, s', u))
    || (exists m :: ServerAnswers(s, s', m))
    || (exists m :: ClientReceives(s, s', m))
    || ClientTask(s, s')
    || StatusStep(s, s')
  }

  // ---------------------------------------------------------------------------
  // The invariant

  /** A message tells the truth about the version it carries. */
  predicate Truthful(s: System, m: Message) {
    match m
    case Delta(v, u) =>
      s.base < v && s.HasVersion(v)
      && Sendable(s.hist[v - 1 - s.base], u) && s.hist[v - s.base] == ApplyToParty(s.hist[v - 1 - s.base], u)
    case Snapshot(v, _, _, _) => s.HasVersion(v) && Depicts(m, s.hist[v - s.base])
  }

  /** The replica is the party at the replica's version, member by member. */
  predicate Replica(s: System) {
    s.client.state.version > 0 ==>
      s.HasVersion(s.client.state.version)
      && UniqueIds(s.client.state.members)
      && Abs(s.client.state) == s.hist[s.client.state.version - s.base]
  }

  predicate CallsBounded(s: System) {
    Calls(s.client.log) <= s.snapshotsHandled + s.failuresHandled + SyncWeight(s.client)
  }

  ghost predicate Inv(s: System) {
    && s.base >= 1 && |s.hist| > 0
    && (forall m :: m in s.net ==> Truthful(s, m))
    && Replica(s)
    && FlagSound(s.client.state)
    && QueueSound(s.client)
    && CallsBounded(s)
  }

  lemma InitInv(s: System)
    requires Init(s)
    ensures Inv(s)
  {
  }

  lemma ServerUpdateKeepsInv(s: System, s': System, u: Update)
    requires Inv(s) && ServerUpdates(s, s', u)
    ensures Inv(s')
  {
    hide ApplyToParty, Abs, UniqueIds, FlagSound, QueueSound, Sendable, Depicts, Calls;
    forall m | m in s'.net ensures Truthful(s', m) {
      if m in s.net {
        assert Truthful(s, m);
      }
    }
  }

  lemma ServerAnswerKeepsInv(s: System, s': System, m: Message)
    requires Inv(s) && ServerAnswers(s, s', m)
    ensures Inv(s')
  {
    hide ApplyToParty, Abs, UniqueIds, FlagSound, QueueSound, Sendable, Depicts, Calls;
    forall x | x in s'.net ensures Truthful(s', x) {
      if x in s.net {
        assert Truthful(s, x);
      }
    }
  }

  lemma SnapshotKeepsReplica(s: System, m: Message)
    requires Inv(s) && m.Snapshot? && Truthful(s, m)
    ensures
      var c' := HandleSnapshot(s.client, DecodeSnapshot(m));
      Replica(s.(client := c')) && FlagSound(c'.state) && c'.state.version == m.version
  {
    hide UpdateGameFinder, MemberMap, UniqueIds, MoveFlag, Calls, FlagSound, QueueSound;
    var snapshot := DecodeSnapshot(m);
    DepictsDecoded(m, s.hist[m.version - s.base]);
    hide Depicts;
    MoveFlagRefines(snapshot.members, snapshot.leaderId);
    DecodedFlags(m);
    MoveFlagSound(snapshot, snapshot.leaderId);
    UpdateGameFinderKeepsQueue(s.client, snapshot.(members := MoveFlag(snapshot.members, snapshot.leaderId)));
  }

  lemma DecodedFlags(m: Message)
    requires m.Snapshot?
    ensures var ms := DecodeSnapshot(m).members;
      forall i, j :: 0 <= i < j < |ms| ==> !(ms[i].isLeader && ms[j].isLeader)
  {
  }

  lemma DeltaKeepsReplica(s: System, v: int, u: Update)
    requires Inv(s) && Truthful(s, Delta(v, u))
    ensures
      var c' := HandleUpdate(s.client, v, u);
      Replica(s.(client := c')) && FlagSound(c'.state)
      && c'.state.version == (if Accepts(s.client, v) then v else s.client.state.version)
  {
    hide UpdateGameFinder, MemberMap, UniqueIds, MoveFlag, Calls, FlagSound, QueueSound, ApplyUpdate, ApplyToParty, EventOf;
    if Accepts(s.client, v) {
      var st := s.client.state.(version := v);
      ApplyUpdateRefines(st, u);
      VersionIsNoFlag(s.client.state, v);
      ApplyUpdateKeepsFlagSound(st, u);
      ApplyUpdateKeepsVersion(st, u);
      UpdateGameFinderKeepsQueue(s.client, ApplyUpdate(st, u));
    }
  }

  lemma VersionIsNoFlag(st: PartyState, v: int)
    ensures FlagSound(st.(version := v)) <==> FlagSound(st)
  {
  }

  lemma ApplyUpdateKeepsVersion(st: PartyState, u: Update)
    ensures ApplyUpdate(st, u).version == st.version
  {
  }

  lemma ReceiveKeepsInv(s: System, s': System, m: Message)
    requires Inv(s) && ClientReceives(s, s', m)
    ensures Inv(s')
  {
    hide HandleSnapshot, HandleUpdate, Abs, UniqueIds, FlagSound, QueueSound, Calls, ApplyToParty, Sendable, Depicts;
    assert Truthful(s, m);
    assert forall x :: x in s'.net ==> Truthful(s, x);
    assert forall x :: Truthful(s, x) ==> Truthful(s', x);
    match m
    case Delta(v, u) =>
      DeltaKeepsReplica(s, v, u);
      UpdateKeepsQueue(s.client, v, u);
      CallsByUpdate(s.client, v, u);
    case Snapshot(_, _, _, _) =>
      SnapshotKeepsReplica(s, m);
      SnapshotKeepsQueue(s.client, DecodeSnapshot(m));
      CallsBySnapshot(s.client, DecodeSnapshot(m));
  }

  lemma TaskKeepsInv(s: System, s': System)
    requires Inv(s) && ClientTask(s, s')
    ensures Inv(s')
  {
    hide Abs, UniqueIds, FlagSound, QueueSound, Calls, ApplyToParty, Sendable, Depicts;
    assert forall x :: Truthful(s, x) ==> Truthful(s', x);
    if task :| ConnectionEnds(s, s', task) {
      ConnectionIsNotCall(s.client, task);
      LogIsNoQueue(s.client, s'.client.log);
    } else if s.client.queue != [] {
      TasksKeepQueue(s.client);
      CallsByTasks(s.client);
    }
    FailureKeepsQueue(s.client);
  }

  lemma FailureKeepsQueue(c: Client)
    ensures QueueSound(c) ==> QueueSound(SyncFailed(c))
  {
  }

  lemma StatusStepKeepsInv(s: System, s': System)
    requires Inv(s) && StatusStep(s, s')
    ensures Inv(s') && s'.client.state == s.client.state
  {
    hide AskStatus, SendReady, Settled, Inv;
    if status :| PlayerAsks(s, s', status) {
      StatusCallsAreNotCalls(s.client, s.me, status, StatusRequest(status, 0));
      OnlyTheLog(s.client, s.me, status, StatusRequest(status, 0));
      LogKeepsInv(s, s');
    } else if w :| ReadyResumes(s, s', w) {
      StatusCallsAreNotCalls(s.client, s.me, Ready, w.request);
      OnlyTheLog(s.client, s.me, Ready, w.request);
      LogKeepsInv(s, s');
    } else {
      LogKeepsInv(s, s');
    }
  }

  lemma OnlyTheLog(c: Client, me: UserId, status: Status, request: StatusRequest)
    ensures AskStatus(c, me, status).0 == c.(log := AskStatus(c, me, status).0.log)
    ensures SendReady(c, request).0 == c.(log := SendReady(c, request).0.log)
  {
  }

  lemma LogKeepsInv(s: System, s': System)
    requires Inv(s) && s' == s.(client := s.client.(log := s'.client.log), waiting := s'.waiting)
    requires Calls(s'.client.log) == Calls(s.client.log)
    ensures Inv(s')
  {
    hide Abs, UniqueIds, FlagSound, QueueSound, Calls, ApplyToParty, Sendable, Depicts;
    assert forall x :: Truthful(s, x) ==> Truthful(s', x);
    LogIsNoQueue(s.client, s'.client.log);
  }

  lemma LogIsNoQueue(c: Client, log: seq<Effect>)
    ensures QueueSound(c.(log := log)) <==> QueueSound(c)
  {
  }

  /** Everything but the client's log, its queue and what waits for them is as before. */
  predicate SamePlace(s: System, s': System) {
    && s'.client.state == s.client.state && s'.client.token == s.client.token
    && s'.base == s.base && s'.hist == s.hist && s'.net == s.net
  }

  lemma TaskKeepsState(s: System, s': System)
    requires ClientTask(s, s') || StatusStep(s, s')
    ensures SamePlace(s, s')
  {
    hide ClientTask, StatusStep, SamePlace;
    if StatusStep(s, s') {
      AskingKeepsState(s, s');
    } else {
      ConnectingKeepsState(s, s');
    }
  }

  lemma AskingKeepsState(s: System, s': System)
    requires StatusStep(s, s')
    ensures SamePlace(s, s')
  {
    hide Settled, StatusDiffers;
  }

  lemma ConnectingKeepsState(s: System, s': System)
    requires ClientTask(s, s')
    ensures SamePlace(s, s') && s'.waiting == s.waiting
  {
  }

  lemma NextKeepsInv(s: System, s': System)
    requires |s.hist| > 0 && Inv(s) && Next(s, s')
    ensures Inv(s')
  {
    hide Inv, ServerUpdates, ServerAnswers, ClientReceives, ClientTask, StatusStep;
    if u :| ServerUpdates(s, s', u) {
      ServerUpdateKeepsInv(s, s', u);
    } else if m :| ServerAnswers(s, s', m) {
      ServerAnswerKeepsInv(s, s', m);
    } else if m :| ClientReceives(s, s', m) {
      ReceiveKeepsInv(s, s', m);
    } else if ClientTask(s, s') {
      TaskKeepsInv(s, s');
    } else {
      StatusStepKeepsInv(s, s');
    }
  }

  // ---------------------------------------------------------------------------
  // Whole runs

  ghost predicate Run(run: seq<System>) {
    |run| > 0 && Init(run[0])
    && forall i :: 0 <= i < |run| - 1 ==> |run[i].hist| > 0 && Next(run[i], run[i + 1])
  }

  lemma {:induction false} RunKeepsInv(run: seq<System>, i: nat)
    requires Run(run) && i < |run|
    ensures Inv(run[i])
    decreases i
  {
    hide Inv, Next, Init;
    if i == 0 {
      InitInv(run[0]);
    } else {
      RunKeepsInv(run, i - 1);
      assert Next(run[i - 1], run[(i - 1) + 1]);
      NextKeepsInv(run[i - 1], run[i]);
    }
  }

  /** Whatever the network does, a client with a version has exactly the party of that version. */
  lemma ReplicaAgrees(run: seq<System>, i: nat)
    requires Run(run) && i < |run| && run[i].client.state.version > 0
    ensures
      var s, st := run[i], run[i].client.state;
      s.HasVersion(st.version)
      && st.settings == s.hist[st.version - s.base].settings
      && st.leaderId == s.hist[st.version - s.base].leaderId
      && MemberMap(st.members) == s.hist[st.version - s.base].members
      && UniqueIds(st.members)
  {
    hide Run;
    RunKeepsInv(run, i);
  }

  /** At most one member carries the leader flag, and it is the leader. */
  lemma LeaderFlagIsSound(run: seq<System>, i: nat)
    requires Run(run) && i < |run|
    ensures FlagSound(run[i].client.state)
  {
    hide Run;
    RunKeepsInv(run, i);
  }

  /** The client does not flood the server with requests for a snapshot. */
  lemma RequestsAreBounded(run: seq<System>, i: nat)
    requires Run(run) && i < |run|
    ensures Calls(run[i].client.log) <= run[i].snapshotsHandled + run[i].failuresHandled + 1
  {
    hide Run, Calls;
    RunKeepsInv(run, i);
  }

  /** The client follows the game finder of its settings, and at most one queued connection is live: the one to it. */
  lemma GameFinderFollowsSettings(run: seq<System>, i: nat)
    requires Run(run) && i < |run|
    ensures
      var c := run[i].client;
      c.currentGameFinder == c.state.settings.gameFinderName
      && (forall j, k :: 0 <= j < k < |c.queue| ==> !(c.queue[j].token == c.token && c.queue[k].token == c.token))
      && (forall j :: 0 <= j < |c.queue| && c.queue[j].token == c.token ==> c.queue[j].name == c.currentGameFinder)
  {
    hide Run;
    RunKeepsInv(run, i);
  }

  /** The version goes back in one way only: an old snapshot arrives late. */
  lemma VersionDropsExactly(s: System, s': System, m: Message)
    requires Inv(s) && ClientReceives(s, s', m)
    ensures s'.client.state.version < s.client.state.version <==> m.Snapshot? && m.version < s.client.state.version
  {
    assert Truthful(s, m);
    hide Inv, Truthful, HandleSnapshot, HandleUpdate;
    match m
    case Delta(v, u) => DeltaKeepsReplica(s, v, u);
    case Snapshot(_, _, _, _) => SnapshotKeepsReplica(s, m);
  }

  /** No effect from position `from` on connects to anything but `name`. */
  predicate ConnectsOnlyTo(log: seq<Effect>, from: nat, name: string) {
    forall k :: from <= k < |log| && log[k].ConnectGameFinder? ==> log[k].name == name
  }

  lemma ReceivingNeverConnects(c: Client, m: Message, name: string)
    ensures ConnectsOnlyTo(Receive(c, m).log, |c.log|, name)
  {
    hide ApplyUpdate, MoveFlag;
  }

  /** In no step of any run does the client connect to a game finder its settings no longer name. */
  lemma NoStaleConnect(run: seq<System>, i: nat)
    requires Run(run) && i + 1 < |run|
    ensures ConnectsOnlyTo(run[i + 1].client.log, |run[i].client.log|, run[i].client.state.settings.gameFinderName)
  {
    RunKeepsInv(run, i);
    assert Next(run[i], run[i + 1]);
    hide Run, Inv, StatusStep, ClientTask;
    var s, s' := run[i], run[i + 1];
    if StatusStep(s, s') {
      AskingConnectsNothing(s, s', s.client.state.settings.gameFinderName);
    } else if ClientTask(s, s') {
      QueueSoundOf(s);
      TaskConnectsToCurrentOnly(s, s');
    } else if m :| ClientReceives(s, s', m) {
      ReceivingNeverConnects(s.client, m, s.client.state.settings.gameFinderName);
    }
  }

  lemma QueueSoundOf(s: System)
    requires Inv(s)
    ensures QueueSound(s.client)
  {
  }

  lemma AskingConnectsNothing(s: System, s': System, name: string)
    requires StatusStep(s, s')
    ensures ConnectsOnlyTo(s'.client.log, |s.client.log|, name)
  {
    hide StatusDiffers, Settled;
  }

  lemma TaskConnectsToCurrentOnly(s: System, s': System)
    requires QueueSound(s.client) && ClientTask(s, s')
    ensures ConnectsOnlyTo(s'.client.log, |s.client.log|, s.client.state.settings.gameFinderName)
  {
    hide QueueSound, RunConnectTask;
    if s.client.queue != [] {
      ConnectsToCurrentOnly(s.client);
    }
  }
}
