/**
 Everything a step of the client sends, tells or queues, message by message; and over
 whole runs, when a snapshot is due and what becomes of each game finder connection.
 */
module PartyEffects {
  import opened PartyState
  import opened PartyClient
  import opened PartyProtocol

  // ---------------------------------------------------------------------------
  // One message

  predicate Knows(ms: seq<Member>, id: UserId) {
    exists i :: 0 <= i < |ms| && ms[i].userId == id
  }

  /** The event an accepted update raises: the new settings, or the members as they are now if any of them is concerned. */
  function Event(before: PartyState, u: Update, members: seq<Member>): seq<Effect> {
    match u
    case SettingsUpdated(settings) => [SettingsEvent(settings)]
    case UserDataUpdated(id, _) => if Knows(before.members, id) then [MembersEvent(members)] else []
    case MemberDisconnected(id) => if Knows(before.members, id) then [MembersEvent(members)] else []
    case LeaderChanged(id) => if before.leaderId == id then [] else [MembersEvent(members)]
    case _ => [MembersEvent(members)]
  }

  /** The client's settings come to name another game finder than it follows. */
  predicate Switches(c: Client, st: PartyState) {
    st.settings.gameFinderName != c.currentGameFinder
  }

  /**
   Rejected, an update asks for a snapshot unless one is due. A snapshot and an accepted
   update disconnect from the game finder followed before, if the settings now name
   another, and then raise their events.
   */
  function Sends(c: Client, m: Message, st: PartyState): seq<Effect> {
    var parting := if Switches(c, st) then [DisconnectGameFinder(c.currentGameFinder)] else [];
    match m
    case Delta(v, u) =>
      if !(c.state.version > 0 && v == c.state.version + 1) then
        if c.isPendingStateSync then [] else [GetPartyStateCall]
      else parting + Event(c.state, u, st.members)
    case Snapshot(_, settings, _, _) => parting + [PartyReady, SettingsEvent(settings), MembersEvent(st.members)]
  }

  predicate Rejects(c: Client, m: Message) {
    m.Delta? && !(c.state.version > 0 && m.version == c.state.version + 1)
  }

  lemma EventIsRaised(before: PartyState, u: Update, after: PartyState)
    requires after.settings == ApplyUpdate(before, u).settings
    ensures EventOf(before, u, after) == Event(before, u, after.members)
  {
    match u
    case UserDataUpdated(id, _) => KnownIsFound(before.members, id);
    case MemberDisconnected(id) => KnownIsFound(before.members, id);
    case _ =>
  }

  lemma KnownIsFound(ms: seq<Member>, id: UserId)
    ensures Knows(ms, id) <==> Find(ms, id) < |ms|
  {
  }

  lemma FollowingSettings(c: Client, st: PartyState)
    ensures
      var c', name := UpdateGameFinder(c.(state := st)), st.settings.gameFinderName;
      if !Switches(c, st) then c' == c.(state := st)
      else
        c' == c.(state := st, currentGameFinder := name, token := c.token + 1,
                 log := c.log + [DisconnectGameFinder(c.currentGameFinder)],
                 queue := c.queue + if name == "" then [] else [ConnectTask(name, c.token + 1)])
  {
    assert c.queue + [] == c.queue;
  }

  /** All that a message makes the client do, apart from its replica. */
  lemma ArrivalOutcome(c: Client, m: Message)
    ensures
      var c', name := Receive(c, m), Receive(c, m).state.settings.gameFinderName;
      && c'.log == c.log + Sends(c, m, c'.state)
      && c'.isPendingStateSync == (if m.Snapshot? then false else c.isPendingStateSync || Rejects(c, m))
      && (Rejects(c, m) ==> c' == c.(isPendingStateSync := true, log := c'.log))
      && (!Rejects(c, m) ==>
            c'.currentGameFinder == name
            && if !Switches(c, c'.state) then c'.token == c.token && c'.queue == c.queue
               else c'.token == c.token + 1
                    && c'.queue == c.queue + if name == "" then [] else [ConnectTask(name, c'.token)])
  {
    hide UpdateGameFinder, ApplyUpdate, MoveFlag, EventOf, Knows;
    match m
    case Delta(v, u) =>
      if Accepts(c, v) {
        var at := c.state.(version := v);
        var st := ApplyUpdate(at, u);
        FollowingSettings(c, st);
        EventIsRaised(c.state, u, st) by { VersionIsNoSetting(c.state, v, u); }
        var parting := if Switches(c, st) then [DisconnectGameFinder(c.currentGameFinder)] else [];
        assert c.log + parting + Event(c.state, u, st.members) == c.log + (parting + Event(c.state, u, st.members));
      } else {
        assert c.log + [] == c.log;
      }
    case Snapshot(_, settings, _, _) =>
      var snapshot := DecodeSnapshot(m);
      var st := snapshot.(members := MoveFlag(snapshot.members, snapshot.leaderId));
      FollowingSettings(c, st);
      var parting := if Switches(c, st) then [DisconnectGameFinder(c.currentGameFinder)] else [];
      assert c.log + parting + [PartyReady] + [SettingsEvent(settings)] + [MembersEvent(st.members)]
          == c.log + (parting + [PartyReady, SettingsEvent(settings), MembersEvent(st.members)]);
  }

  lemma VersionIsNoSetting(st: PartyState, v: int, u: Update)
    ensures ApplyUpdate(st.(version := v), u).settings == ApplyUpdate(st, u).settings
  {
  }

  // ---------------------------------------------------------------------------
  // The other steps

  /** The head of the queue connects if its token is current, and leaves no other trace. */
  lemma TaskConnectsExactly(c: Client)
    requires QueueSound(c) && c.queue != []
    ensures
      RunConnectTask(c)
        == c.(queue := c.queue[1..],
              log := c.log + if c.queue[0].token == c.token then [ConnectGameFinder(c.queue[0].name)] else [])
  {
    assert c.log + [] == c.log;
  }

  /** An entry of the player's with another status. */
  predicate HasOther(ms: seq<Member>, me: UserId, status: Status) {
    exists i :: 0 <= i < |ms| && ms[i].userId == me && ms[i].status != status
  }

  /** Asking for a status sends a request, or makes it wait, exactly if the status differs and there is a game finder. */
  lemma AskingExactly(s: System, s': System, status: Status)
    requires PlayerAsks(s, s', status)
    ensures
      var c, settings := s.client, s.client.state.settings;
      var goes := HasOther(c.state.members, s.me, status) && settings.gameFinderName != "";
      var request := StatusRequest(status, settings.settingsVersionNumber);
      && s'.client == c.(log := c.log + if goes && status == NotReady then [UpdateStatusCall(request)] else [])
      && s'.waiting == s.waiting
         + if goes && status == Ready then multiset{Waiting(request, settings, c.token)} else multiset{}
  {
    assert HasOther(s.client.state.members, s.me, status) <==> StatusDiffers(s.client.state.members, s.me, status);
    hide HasOther, StatusDiffers;
    assert s.client.log + [] == s.client.log;
  }

  /** What the player's caller learns, in every case. */
  lemma AnswersExactly(c: Client, me: UserId, status: Status, request: StatusRequest)
    ensures
      AskStatus(c, me, status).1 ==
        if !HasOther(c.state.members, me, status) then Unchanged
        else if c.state.settings.gameFinderName == "" then PartyNotReady
        else if status == NotReady then Sent
        else AwaitsGameFinder(StatusRequest(Ready, c.state.settings.settingsVersionNumber))
    ensures
      SendReady(c, request).1 ==
        if request.localSettingsVersion == c.state.settings.settingsVersionNumber then Sent else SettingsOutdated
  {
    assert HasOther(c.state.members, me, status) <==> StatusDiffers(c.state.members, me, status);
  }

  /** A ready request that has waited is sent exactly if the settings held have its number. */
  lemma ResumingExactly(s: System, s': System, w: Waiting)
    requires ReadyResumes(s, s', w)
    ensures
      var c := s.client;
      s'.client == c.(log := c.log
        + if w.request.localSettingsVersion == c.state.settings.settingsVersionNumber then [UpdateStatusCall(w.request)] else [])
  {
    assert s.client.log + [] == s.client.log;
  }

  // ---------------------------------------------------------------------------
  // When a snapshot is due

  /** The version held, by the messages alone: a snapshot's, or one more with each update that fits. */
  function HeldVersion(inputs: seq<Input>): int {
    if inputs == [] then 0
    else
      var held := HeldVersion(inputs[..|inputs| - 1]);
      match inputs[|inputs| - 1]
      case Arrived(Snapshot(v, _, _, _)) => v
      case Arrived(Delta(v, _)) => if held > 0 && v == held + 1 then v else held
      case RequestFailed => held
  }

  /** The last input is an update that does not fit. */
  predicate LastMisfits(inputs: seq<Input>) {
    inputs != []
    && var held, last := HeldVersion(inputs[..|inputs| - 1]), inputs[|inputs| - 1];
       last.Arrived? && last.m.Delta? && !(held > 0 && last.m.version == held + 1)
  }

  /** An update that does not fit has arrived since the last snapshot or failure. */
  predicate Due(inputs: seq<Input>) {
    inputs != []
    && (LastMisfits(inputs)
        || (inputs[|inputs| - 1].Arrived? && inputs[|inputs| - 1].m.Delta? && Due(inputs[..|inputs| - 1])))
  }

  /** How often an update has not fitted while no snapshot was due. */
  function FirstMisfits(inputs: seq<Input>): nat {
    if inputs == [] then 0
    else
      var init := inputs[..|inputs| - 1];
      FirstMisfits(init) + if LastMisfits(inputs) && !Due(init) then 1 else 0
  }

  ghost predicate SyncInv(s: System) {
    && s.client.state.version == HeldVersion(s.received)
    && s.client.isPendingStateSync == Due(s.received)
    && Calls(s.client.log) == FirstMisfits(s.received)
  }

  lemma OneMore(inputs: seq<Input>, last: Input)
    ensures (inputs + [last])[..|inputs|] == inputs && (inputs + [last])[|inputs|] == last
  {
  }

  lemma SentCalls(c: Client, m: Message, st: PartyState)
    ensures Calls(Sends(c, m, st)) == if Rejects(c, m) && !c.isPendingStateSync then 1 else 0
  {
    assert Calls([GetPartyStateCall]) == 1 by { OneCall(); }
    var gone := DisconnectGameFinder(c.currentGameFinder);
    assert Calls([gone]) == 0;
    match m
    case Delta(_, u) => CallsAppend(if Switches(c, st) then [gone] else [], Event(c.state, u, st.members));
    case Snapshot(_, settings, _, _) =>
      SnapshotEvents([], st.(settings := settings));
      assert [] + [PartyReady] + [SettingsEvent(settings)] + [MembersEvent(st.members)]
          == [PartyReady, SettingsEvent(settings), MembersEvent(st.members)];
      CallsAppend(if Switches(c, st) then [gone] else [], [PartyReady, SettingsEvent(settings), MembersEvent(st.members)]);
  }

  lemma ReceivedVersionNumber(c: Client, m: Message)
    ensures Receive(c, m).state.version
      == match m
         case Delta(v, _) => if c.state.version > 0 && v == c.state.version + 1 then v else c.state.version
         case Snapshot(v, _, _, _) => v
  {
    hide MoveFlag, EventOf, SetUserData, SetStatuses, Erase;
  }

  lemma ArrivalKeepsSync(s: System, s': System, m: Message)
    requires SyncInv(s) && ClientReceives(s, s', m)
    ensures SyncInv(s')
  {
    hide Receive, Calls, Sends;
    ArrivalOutcome(s.client, m);
    ReceivedVersionNumber(s.client, m);
    SentCalls(s.client, m, s'.client.state);
    CallsAppend(s.client.log, Sends(s.client, m, s'.client.state));
    OneMore(s.received, Arrived(m));
  }

  lemma AskingKeepsSync(s: System, s': System)
    requires SyncInv(s) && StatusStep(s, s')
    ensures SyncInv(s')
  {
    hide Calls, Settled, AskStatus, SendReady;
    if status :| PlayerAsks(s, s', status) {
      StatusCallsAreNotCalls(s.client, s.me, status, StatusRequest(status, 0));
      OnlyTheLog(s.client, s.me, status, StatusRequest(status, 0));
    } else if w :| ReadyResumes(s, s', w) {
      StatusCallsAreNotCalls(s.client, s.me, Ready, w.request);
      OnlyTheLog(s.client, s.me, Ready, w.request);
    }
  }

  lemma TaskKeepsSync(s: System, s': System)
    requires SyncInv(s) && ClientTask(s, s')
    ensures SyncInv(s')
  {
    hide Calls;
    OneMore(s.received, RequestFailed);
    if task :| ConnectionEnds(s, s', task) {
      ConnectionIsNotCall(s.client, task);
    } else if s.client.queue != [] {
      CallsByTasks(s.client);
    }
  }

  lemma StepKeepsSync(s: System, s': System)
    requires |s.hist| > 0 && SyncInv(s) && Next(s, s')
    ensures SyncInv(s')
  {
    hide ClientReceives, ClientTask, StatusStep, Calls, HeldVersion, Due, FirstMisfits;
    if StatusStep(s, s') {
      AskingKeepsSync(s, s');
    } else if ClientTask(s, s') {
      TaskKeepsSync(s, s');
    } else if m :| ClientReceives(s, s', m) {
      ArrivalKeepsSync(s, s', m);
    }
  }

  /**
   In every reachable state a snapshot has been asked for and is still awaited exactly if
   an update that did not fit has arrived since the last snapshot or failure; and it has
   been asked for exactly once each time that came to be.
   */
  lemma {:induction false} SyncExactly(run: seq<System>, i: nat)
    requires Run(run) && i < |run|
    ensures SyncInv(run[i])
    decreases i
  {
    hide Next;
    if i > 0 {
      SyncExactly(run, i - 1);
      assert Next(run[i - 1], run[(i - 1) + 1]);
      StepKeepsSync(run[i - 1], run[i]);
    }
  }

  // ---------------------------------------------------------------------------
  // What becomes of a game finder connection

  /** The connection to the game finder followed: queued, under way, made, or failed. */
  predicate OnItsWay(s: System) {
    var c := s.client;
    || ConnectTask(c.currentGameFinder, c.token) in c.queue
    || ConnectTask(c.currentGameFinder, c.token) in s.connecting
    || c.token in s.made
    || c.token in s.failed
  }

  ghost predicate ConnectInv(s: System) {
    && QueueSound(s.client)
    && (forall task :: task in s.connecting ==> ConnectGameFinder(task.name) in s.client.log)
    && (forall t :: t in s.made ==> ConnectGameFinder(s.made[t]) in s.client.log)
    && (s.client.currentGameFinder != "" ==> OnItsWay(s))
  }

  lemma ArrivalKeepsConnect(s: System, s': System, m: Message)
    requires ConnectInv(s) && ClientReceives(s, s', m) && QueueSound(s'.client)
    ensures ConnectInv(s')
  {
    hide Receive, QueueSound, Sends, Rejects;
    ArrivalOutcome(s.client, m);
    var c, c' := s.client, s'.client;
    assert forall e :: e in c.log ==> e in c'.log;
    if c'.currentGameFinder != "" {
      if c'.token == c.token {
        SameTokenSameName(s, m);
      } else {
        assert c'.queue[|c'.queue| - 1] == ConnectTask(c'.currentGameFinder, c'.token);
      }
    }
  }

  lemma SameTokenSameName(s: System, m: Message)
    requires Receive(s.client, m).token == s.client.token
    ensures
      Receive(s.client, m).currentGameFinder == s.client.currentGameFinder
      && Receive(s.client, m).queue == s.client.queue
  {
    hide Receive, Sends;
    ArrivalOutcome(s.client, m);
  }

  lemma TaskKeepsConnect(s: System, s': System)
    requires ConnectInv(s) && ClientTask(s, s') && QueueSound(s'.client)
    ensures ConnectInv(s')
  {
    var c := s.client;
    if task :| ConnectionEnds(s, s', task) {
      EndKeepsConnect(s, s', task);
    } else if c.queue != [] {
      TaskConnectsExactly(c);
      assert c.queue == [c.queue[0]] + c.queue[1..];
    }
  }

  lemma EndKeepsConnect(s: System, s': System, task: ConnectTask)
    requires ConnectInv(s) && ConnectionEnds(s, s', task) && QueueSound(s'.client)
    ensures ConnectInv(s')
  {
    hide QueueSound;
  }

  lemma AskingKeepsConnect(s: System, s': System)
    requires ConnectInv(s) && StatusStep(s, s') && QueueSound(s'.client)
    ensures ConnectInv(s')
  {
    hide QueueSound, AskStatus, SendReady, Settled, HasOther, ConnectInv;
    if status :| PlayerAsks(s, s', status) {
      AskingExactly(s, s', status);
    } else if w :| ReadyResumes(s, s', w) {
      ResumingExactly(s, s', w);
    }
    LongerLogKeepsConnect(s, s');
  }

  lemma LongerLogKeepsConnect(s: System, s': System)
    requires ConnectInv(s) && s'.client == s.client.(log := s'.client.log) && s.client.log <= s'.client.log
    requires s'.connecting == s.connecting && s'.made == s.made && s'.failed == s.failed
    ensures ConnectInv(s')
  {
    LogIsNoQueue(s.client, s'.client.log);
    hide QueueSound;
    assert forall e :: e in s.client.log ==> e in s'.client.log;
  }

  lemma StepKeepsConnect(s: System, s': System)
    requires |s.hist| > 0 && ConnectInv(s) && QueueSound(s'.client) && Next(s, s')
    ensures ConnectInv(s')
  {
    hide ClientReceives, ClientTask, StatusStep, QueueSound;
    if StatusStep(s, s') {
      AskingKeepsConnect(s, s');
    } else if ClientTask(s, s') {
      TaskKeepsConnect(s, s');
    } else if m :| ClientReceives(s, s', m) {
      ArrivalKeepsConnect(s, s', m);
    }
  }

  /**
   In every reachable state, each connection under way and each one made has been issued;
   and the one to the game finder followed is queued, under way, made, or has failed.
   */
  lemma {:induction false} ConnectionsAreIssued(run: seq<System>, i: nat)
    requires Run(run) && i < |run|
    ensures ConnectInv(run[i])
    decreases i
  {
    hide Next;
    RunKeepsInv(run, i);
    if i > 0 {
      ConnectionsAreIssued(run, i - 1);
      assert Next(run[i - 1], run[(i - 1) + 1]);
      StepKeepsConnect(run[i - 1], run[i]);
    }
  }
}
