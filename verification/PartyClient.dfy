/**
 The client side of the party protocol as a value: what each handler does to the
 replica, to the queue of game finder connections, and to the outside world.
 */
module PartyClient {
  import opened PartyState

  datatype StatusRequest = StatusRequest(desiredStatus: Status, localSettingsVersion: int)

  /** What leaves the client: calls to the server, to the game finder, and events for the application. */
  datatype Effect =
    | GetPartyStateCall
    | UpdateStatusCall(request: StatusRequest)
    | DisconnectGameFinder(name: string)
    | ConnectGameFinder(name: string)
    | GameFinderConnected(name: string)
    | PartyReady
    | SettingsEvent(settings: Settings)
    | MembersEvent(members: seq<Member>)

  /** How a call that changes the player's status ends, or that it has to wait. */
  datatype StatusOutcome =
    | Unchanged
    | PartyNotReady
    | Sent
    | AwaitsGameFinder(request: StatusRequest)
    | SettingsOutdated

  /** A queued continuation that will connect to a game finder unless its token is cancelled. */
  datatype ConnectTask = ConnectTask(name: string, token: nat)

  /** Cancelling the source and replacing it moves to the next token; all earlier ones are cancelled. */
  datatype Client = Client(
    state: PartyState,
    isPendingStateSync: bool,
    currentGameFinder: string,
    token: nat,
    queue: seq<ConnectTask>,
    log: seq<Effect>)

  const NewClient := Client(NoParty, false, "", 0, [], [])

  function Emit(c: Client, e: Effect): Client {
    c.(log := c.log + [e])
  }

  function UpdateGameFinder(c: Client): Client {
    var name := c.state.settings.gameFinderName;
    if c.currentGameFinder == name then c
    else
      var c1 := Emit(c.(token := c.token + 1, currentGameFinder := name), DisconnectGameFinder(c.currentGameFinder));
      if name == "" then c1 else c1.(queue := c1.queue + [ConnectTask(name, c1.token)])
  }

  function SyncPartyState(c: Client): Client {
    if c.isPendingStateSync then c else Emit(c.(isPendingStateSync := true), GetPartyStateCall)
  }

  /** The RPC that asks for a snapshot failed or was cancelled. */
  function SyncFailed(c: Client): Client {
    c.(isPendingStateSync := false)
  }

  function Accepts(c: Client, version: int): bool {
    c.state.version > 0 && version == c.state.version + 1
  }

  /** handlePartyStateResponse, on the decoded snapshot. */
  function HandleSnapshot(c: Client, snapshot: PartyState): Client {
    var st := snapshot.(members := MoveFlag(snapshot.members, snapshot.leaderId));
    var c1 := UpdateGameFinder(c.(state := st));
    Emit(Emit(Emit(c1.(isPendingStateSync := false), PartyReady), SettingsEvent(st.settings)), MembersEvent(st.members))
  }

  /** Which event, if any, an accepted update raises. */
  function EventOf(before: PartyState, u: Update, after: PartyState): seq<Effect> {
    match u
    case SettingsUpdated(_) => [SettingsEvent(after.settings)]
    case UserDataUpdated(id, _) => if Find(before.members, id) < |before.members| then [MembersEvent(after.members)] else []
    case StatusesUpdated(_) => [MembersEvent(after.members)]
    case MemberConnected(_) => [MembersEvent(after.members)]
    case MemberDisconnected(id) => if Find(before.members, id) < |before.members| then [MembersEvent(after.members)] else []
    case LeaderChanged(id) => if before.leaderId != id then [MembersEvent(after.members)] else []
  }

  /** The handlers of the versioned updates. */
  function HandleUpdate(c: Client, version: int, u: Update): Client {
    if !Accepts(c, version) then SyncPartyState(c)
    else
      var st := ApplyUpdate(c.state.(version := version), u);
      var c1 := UpdateGameFinder(c.(state := st));
      c1.(log := c1.log + EventOf(c.state, u, st))
  }

  /** Only new settings can change the game finder. */
  lemma OtherUpdatesKeepGameFinder(c: Client, version: int, u: Update)
    requires c.currentGameFinder == c.state.settings.gameFinderName
    requires !u.SettingsUpdated?
    ensures
      var st := ApplyUpdate(c.state.(version := version), u);
      HandleUpdate(c, version, u)
        == if Accepts(c, version) then c.(state := st, log := c.log + EventOf(c.state, u, st)) else SyncPartyState(c)
  {
  }

  /** The first queued continuation starts: it connects, unless its token is cancelled. */
  function RunConnectTask(c: Client): Client
    requires c.queue != []
  {
    var task := c.queue[0];
    var c1 := c.(queue := c.queue[1..]);
    if task.token < c.token then c1 else Emit(c1, ConnectGameFinder(task.name))
  }

  /** A connection has been made; the continuation that notes it has been cancelled with the task. */
  function ConnectionMade(c: Client, task: ConnectTask): Client {
    if task.token < c.token then c else Emit(c, GameFinderConnected(task.name))
  }

  /** The first queued continuation never starts: its token was cancelled first, or an earlier connection failed. */
  function DropConnectTask(c: Client): Client
    requires c.queue != []
  {
    c.(queue := c.queue[1..])
  }

  /** Some entry of the user `me` has another status. */
  predicate StatusDiffers(ms: seq<Member>, me: UserId, status: Status) {
    exists i :: 0 <= i < |ms| && ms[i].userId == me && ms[i].status != status
  }

  /** updatePlayerStatus: going ready waits for the game finder; going not ready does not. */
  function AskStatus(c: Client, me: UserId, status: Status): (Client, StatusOutcome) {
    if !StatusDiffers(c.state.members, me, status) then (c, Unchanged)
    else if c.state.settings.gameFinderName == "" then (c, PartyNotReady)
    else
      var request := StatusRequest(status, c.state.settings.settingsVersionNumber);
      if status == NotReady then (Emit(c, UpdateStatusCall(request)), Sent) else (c, AwaitsGameFinder(request))
  }

  /** The continuation of a ready request: it looks at the number of the settings once more. */
  function SendReady(c: Client, request: StatusRequest): (Client, StatusOutcome) {
    if request.localSettingsVersion != c.state.settings.settingsVersionNumber then (c, SettingsOutdated)
    else (Emit(c, UpdateStatusCall(request)), Sent)
  }

  function Calls(log: seq<Effect>): nat {
    if log == [] then 0 else Calls(log[..|log| - 1]) + if log[|log| - 1].GetPartyStateCall? then 1 else 0
  }

  // ---------------------------------------------------------------------------
  // What every handler keeps

  /** At most one queued connection is live, and it is the one to the current game finder. */
  predicate QueueSound(c: Client) {
    && c.currentGameFinder == c.state.settings.gameFinderName
    && (forall i :: 0 <= i < |c.queue| ==> c.queue[i].token <= c.token)
    && (forall i, j :: 0 <= i < j < |c.queue| ==> c.queue[i].token < c.queue[j].token)
    && (forall i :: 0 <= i < |c.queue| && c.queue[i].token == c.token ==> c.queue[i].name == c.currentGameFinder)
  }

  lemma UpdateGameFinderKeepsQueue(c: Client, st: PartyState)
    requires QueueSound(c)
    ensures
      var c' := UpdateGameFinder(c.(state := st));
      QueueSound(c') && c'.state == st && c'.isPendingStateSync == c.isPendingStateSync
  {
  }

  lemma SnapshotKeepsQueue(c: Client, snapshot: PartyState)
    requires QueueSound(c)
    ensures QueueSound(HandleSnapshot(c, snapshot))
  {
    hide MoveFlag, UpdateGameFinder;
    UpdateGameFinderKeepsQueue(c, snapshot.(members := MoveFlag(snapshot.members, snapshot.leaderId)));
  }

  lemma UpdateKeepsQueue(c: Client, version: int, u: Update)
    requires QueueSound(c)
    ensures QueueSound(HandleUpdate(c, version, u))
  {
    hide ApplyUpdate, UpdateGameFinder, EventOf;
    UpdateGameFinderKeepsQueue(c, ApplyUpdate(c.state.(version := version), u));
  }

  lemma TasksKeepQueue(c: Client)
    requires QueueSound(c) && c.queue != []
    ensures QueueSound(RunConnectTask(c)) && QueueSound(DropConnectTask(c))
  {
  }

  /** A connection, when it is issued, is to the game finder the party's settings name. */
  lemma ConnectsToCurrentOnly(c: Client)
    requires QueueSound(c) && c.queue != []
    ensures RunConnectTask(c).log == c.log
         || RunConnectTask(c).log == c.log + [ConnectGameFinder(c.state.settings.gameFinderName)]
  {
  }

  lemma {:induction false} CallsAppend(log: seq<Effect>, more: seq<Effect>)
    ensures Calls(log + more) == Calls(log) + Calls(more)
    decreases |more|
  {
    if more == [] {
      assert log + more == log;
    } else {
      assert (log + more)[..|log + more| - 1] == log + more[..|more| - 1];
      CallsAppend(log, more[..|more| - 1]);
    }
  }

  function SyncWeight(c: Client): nat {
    if c.isPendingStateSync then 1 else 0
  }

  lemma UpdateGameFinderCalls(c: Client)
    ensures Calls(UpdateGameFinder(c).log) == Calls(c.log)
    ensures UpdateGameFinder(c).isPendingStateSync == c.isPendingStateSync
  {
    CallsAppend(c.log, [DisconnectGameFinder(c.currentGameFinder)]);
  }

  /** A snapshot asks for nothing and ends the wait for an answer. */
  lemma CallsBySnapshot(c: Client, snapshot: PartyState)
    ensures Calls(HandleSnapshot(c, snapshot).log) == Calls(c.log) && SyncWeight(HandleSnapshot(c, snapshot)) == 0
  {
    hide MoveFlag, UpdateGameFinder, Calls;
    var st := snapshot.(members := MoveFlag(snapshot.members, snapshot.leaderId));
    UpdateGameFinderCalls(c.(state := st));
    SnapshotEvents(UpdateGameFinder(c.(state := st)).log, st);
  }

  /** Only a rejected update asks for a snapshot, and not while an answer is due. */
  lemma CallsByUpdate(c: Client, version: int, u: Update)
    ensures
      var c' := HandleUpdate(c, version, u);
      Calls(c'.log) - SyncWeight(c') == Calls(c.log) - SyncWeight(c)
      && (Accepts(c, version) ==> Calls(c'.log) == Calls(c.log))
  {
    hide ApplyUpdate, UpdateGameFinder, EventOf, Calls;
    if Accepts(c, version) {
      var after := ApplyUpdate(c.state.(version := version), u);
      var c1 := UpdateGameFinder(c.(state := after));
      UpdateGameFinderCalls(c.(state := after));
      EventsAreNotCalls(c.state, u, after);
      CallsAppend(c1.log, EventOf(c.state, u, after));
    } else {
      OneCall();
      CallsAppend(c.log, [GetPartyStateCall]);
    }
  }

  lemma OneCall()
    ensures Calls([GetPartyStateCall]) == 1
  {
  }

  lemma CallsByTasks(c: Client)
    requires c.queue != []
    ensures Calls(RunConnectTask(c).log) == Calls(c.log) && Calls(DropConnectTask(c).log) == Calls(c.log)
  {
    CallsAppend(c.log, [ConnectGameFinder(c.queue[0].name)]);
  }

  lemma StatusCallsAreNotCalls(c: Client, me: UserId, status: Status, request: StatusRequest)
    ensures Calls(AskStatus(c, me, status).0.log) == Calls(c.log) && Calls(SendReady(c, request).0.log) == Calls(c.log)
  {
    CallsAppend(c.log, [UpdateStatusCall(StatusRequest(status, c.state.settings.settingsVersionNumber))]);
    CallsAppend(c.log, [UpdateStatusCall(request)]);
  }

  lemma ConnectionIsNotCall(c: Client, task: ConnectTask)
    ensures Calls(ConnectionMade(c, task).log) == Calls(c.log)
  {
    CallsAppend(c.log, [GameFinderConnected(task.name)]);
  }

  lemma SnapshotEvents(log: seq<Effect>, st: PartyState)
    ensures Calls(log + [PartyReady] + [SettingsEvent(st.settings)] + [MembersEvent(st.members)]) == Calls(log)
  {
    CallsAppend(log, [PartyReady]);
    CallsAppend(log + [PartyReady], [SettingsEvent(st.settings)]);
    CallsAppend(log + [PartyReady] + [SettingsEvent(st.settings)], [MembersEvent(st.members)]);
  }

  lemma EventsAreNotCalls(before: PartyState, u: Update, after: PartyState)
    ensures Calls(EventOf(before, u, after)) == 0
  {
  }
}
