/**
 PartyService: the object whose handlers run one at a time under the state mutex,
 each proved to take the client from one value to the next.
 */
module PartyService {
  import opened PartyState
  import opened PartyClient

  class PartyService {
    var state: PartyState
    var isPendingStateSync: bool
    var currentGameFinder: string
    var token: nat
    var queue: seq<ConnectTask>
    var log: seq<Effect>
    const myUserId: UserId

    ghost function Model(): Client
      reads this
    {
      Client(state, isPendingStateSync, currentGameFinder, token, queue, log)
    }

    /** Between handlers the game finder followed is the one the settings name. */
    ghost predicate Valid()
      reads this
    {
      QueueSound(Model())
    }

    constructor (myUserId: UserId)
      ensures Valid() && Model() == NewClient && this.myUserId == myUserId
    {
      this.myUserId := myUserId;
      state, isPendingStateSync, currentGameFinder := NoParty, false, "";
      token, queue, log := 0, [], [];
    }

    method FindUser(id: UserId) returns (i: nat)
      ensures i == Find(state.members, id)
    {
      i := 0;
      while i < |state.members| && state.members[i].userId != id
        invariant i <= |state.members|
        invariant forall k :: 0 <= k < i ==> state.members[k].userId != id
      {
        i := i + 1;
      }
    }

    method FindFlagged() returns (i: nat)
      ensures i == FindLeader(state.members)
    {
      i := 0;
      while i < |state.members| && !state.members[i].isLeader
        invariant i <= |state.members|
        invariant forall k :: 0 <= k < i ==> !state.members[k].isLeader
      {
        i := i + 1;
      }
    }

    method UpdateGameFinder()
      modifies this
      ensures Model() == PartyClient.UpdateGameFinder(old(Model()))
    {
      if currentGameFinder == state.settings.gameFinderName {
        return;
      }
      token := token + 1;
      log := log + [DisconnectGameFinder(currentGameFinder)];
      currentGameFinder := state.settings.gameFinderName;
      if currentGameFinder == "" {
        return;
      }
      queue := queue + [ConnectTask(currentGameFinder, token)];
    }

    method SyncPartyState()
      modifies this
      ensures Model() == PartyClient.SyncPartyState(old(Model()))
      ensures isPendingStateSync && log == old(log) + if old(isPendingStateSync) then [] else [GetPartyStateCall]
    {
      assert log + [] == log;
      if isPendingStateSync {
        return;
      }
      isPendingStateSync := true;
      log := log + [GetPartyStateCall];
    }

    method SyncFailed()
      modifies this
      ensures Model() == PartyClient.SyncFailed(old(Model()))
    {
      isPendingStateSync := false;
    }

    method CheckVersionNumber(version: int) returns (accepted: bool)
      modifies this
      ensures accepted <==> old(state).version > 0 && version == old(state).version + 1
      ensures accepted ==> Model() == old(Model()).(state := old(state).(version := version))
      ensures !accepted ==> Model() == PartyClient.SyncPartyState(old(Model())) && isPendingStateSync
    {
      if state.version > 0 && version == state.version + 1 {
        state := state.(version := version);
        return true;
      } else {
        SyncPartyState();
        return false;
      }
    }

    method UpdateLeader()
      modifies this`state
      ensures state == old(state).(members := MoveFlag(old(state).members, old(state).leaderId))
    {
      var current := FindFlagged();
      if current < |state.members| {
        state := state.(members := state.members[current := state.members[current].(isLeader := false)]);
      }
      var leader := FindUser(state.leaderId);
      if leader < |state.members| {
        state := state.(members := state.members[leader := state.members[leader].(isLeader := true)]);
      }
    }

    method HandlePartyStateResponse(snapshot: PartyState)
      requires Valid()
      modifies this
      ensures Valid() && Model() == HandleSnapshot(old(Model()), snapshot)
    {
      SnapshotKeepsQueue(Model(), snapshot);
      state := snapshot;
      UpdateLeader();
      UpdateGameFinder();
      log := log + [PartyReady];
      isPendingStateSync := false;
      log := log + [SettingsEvent(state.settings)];
      log := log + [MembersEvent(state.members)];
    }

    method HandleSettingsUpdate(version: int, settings: Settings)
      requires Valid()
      modifies this
      ensures Valid() && Model() == HandleUpdate(old(Model()), version, SettingsUpdated(settings))
    {
      UpdateKeepsQueue(Model(), version, SettingsUpdated(settings));
      var accepted := CheckVersionNumber(version);
      if accepted {
        state := state.(settings := settings);
        UpdateGameFinder();
        log := log + [SettingsEvent(state.settings)];
      }
    }

    // The remaining handlers leave the game finder alone, as the name it serves has not changed.

    method HandleUserDataUpdate(version: int, userId: UserId, userData: string)
      requires Valid()
      modifies this
      ensures Valid() && Model() == HandleUpdate(old(Model()), version, UserDataUpdated(userId, userData))
    {
      UpdateKeepsQueue(Model(), version, UserDataUpdated(userId, userData));
      OtherUpdatesKeepGameFinder(Model(), version, UserDataUpdated(userId, userData));
      hide QueueSound, HandleUpdate;
      var accepted := CheckVersionNumber(version);
      if accepted {
        var i := FindUser(userId);
        if i < |state.members| {
          state := state.(members := state.members[i := state.members[i].(userData := userData)]);
          log := log + [MembersEvent(state.members)];
        } else {
          assert log + [] == log;
        }
      }
    }

    method ApplyStatus(update: StatusUpdate)
      modifies this`state
      ensures state == old(state).(members := SetStatus(old(state).members, update.userId, update.status))
    {
      var i := FindUser(update.userId);
      if i < |state.members| {
        state := state.(members := state.members[i := state.members[i].(status := update.status)]);
      }
    }

    /** The loop over a batch. */
    method ApplyStatuses(batch: seq<StatusUpdate>)
      modifies this`state
      ensures state == old(state).(members := SetStatuses(old(state).members, batch))
    {
      hide SetStatus;
      var k := 0;
      while k < |batch|
        invariant 0 <= k <= |batch|
        invariant SetStatuses(state.members, batch[k..]) == SetStatuses(old(state).members, batch)
        invariant state == old(state).(members := state.members)
      {
        assert batch[k..][0] == batch[k] && batch[k..][1..] == batch[k + 1..];
        ApplyStatus(batch[k]);
        k := k + 1;
      }
    }

    method HandleMemberStatusUpdate(version: int, batch: seq<StatusUpdate>)
      requires Valid()
      modifies this
      ensures Valid() && Model() == HandleUpdate(old(Model()), version, StatusesUpdated(batch))
    {
      UpdateKeepsQueue(Model(), version, StatusesUpdated(batch));
      OtherUpdatesKeepGameFinder(Model(), version, StatusesUpdated(batch));
      hide QueueSound, HandleUpdate, SetStatuses;
      var accepted := CheckVersionNumber(version);
      if accepted {
        ApplyStatuses(batch);
        log := log + [MembersEvent(state.members)];
      }
    }

    method HandleMemberConnected(version: int, user: UserDto)
      requires Valid()
      modifies this
      ensures Valid() && Model() == HandleUpdate(old(Model()), version, MemberConnected(user))
    {
      UpdateKeepsQueue(Model(), version, MemberConnected(user));
      OtherUpdatesKeepGameFinder(Model(), version, MemberConnected(user));
      hide QueueSound, HandleUpdate;
      var accepted := CheckVersionNumber(version);
      if accepted {
        state := state.(members := state.members + [Decode(user)]);
        log := log + [MembersEvent(state.members)];
      }
    }

    method HandleMemberDisconnected(version: int, userId: UserId)
      requires Valid()
      modifies this
      ensures Valid() && Model() == HandleUpdate(old(Model()), version, MemberDisconnected(userId))
    {
      UpdateKeepsQueue(Model(), version, MemberDisconnected(userId));
      OtherUpdatesKeepGameFinder(Model(), version, MemberDisconnected(userId));
      hide QueueSound, HandleUpdate;
      var accepted := CheckVersionNumber(version);
      if accepted {
        var i := FindUser(userId);
        if i < |state.members| {
          state := state.(members := state.members[..i] + state.members[i + 1..]);
          log := log + [MembersEvent(state.members)];
        } else {
          assert log + [] == log;
        }
      }
    }

    method HandleLeaderChanged(version: int, leaderId: UserId)
      requires Valid()
      modifies this
      ensures Valid() && Model() == HandleUpdate(old(Model()), version, LeaderChanged(leaderId))
    {
      UpdateKeepsQueue(Model(), version, LeaderChanged(leaderId));
      OtherUpdatesKeepGameFinder(Model(), version, LeaderChanged(leaderId));
      hide QueueSound, HandleUpdate;
      var accepted := CheckVersionNumber(version);
      if accepted {
        if state.leaderId != leaderId {
          state := state.(leaderId := leaderId);
          UpdateLeader();
          log := log + [MembersEvent(state.members)];
        } else {
          assert log + [] == log;
        }
      }
    }

    /** The connect continuation at the head of the chain. */
    method RunConnectTask()
      requires Valid() && queue != []
      modifies this
      ensures Valid() && Model() == PartyClient.RunConnectTask(old(Model()))
      ensures log == old(log) + if old(queue)[0].token == token then [ConnectGameFinder(old(queue)[0].name)] else []
    {
      TasksKeepQueue(Model());
      assert log + [] == log;
      var task := queue[0];
      queue := queue[1..];
      if task.token < token {
        return;
      }
      log := log + [ConnectGameFinder(task.name)];
    }

    /** The continuation behind a connection that was made. */
    method GameFinderConnected(task: ConnectTask)
      modifies this`log
      ensures Model() == ConnectionMade(old(Model()), task)
    {
      if task.token < token {
        return;
      }
      log := log + [PartyClient.GameFinderConnected(task.name)];
    }

    /** Going ready waits for the game finder; going not ready does not. */
    method UpdatePlayerStatus(newStatus: Status) returns (o: StatusOutcome)
      modifies this`log
      ensures (Model(), o) == AskStatus(old(Model()), myUserId, newStatus)
    {
      var i := 0;
      while i < |state.members| && !(state.members[i].userId == myUserId && state.members[i].status != newStatus)
        invariant i <= |state.members|
        invariant forall k :: 0 <= k < i ==> !(state.members[k].userId == myUserId && state.members[k].status != newStatus)
      {
        i := i + 1;
      }
      if i == |state.members| {
        return Unchanged;
      }
      if state.settings.gameFinderName == "" {
        return PartyNotReady;
      }
      var request := StatusRequest(newStatus, state.settings.settingsVersionNumber);
      if newStatus == NotReady {
        log := log + [UpdateStatusCall(request)];
        return Sent;
      }
      return AwaitsGameFinder(request);
    }

    /** Once the connection has been dealt with, a ready request goes out if the settings' number is still the same. */
    method SendReady(request: StatusRequest) returns (o: StatusOutcome)
      modifies this`log
      ensures (Model(), o) == PartyClient.SendReady(old(Model()), request)
    {
      if request.localSettingsVersion != state.settings.settingsVersionNumber {
        return SettingsOutdated;
      }
      log := log + [UpdateStatusCall(request)];
      return Sent;
    }
  }
}
