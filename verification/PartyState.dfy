/**
 The replicated party: the client's copy with its member vector, the abstract party
 the server holds, and the proof that the vector handlers compute the map operations.
 */
module PartyState {

  type UserId = string

  datatype Status = NotReady | Ready

  /** A member as the server sends it; the leader flag is not part of the message. */
  datatype UserDto = UserDto(userId: UserId, status: Status, userData: string)

  datatype Member = Member(userId: UserId, status: Status, userData: string, isLeader: bool)

  datatype Settings = Settings(gameFinderName: string, customData: string, settingsVersionNumber: int)

  datatype PartyState = PartyState(settings: Settings, leaderId: UserId, members: seq<Member>, version: int)

  datatype StatusUpdate = StatusUpdate(userId: UserId, status: Status)

  /** The versioned updates the server pushes. */
  datatype Update =
    | SettingsUpdated(settings: Settings)
    | UserDataUpdated(userId: UserId, userData: string)
    | StatusesUpdated(batch: seq<StatusUpdate>)
    | MemberConnected(user: UserDto)
    | MemberDisconnected(userId: UserId)
    | LeaderChanged(leaderId: UserId)

  const NoParty := PartyState(Settings("", "", 0), "", [], 0)

  function Decode(u: UserDto): Member {
    Member(u.userId, u.status, u.userData, false)
  }

  function DecodeAll(us: seq<UserDto>): (ms: seq<Member>)
    ensures |ms| == |us| && forall i :: 0 <= i < |us| ==> ms[i] == Decode(us[i])
  {
    seq(|us|, i requires 0 <= i < |us| => Decode(us[i]))
  }

  // ---------------------------------------------------------------------------
  // The member vector

  /** find_if: the first member with this id, or the end. */
  function Find(ms: seq<Member>, id: UserId): (i: nat)
    ensures i <= |ms| && (i < |ms| ==> ms[i].userId == id)
    ensures forall k :: 0 <= k < i ==> ms[k].userId != id
  {
    if ms == [] || ms[0].userId == id then 0 else 1 + Find(ms[1..], id)
  }

  function FindLeader(ms: seq<Member>): (i: nat)
    ensures i <= |ms| && (i < |ms| ==> ms[i].isLeader)
    ensures forall k :: 0 <= k < i ==> !ms[k].isLeader
  {
    if ms == [] || ms[0].isLeader then 0 else 1 + FindLeader(ms[1..])
  }

  function SetUserData(ms: seq<Member>, id: UserId, userData: string): seq<Member> {
    var i := Find(ms, id);
    if i < |ms| then ms[i := ms[i].(userData := userData)] else ms
  }

  function SetStatus(ms: seq<Member>, id: UserId, status: Status): seq<Member> {
    var i := Find(ms, id);
    if i < |ms| then ms[i := ms[i].(status := status)] else ms
  }

  function SetStatuses(ms: seq<Member>, batch: seq<StatusUpdate>): seq<Member>
    decreases |batch|
  {
    if batch == [] then ms else SetStatuses(SetStatus(ms, batch[0].userId, batch[0].status), batch[1..])
  }

  function Erase(ms: seq<Member>, id: UserId): seq<Member> {
    var i := Find(ms, id);
    if i < |ms| then ms[..i] + ms[i + 1..] else ms
  }

  /** updateLeader: takes the flag off its first holder and gives it to the first member with the leader's id. */
  function MoveFlag(ms: seq<Member>, leaderId: UserId): seq<Member> {
    var i := FindLeader(ms);
    var cleared := if i < |ms| then ms[i := ms[i].(isLeader := false)] else ms;
    var j := Find(cleared, leaderId);
    if j < |cleared| then cleared[j := cleared[j].(isLeader := true)] else cleared
  }

  /** The state after an accepted update. */
  function ApplyUpdate(st: PartyState, u: Update): PartyState {
    match u
    case SettingsUpdated(settings) => st.(settings := settings)
    case UserDataUpdated(id, userData) => st.(members := SetUserData(st.members, id, userData))
    case StatusesUpdated(batch) => st.(members := SetStatuses(st.members, batch))
    case MemberConnected(user) => st.(members := st.members + [Decode(user)])
    case MemberDisconnected(id) => st.(members := Erase(st.members, id))
    case LeaderChanged(leaderId) =>
      if st.leaderId == leaderId then st
      else st.(leaderId := leaderId, members := MoveFlag(st.members, leaderId))
  }

  // ---------------------------------------------------------------------------
  // The party as the server sees it

  datatype Info = Info(status: Status, userData: string)

  datatype Party = Party(settings: Settings, leaderId: UserId, members: map<UserId, Info>)

  function WithStatuses(members: map<UserId, Info>, batch: seq<StatusUpdate>): map<UserId, Info>
    decreases |batch|
  {
    if batch == [] then members
    else
      var id := batch[0].userId;
      WithStatuses(if id in members then members[id := members[id].(status := batch[0].status)] else members, batch[1..])
  }

  function ApplyToParty(p: Party, u: Update): Party {
    match u
    case SettingsUpdated(settings) => p.(settings := settings)
    case UserDataUpdated(id, userData) =>
      if id in p.members then p.(members := p.members[id := p.members[id].(userData := userData)]) else p
    case StatusesUpdated(batch) => p.(members := WithStatuses(p.members, batch))
    case MemberConnected(user) => p.(members := p.members[user.userId := Info(user.status, user.userData)])
    case MemberDisconnected(id) => p.(members := p.members - {id})
    case LeaderChanged(leaderId) => p.(leaderId := leaderId)
  }

  /** The server announces a connection only for a user who is not in the party. */
  predicate Sendable(p: Party, u: Update) {
    u.MemberConnected? ==> u.user.userId !in p.members
  }

  function InfoOf(m: Member): Info {
    Info(m.status, m.userData)
  }

  /** The vector as a map; of two members with one id, the first counts, as it does for find_if. */
  function MemberMap(ms: seq<Member>): map<UserId, Info> {
    if ms == [] then map[] else MemberMap(ms[1..])[ms[0].userId := InfoOf(ms[0])]
  }

  function Abs(st: PartyState): Party {
    Party(st.settings, st.leaderId, MemberMap(st.members))
  }

  predicate UniqueIds(ms: seq<Member>) {
    forall i, j :: 0 <= i < j < |ms| ==> ms[i].userId != ms[j].userId
  }

  // ---------------------------------------------------------------------------
  // The vector handlers refine the map operations

  lemma {:induction false} MapLookup(ms: seq<Member>, id: UserId)
    ensures id in MemberMap(ms) <==> Find(ms, id) < |ms|
    ensures id in MemberMap(ms) ==> MemberMap(ms)[id] == InfoOf(ms[Find(ms, id)])
  {
    if ms != [] && ms[0].userId != id {
      MapLookup(ms[1..], id);
    }
  }

  lemma {:induction false} MapOfReplaced(ms: seq<Member>, i: nat, m: Member)
    requires i < |ms| && i == Find(ms, ms[i].userId) && m.userId == ms[i].userId
    ensures MemberMap(ms[i := m]) == MemberMap(ms)[m.userId := InfoOf(m)]
  {
    if i > 0 {
      assert ms[i := m][1..] == ms[1..][i - 1 := m];
      MapOfReplaced(ms[1..], i - 1, m);
    } else {
      assert ms[i := m][1..] == ms[1..];
    }
  }

  /** Flags are not part of the abstract party. */
  lemma {:induction false} MapOfFlagged(ms: seq<Member>, i: nat, isLeader: bool)
    requires i < |ms|
    ensures MemberMap(ms[i := ms[i].(isLeader := isLeader)]) == MemberMap(ms)
  {
    var changed := ms[i := ms[i].(isLeader := isLeader)];
    if i > 0 {
      assert changed[1..] == ms[1..][i - 1 := ms[1..][i - 1].(isLeader := isLeader)];
      MapOfFlagged(ms[1..], i - 1, isLeader);
    } else {
      assert changed[1..] == ms[1..];
    }
  }

  lemma {:induction false} MapOfErased(ms: seq<Member>, id: UserId)
    requires UniqueIds(ms)
    ensures MemberMap(Erase(ms, id)) == MemberMap(ms) - {id}
  {
    hide Erase, UniqueIds;
    if ms == [] {
      EraseFirst(ms, id);
    } else {
      UniqueTail(ms);
      if ms[0].userId == id {
        EraseFirst(ms, id);
        assert MemberMap(ms) - {id} == MemberMap(ms[1..]);
      } else {
        EraseLater(ms, id);
        MapOfErased(ms[1..], id);
        var rest := MemberMap(ms[1..]);
        assert (rest - {id})[ms[0].userId := InfoOf(ms[0])] == rest[ms[0].userId := InfoOf(ms[0])] - {id};
      }
    }
  }

  lemma UniqueTail(ms: seq<Member>)
    requires ms != [] && UniqueIds(ms)
    ensures UniqueIds(ms[1..]) && ms[0].userId !in MemberMap(ms[1..])
  {
    MapLookup(ms[1..], ms[0].userId);
  }

  lemma EraseFirst(ms: seq<Member>, id: UserId)
    ensures ms == [] ==> Erase(ms, id) == []
    ensures ms != [] && ms[0].userId == id ==> Erase(ms, id) == ms[1..]
  {
  }

  lemma EraseLater(ms: seq<Member>, id: UserId)
    requires ms != [] && ms[0].userId != id
    ensures Erase(ms, id) == [ms[0]] + Erase(ms[1..], id)
    ensures ([ms[0]] + Erase(ms[1..], id))[1..] == Erase(ms[1..], id)
  {
  }

  lemma {:induction false} MapOfPushed(ms: seq<Member>, m: Member)
    requires m.userId !in MemberMap(ms)
    ensures MemberMap(ms + [m]) == MemberMap(ms)[m.userId := InfoOf(m)]
  {
    if ms == [] {
      assert ms + [m] == [m];
    } else {
      assert (ms + [m])[1..] == ms[1..] + [m];
      MapOfPushed(ms[1..], m);
    }
  }

  lemma SetStatusRefines(ms: seq<Member>, id: UserId, status: Status)
    ensures MemberMap(SetStatus(ms, id, status))
         == if id in MemberMap(ms) then MemberMap(ms)[id := MemberMap(ms)[id].(status := status)] else MemberMap(ms)
    ensures UniqueIds(ms) ==> UniqueIds(SetStatus(ms, id, status))
  {
    MapLookup(ms, id);
    var i := Find(ms, id);
    if i < |ms| {
      MapOfReplaced(ms, i, ms[i].(status := status));
    }
  }

  lemma {:induction false} SetStatusesRefines(ms: seq<Member>, batch: seq<StatusUpdate>)
    ensures MemberMap(SetStatuses(ms, batch)) == WithStatuses(MemberMap(ms), batch)
    ensures UniqueIds(ms) ==> UniqueIds(SetStatuses(ms, batch))
    decreases |batch|
  {
    if batch != [] {
      SetStatusRefines(ms, batch[0].userId, batch[0].status);
      SetStatusesRefines(SetStatus(ms, batch[0].userId, batch[0].status), batch[1..]);
    }
  }

  lemma FlagRefines(ms: seq<Member>, i: nat, isLeader: bool)
    requires i < |ms|
    ensures MemberMap(ms[i := ms[i].(isLeader := isLeader)]) == MemberMap(ms)
    ensures UniqueIds(ms) ==> UniqueIds(ms[i := ms[i].(isLeader := isLeader)])
  {
    MapOfFlagged(ms, i, isLeader);
  }

  lemma MoveFlagRefines(ms: seq<Member>, leaderId: UserId)
    ensures MemberMap(MoveFlag(ms, leaderId)) == MemberMap(ms)
    ensures UniqueIds(ms) ==> UniqueIds(MoveFlag(ms, leaderId))
  {
    hide MemberMap, UniqueIds;
    var i := FindLeader(ms);
    var cleared := if i < |ms| then ms[i := ms[i].(isLeader := false)] else ms;
    if i < |ms| { FlagRefines(ms, i, false); }
    var j := Find(cleared, leaderId);
    if j < |cleared| { FlagRefines(cleared, j, true); }
  }

  lemma SetUserDataRefines(ms: seq<Member>, id: UserId, userData: string)
    ensures MemberMap(SetUserData(ms, id, userData))
         == if id in MemberMap(ms) then MemberMap(ms)[id := MemberMap(ms)[id].(userData := userData)] else MemberMap(ms)
    ensures UniqueIds(ms) ==> UniqueIds(SetUserData(ms, id, userData))
  {
    MapLookup(ms, id);
    var i := Find(ms, id);
    if i < |ms| {
      MapOfReplaced(ms, i, ms[i].(userData := userData));
    }
  }

  lemma PushRefines(ms: seq<Member>, m: Member)
    requires m.userId !in MemberMap(ms)
    ensures MemberMap(ms + [m]) == MemberMap(ms)[m.userId := InfoOf(m)]
    ensures UniqueIds(ms) ==> UniqueIds(ms + [m])
  {
    MapLookup(ms, m.userId);
    MapOfPushed(ms, m);
  }

  lemma EraseKeepsUnique(ms: seq<Member>, id: UserId)
    requires UniqueIds(ms)
    ensures UniqueIds(Erase(ms, id))
  {
  }

  /** Every accepted update does to the vector what the server did to the party. */
  lemma ApplyUpdateRefines(st: PartyState, u: Update)
    requires UniqueIds(st.members) && Sendable(Abs(st), u)
    ensures Abs(ApplyUpdate(st, u)) == ApplyToParty(Abs(st), u)
    ensures UniqueIds(ApplyUpdate(st, u).members)
  {
    hide MemberMap, UniqueIds, SetUserData, SetStatuses, Erase, MoveFlag, WithStatuses;
    var ms := st.members;
    match u
    case SettingsUpdated(_) =>
    case UserDataUpdated(id, userData) => SetUserDataRefines(ms, id, userData);
    case StatusesUpdated(batch) => SetStatusesRefines(ms, batch);
    case MemberConnected(user) => PushRefines(ms, Decode(user));
    case MemberDisconnected(id) =>
      MapOfErased(ms, id);
      EraseKeepsUnique(ms, id);
    case LeaderChanged(leaderId) => MoveFlagRefines(ms, leaderId);
  }

  // ---------------------------------------------------------------------------
  // The leader flag

  /** At most one member is flagged, and it is the leader. */
  predicate FlagSound(st: PartyState) {
    && (forall i, j :: 0 <= i < j < |st.members| ==> !(st.members[i].isLeader && st.members[j].isLeader))
    && (forall i :: 0 <= i < |st.members| && st.members[i].isLeader ==> st.members[i].userId == st.leaderId)
  }

  /** The leader, when present, is flagged. */
  predicate FlagComplete(st: PartyState) {
    forall i :: 0 <= i < |st.members| && st.members[i].userId == st.leaderId ==> st.members[i].isLeader
  }

  lemma MoveFlagSound(st: PartyState, leaderId: UserId)
    requires forall i, j :: 0 <= i < j < |st.members| ==> !(st.members[i].isLeader && st.members[j].isLeader)
    ensures FlagSound(st.(leaderId := leaderId, members := MoveFlag(st.members, leaderId)))
    ensures UniqueIds(st.members) ==>
      FlagComplete(st.(leaderId := leaderId, members := MoveFlag(st.members, leaderId)))
  {
    var ms := st.members;
    var i := FindLeader(ms);
    var cleared := if i < |ms| then ms[i := ms[i].(isLeader := false)] else ms;
    assert forall k :: 0 <= k < |cleared| ==> !cleared[k].isLeader && cleared[k].userId == ms[k].userId;
  }

  lemma {:induction false} SetStatusesKeepsFlags(ms: seq<Member>, batch: seq<StatusUpdate>)
    ensures |SetStatuses(ms, batch)| == |ms|
    ensures forall k :: 0 <= k < |ms| ==>
      SetStatuses(ms, batch)[k].userId == ms[k].userId && SetStatuses(ms, batch)[k].isLeader == ms[k].isLeader
    decreases |batch|
  {
    if batch != [] {
      SetStatusesKeepsFlags(SetStatus(ms, batch[0].userId, batch[0].status), batch[1..]);
    }
  }

  lemma EraseKeepsFlagSound(st: PartyState, id: UserId)
    requires FlagSound(st)
    ensures FlagSound(st.(members := Erase(st.members, id)))
  {
  }

  lemma SetUserDataKeepsFlagSound(st: PartyState, id: UserId, userData: string)
    requires FlagSound(st)
    ensures FlagSound(st.(members := SetUserData(st.members, id, userData)))
  {
  }

  lemma PushKeepsFlagSound(st: PartyState, user: UserDto)
    requires FlagSound(st)
    ensures FlagSound(st.(members := st.members + [Decode(user)]))
  {
  }

  lemma ApplyUpdateKeepsFlagSound(st: PartyState, u: Update)
    requires FlagSound(st)
    ensures FlagSound(ApplyUpdate(st, u))
  {
    hide Erase, SetUserData, SetStatuses, MoveFlag;
    match u
    case SettingsUpdated(_) =>
    case UserDataUpdated(id, userData) => SetUserDataKeepsFlagSound(st, id, userData);
    case StatusesUpdated(batch) => SetStatusesKeepsFlags(st.members, batch);
    case MemberConnected(user) => PushKeepsFlagSound(st, user);
    case MemberDisconnected(id) => EraseKeepsFlagSound(st, id);
    case LeaderChanged(leaderId) => MoveFlagSound(st, leaderId);
  }

  /** The leader loses the flag in one way only: by connecting after having become leader. */
  lemma FlagCompleteKeptExactly(st: PartyState, u: Update)
    requires UniqueIds(st.members) && FlagSound(st) && FlagComplete(st)
    ensures FlagComplete(ApplyUpdate(st, u)) <==> !(u.MemberConnected? && u.user.userId == st.leaderId)
  {
    match u
    case SettingsUpdated(_) =>
    case UserDataUpdated(_, _) =>
    case StatusesUpdated(batch) => SetStatusesKeepsFlags(st.members, batch);
    case MemberConnected(user) =>
      var ms := ApplyUpdate(st, u).members;
      assert ms[|st.members|] == Decode(user);
    case MemberDisconnected(_) =>
    case LeaderChanged(leaderId) => MoveFlagSound(st, leaderId);
  }

  predicate LeaderPresent(st: PartyState) {
    exists i :: 0 <= i < |st.members| && st.members[i].userId == st.leaderId
  }

  /** An unflagged leader gets the flag in no way: only another leader, or none in the party, mends the state. */
  lemma FlagCompleteRestoredExactly(st: PartyState, u: Update)
    requires UniqueIds(st.members) && FlagSound(st) && !FlagComplete(st)
    ensures FlagComplete(ApplyUpdate(st, u)) <==>
      (u.LeaderChanged? && u.leaderId != st.leaderId) || (u.MemberDisconnected? && u.userId == st.leaderId)
  {
    var ms := st.members;
    var k :| 0 <= k < |ms| && ms[k].userId == st.leaderId && !ms[k].isLeader;
    var ms' := ApplyUpdate(st, u).members;
    match u
    case SettingsUpdated(_) =>
    case UserDataUpdated(_, _) => assert ms'[k].userId == st.leaderId;
    case StatusesUpdated(batch) => SetStatusesKeepsFlags(ms, batch);
    case MemberConnected(user) => assert ms'[k] == ms[k];
    case MemberDisconnected(id) => ErasedLeader(st, k, id);
    case LeaderChanged(leaderId) => MoveFlagSound(st, leaderId);
  }

  lemma ErasedLeader(st: PartyState, k: nat, id: UserId)
    requires UniqueIds(st.members) && k < |st.members|
    requires st.members[k].userId == st.leaderId && !st.members[k].isLeader
    ensures FlagComplete(st.(members := Erase(st.members, id))) <==> id == st.leaderId
  {
    var ms, i := st.members, Find(st.members, id);
    var ms' := Erase(ms, id);
    if id == st.leaderId {
      assert i == k;
      assert forall j :: 0 <= j < |ms'| ==> ms'[j] == ms[if j < k then j else j + 1];
    } else if i < |ms| {
      assert ms'[if k < i then k else k - 1] == ms[k];
    }
  }

  /** It does happen: "b" becomes leader, then connects, and no member is flagged. */
  lemma LateLeaderIsNotFlagged()
    ensures
      var st := PartyState(Settings("gf", "", 0), "a", [Member("a", NotReady, "", true)], 1);
      var st' := ApplyUpdate(ApplyUpdate(st, LeaderChanged("b")), MemberConnected(UserDto("b", NotReady, "")));
      FlagComplete(st) && st'.leaderId == "b"
      && st'.members == [Member("a", NotReady, "", false), Member("b", NotReady, "", false)]
      && !FlagComplete(st')
  {
    var st := PartyState(Settings("gf", "", 0), "a", [Member("a", NotReady, "", true)], 1);
    var ms := [Member("a", NotReady, "", false)];
    assert Find(ms, "b") == 1 by { assert ms[0].userId == "a" && "a"[0] != "b"[0]; }
    assert "a" != "b" by { assert "a"[0] != "b"[0]; }
    assert FindLeader(st.members) == 0;
    var st1 := ApplyUpdate(st, LeaderChanged("b"));
    assert st1.members == ms;
    var st2 := ApplyUpdate(st1, MemberConnected(UserDto("b", NotReady, "")));
    assert st2.members[1].userId == st2.leaderId && !st2.members[1].isLeader;
  }
}
