/**
 The connection state machine of the users API as a value: changing state may log in
 again, which changes state, which may change state once more.
 */
module ConnectionState {

  datatype State = Disconnected | Connecting | Authenticated | Disconnecting | Authenticating | Reconnecting

  datatype GameConnectionState = GameConnectionState(state: State, reason: string)

  datatype Effect =
    | StateChanged(s: GameConnectionState)
    | DisconnectScenes
    | ConnectToAuthScene

  datatype AuthTask = NoTask | LoginInFlight | LoginFailed

  /**
   The client is only weakly held and may go at any moment: `life` is the number of
   coming checks that will still find it. `hasCredentials` says whether a login would
   find a credentials callback or handler. `inFlight` counts the logins whose outcome is
   open, `retries` the timers that will log in again when they fire.
   */
  datatype Users = Users(
    current: GameConnectionState,
    autoReconnect: bool,
    authTask: AuthTask,
    life: nat,
    hasCredentials: bool,
    inFlight: nat,
    retries: nat,
    log: seq<Effect>)

  function NewUsers(life: nat, hasCredentials: bool): Users {
    Users(GameConnectionState(Disconnected, ""), true, NoTask, life, hasCredentials, 0, 0, [])
  }

  predicate EndsReconnection(reason: string) {
    reason == "User connected elsewhere" || reason == "Authentication failed" || reason == "auth.login.new_connection"
  }

  function CheckClient(u: Users): (bool, Users) {
    if u.life > 0 then (true, u.(life := u.life - 1)) else (false, u)
  }

  function Announce(u: Users, s: GameConnectionState): Users {
    u.(current := s, log := u.log + [StateChanged(s)])
  }

  function AutoRank(u: Users): nat {
    if u.autoReconnect then 1 else 0
  }

  function StateRank(u: Users, s: State): nat {
    match s
    case Disconnected => if u.autoReconnect then 5 else 1
    case Reconnecting => 4
    case _ => 0
  }

  /** The prefix of a disconnection that ends reconnection for good, for three reasons the server gives. */
  function GiveUpIfTold(u: Users, reason: string): Users {
    if EndsReconnection(reason) then
      var (alive, u1) := CheckClient(u.(autoReconnect := false));
      if alive then u1.(log := u1.log + [DisconnectScenes]) else u1
    else u
  }

  function SetConnectionState(u: Users, s: GameConnectionState): Users
    decreases AutoRank(u), StateRank(u, s.state)
  {
    if u.current.state == s.state then u
    else
      match s.state
      case Disconnected =>
        var u1 := GiveUpIfTold(u.(authTask := NoTask), s.reason);
        if u1.autoReconnect then
          var (alive, u2) := CheckClient(u1);
          if alive then SetConnectionState(u2, GameConnectionState(Reconnecting, "")) else Announce(u2, s)
        else Announce(u1, s)
      case Reconnecting => GetAuthenticationScene(Announce(u, s))
      case _ => Announce(u, s)
  }

  function GetAuthenticationScene(u: Users): Users
    decreases AutoRank(u), 3
  {
    var (alive, u1) := CheckClient(u);
    if !alive || u1.authTask != NoTask || !u1.autoReconnect then u1
    else
      var (u2, task) := LoginImpl(u1);
      u2.(authTask := task)
  }

  /** The synchronous part of a login. */
  function LoginImpl(u: Users): (Users, AuthTask)
    decreases AutoRank(u), 2
  {
    var u1 := SetConnectionState(u, GameConnectionState(Connecting, ""));
    if !u1.hasCredentials then
      (SetConnectionState(u1.(autoReconnect := false), GameConnectionState(Disconnected, "")), LoginFailed)
    else
      var (alive, u2) := CheckClient(u1);
      if !alive then
        (SetConnectionState(u2.(autoReconnect := false), GameConnectionState(Disconnected, "")), LoginFailed)
      else (u2.(inFlight := u2.inFlight + 1, log := u2.log + [ConnectToAuthScene]), LoginInFlight)
  }

  /** A login in flight fails: with reconnection on, another one is put on a timer. */
  function LoginAttemptFails(u: Users): Users {
    if u.inFlight == 0 then u
    else
      var u1 := u.(inFlight := u.inFlight - 1);
      if u1.autoReconnect && u1.current.state != Disconnected then Reconnect(u1) else u1
  }

  function Reconnect(u: Users): Users {
    var u1 := SetConnectionState(u, GameConnectionState(Reconnecting, ""));
    u1.(retries := u1.retries + 1)
  }

  /** A timer fires: it logs in, whether or not reconnection is still on. */
  function RetryFires(u: Users): Users {
    if u.retries == 0 then u else LoginImpl(u.(retries := u.retries - 1)).0
  }

  function Login(u: Users): Users {
    GetAuthenticationScene(u.(autoReconnect := true))
  }

  function Logout(u: Users): Users {
    var u1 := u.(autoReconnect := false);
    if u1.current.state == Disconnected || u1.current.state == Disconnecting then u1
    else GetAuthenticationScene(SetConnectionState(u1, GameConnectionState(Disconnecting, "")))
  }

  // ---------------------------------------------------------------------------
  // Where a disconnection leads

  /** Case by case, by what can be known before the call. */
  lemma DisconnectionOutcome(u: Users, reason: string)
    requires u.current.state != Disconnected
    ensures
      var u' := SetConnectionState(u, GameConnectionState(Disconnected, reason));
      var silent := u.autoReconnect && !EndsReconnection(reason);
      && (!silent ==> u'.current == GameConnectionState(Disconnected, reason) && !u'.autoReconnect)
      && (silent && u.life == 0 ==> u'.current == GameConnectionState(Disconnected, reason) && u'.autoReconnect)
      && (silent && u.life > 0 && u.current.state == Reconnecting ==>
            u'.current == u.current && u'.autoReconnect && u'.authTask == NoTask)
      && (silent && u.life > 0 && u.current.state != Reconnecting ==>
            if u.life == 1 then u'.current.state == Reconnecting && u'.autoReconnect && u'.authTask == NoTask
            else if !u.hasCredentials || u.life == 2 then
              u'.current == GameConnectionState(Disconnected, "") && !u'.autoReconnect && u'.authTask == LoginFailed
            else u'.current.state == Connecting && u'.autoReconnect && u'.authTask == LoginInFlight)
  {
    hide LoginImpl, EndsReconnection;
    var s := GameConnectionState(Disconnected, reason);
    var u1 := GiveUpIfTold(u.(authTask := NoTask), reason);
    if u1.autoReconnect && u1.life > 0 && u.current.state != Reconnecting {
      var r := GameConnectionState(Reconnecting, "");
      var u2 := u1.(life := u1.life - 1);
      var u3 := Announce(u2, r);
      assert SetConnectionState(u2, r) == GetAuthenticationScene(u3);
      if u3.life > 0 {
        LoginOutcome(u3.(life := u3.life - 1));
      }
    }
  }

  /**
   With reconnection on and the client there, three reasons end reconnection for good:
   the scenes are disconnected and the state is Disconnected, for that reason. After any
   other, or none, reconnection is tried: the machine reconnects, unless it was already.
   */
  lemma GivesUpExactly(u: Users, reason: string)
    requires u.current.state != Disconnected && u.autoReconnect && u.life > 0
    ensures
      var u' := SetConnectionState(u, GameConnectionState(Disconnected, reason));
      var d, r := GameConnectionState(Disconnected, reason), GameConnectionState(Reconnecting, "");
      if reason == "User connected elsewhere" || reason == "Authentication failed" || reason == "auth.login.new_connection"
      then u' == u.(current := d, autoReconnect := false, authTask := NoTask, life := u.life - 1,
                    log := u.log + [DisconnectScenes, StateChanged(d)])
      else if u.current.state == Reconnecting then u' == u.(authTask := NoTask, life := u.life - 1)
      else u.log + [StateChanged(r)] <= u'.log
  {
    hide SetConnectionState;
    if EndsReconnection(reason) {
      StopsForGood(u, reason);
    } else {
      TriesAgain(u, reason);
    }
  }

  lemma StopsForGood(u: Users, reason: string)
    requires u.current.state != Disconnected && u.autoReconnect && u.life > 0 && EndsReconnection(reason)
    ensures
      var d := GameConnectionState(Disconnected, reason);
      SetConnectionState(u, d)
        == u.(current := d, autoReconnect := false, authTask := NoTask, life := u.life - 1,
              log := u.log + [DisconnectScenes, StateChanged(d)])
  {
    hide EndsReconnection;
    var d := GameConnectionState(Disconnected, reason);
    assert u.log + [DisconnectScenes] + [StateChanged(d)] == u.log + [DisconnectScenes, StateChanged(d)];
  }

  lemma TriesAgain(u: Users, reason: string)
    requires u.current.state != Disconnected && u.autoReconnect && u.life > 0 && !EndsReconnection(reason)
    ensures
      var u', r := SetConnectionState(u, GameConnectionState(Disconnected, reason)), GameConnectionState(Reconnecting, "");
      if u.current.state == Reconnecting then u' == u.(authTask := NoTask, life := u.life - 1)
      else u.log + [StateChanged(r)] <= u'.log
  {
    hide LoginImpl, EndsReconnection;
    if u.current.state != Reconnecting {
      var r := GameConnectionState(Reconnecting, "");
      var u1 := u.(authTask := NoTask, life := u.life - 1);
      assert SetConnectionState(u1, r) == GetAuthenticationScene(Announce(u1, r));
      if u1.life > 0 {
        LoginOnlyAppends(Announce(u1, r).(life := u1.life - 1));
      }
    }
  }

  lemma LoginOnlyAppends(u: Users)
    ensures u.log <= LoginImpl(u).0.log
  {
    hide EndsReconnection;
  }

  /** A report of the state the machine is in changes nothing; any that asks for no further step is entered and told, reason and all. */
  lemma ReportIsEntered(u: Users, s: GameConnectionState)
    requires u.current.state == s.state || (s.state != Disconnected && s.state != Reconnecting)
    ensures
      Perform(u, StateReported(s))
        == if u.current.state == s.state then u else u.(current := s, log := u.log + [StateChanged(s)])
  {
  }

  lemma LoginOutcome(u: Users)
    ensures
      var (u', task) := LoginImpl(u);
      if u.hasCredentials && u.life > 0 then
        u'.current.state == Connecting && u'.autoReconnect == u.autoReconnect && task == LoginInFlight
      else u'.current == GameConnectionState(Disconnected, "") && !u'.autoReconnect && task == LoginFailed
  {
    hide EndsReconnection;
    var c := GameConnectionState(Connecting, "");
    var u1 := SetConnectionState(u, c);
    assert u1.current.state == Connecting && u1.autoReconnect == u.autoReconnect
      && u1.life == u.life && u1.hasCredentials == u.hasCredentials;
    var u2 := u1.(autoReconnect := false);
    var d := GameConnectionState(Disconnected, "");
    assert SetConnectionState(u2, d) == Announce(GiveUpIfTold(u2.(authTask := NoTask), ""), d);
    var u3 := u2.(life := if u2.life > 0 then u2.life - 1 else 0);
    assert SetConnectionState(u3, d) == Announce(GiveUpIfTold(u3.(authTask := NoTask), ""), d);
  }

  /** A disconnection ends in Disconnected exactly under these conditions, all known before it. */
  lemma EndsDisconnectedExactly(u: Users, reason: string)
    requires u.current.state != Disconnected
    ensures
      var u' := SetConnectionState(u, GameConnectionState(Disconnected, reason));
      && (u'.current.state == Disconnected <==>
            !u.autoReconnect || EndsReconnection(reason) || u.life == 0
            || (u.current.state != Reconnecting && u.life >= 2 && (!u.hasCredentials || u.life == 2)))
      && (u'.current.state == Disconnected <==> !u'.autoReconnect || u.life == 0)
  {
    hide SetConnectionState, EndsReconnection;
    DisconnectionOutcome(u, reason);
  }

  /**
   It leaves the machine reconnecting without a login task exactly when the client goes
   halfway or the machine was reconnecting already.
   */
  lemma StrandedExactly(u: Users, reason: string)
    requires u.current.state != Disconnected
    ensures
      var u' := SetConnectionState(u, GameConnectionState(Disconnected, reason));
      u'.current.state == Reconnecting && u'.authTask == NoTask <==>
        u.autoReconnect && !EndsReconnection(reason) && (u.life == 1 || (u.life > 0 && u.current.state == Reconnecting))
  {
    hide SetConnectionState, EndsReconnection;
    DisconnectionOutcome(u, reason);
  }

  /** It is not the client's state afterwards that decides: one that goes halfway leaves the machine reconnecting. */
  lemma ExpiryHalfwayStrands()
    ensures
      var u := Users(GameConnectionState(Authenticated, ""), true, NoTask, 1, true, 0, 0, []);
      var u' := SetConnectionState(u, GameConnectionState(Disconnected, ""));
      u'.life == 0 && u'.current.state == Reconnecting && u'.authTask == NoTask && u'.retries == 0
      && ConnectToAuthScene !in u'.log
  {
    var u := Users(GameConnectionState(Authenticated, ""), true, NoTask, 1, true, 0, 0, []);
    var u1 := u.(life := 0);
    var r := GameConnectionState(Reconnecting, "");
    assert SetConnectionState(u, GameConnectionState(Disconnected, "")) == SetConnectionState(u1, r);
    assert SetConnectionState(u1, r) == GetAuthenticationScene(Announce(u1, r));
  }

  // ---------------------------------------------------------------------------
  // What holds over every run

  datatype Op =
    | StateReported(s: GameConnectionState)  // from the scene, or from the end of a login
    | SceneConnecting                        // the scene's own connection attempt
    | LoginCalled
    | LogoutCalled
    | SceneRequested                         // any call that needs the authenticated scene
    | AuthTaskEnds                           // the login task has failed
    | CredentialsFail
    | CredentialsSet(present: bool)          // the application sets or clears the credentials callback
    | ClientGone(life: nat)
    | LoginFails                             // a login in flight meets a recoverable error
    | RetryTimer                             // a retry timer fires

  function Perform(u: Users, op: Op): Users {
    match op
    case StateReported(s) => SetConnectionState(u, s)
    case SceneConnecting => u.(log := u.log + [StateChanged(GameConnectionState(Connecting, ""))])
    case LoginCalled => Login(u)
    case LogoutCalled => Logout(u)
    case SceneRequested => GetAuthenticationScene(u)
    case AuthTaskEnds => u.(authTask := NoTask)
    case CredentialsFail => u.(autoReconnect := false)
    case CredentialsSet(present) => u.(hasCredentials := present)
    case ClientGone(life) => if life < u.life then u.(life := life) else u
    case LoginFails => LoginAttemptFails(u)
    case RetryTimer => RetryFires(u)
  }

  function PerformAll(u: Users, ops: seq<Op>): Users
    decreases |ops|
  {
    if ops == [] then u else PerformAll(Perform(u, ops[0]), ops[1..])
  }

  /** The states the application was told, in order. */
  function Told(log: seq<Effect>): seq<State> {
    if log == [] then []
    else Told(log[..|log| - 1]) + if log[|log| - 1].StateChanged? then [log[|log| - 1].s.state] else []
  }

  function Before(start: State, told: seq<State>, i: nat): State
    requires i < |told|
  {
    if i == 0 then start else told[i - 1]
  }

  predicate NoRepeats(start: State, told: seq<State>) {
    forall i :: 0 <= i < |told| ==> told[i] != Before(start, told, i)
  }

  /** The application was told of every change once and knows the current state. */
  predicate InformedSince(start: State, u: Users) {
    NoRepeats(start, Told(u.log)) && u.current.state == LastTold(start, Told(u.log))
  }

  predicate Informed(u: Users) {
    InformedSince(Disconnected, u)
  }

  lemma ToldAppend(log: seq<Effect>, e: Effect)
    ensures Told(log + [e]) == if e.StateChanged? then Told(log) + [e.s.state] else Told(log)
  {
    assert (log + [e])[..|log|] == log;
    assert Told(log) + [] == Told(log);
  }

  function LastTold(start: State, told: seq<State>): State {
    if told == [] then start else told[|told| - 1]
  }

  lemma NoRepeatsAppend(start: State, told: seq<State>, s: State)
    requires NoRepeats(start, told) && s != LastTold(start, told)
    ensures NoRepeats(start, told + [s])
  {
    var longer := told + [s];
    forall i | 0 <= i < |longer| ensures longer[i] != Before(start, longer, i) {
      if i < |told| {
        assert told[i] != Before(start, told, i);
      }
    }
  }

  lemma AnnounceInforms(u: Users, s: GameConnectionState)
    requires Informed(u) && u.current.state != s.state
    ensures Informed(Announce(u, s))
  {
    hide Told, NoRepeats;
    ToldAppend(u.log, StateChanged(s));
    NoRepeatsAppend(Disconnected, Told(u.log), s.state);
  }

  lemma LogKeepsInformed(u: Users, e: Effect)
    requires Informed(u) && !e.StateChanged?
    ensures Informed(u.(log := u.log + [e]))
  {
    ToldAppend(u.log, e);
  }

  lemma SetKeepsInformed(u: Users, s: GameConnectionState)
    requires Informed(u)
    ensures Informed(SetConnectionState(u, s))
    decreases AutoRank(u), StateRank(u, s.state)
  {
    hide Told, NoRepeats;
    if u.current.state != s.state {
      match s.state
      case Disconnected =>
        var u0 := u.(authTask := NoTask);
        LogKeepsInformed(u0.(autoReconnect := false), DisconnectScenes);
        var u1 := GiveUpIfTold(u0, s.reason);
        assert Informed(u1);
        if u1.autoReconnect && u1.life > 0 {
          SetKeepsInformed(u1.(life := u1.life - 1), GameConnectionState(Reconnecting, ""));
        } else {
          AnnounceInforms(u1, s);
        }
      case Reconnecting =>
        AnnounceInforms(u, s);
        GetKeepsInformed(Announce(u, s));
      case _ =>
        AnnounceInforms(u, s);
    }
  }

  lemma GetKeepsInformed(u: Users)
    requires Informed(u)
    ensures Informed(GetAuthenticationScene(u))
    decreases AutoRank(u), 3
  {
    hide Told, NoRepeats;
    var (alive, u1) := CheckClient(u);
    if alive && u1.authTask == NoTask && u1.autoReconnect {
      LoginKeepsInformed(u1);
    }
  }

  lemma LoginKeepsInformed(u: Users)
    requires Informed(u)
    ensures Informed(LoginImpl(u).0)
    decreases AutoRank(u), 2
  {
    hide Told, NoRepeats;
    var d := GameConnectionState(Disconnected, "");
    SetKeepsInformed(u, GameConnectionState(Connecting, ""));
    var u1 := SetConnectionState(u, GameConnectionState(Connecting, ""));
    if !u1.hasCredentials {
      SetKeepsInformed(u1.(autoReconnect := false), d);
    } else {
      var (alive, u2) := CheckClient(u1);
      if !alive {
        SetKeepsInformed(u2.(autoReconnect := false), d);
      } else {
        LogKeepsInformed(u2, ConnectToAuthScene);
      }
    }
  }

  lemma SceneMisinforms(u: Users)
    requires Informed(u)
    ensures !Informed(Perform(u, SceneConnecting))
  {
    ToldAppend(u.log, StateChanged(GameConnectionState(Connecting, "")));
    var told, told' := Told(u.log), Told(Perform(u, SceneConnecting).log);
    assert told'[|told|] == Connecting;
    assert |told| > 0 ==> told'[|told| - 1] == told[|told| - 1];
  }

  /** Exactly the scene's own connection attempts spoil it: they repeat a report, or report a state that was not entered. */
  lemma PerformKeepsInformedExactly(u: Users, op: Op)
    requires Informed(u)
    ensures Informed(Perform(u, op)) <==> !op.SceneConnecting?
  {
    hide Told, NoRepeats, SetConnectionState, GetAuthenticationScene, LoginImpl;
    match op
    case StateReported(s) => SetKeepsInformed(u, s);
    case SceneConnecting => SceneMisinforms(u);
    case LoginCalled => GetKeepsInformed(u.(autoReconnect := true));
    case LogoutCalled =>
      var u1 := u.(autoReconnect := false);
      SetKeepsInformed(u1, GameConnectionState(Disconnecting, ""));
      GetKeepsInformed(SetConnectionState(u1, GameConnectionState(Disconnecting, "")));
    case SceneRequested => GetKeepsInformed(u);
    case AuthTaskEnds =>
    case CredentialsFail =>
    case CredentialsSet(_) =>
    case ClientGone(_) =>
    case LoginFails =>
      if u.inFlight > 0 {
        SetKeepsInformed(u.(inFlight := u.inFlight - 1), GameConnectionState(Reconnecting, ""));
      }
    case RetryTimer =>
      if u.retries > 0 {
        LoginKeepsInformed(u.(retries := u.retries - 1));
      }
  }

  lemma {:induction false} ApplicationStaysInformed(u: Users, ops: seq<Op>)
    requires Informed(u) && SceneConnecting !in ops
    ensures Informed(PerformAll(u, ops))
    decreases |ops|
  {
    hide Informed, Perform;
    if ops != [] {
      assert ops[0] in ops;
      PerformKeepsInformedExactly(u, ops[0]);
      ApplicationStaysInformed(Perform(u, ops[0]), ops[1..]);
    }
  }

  // ---------------------------------------------------------------------------
  // Out of a stranded state

  /** What an operation does to a machine that is reconnecting without a login task. */
  predicate LeavesStranded(u: Users, op: Op) {
    match op
    case StateReported(s) =>
      if s.state == Disconnected then !u.autoReconnect || EndsReconnection(s.reason) || u.life == 0
      else s.state != Reconnecting
    case LoginCalled => u.life > 0
    case LogoutCalled => true
    case SceneRequested => u.autoReconnect && u.life > 0
    case RetryTimer => u.retries > 0
    case _ => false
  }

  /** Of these, the ones that connect: with credentials and a client that is still there when it is needed. */
  predicate LogsInFromStranded(u: Users, op: Op) {
    u.hasCredentials
    && match op
       case LoginCalled => u.life > 1
       case SceneRequested => u.autoReconnect && u.life > 1
       case RetryTimer => u.retries > 0 && u.life > 0
       case _ => false
  }

  /**
   A stranded machine leaves Reconnecting on a login, a logout, a request for the scene,
   a retry timer or a state reported from outside, exactly as far as these get; and it
   connects again exactly on the ones that find credentials and client.
   */
  lemma StrandedLeavesExactly(u: Users, op: Op)
    requires u.current.state == Reconnecting && u.authTask == NoTask
    ensures Perform(u, op).current.state != Reconnecting <==> LeavesStranded(u, op)
    ensures LoginAttempts(Perform(u, op).log) > LoginAttempts(u.log) <==> LogsInFromStranded(u, op)
  {
    hide LoginAttempts, EndsReconnection;
    match op
    case StateReported(s) => ReportWhileStranded(u, s);
    case SceneConnecting => AttemptsAppend(u.log, StateChanged(GameConnectionState(Connecting, "")));
    case LoginCalled => RequestWhileStranded(u.(autoReconnect := true));
    case LogoutCalled => LogoutTurnsOff(u);
    case SceneRequested => RequestWhileStranded(u);
    case AuthTaskEnds =>
    case CredentialsFail =>
    case CredentialsSet(_) =>
    case ClientGone(_) =>
    case LoginFails =>
    case RetryTimer =>
      if u.retries > 0 {
        LoginOutcome(u.(retries := u.retries - 1));
        LoginAdds(u.(retries := u.retries - 1));
      }
  }

  lemma RequestWhileStranded(u: Users)
    requires u.current.state == Reconnecting && u.authTask == NoTask
    ensures
      var u' := GetAuthenticationScene(u);
      && (u'.current.state != Reconnecting <==> u.autoReconnect && u.life > 0)
      && LoginAttempts(u'.log)
         == LoginAttempts(u.log) + if u.autoReconnect && u.hasCredentials && u.life > 1 then 1 else 0
  {
    hide LoginImpl, LoginAttempts;
    if u.life > 0 && u.autoReconnect {
      LoginOutcome(u.(life := u.life - 1));
      LoginAdds(u.(life := u.life - 1));
    }
  }

  /** The synchronous part of a login connects exactly when it finds credentials and client. */
  lemma LoginAdds(u: Users)
    ensures LoginAttempts(LoginImpl(u).0.log) == LoginAttempts(u.log) + if u.hasCredentials && u.life > 0 then 1 else 0
  {
    hide LoginAttempts, SetConnectionState;
    var d := GameConnectionState(Disconnected, "");
    ConnectingOnlyTells(u);
    var u1 := SetConnectionState(u, GameConnectionState(Connecting, ""));
    var u2 := CheckClient(u1).1;
    SetStaysOut(u1.(autoReconnect := false), d);
    SetStaysOut(u2.(autoReconnect := false), d);
    AttemptsAppend(u2.log, ConnectToAuthScene);
  }

  lemma ConnectingOnlyTells(u: Users)
    ensures
      var u' := SetConnectionState(u, GameConnectionState(Connecting, ""));
      LoginAttempts(u'.log) == LoginAttempts(u.log) && u' == u.(current := u'.current, log := u'.log)
  {
    hide LoginAttempts;
    AttemptsAppend(u.log, StateChanged(GameConnectionState(Connecting, "")));
  }

  lemma ReportWhileStranded(u: Users, s: GameConnectionState)
    requires u.current.state == Reconnecting && u.authTask == NoTask
    ensures
      var u' := SetConnectionState(u, s);
      && (u'.current.state != Reconnecting <==> LeavesStranded(u, StateReported(s)))
      && LoginAttempts(u'.log) == LoginAttempts(u.log)
  {
    hide LoginAttempts, EndsReconnection;
    AttemptsAppend(u.log, StateChanged(s));
    AttemptsAppend(u.log, DisconnectScenes);
    AttemptsAppend(u.log + [DisconnectScenes], StateChanged(s));
  }

  // ---------------------------------------------------------------------------
  // What each operation starts

  /** A request for the scene that logs in: none is under way, reconnection is on, credentials and client are there. */
  predicate RequestConnects(u: Users) {
    u.authTask == NoTask && u.autoReconnect && u.hasCredentials && u.life >= 2
  }

  /** An operation that sends a login. */
  predicate Connects(u: Users, op: Op) {
    match op
    case StateReported(s) =>
      u.current.state != s.state
      && (|| (s.state == Reconnecting && RequestConnects(u))
          || (s.state == Disconnected && u.current.state != Reconnecting && u.autoReconnect && u.hasCredentials && u.life >= 3
              && s.reason != "User connected elsewhere" && s.reason != "Authentication failed"
              && s.reason != "auth.login.new_connection"))
    case LoginCalled => RequestConnects(u.(autoReconnect := true))
    case SceneRequested => RequestConnects(u)
    case LoginFails =>
      u.inFlight > 0 && u.current.state != Disconnected && u.current.state != Reconnecting && RequestConnects(u)
    case RetryTimer => u.retries > 0 && u.hasCredentials && u.life > 0
    case _ => false
  }

  /** A failed login that puts another one on a timer. */
  predicate StartsTimer(u: Users, op: Op) {
    op.LoginFails? && u.inFlight > 0 && u.autoReconnect && u.current.state != Disconnected
  }

  /** Login attempts, logins in flight and timers, counted. */
  predicate Counts(u: Users, u': Users, sent: nat, ended: nat, started: nat, fired: nat) {
    && LoginAttempts(u'.log) == LoginAttempts(u.log) + sent
    && u'.inFlight == u.inFlight + sent - ended
    && u'.retries == u.retries + started - fired
  }

  function One(b: bool): nat {
    if b then 1 else 0
  }

  lemma LoginCounts(u: Users)
    ensures Counts(u, LoginImpl(u).0, One(u.hasCredentials && u.life > 0), 0, 0, 0)
  {
    hide LoginAttempts, EndsReconnection;
    LoginAdds(u);
    hide SetConnectionState;
    var d := GameConnectionState(Disconnected, "");
    ConnectingOnlyTells(u);
    var u1 := SetConnectionState(u, GameConnectionState(Connecting, ""));
    GivingUpCounts(u1.(autoReconnect := false), d);
    GivingUpCounts(CheckClient(u1).1.(autoReconnect := false), d);
  }

  lemma GivingUpCounts(u: Users, s: GameConnectionState)
    requires !u.autoReconnect
    ensures Counts(u, SetConnectionState(u, s), 0, 0, 0, 0)
  {
    hide LoginAttempts, EndsReconnection;
    SetStaysOut(u, s);
  }

  lemma RequestCounts(u: Users)
    ensures Counts(u, GetAuthenticationScene(u), One(RequestConnects(u)), 0, 0, 0)
  {
    hide LoginAttempts, LoginImpl;
    LoginCounts(u.(life := if u.life > 0 then u.life - 1 else 0));
  }

  lemma ReportCounts(u: Users, s: GameConnectionState)
    ensures Counts(u, SetConnectionState(u, s), One(Connects(u, StateReported(s))), 0, 0, 0)
  {
    hide LoginAttempts, GetAuthenticationScene;
    AttemptsAppend(u.log, StateChanged(s));
    if u.current.state != s.state {
      match s.state
      case Disconnected => DisconnectionCounts(u, s);
      case Reconnecting => RequestCounts(Announce(u, s));
      case _ =>
    }
  }

  lemma DisconnectionCounts(u: Users, s: GameConnectionState)
    requires s.state == Disconnected && u.current.state != Disconnected
    ensures Counts(u, SetConnectionState(u, s), One(Connects(u, StateReported(s))), 0, 0, 0)
  {
    hide LoginAttempts, GetAuthenticationScene;
    if !u.autoReconnect {
      GivingUpCounts(u, s);
    } else if EndsReconnection(s.reason) {
      AttemptsAppend(u.log, DisconnectScenes);
      AttemptsAppend(u.log + [DisconnectScenes], StateChanged(s));
      AttemptsAppend(u.log, StateChanged(s));
    } else {
      AttemptsAppend(u.log, StateChanged(s));
      if u.life > 0 && u.current.state != Reconnecting {
        var r := GameConnectionState(Reconnecting, "");
        var u1 := u.(authTask := NoTask, life := u.life - 1);
        assert SetConnectionState(u, s) == SetConnectionState(u1, r) == GetAuthenticationScene(Announce(u1, r));
        AttemptsAppend(u.log, StateChanged(r));
        RequestCounts(Announce(u1, r));
      }
    }
  }

  /** A request for the scene: nothing while a login is under way, else a login that is remembered, failed or not. */
  lemma RequestOutcome(u: Users)
    ensures
      var u' := Perform(u, SceneRequested);
      if u.life == 0 || u.authTask != NoTask || !u.autoReconnect then
        u' == u.(life := if u.life > 0 then u.life - 1 else 0)
      else if u.hasCredentials && u.life >= 2 then u'.current.state == Connecting && u'.autoReconnect && u'.authTask == LoginInFlight
      else u'.current == GameConnectionState(Disconnected, "") && !u'.autoReconnect && u'.authTask == LoginFailed
  {
    hide LoginImpl;
    LoginOutcome(u.(life := if u.life > 0 then u.life - 1 else 0));
  }

  /** In every state, what an operation adds to the logins sent, to those in flight and to the timers running. */
  lemma StartsExactly(u: Users, op: Op)
    ensures
      Counts(u, Perform(u, op), One(Connects(u, op)), One(op.LoginFails? && u.inFlight > 0),
             One(StartsTimer(u, op)), One(op.RetryTimer? && u.retries > 0))
  {
    hide LoginAttempts, EndsReconnection, SetConnectionState, GetAuthenticationScene, LoginImpl;
    match op
    case StateReported(s) => ReportCounts(u, s);
    case SceneConnecting => AttemptsAppend(u.log, StateChanged(GameConnectionState(Connecting, "")));
    case LoginCalled => RequestCounts(u.(autoReconnect := true));
    case LogoutCalled =>
      var u1, s := u.(autoReconnect := false), GameConnectionState(Disconnecting, "");
      SetStaysOut(u1, s);
      ReportCounts(u1, s);
      RequestCounts(SetConnectionState(u1, s));
    case SceneRequested => RequestCounts(u);
    case AuthTaskEnds =>
    case CredentialsFail =>
    case CredentialsSet(_) =>
    case ClientGone(_) =>
    case LoginFails => ReportCounts(u.(inFlight := if u.inFlight > 0 then u.inFlight - 1 else 0), GameConnectionState(Reconnecting, ""));
    case RetryTimer =>
      if u.retries > 0 {
        LoginCounts(u.(retries := u.retries - 1));
      }
  }

  // ---------------------------------------------------------------------------
  // What a logout ends

  function LoginAttempts(log: seq<Effect>): nat {
    if log == [] then 0
    else LoginAttempts(log[..|log| - 1]) + if log[|log| - 1].ConnectToAuthScene? then 1 else 0
  }

  lemma AttemptsAppend(log: seq<Effect>, e: Effect)
    ensures LoginAttempts(log + [e]) == LoginAttempts(log) + if e.ConnectToAuthScene? then 1 else 0
  {
    assert (log + [e])[..|log|] == log;
  }

  /** Reconnection off, and nothing gained that could start a login. */
  predicate StaysOff(u: Users, u': Users) {
    !u'.autoReconnect && u'.life <= u.life && u'.retries <= u.retries
  }

  /** A retry timer that will get as far as connecting. */
  predicate RetryConnects(u: Users, op: Op) {
    op.RetryTimer? && u.retries > 0 && u.hasCredentials && u.life > 0
  }

  lemma SetStaysOut(u: Users, s: GameConnectionState)
    requires !u.autoReconnect
    ensures
      var u' := SetConnectionState(u, s);
      StaysOff(u, u') && u'.retries == u.retries && LoginAttempts(u'.log) == LoginAttempts(u.log)
      && (!s.state.Disconnected? ==> u'.life == u.life || s.state.Reconnecting?)
  {
    hide LoginAttempts;
    AttemptsAppend(u.log, DisconnectScenes);
    AttemptsAppend(u.log + [DisconnectScenes], StateChanged(s));
    AttemptsAppend(u.log, StateChanged(s));
  }

  lemma GetStaysOut(u: Users)
    requires !u.autoReconnect
    ensures
      var u' := GetAuthenticationScene(u);
      StaysOff(u, u') && u'.retries == u.retries && u'.log == u.log && u'.life == (if u.life > 0 then u.life - 1 else 0)
  {
  }

  lemma LogoutTurnsOff(u: Users)
    ensures
      var u' := Logout(u);
      StaysOff(u, u') && u'.retries == u.retries && LoginAttempts(u'.log) == LoginAttempts(u.log)
      && u'.life == LifeAfterLogout(u)
  {
    hide LoginAttempts, SetConnectionState, GetAuthenticationScene;
    var u1, s := u.(autoReconnect := false), GameConnectionState(Disconnecting, "");
    SetStaysOut(u1, s);
    GetStaysOut(SetConnectionState(u1, s));
  }

  /** A logout looks at the client once, unless there is nothing to log out of. */
  function LifeAfterLogout(u: Users): nat {
    if u.current.state == Disconnected || u.current.state == Disconnecting || u.life == 0 then u.life else u.life - 1
  }

  lemma LoginWhileOff(u: Users)
    requires !u.autoReconnect
    ensures
      var u' := LoginImpl(u).0;
      StaysOff(u, u') && u'.retries == u.retries
      && LoginAttempts(u'.log) == LoginAttempts(u.log) + if u.hasCredentials && u.life > 0 then 1 else 0
  {
    hide LoginAttempts, SetConnectionState;
    LoginAdds(u);
    var d := GameConnectionState(Disconnected, "");
    ConnectingOnlyTells(u);
    var u1 := SetConnectionState(u, GameConnectionState(Connecting, ""));
    SetStaysOut(u1, d);
    SetStaysOut(CheckClient(u1).1, d);
  }

  /** With reconnection off, an operation other than a login call attempts a login exactly if it is a retry that connects. */
  lemma AttemptsWhileOffExactly(u: Users, op: Op)
    requires !u.autoReconnect && op != LoginCalled
    ensures StaysOff(u, Perform(u, op))
    ensures op.RetryTimer? && u.retries > 0 ==> Perform(u, op).retries == u.retries - 1
    ensures LoginAttempts(Perform(u, op).log) == LoginAttempts(u.log) + if RetryConnects(u, op) then 1 else 0
  {
    hide LoginAttempts, SetConnectionState, GetAuthenticationScene, LoginImpl, Logout;
    match op
    case StateReported(s) => SetStaysOut(u, s);
    case SceneConnecting => AttemptsAppend(u.log, StateChanged(GameConnectionState(Connecting, "")));
    case LogoutCalled => LogoutTurnsOff(u);
    case SceneRequested => GetStaysOut(u);
    case AuthTaskEnds =>
    case CredentialsFail =>
    case CredentialsSet(_) =>
    case ClientGone(_) =>
    case LoginFails =>
    case RetryTimer =>
      if u.retries > 0 {
        LoginWhileOff(u.(retries := u.retries - 1));
      }
  }

  /** How many operations of a run are retries that connect. */
  function ConnectingRetries(u: Users, ops: seq<Op>): nat
    decreases |ops|
  {
    if ops == [] then 0
    else (if RetryConnects(u, ops[0]) then 1 else 0) + ConnectingRetries(Perform(u, ops[0]), ops[1..])
  }

  lemma {:induction false} AttemptsAreRetries(u: Users, ops: seq<Op>)
    requires !u.autoReconnect && LoginCalled !in ops
    ensures LoginAttempts(PerformAll(u, ops).log) == LoginAttempts(u.log) + ConnectingRetries(u, ops)
    ensures !PerformAll(u, ops).autoReconnect
    ensures ConnectingRetries(u, ops) <= if u.life > 0 then u.retries else 0
    decreases |ops|
  {
    hide Perform, LoginAttempts;
    if ops != [] {
      assert ops[0] in ops;
      AttemptsWhileOffExactly(u, ops[0]);
      AttemptsAreRetries(Perform(u, ops[0]), ops[1..]);
    }
  }

  /**
   After a logout, until the application asks for one, the logins attempted are exactly
   the retries that connect: no more than the timers that were running.
   */
  lemma OnlyRetriesAfterLogout(u: Users, ops: seq<Op>)
    requires LoginCalled !in ops
    ensures
      var u' := PerformAll(Logout(u), ops);
      !u'.autoReconnect && LoginAttempts(u'.log) == LoginAttempts(u.log) + ConnectingRetries(Logout(u), ops)
    ensures ConnectingRetries(Logout(u), ops) <= u.retries
  {
    hide LoginAttempts;
    LogoutTurnsOff(u);
    AttemptsAreRetries(Logout(u), ops);
  }

  ghost predicate LogoutIsFinal(u: Users) {
    forall ops | LoginCalled !in ops ::
      LoginAttempts(PerformAll(Logout(u), ops).log) == LoginAttempts(u.log)
  }

  /** A logout is final exactly when no retry timer is running, or none that could find the client. */
  lemma LogoutIsFinalExactly(u: Users)
    ensures LogoutIsFinal(u) <==> u.retries == 0 || LifeAfterLogout(u) == 0
  {
    hide LoginAttempts, Logout;
    LogoutTurnsOff(u);
    var off := Logout(u);
    forall ops | LoginCalled !in ops
      ensures LoginAttempts(PerformAll(off, ops).log) == LoginAttempts(u.log) + ConnectingRetries(off, ops)
      ensures ConnectingRetries(off, ops) <= if off.life > 0 then off.retries else 0
    {
      AttemptsAreRetries(off, ops);
    }
    if off.retries > 0 && off.life > 0 {
      var ops := [CredentialsSet(true), RetryTimer];
      assert LoginCalled !in ops;
      var on := Perform(off, ops[0]);
      assert ops[1..] == [RetryTimer] && RetryConnects(on, RetryTimer);
      assert ConnectingRetries(on, ops[1..]) >= 1;
      assert ConnectingRetries(off, ops) >= 1;
      assert LoginAttempts(PerformAll(off, ops).log) != LoginAttempts(u.log);
    }
  }

  /** It can happen: login, failure, logout, and then the timer connects again. */
  lemma RetryAfterLogout()
    ensures
      var before := PerformAll(NewUsers(10, true), [LoginCalled, LoginFails, LogoutCalled]);
      var after := Perform(before, RetryTimer);
      !before.autoReconnect && before.current.state == Disconnecting
      && !after.autoReconnect && after.current.state == Connecting
      && after.log == before.log + [StateChanged(GameConnectionState(Connecting, "")), ConnectToAuthScene]
  {
    hide Perform;
    var u0, c := NewUsers(10, true), GameConnectionState(Connecting, "");
    var log, r := [StateChanged(c), ConnectToAuthScene], StateChanged(GameConnectionState(Reconnecting, ""));
    LoginThenFailure();
    LogoutThenRetry(log);
    assert log + [r] == [log[0], log[1], r];
    PerformThree(u0, LoginCalled, LoginFails, LogoutCalled);
  }

  lemma PerformThree(u: Users, a: Op, b: Op, c: Op)
    ensures PerformAll(u, [a, b, c]) == Perform(Perform(Perform(u, a), b), c)
  {
    hide Perform;
    assert [a, b, c][1..] == [b, c] && [b, c][1..] == [c] && [c][1..] == [];
    calc {
      PerformAll(u, [a, b, c]);
      PerformAll(Perform(u, a), [b, c]);
      PerformAll(Perform(Perform(u, a), b), [c]);
      PerformAll(Perform(Perform(Perform(u, a), b), c), []);
    }
  }

  lemma LoginThenFailure()
    ensures
      var c, r := GameConnectionState(Connecting, ""), GameConnectionState(Reconnecting, "");
      Perform(Perform(NewUsers(10, true), LoginCalled), LoginFails)
        == Users(r, true, LoginInFlight, 7, true, 0, 1, [StateChanged(c), ConnectToAuthScene, StateChanged(r)])
  {
    hide EndsReconnection;
    var c, r := GameConnectionState(Connecting, ""), GameConnectionState(Reconnecting, "");
    var u := Perform(NewUsers(10, true), LoginCalled);
    assert u == Users(c, true, LoginInFlight, 8, true, 1, 0, [StateChanged(c), ConnectToAuthScene]);
    assert SetConnectionState(u.(inFlight := 0), r) == GetAuthenticationScene(Announce(u.(inFlight := 0), r));
  }

  lemma LogoutThenRetry(log: seq<Effect>)
    ensures
      var c, r, d := GameConnectionState(Connecting, ""), GameConnectionState(Reconnecting, ""), GameConnectionState(Disconnecting, "");
      var u := Perform(Users(r, true, LoginInFlight, 7, true, 0, 1, log + [StateChanged(r)]), LogoutCalled);
      && u == Users(d, false, LoginInFlight, 6, true, 0, 1, log + [StateChanged(r)] + [StateChanged(d)])
      && Perform(u, RetryTimer) == Users(c, false, LoginInFlight, 5, true, 1, 0, u.log + [StateChanged(c), ConnectToAuthScene])
  {
    hide EndsReconnection;
    var c, r, d := GameConnectionState(Connecting, ""), GameConnectionState(Reconnecting, ""), GameConnectionState(Disconnecting, "");
    var u0 := Users(r, true, LoginInFlight, 7, true, 0, 1, log + [StateChanged(r)]);
    var u := Perform(u0, LogoutCalled);
    assert u == Users(d, false, LoginInFlight, 6, true, 0, 1, u0.log + [StateChanged(d)]);
    var u1 := SetConnectionState(u.(retries := 0), c);
    assert u1 == Users(c, false, LoginInFlight, 6, true, 0, 0, u.log + [StateChanged(c)]);
    assert u.log + [StateChanged(c)] + [ConnectToAuthScene] == u.log + [StateChanged(c), ConnectToAuthScene];
  }
}
