/** UsersApi: the mutually recursive methods that drive the connection state machine. */
module UsersApi {
  import opened ConnectionState

  class UsersApi {
    var current: GameConnectionState
    var autoReconnect: bool
    var authTask: AuthTask
    var life: nat
    var hasCredentials: bool
    var inFlight: nat
    var retries: nat
    var log: seq<Effect>

    ghost function Model(): Users
      reads this
    {
      Users(current, autoReconnect, authTask, life, hasCredentials, inFlight, retries, log)
    }

    constructor (life: nat, hasCredentials: bool)
      ensures Model() == NewUsers(life, hasCredentials)
    {
      current, autoReconnect, authTask := GameConnectionState(Disconnected, ""), true, NoTask;
      this.life, this.hasCredentials, log := life, hasCredentials, [];
      inFlight, retries := 0, 0;
    }

    method CheckClient() returns (alive: bool)
      modifies this`life
      ensures (alive, Model()) == ConnectionState.CheckClient(old(Model()))
    {
      alive := life > 0;
      if alive {
        life := life - 1;
      }
    }

    method SetConnectionState(s: GameConnectionState)
      modifies this
      ensures Model() == ConnectionState.SetConnectionState(old(Model()), s)
      decreases AutoRank(Model()), StateRank(Model(), s.state)
    {
      if current.state != s.state {
        if s.state == Disconnected {
          authTask := NoTask;
          if EndsReconnection(s.reason) {
            autoReconnect := false;
            var alive := CheckClient();
            if alive {
              log := log + [DisconnectScenes];
            }
          }
          var reconnect := false;
          if autoReconnect {
            reconnect := CheckClient();
          }
          if reconnect {
            SetConnectionState(GameConnectionState(Reconnecting, ""));
          } else {
            current := s;
            log := log + [StateChanged(s)];
          }
        } else if s.state == Reconnecting && current.state != Reconnecting {
          current := s;
          log := log + [StateChanged(s)];
          GetAuthenticationScene();
        } else {
          current := s;
          log := log + [StateChanged(s)];
        }
      }
    }

    method GetAuthenticationScene()
      modifies this
      ensures Model() == ConnectionState.GetAuthenticationScene(old(Model()))
      decreases AutoRank(Model()), 3
    {
      var alive := CheckClient();
      if !alive {
        return;
      }
      if authTask == NoTask {
        if !autoReconnect {
          return;
        } else {
          var task := LoginImpl();
          authTask := task;
        }
      }
    }

    method LoginImpl() returns (task: AuthTask)
      modifies this
      ensures (Model(), task) == ConnectionState.LoginImpl(old(Model()))
      decreases AutoRank(Model()), 2
    {
      SetConnectionState(GameConnectionState(Connecting, ""));
      if !hasCredentials {
        autoReconnect := false;
        SetConnectionState(GameConnectionState(Disconnected, ""));
        return LoginFailed;
      }
      var alive := CheckClient();
      if !alive {
        autoReconnect := false;
        SetConnectionState(GameConnectionState(Disconnected, ""));
        return LoginFailed;
      }
      inFlight := inFlight + 1;
      log := log + [ConnectToAuthScene];
      return LoginInFlight;
    }

    /** The continuation of a login that failed with an error. */
    method LoginAttemptFails()
      modifies this
      ensures Model() == ConnectionState.LoginAttemptFails(old(Model()))
    {
      if inFlight == 0 {
        return;
      }
      inFlight := inFlight - 1;
      if autoReconnect && current.state != Disconnected {
        Reconnect();
      }
    }

    method Reconnect()
      modifies this
      ensures Model() == ConnectionState.Reconnect(old(Model()))
    {
      SetConnectionState(GameConnectionState(Reconnecting, ""));
      retries := retries + 1;
    }

    /** The continuation of the retry timer. */
    method RetryFires()
      modifies this
      ensures Model() == ConnectionState.RetryFires(old(Model()))
    {
      if retries > 0 {
        retries := retries - 1;
        var task := LoginImpl();
      }
    }

    method Login()
      modifies this
      ensures Model() == ConnectionState.Login(old(Model()))
    {
      autoReconnect := true;
      GetAuthenticationScene();
    }

    method Logout()
      modifies this
      ensures Model() == ConnectionState.Logout(old(Model()))
    {
      autoReconnect := false;
      if current.state != Disconnected && current.state != Disconnecting {
        SetConnectionState(GameConnectionState(Disconnecting, ""));
        GetAuthenticationScene();
      }
    }
  }
}
