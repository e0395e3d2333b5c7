/**
 The protocol over a channel that loses nothing and keeps the order: a special case of
 the arbitrary network, in which a client that has its first snapshot follows the server
 without a gap, and goes ready only when it is connected.
 */
module PartyInOrder {
  import opened PartyState
  import opened PartyClient
  import opened PartyProtocol
  import opened PartyReady

  /** `channel` holds what was sent and has not arrived; `position` is the version after the last arrival. */
  datatype Link = Link(sys: System, channel: seq<Message>, position: int) {
    function Party(): Party
      requires |sys.hist| > 0
    {
      sys.hist[|sys.hist| - 1]
    }
  }

  ghost predicate LinkInit(l: Link) {
    Init(l.sys) && l.channel == [] && l.position == l.sys.Latest()
  }

  ghost predicate Updates(l: Link, l': Link, u: Update) {
    |l.sys.hist| > 0 && ServerUpdates(l.sys, l'.sys, u)
    && l' == l.(sys := l'.sys, channel := l.channel + [Delta(l.sys.Latest() + 1, u)])
  }

  ghost predicate Answers(l: Link, l': Link, m: Message) {
    |l.sys.hist| > 0 && ServerAnswers(l.sys, l'.sys, m)
    && l' == l.(sys := l'.sys, channel := l.channel + [m])
  }

  ghost predicate Arrives(l: Link, l': Link) {
    l.channel != [] && ClientReceives(l.sys, l'.sys, l.channel[0])
    && l' == l.(sys := l'.sys, channel := l.channel[1..], position := l.channel[0].version)
  }

  ghost predicate LinkTask(l: Link, l': Link) {
    (ClientTask(l.sys, l'.sys) || StatusStep(l.sys, l'.sys)) && l' == l.(sys := l'.sys)
  }

  ghost predicate LinkNext(l: Link, l': Link) {
    || (exists u :: Updates(l, l', u))
    || (exists m :: Answers(l, l', m))
    || Arrives(l, l')
    || LinkTask(l, l')
  }

  /** Played from party `p` at version `v`, the messages lead without a gap to `p'` at `v'`. */
  predicate Leads(p: Party, v: int, msgs: seq<Message>, p': Party, v': int)
    decreases |msgs|
  {
    if msgs == [] then p == p' && v == v'
    else
      match msgs[0]
      case Delta(k, u) => k == v + 1 && Sendable(p, u) && Leads(ApplyToParty(p, u), k, msgs[1..], p', v')
      case Snapshot(k, _, _, _) => k == v && Depicts(msgs[0], p) && Leads(p, v, msgs[1..], p', v')
  }

  lemma {:induction false} LeadsOn(p: Party, v: int, msgs: seq<Message>, p1: Party, v1: int, m: Message, p2: Party, v2: int)
    requires Leads(p, v, msgs, p1, v1) && Leads(p1, v1, [m], p2, v2)
    ensures Leads(p, v, msgs + [m], p2, v2)
    decreases |msgs|
  {
    hide Depicts, ApplyToParty, Sendable;
    if msgs == [] {
      assert msgs + [m] == [m];
    } else {
      assert (msgs + [m])[0] == msgs[0] && (msgs + [m])[1..] == msgs[1..] + [m];
      match msgs[0]
      case Delta(k, u) => LeadsOn(ApplyToParty(p, u), k, msgs[1..], p1, v1, m, p2, v2);
      case Snapshot(_, _, _, _) => LeadsOn(p, v, msgs[1..], p1, v1, m, p2, v2);
    }
  }

  /** The party at the client's end of the channel, and the client in step with it once it has a version. */
  ghost predicate InStep(l: Link, p: Party) {
    && |l.sys.hist| > 0
    && Leads(p, l.position, l.channel, l.Party(), l.sys.Latest())
    && l.position >= 1
    && (var st := l.sys.client.state;
        st.version == 0 || (st.version == l.position && Abs(st) == p && UniqueIds(st.members)))
  }

  /** Whatever is in the channel has been sent, so the next message can always arrive. */
  ghost predicate LinkInv(l: Link) {
    (exists p :: InStep(l, p)) && forall m :: m in l.channel ==> m in l.sys.net
  }

  /** What the arrival of the next message does to the party at the client's end. */
  function PartyAfter(p: Party, m: Message): Party {
    match m
    case Delta(_, u) => ApplyToParty(p, u)
    case Snapshot(_, _, _, _) => p
  }

  lemma ArrivalInStep(l: Link, l': Link, p: Party)
    requires InStep(l, p) && Arrives(l, l')
    ensures InStep(l', PartyAfter(p, l.channel[0]))
    ensures l'.sys.client.state.version > 0 || l.sys.client.state.version == 0
    ensures l.channel[0].Snapshot? ==> l'.sys.client.state.version == l'.position
    ensures l.sys.client.state.version > 0 ==>
      l'.sys.client.state.version == l'.position
      && (l.channel[0].Delta? ==> Accepts(l.sys.client, l.channel[0].version))
  {
    hide MemberMap, UniqueIds, MoveFlag, ApplyUpdate, ApplyToParty, EventOf, Sendable;
    var m, st := l.channel[0], l.sys.client.state;
    match m
    case Delta(k, u) =>
      if st.version > 0 {
        ApplyUpdateRefines(st.(version := k), u);
        ApplyUpdateKeepsVersion(st.(version := k), u);
      }
    case Snapshot(k, _, _, _) =>
      DepictsDecoded(m, p);
      hide Depicts;
      MoveFlagRefines(DecodeSnapshot(m).members, m.leaderId);
  }

  lemma SendInStep(l: Link, l': Link, p: Party)
    requires InStep(l, p) && ((exists u :: Updates(l, l', u)) || (exists m :: Answers(l, l', m)))
    ensures InStep(l', p)
  {
    hide ApplyToParty, Abs, UniqueIds, Depicts, Sendable;
    var at, v, at', v' := l.Party(), l.sys.Latest(), l'.Party(), l'.sys.Latest();
    if u :| Updates(l, l', u) {
      assert Leads(at, v, [Delta(v + 1, u)], at', v') by {
        assert Leads(at', v', [], at', v');
      }
      LeadsOn(p, l.position, l.channel, at, v, Delta(v + 1, u), at', v');
    } else if m :| Answers(l, l', m) {
      assert Leads(at, v, [m], at, v) by {
        assert Leads(at, v, [], at, v);
      }
      LeadsOn(p, l.position, l.channel, at, v, m, at, v);
    }
  }

  lemma TaskInStep(l: Link, l': Link, p: Party)
    requires InStep(l, p) && LinkTask(l, l')
    ensures InStep(l', p) && l'.sys.client.state == l.sys.client.state
  {
    hide Leads, Abs, UniqueIds, ClientTask, StatusStep;
    TaskKeepsState(l.sys, l'.sys);
  }

  lemma NextKeepsLinkInv(l: Link, l': Link)
    requires LinkInv(l) && LinkNext(l, l')
    ensures LinkInv(l')
  {
    hide InStep, LinkTask, Receive;
    var p :| InStep(l, p);
    SentIsInNet(l, l');
    if Arrives(l, l') {
      ArrivalInStep(l, l', p);
    } else if LinkTask(l, l') {
      TaskInStep(l, l', p);
    } else {
      SendInStep(l, l', p);
    }
  }

  lemma SentIsInNet(l: Link, l': Link)
    requires LinkNext(l, l') && forall m :: m in l.channel ==> m in l.sys.net
    ensures forall m :: m in l'.channel ==> m in l'.sys.net
  {
    hide Receive, ApplyToParty, Settled, Depicts, Sendable, StatusDiffers, AskStatus, SendReady;
  }

  // ---------------------------------------------------------------------------
  // Runs

  ghost predicate LinkRun(run: seq<Link>) {
    |run| > 0 && LinkInit(run[0]) && forall i :: 0 <= i < |run| - 1 ==> LinkNext(run[i], run[i + 1])
  }

  lemma {:induction false} LinkRunKeepsInv(run: seq<Link>, i: nat)
    requires LinkRun(run) && i < |run|
    ensures LinkInv(run[i])
    decreases i
  {
    hide LinkNext, LinkInv, LinkInit;
    if i == 0 {
      LinkInitInv(run[0]);
    } else {
      LinkRunKeepsInv(run, i - 1);
      assert LinkNext(run[i - 1], run[(i - 1) + 1]);
      NextKeepsLinkInv(run[i - 1], run[i]);
    }
  }

  lemma LinkInitInv(l: Link)
    requires LinkInit(l)
    ensures LinkInv(l)
  {
    assert InStep(l, l.Party());
  }

  function Systems(run: seq<Link>): (systems: seq<System>)
    ensures |systems| == |run| && forall i :: 0 <= i < |run| ==> systems[i] == run[i].sys
  {
    seq(|run|, i requires 0 <= i < |run| => run[i].sys)
  }

  /** A run over the channel is one over the network, so all that holds there holds here; and the channel never sticks. */
  lemma LinkRunIsRun(run: seq<Link>)
    requires LinkRun(run)
    ensures Run(Systems(run))
    ensures forall i :: 0 <= i < |run| && run[i].channel != [] ==> run[i].channel[0] in run[i].sys.net
  {
    var systems := Systems(run);
    hide LinkNext, Next, Init, InStep;
    assert Init(systems[0]);
    forall i | 0 <= i < |run| - 1 ensures |systems[i].hist| > 0 && Next(systems[i], systems[i + 1]) {
      LinkRunKeepsInv(run, i);
      LinkStepIsStep(run[i], run[i + 1]);
    }
    forall i | 0 <= i < |run| && run[i].channel != [] ensures run[i].channel[0] in run[i].sys.net {
      LinkRunKeepsInv(run, i);
    }
  }

  lemma LinkStepIsStep(l: Link, l': Link)
    requires LinkInv(l) && LinkNext(l, l')
    ensures |l.sys.hist| > 0 && Next(l.sys, l'.sys)
  {
    hide ServerUpdates, ServerAnswers, ClientReceives, ClientTask, StatusStep, Leads, Abs, UniqueIds;
  }

  /** The version never goes back; once there is one, no update is rejected and no snapshot asked for. */
  lemma StepNeverFallsBehind(run: seq<Link>, i: nat)
    requires LinkRun(run) && i + 1 < |run|
    ensures
      var c, c' := run[i].sys.client, run[i + 1].sys.client;
      && c.state.version <= c'.state.version
      && (c.state.version > 0 ==>
            Calls(c'.log) == Calls(c.log)
            && (Arrives(run[i], run[i + 1]) && run[i].channel[0].Delta? ==> Accepts(c, run[i].channel[0].version)))
  {
    LinkRunKeepsInv(run, i);
    var l, l' := run[i], run[i + 1];
    var p :| InStep(l, p);
    hide LinkRun, LinkInv, Leads, Abs, UniqueIds, HandleUpdate, HandleSnapshot, Calls, LinkTask;
    if Arrives(l, l') {
      ArrivalInStep(l, l', p);
      var m := l.channel[0];
      match m {
        case Delta(k, u) => CallsByUpdate(l.sys.client, k, u);
        case Snapshot(_, _, _, _) => CallsBySnapshot(l.sys.client, DecodeSnapshot(m));
      }
      ArrivalPosition(l, l', p);
    } else if LinkTask(l, l') {
      TaskInStep(l, l', p);
      TaskCallsNothing(l, l');
    }
  }

  lemma TaskCallsNothing(l: Link, l': Link)
    requires LinkTask(l, l')
    ensures Calls(l'.sys.client.log) == Calls(l.sys.client.log)
  {
    hide Calls, StatusDiffers, Settled, RunConnectTask, DropConnectTask, ConnectionMade, AskStatus, SendReady;
    var s, s' := l.sys, l'.sys;
    if status :| PlayerAsks(s, s', status) {
      StatusCallsAreNotCalls(s.client, s.me, status, StatusRequest(status, 0));
    } else if w :| ReadyResumes(s, s', w) {
      StatusCallsAreNotCalls(s.client, s.me, Ready, w.request);
    } else if task :| ConnectionEnds(s, s', task) {
      ConnectionIsNotCall(s.client, task);
    } else if s.client.queue != [] {
      CallsByTasks(s.client);
    }
  }

  lemma ArrivalPosition(l: Link, l': Link, p: Party)
    requires InStep(l, p) && Arrives(l, l')
    ensures l.position <= l'.position
  {
    hide Abs, UniqueIds, Receive, ApplyToParty, Sendable, Depicts;
  }

  lemma {:induction false} NeverFallsBehind(run: seq<Link>, i: nat, j: nat)
    requires LinkRun(run) && i <= j < |run|
    ensures run[i].sys.client.state.version <= run[j].sys.client.state.version
    ensures run[i].sys.client.state.version > 0 ==> Calls(run[j].sys.client.log) == Calls(run[i].sys.client.log)
    decreases j - i
  {
    hide LinkRun, Calls;
    if i < j {
      StepNeverFallsBehind(run, i);
      NeverFallsBehind(run, i + 1, j);
    }
  }

  /** When the channel is empty, a client that ever got a snapshot has the server's current party. */
  lemma DrainedClientIsCurrent(run: seq<Link>, i: nat)
    requires LinkRun(run) && i < |run|
    requires run[i].channel == [] && run[i].sys.client.state.version > 0
    ensures
      var s := run[i].sys;
      |s.hist| > 0 && s.client.state.version == s.Latest() && Abs(s.client.state) == s.hist[|s.hist| - 1]
  {
    hide LinkRun;
    LinkRunKeepsInv(run, i);
  }

  // ---------------------------------------------------------------------------
  // Going ready over the channel

  /** Whenever the settings change they get a number no earlier settings had. */
  predicate FreshNumbers(hist: seq<Party>) {
    forall i, j {:trigger hist[i], hist[j]} :: 0 <= i < j < |hist| && hist[j].settings != hist[j - 1].settings
      ==> hist[i].settings.settingsVersionNumber != hist[j].settings.settingsVersionNumber
  }

  /** Either nothing has changed since the request was made, or its number is out of use for good. */
  predicate CurrentOrOutdated(s: System, w: Waiting) {
    || (w.token == s.client.token && w.madeUnder == s.client.state.settings)
    || forall k :: 0 <= k < |s.hist| && k >= s.client.state.version - s.base ==>
         s.hist[k].settings.settingsVersionNumber != w.request.localSettingsVersion
  }

  ghost predicate WaitingCurrent(s: System) {
    forall w :: w in s.waiting ==> CurrentOrOutdated(s, w)
  }

  /** Settings with a number of their own do not come back. */
  lemma {:induction false} NumbersDoNotReturn(hist: seq<Party>, i: nat, k: nat)
    requires FreshNumbers(hist) && i < k < |hist| && hist[i + 1].settings != hist[i].settings
    ensures hist[k].settings.settingsVersionNumber != hist[i].settings.settingsVersionNumber
    decreases k
  {
    assert hist[i].settings.settingsVersionNumber != hist[i + 1].settings.settingsVersionNumber;
    if k > i + 1 && hist[k].settings == hist[k - 1].settings {
      NumbersDoNotReturn(hist, i, k - 1);
    }
  }

  lemma UpdateKeepsCurrent(s: System, s': System, u: Update, w: Waiting)
    requires ReadyInv(s) && ServerUpdates(s, s', u) && FreshNumbers(s'.hist)
    requires w in s.waiting && CurrentOrOutdated(s, w)
    ensures CurrentOrOutdated(s', w)
  {
    hide ApplyToParty, Sendable, ConnectionSound, FlagSound, QueueSound, CallsBounded, Truthful;
    assert WaitingSound(s, w);
    var n := |s.hist|;
    var i :| 0 <= i < n && s.hist[i].settings == w.madeUnder;
    assert s'.hist[i] == s.hist[i] && s'.hist[n - 1] == s.hist[n - 1];
  }

  lemma SameSettingsSameToken(c: Client, m: Message)
    requires QueueSound(c) && Receive(c, m).state.settings == c.state.settings
    ensures Receive(c, m).token == c.token
  {
    hide ApplyUpdate, MoveFlag, EventOf;
  }

  lemma ArrivalKeepsCurrent(l: Link, l': Link, p: Party, w: Waiting)
    requires InStep(l, p) && Arrives(l, l') && ReadyInv(l.sys) && ReadyInv(l'.sys) && FreshNumbers(l.sys.hist)
    requires w in l.sys.waiting && CurrentOrOutdated(l.sys, w)
    ensures CurrentOrOutdated(l'.sys, w)
  {
    hide Inv, ConnectionSound, Leads, Receive, Abs, UniqueIds, CurrentOrOutdated, FreshNumbers, OnceSettings;
    var s, s' := l.sys, l'.sys;
    assert WaitingSound(s, w);
    ArrivalInStep(l, l', p);
    ArrivalVersion(l, l', p);
    SettingsOfVersion(s);
    SettingsOfVersion(s');
    if s'.client.state.settings == s.client.state.settings {
      QueueSoundOf(s);
      SameSettingsSameToken(s.client, l.channel[0]);
      SameSettingsSameOutlook(s, s', w);
    } else {
      NewSettingsOutdate(s, s', w);
    }
  }

  lemma SameSettingsSameOutlook(s: System, s': System, w: Waiting)
    requires CurrentOrOutdated(s, w) && s'.base == s.base && s'.hist == s.hist
    requires s'.client.state.settings == s.client.state.settings && s'.client.token == s.client.token
    requires s'.client.state.version >= s.client.state.version
    ensures CurrentOrOutdated(s', w)
  {
  }

  lemma NewSettingsOutdate(s: System, s': System, w: Waiting)
    requires CurrentOrOutdated(s, w) && s'.base == s.base && s'.hist == s.hist && FreshNumbers(s.hist)
    requires s.HasVersion(s.client.state.version) && s.HasVersion(s'.client.state.version)
    requires s.hist[s.client.state.version - s.base].settings == s.client.state.settings
    requires s.hist[s'.client.state.version - s.base].settings == s'.client.state.settings != s.client.state.settings
    requires s.client.state.version <= s'.client.state.version <= s.client.state.version + 1
    requires w.request.localSettingsVersion == w.madeUnder.settingsVersionNumber
    ensures CurrentOrOutdated(s', w)
  {
    hide FreshNumbers;
    var i := s.client.state.version - s.base;
    if w.madeUnder == s.client.state.settings {
      forall k | i < k < |s.hist| ensures s.hist[k].settings.settingsVersionNumber != w.request.localSettingsVersion {
        NumbersDoNotReturn(s.hist, i, k);
      }
    }
  }

  lemma ArrivalVersion(l: Link, l': Link, p: Party)
    requires InStep(l, p) && Arrives(l, l')
    ensures l.position <= l'.position <= l.position + 1
  {
    hide Abs, UniqueIds, Receive, ApplyToParty, Sendable, Depicts;
  }

  lemma SettingsOfVersion(s: System)
    requires ReadyInv(s)
    ensures s.client.state.version > 0 ==>
      s.HasVersion(s.client.state.version)
      && s.hist[s.client.state.version - s.base].settings == s.client.state.settings
  {
    hide ConnectionSound, WaitingSound, FlagSound, QueueSound, CallsBounded, Truthful;
  }

  lemma TaskKeepsCurrent(s: System, s': System)
    requires WaitingCurrent(s) && (StatusStep(s, s') || ClientTask(s, s'))
    ensures WaitingCurrent(s')
  {
    hide ClientTask, StatusStep, CurrentOrOutdated;
    TaskKeepsState(s, s');
    forall w | w in s'.waiting ensures CurrentOrOutdated(s', w) {
      if w in s.waiting {
        SamePlaceSameOutlook(s, s', w);
      } else if StatusStep(s, s') {
        OnlyAskedIsNew(s, s', w);
      } else {
        ConnectingKeepsState(s, s');
        assert false;
      }
    }
  }

  lemma SamePlaceSameOutlook(s: System, s': System, w: Waiting)
    requires SamePlace(s, s') && CurrentOrOutdated(s, w)
    ensures CurrentOrOutdated(s', w)
  {
  }

  lemma OnlyAskedIsNew(s: System, s': System, w: Waiting)
    requires StatusStep(s, s') && w in s'.waiting && w !in s.waiting
    ensures CurrentOrOutdated(s', w)
  {
    hide ReadyResumes, ReadyGivesUp, AskStatus, StatusStep;
    AskingKeepsState(s, s');
    WaitingShrinks(s, s');
    var status :| PlayerAsks(s, s', status);
    var o := AskStatus(s.client, s.me, status).1;
    assert o.AwaitsGameFinder? && w == Waits(s.client, o.request);
  }

  lemma WaitingShrinks(s: System, s': System)
    requires StatusStep(s, s')
    ensures s'.waiting <= s.waiting || exists status :: PlayerAsks(s, s', status)
  {
    hide SendReady, Settled, PlayerAsks;
  }

  lemma StepKeepsCurrent(l: Link, l': Link)
    requires LinkInv(l) && LinkNext(l, l') && ReadyInv(l.sys) && ReadyInv(l'.sys)
    requires WaitingCurrent(l.sys) && FreshNumbers(l'.sys.hist)
    ensures WaitingCurrent(l'.sys)
  {
    hide InStep, ReadyInv, StatusStep, ClientTask, CurrentOrOutdated, FreshNumbers;
    var p :| InStep(l, p);
    if LinkTask(l, l') {
      TaskKeepsCurrent(l.sys, l'.sys);
    } else if Arrives(l, l') {
      forall w | w in l'.sys.waiting ensures CurrentOrOutdated(l'.sys, w) {
        ArrivalKeepsCurrent(l, l', p, w);
      }
    } else if u :| Updates(l, l', u) {
      forall w | w in l'.sys.waiting ensures CurrentOrOutdated(l'.sys, w) {
        UpdateKeepsCurrent(l.sys, l'.sys, u, w);
      }
    } else if m :| Answers(l, l', m) {
      forall w | w in l'.sys.waiting ensures CurrentOrOutdated(l'.sys, w) {
        AnswerKeepsCurrent(l.sys, l'.sys, m, w);
      }
    }
  }

  lemma AnswerKeepsCurrent(s: System, s': System, m: Message, w: Waiting)
    requires |s.hist| > 0 && ServerAnswers(s, s', m) && CurrentOrOutdated(s, w)
    ensures CurrentOrOutdated(s', w)
  {
  }

  lemma HistoryGrows(l: Link, l': Link)
    requires LinkNext(l, l') && FreshNumbers(l'.sys.hist)
    ensures l.sys.hist <= l'.sys.hist && FreshNumbers(l.sys.hist)
  {
    hide FreshNumbers, StatusStep, ClientTask, Receive;
    if LinkTask(l, l') {
      TaskKeepsState(l.sys, l'.sys);
    }
    PrefixStaysFresh(l.sys.hist, l'.sys.hist);
  }

  lemma PrefixStaysFresh(hist: seq<Party>, longer: seq<Party>)
    requires hist <= longer && FreshNumbers(longer)
    ensures FreshNumbers(hist)
  {
    forall i, j {:trigger hist[i], hist[j]} | 0 <= i < j < |hist| && hist[j].settings != hist[j - 1].settings
      ensures hist[i].settings.settingsVersionNumber != hist[j].settings.settingsVersionNumber
    {
      assert longer[i] == hist[i] && longer[j] == hist[j] && longer[j - 1] == hist[j - 1];
    }
  }

  lemma {:induction false} WaitingStaysCurrent(run: seq<Link>, i: nat)
    requires LinkRun(run) && i < |run| && FreshNumbers(run[i].sys.hist)
    ensures WaitingCurrent(run[i].sys)
    decreases i
  {
    hide LinkNext, FreshNumbers, CurrentOrOutdated, Run, ReadyInv, LinkInv;
    if i > 0 {
      assert LinkNext(run[i - 1], run[(i - 1) + 1]);
      HistoryGrows(run[i - 1], run[i]);
      WaitingStaysCurrent(run, i - 1);
      LinkRunKeepsInv(run, i - 1);
      LinkRunIsRun(run);
      RunKeepsReady(Systems(run), i - 1);
      RunKeepsReady(Systems(run), i);
      StepKeepsCurrent(run[i - 1], run[i]);
    }
  }

  /**
   Over the channel, with a new number for whatever settings are new, a ready request
   leaves only while the client is connected to the party's game finder, and under the
   settings it was made under.
   */
  lemma ReadyIsConnectedInOrder(run: seq<Link>, i: nat, w: Waiting)
    requires LinkRun(run) && i + 1 < |run| && SendsReady(run[i].sys, run[i + 1].sys, w)
    requires FreshNumbers(run[i].sys.hist)
    ensures IsConnected(run[i].sys.client) && run[i].sys.client.state.settings == w.madeUnder
  {
    hide LinkRun, FreshNumbers, Run, IsConnected, Settled;
    LinkRunIsRun(run);
    var systems := Systems(run);
    RunKeepsReady(systems, i);
    assert SendsReady(systems[i], systems[i + 1], w);
    ReadyConnectedExactly(systems, i, w);
    WaitingStaysCurrent(run, i);
    assert WaitingSound(run[i].sys, w) && CurrentOrOutdated(run[i].sys, w);
    SettingsOfVersion(run[i].sys);
  }
}
