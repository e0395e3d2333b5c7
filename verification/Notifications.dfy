/**
 The in-app notification service: notifications go to the callback when there is one,
 directly or through the application's dispatcher, and into a bounded queue when there
 is none.
 */
module Notifications {

  datatype Acknowledgment = NoAck | OnSend | OnReceive | ByUser

  datatype Notification = Notification(id: string, message: string, acknowledgment: Acknowledgment)

  datatype Callback = NoCallback | Callback(name: string)

  /**
   What happens to a notification in the end: the callback is called with it, it is
   pushed out of the full queue with a warning, the dispatcher runs its task when there
   is no callback to call, or the dispatcher goes without running it.
   */
  datatype Effect =
    | Called(callback: string, n: Notification)
    | WarnedTooMany(discarded: Notification)
    | Faulted(n: Notification)
    | Abandoned(n: Notification)
    | AcknowledgeCall(id: string)

  const Capacity: nat := 101

  class InAppNotificationService {
    var callback: Callback
    var pending: seq<Notification>
    var posted: seq<Notification>
    var log: seq<Effect>

    ghost function Model(): Service
      reads this
    {
      Service(callback, pending, posted, log)
    }

    constructor ()
      ensures Model() == NewService
    {
      callback, pending, posted, log := NoCallback, [], [], [];
    }

    /** Setting a callback drains the queue into it, oldest first. */
    method RegisterNotificationsCallback(cb: Callback)
      modifies this
      ensures Model() == Register(old(Model()), cb)
    {
      callback := cb;
      if cb.Callback? {
        while pending != []
          invariant callback == cb && posted == old(posted)
          invariant log + CallAll(cb.name, pending) == old(log) + CallAll(cb.name, old(pending))
          decreases |pending|
        {
          var n := pending[0];
          assert log + CallAll(cb.name, pending) == (log + [Called(cb.name, n)]) + CallAll(cb.name, pending[1..]);
          pending := pending[1..];
          log := log + [Called(cb.name, n)];
        }
        assert log + [] == log;
      }
    }

    method NotificationReceived(n: Notification, dispatcherAlive: bool)
      modifies this
      ensures Model() == Receive(old(Model()), n, dispatcherAlive)
    {
      if callback.Callback? {
        if dispatcherAlive {
          posted := posted + [n];
        } else {
          log := log + [Called(callback.name, n)];
        }
      } else {
        if |pending| > 100 {
          log := log + [WarnedTooMany(pending[0])];
          pending := pending[1..];
        }
        pending := pending + [n];
      }
      if n.acknowledgment == OnReceive {
        log := log + [AcknowledgeCall(n.id)];
      }
    }

    /** The posted task: it calls the callback of the moment it runs, if there is one. */
    method RunPosted()
      requires posted != []
      modifies this
      ensures Model() == Dispatch(old(Model()))
    {
      var n := posted[0];
      posted := posted[1..];
      if callback.Callback? {
        log := log + [Called(callback.name, n)];
      } else {
        log := log + [Faulted(n)];
      }
    }
  }

  // ---------------------------------------------------------------------------
  // The service as a value

  /** `posted` holds the tasks the dispatcher has not run yet; it runs them in order. */
  datatype Service = Service(
    callback: Callback,
    pending: seq<Notification>,
    posted: seq<Notification>,
    log: seq<Effect>)

  const NewService := Service(NoCallback, [], [], [])

  function CallAll(name: string, ns: seq<Notification>): seq<Effect> {
    if ns == [] then [] else [Called(name, ns[0])] + CallAll(name, ns[1..])
  }

  function Register(s: Service, cb: Callback): Service {
    match cb
    case NoCallback => s.(callback := cb)
    case Callback(name) => s.(callback := cb, pending := [], log := s.log + CallAll(name, s.pending))
  }

  function Acknowledge(n: Notification): seq<Effect> {
    if n.acknowledgment == OnReceive then [AcknowledgeCall(n.id)] else []
  }

  function Receive(s: Service, n: Notification, dispatcherAlive: bool): Service {
    match s.callback
    case Callback(name) =>
      if dispatcherAlive then s.(posted := s.posted + [n], log := s.log + Acknowledge(n))
      else s.(log := s.log + [Called(name, n)] + Acknowledge(n))
    case NoCallback =>
      if |s.pending| > 100 then
        s.(pending := s.pending[1..] + [n], log := s.log + [WarnedTooMany(s.pending[0])] + Acknowledge(n))
      else s.(pending := s.pending + [n], log := s.log + Acknowledge(n))
  }

  function Dispatch(s: Service): Service
    requires s.posted != []
  {
    var e := match s.callback { case Callback(name) => Called(name, s.posted[0]) case NoCallback => Faulted(s.posted[0]) };
    s.(posted := s.posted[1..], log := s.log + [e])
  }

  function Abandon(s: Service): Service
    requires s.posted != []
  {
    s.(posted := s.posted[1..], log := s.log + [Abandoned(s.posted[0])])
  }

  datatype Op =
    | Registered(cb: Callback)
    | Received(n: Notification, dispatcherAlive: bool)
    | DispatcherRuns
    | DispatcherGoes

  function Perform(s: Service, op: Op): Service {
    match op
    case Registered(cb) => Register(s, cb)
    case Received(n, alive) => Receive(s, n, alive)
    case DispatcherRuns => if s.posted == [] then s else Dispatch(s)
    case DispatcherGoes => if s.posted == [] then s else Abandon(s)
  }

  function PerformAll(s: Service, ops: seq<Op>): Service {
    if ops == [] then s else Perform(PerformAll(s, ops[..|ops| - 1]), ops[|ops| - 1])
  }

  // ---------------------------------------------------------------------------
  // What the log says

  function DeliveredBy(e: Effect): seq<Notification> {
    match e
    case Called(_, n) => [n]
    case _ => []
  }

  function LostBy(e: Effect): seq<Notification> {
    match e
    case WarnedTooMany(n) => [n]
    case Faulted(n) => [n]
    case Abandoned(n) => [n]
    case _ => []
  }

  function AcknowledgedBy(e: Effect): seq<string> {
    match e
    case AcknowledgeCall(id) => [id]
    case _ => []
  }

  /** What the callback was called with, in order. */
  function Delivered(log: seq<Effect>): seq<Notification> {
    if log == [] then [] else Delivered(log[..|log| - 1]) + DeliveredBy(log[|log| - 1])
  }

  function Lost(log: seq<Effect>): seq<Notification> {
    if log == [] then [] else Lost(log[..|log| - 1]) + LostBy(log[|log| - 1])
  }

  function Acknowledged(log: seq<Effect>): seq<string> {
    if log == [] then [] else Acknowledged(log[..|log| - 1]) + AcknowledgedBy(log[|log| - 1])
  }

  function ReceivedBy(op: Op): seq<Notification> {
    match op
    case Received(n, _) => [n]
    case _ => []
  }

  function AllReceived(ops: seq<Op>): seq<Notification> {
    if ops == [] then [] else AllReceived(ops[..|ops| - 1]) + ReceivedBy(ops[|ops| - 1])
  }

  function IdsOnReceive(ns: seq<Notification>): seq<string> {
    if ns == [] then []
    else IdsOnReceive(ns[..|ns| - 1]) + if ns[|ns| - 1].acknowledgment == OnReceive then [ns[|ns| - 1].id] else []
  }

  lemma LogAppend(log: seq<Effect>, e: Effect)
    ensures Delivered(log + [e]) == Delivered(log) + DeliveredBy(e)
    ensures Lost(log + [e]) == Lost(log) + LostBy(e)
    ensures Acknowledged(log + [e]) == Acknowledged(log) + AcknowledgedBy(e)
  {
    assert (log + [e])[..|log|] == log;
  }

  lemma LogAppendAck(log: seq<Effect>, n: Notification)
    ensures Delivered(log + Acknowledge(n)) == Delivered(log) && Lost(log + Acknowledge(n)) == Lost(log)
    ensures Acknowledged(log + Acknowledge(n)) == Acknowledged(log) + IdsOnReceive([n])
  {
    assert IdsOnReceive([n][..0]) == [];
    if n.acknowledgment == OnReceive {
      LogAppend(log, AcknowledgeCall(n.id));
    } else {
      assert log + [] == log;
    }
  }

  lemma {:induction false} LogAppendCalls(log: seq<Effect>, name: string, ns: seq<Notification>)
    ensures Delivered(log + CallAll(name, ns)) == Delivered(log) + ns
    ensures Lost(log + CallAll(name, ns)) == Lost(log) && Acknowledged(log + CallAll(name, ns)) == Acknowledged(log)
    decreases |ns|
  {
    hide Delivered, Lost, Acknowledged;
    if ns == [] {
      assert log + [] == log;
    } else {
      LogAppend(log, Called(name, ns[0]));
      LogAppendCalls(log + [Called(name, ns[0])], name, ns[1..]);
      assert log + CallAll(name, ns) == (log + [Called(name, ns[0])]) + CallAll(name, ns[1..]);
      assert Delivered(log) + [ns[0]] + ns[1..] == Delivered(log) + ns;
    }
  }

  lemma NothingLogged()
    ensures Delivered([]) == [] && Lost([]) == [] && Acknowledged([]) == []
  {
  }

  /** What one operation adds to the log, and where notifications stand afterwards. */
  lemma PerformAccounts(s: Service, op: Op)
    ensures
      var s' := Perform(s, op);
      && Acknowledged(s'.log) == Acknowledged(s.log) + IdsOnReceive(ReceivedBy(op))
      && match op
         case Registered(NoCallback) =>
           s'.pending == s.pending && s'.posted == s.posted
           && Delivered(s'.log) == Delivered(s.log) && Lost(s'.log) == Lost(s.log)
         case Registered(Callback(_)) =>
           s'.pending == [] && s'.posted == s.posted
           && Delivered(s'.log) == Delivered(s.log) + s.pending && Lost(s'.log) == Lost(s.log)
         case Received(n, alive) =>
           if s.callback.NoCallback? then
             s'.posted == s.posted && Delivered(s'.log) == Delivered(s.log)
             && s'.pending == (if |s.pending| > 100 then s.pending[1..] else s.pending) + [n]
             && Lost(s'.log) == if |s.pending| > 100 then Lost(s.log) + [s.pending[0]] else Lost(s.log)
           else
             s'.pending == s.pending && Lost(s'.log) == Lost(s.log)
             && s'.posted == (if alive then s.posted + [n] else s.posted)
             && Delivered(s'.log) == if alive then Delivered(s.log) else Delivered(s.log) + [n]
         case _ =>
           s'.pending == s.pending
           && if s.posted == [] then s' == s
              else
                var called := op.DispatcherRuns? && s.callback.Callback?;
                s'.posted == s.posted[1..]
                && Delivered(s'.log) == (if called then Delivered(s.log) + [s.posted[0]] else Delivered(s.log))
                && Lost(s'.log) == if called then Lost(s.log) else Lost(s.log) + [s.posted[0]]
  {
    hide Delivered, Lost, Acknowledged;
    NoIds();
    match op
    case Registered(NoCallback) =>
    case Registered(Callback(name)) => LogAppendCalls(s.log, name, s.pending);
    case Received(n, alive) => ReceiveAccounts(s, n, alive);
    case DispatcherRuns =>
      if s.posted != [] {
        LogAppend(s.log, if s.callback.Callback? then Called(s.callback.name, s.posted[0]) else Faulted(s.posted[0]));
      }
    case DispatcherGoes =>
      if s.posted != [] {
        LogAppend(s.log, Abandoned(s.posted[0]));
      }
  }

  lemma NoIds()
    ensures IdsOnReceive([]) == [] && forall ids: seq<string> {:trigger ids + []} :: ids + [] == ids
  {
  }

  lemma ReceiveAccounts(s: Service, n: Notification, alive: bool)
    ensures
      var s' := Receive(s, n, alive);
      && Acknowledged(s'.log) == Acknowledged(s.log) + IdsOnReceive([n])
      && Delivered(s'.log)
         == (if s.callback.Callback? && !alive then Delivered(s.log) + [n] else Delivered(s.log))
      && Lost(s'.log)
         == if s.callback.NoCallback? && |s.pending| > 100 then Lost(s.log) + [s.pending[0]] else Lost(s.log)
  {
    hide Delivered, Lost, Acknowledged, IdsOnReceive;
    var log := s.log;
    if s.callback.Callback? && !alive {
      LogAppend(log, Called(s.callback.name, n));
      log := log + [Called(s.callback.name, n)];
    } else if s.callback.NoCallback? && |s.pending| > 100 {
      LogAppend(log, WarnedTooMany(s.pending[0]));
      log := log + [WarnedTooMany(s.pending[0])];
    }
    assert Acknowledged(log) == Acknowledged(s.log) by { assert Acknowledged(s.log) + [] == Acknowledged(s.log); }
    assert Delivered(s.log) + [] == Delivered(s.log) && Lost(s.log) + [] == Lost(s.log);
    LogAppendAck(log, n);
  }

  // ---------------------------------------------------------------------------
  // Nothing vanishes

  function Count(ns: seq<Notification>, n: Notification): nat {
    multiset(ns)[n]
  }

  lemma CountAppend(a: seq<Notification>, b: seq<Notification>, n: Notification)
    ensures Count(a + b, n) == Count(a, n) + Count(b, n)
    ensures Count([], n) == 0 && a + [] == a
  {
  }

  lemma CountFirst(ns: seq<Notification>, n: Notification)
    requires ns != []
    ensures Count(ns, n) == Count([ns[0]], n) + Count(ns[1..], n)
  {
    assert ns == [ns[0]] + ns[1..];
  }

  /** How often a notification is delivered, with the dispatcher, queued, or lost. */
  function Accounted(s: Service, n: Notification): nat {
    Count(Delivered(s.log), n) + Count(s.posted, n) + Count(s.pending, n) + Count(Lost(s.log), n)
  }

  lemma PerformConserves(s: Service, op: Op, n: Notification)
    ensures Accounted(Perform(s, op), n) == Accounted(s, n) + Count(ReceivedBy(op), n)
  {
    hide Delivered, Lost, Acknowledged, Perform, IdsOnReceive, Count;
    PerformAccounts(s, op);
    CountAppend([], [], n);
    match op
    case Registered(_) =>
      CountAppend(Delivered(s.log), s.pending, n);
    case Received(m, _) =>
      if s.callback.Callback? {
        CountAppend(s.posted, [m], n);
        CountAppend(Delivered(s.log), [m], n);
      } else if |s.pending| > 100 {
        CountFirst(s.pending, n);
        CountAppend(s.pending[1..], [m], n);
        CountAppend(Lost(s.log), [s.pending[0]], n);
      } else {
        CountAppend(s.pending, [m], n);
      }
    case _ =>
      if s.posted != [] {
        CountFirst(s.posted, n);
        CountAppend(Delivered(s.log), [s.posted[0]], n);
        CountAppend(Lost(s.log), [s.posted[0]], n);
      }
  }

  lemma {:induction false} RunConserves(ops: seq<Op>, n: Notification)
    ensures Count(AllReceived(ops), n) == Accounted(PerformAll(NewService, ops), n)
    decreases |ops|
  {
    hide Delivered, Lost, Acknowledged, Perform, Count, Accounted;
    if ops == [] {
      StartsEmpty(n);
    } else {
      var init, op := ops[..|ops| - 1], ops[|ops| - 1];
      RunConserves(init, n);
      PerformConserves(PerformAll(NewService, init), op, n);
      CountAppend(AllReceived(init), ReceivedBy(op), n);
    }
  }

  lemma StartsEmpty(n: Notification)
    ensures Accounted(NewService, n) == 0 == Count([], n)
  {
    NothingLogged();
  }

  /** Every notification received is delivered, on its way, or lost in one of the three ways logged; none twice. */
  lemma EverythingAccountedFor(ops: seq<Op>)
    ensures
      var s := PerformAll(NewService, ops);
      multiset(AllReceived(ops))
        == multiset(Delivered(s.log)) + multiset(s.posted) + multiset(s.pending) + multiset(Lost(s.log))
  {
    hide PerformAll, AllReceived, Delivered, Lost;
    var s := PerformAll(NewService, ops);
    forall n: Notification
      ensures multiset(AllReceived(ops))[n]
           == (multiset(Delivered(s.log)) + multiset(s.posted) + multiset(s.pending) + multiset(Lost(s.log)))[n]
    {
      RunConserves(ops, n);
    }
  }

  /** Everything that asks for it is acknowledged on receipt, lost or not, in order. */
  lemma {:induction false} AcknowledgesAll(ops: seq<Op>)
    ensures Acknowledged(PerformAll(NewService, ops).log) == IdsOnReceive(AllReceived(ops))
    decreases |ops|
  {
    hide Delivered, Lost, Acknowledged, Perform, IdsOnReceive;
    if ops == [] {
      NothingLogged();
      NoIds();
    } else {
      var init, op := ops[..|ops| - 1], ops[|ops| - 1];
      AcknowledgesAll(init);
      PerformAccounts(PerformAll(NewService, init), op);
      IdsAppend(AllReceived(init), op);
    }
  }

  lemma IdsAppend(ns: seq<Notification>, op: Op)
    ensures IdsOnReceive(ns + ReceivedBy(op)) == IdsOnReceive(ns) + IdsOnReceive(ReceivedBy(op))
  {
    match op
    case Received(n, _) =>
      assert (ns + [n])[..|ns|] == ns;
      assert [n][..0] == [];
    case _ =>
      assert ns + [] == ns;
  }

  // ---------------------------------------------------------------------------
  // Which callback, and which way

  function LastRegistered(ops: seq<Op>): Callback {
    if ops == [] then NoCallback
    else
      match ops[|ops| - 1]
      case Registered(cb) => cb
      case _ => LastRegistered(ops[..|ops| - 1])
  }

  /** What one more operation adds to the log, callbacks by name: the queue, the notification received, or the next task. */
  function Adds(s: Service, callback: Callback, op: Op): seq<Effect> {
    match op
    case Registered(cb) => if cb.Callback? then seq(|s.pending|, i requires 0 <= i < |s.pending| => Called(cb.name, s.pending[i])) else []
    case Received(n, alive) =>
      (if callback.NoCallback? then (if |s.pending| == 101 then [WarnedTooMany(s.pending[0])] else [])
       else if alive then [] else [Called(callback.name, n)])
      + if n.acknowledgment == OnReceive then [AcknowledgeCall(n.id)] else []
    case DispatcherRuns =>
      if s.posted == [] then []
      else if callback.Callback? then [Called(callback.name, s.posted[0])] else [Faulted(s.posted[0])]
    case DispatcherGoes => if s.posted == [] then [] else [Abandoned(s.posted[0])]
  }

  /** The dispatcher's tasks: one more for a notification that finds it and a callback, one fewer when it runs or goes. */
  function WithTasks(posted: seq<Notification>, callback: Callback, op: Op): seq<Notification> {
    match op
    case Registered(_) => posted
    case Received(n, alive) => if alive && callback.Callback? then posted + [n] else posted
    case _ => if posted == [] then [] else posted[1..]
  }

  lemma {:induction false} CallAllExactly(name: string, ns: seq<Notification>)
    ensures CallAll(name, ns) == seq(|ns|, i requires 0 <= i < |ns| => Called(name, ns[i]))
    decreases |ns|
  {
    if ns != [] {
      CallAllExactly(name, ns[1..]);
    }
  }

  lemma {:induction false} CallbackIsLastRegistered(ops: seq<Op>)
    ensures PerformAll(NewService, ops).callback == LastRegistered(ops)
    decreases |ops|
  {
    if ops != [] {
      CallbackIsLastRegistered(ops[..|ops| - 1]);
    }
  }

  /**
   Over every run: each delivery names the callback registered last, a notification goes
   to the dispatcher exactly when there is one and a callback, and nothing else is done.
   */
  lemma NextEffects(ops: seq<Op>, op: Op)
    ensures
      var s, s' := PerformAll(NewService, ops), PerformAll(NewService, ops + [op]);
      var callback := LastRegistered(ops);
      && s'.log == s.log + Adds(s, callback, op)
      && s'.posted == WithTasks(s.posted, callback, op)
  {
    hide PerformAll, CallAll;
    CallbackIsLastRegistered(ops);
    QueueIsBounded(ops);
    var longer := PerformNext(ops, op);
    var s := PerformAll(NewService, ops);
    match op
    case Registered(cb) => if cb.Callback? { CallAllExactly(cb.name, s.pending); }
    case Received(n, alive) => ReceiveEffects(s, n, alive);
    case _ =>
  }

  lemma ReceiveEffects(s: Service, n: Notification, alive: bool)
    requires |s.pending| <= 101
    ensures Receive(s, n, alive).log == s.log + Adds(s, s.callback, Received(n, alive))
  {
    var ack := Acknowledge(n);
    assert s.log + [] == s.log && [] + ack == ack;
    if s.callback.Callback? {
      assert s.log + [Called(s.callback.name, n)] + ack == s.log + ([Called(s.callback.name, n)] + ack);
    } else if |s.pending| > 100 {
      assert s.log + [WarnedTooMany(s.pending[0])] + ack == s.log + ([WarnedTooMany(s.pending[0])] + ack);
    }
  }

  // ---------------------------------------------------------------------------
  // The queue: the last 101 of the current period without a callback

  /** What the current period without a callback has brought, without bound. */
  datatype Period = Period(listening: bool, since: seq<Notification>)

  function LastOnes(ns: seq<Notification>): seq<Notification> {
    if |ns| <= Capacity then ns else ns[|ns| - Capacity..]
  }

  function CurrentPeriod(ops: seq<Op>): Period {
    if ops == [] then Period(false, [])
    else
      var p := CurrentPeriod(ops[..|ops| - 1]);
      match ops[|ops| - 1]
      case Registered(cb) => if cb.Callback? then Period(true, []) else p.(listening := false)
      case Received(n, _) => if p.listening then p else p.(since := p.since + [n])
      case _ => p
  }

  lemma {:induction false} QueueIsTheLastOnes(ops: seq<Op>)
    ensures
      var s, p := PerformAll(NewService, ops), CurrentPeriod(ops);
      && (s.callback.Callback? <==> p.listening) && (p.listening ==> p.since == [])
      && s.pending == LastOnes(p.since)
    decreases |ops|
  {
    hide LastOnes, Perform, Delivered, Lost, Acknowledged;
    NoneYet();
    if ops != [] {
      var init, op := ops[..|ops| - 1], ops[|ops| - 1];
      QueueIsTheLastOnes(init);
      var s := PerformAll(NewService, init);
      PerformAccounts(s, op);
      CallbackAfter(s, op);
      if op.Received? {
        LastOnesPush(CurrentPeriod(init).since, op.n);
      }
    }
  }

  lemma NoneYet()
    ensures LastOnes([]) == []
  {
  }

  lemma CallbackAfter(s: Service, op: Op)
    ensures Perform(s, op).callback == if op.Registered? then op.cb else s.callback
  {
  }

  lemma LastOnesPush(ns: seq<Notification>, n: Notification)
    ensures
      var last := LastOnes(ns);
      LastOnes(ns + [n]) == (if |last| > 100 then last[1..] else last) + [n]
  {
  }

  lemma QueueIsBounded(ops: seq<Op>)
    ensures
      var s := PerformAll(NewService, ops);
      |s.pending| <= 101 && (s.callback.Callback? ==> s.pending == [])
  {
    hide PerformAll, CurrentPeriod;
    QueueIsTheLastOnes(ops);
  }

  /**
   Of what the current period without a callback has brought, a notification is still
   queued exactly when fewer than 101 newer ones have come.
   */
  lemma LostExactly(ops: seq<Op>, i: nat)
    requires i < |CurrentPeriod(ops).since|
    ensures
      var s, since := PerformAll(NewService, ops), CurrentPeriod(ops).since;
      var newer := |since| - 1 - i;
      if newer < 101 then newer < |s.pending| && s.pending[|s.pending| - 1 - newer] == since[i]
      else |s.pending| == 101 && forall k :: 0 <= k < |s.pending| ==> s.pending[k] == since[|since| - 101 + k]
  {
    hide PerformAll, CurrentPeriod;
    QueueIsTheLastOnes(ops);
  }

  // ---------------------------------------------------------------------------
  // Order

  /** `a` can be had from `b` by leaving things out. */
  predicate Subsequence(a: seq<Notification>, b: seq<Notification>)
    decreases |b|
  {
    if a == [] then true
    else if b == [] then false
    else
      (a[|a| - 1] == b[|b| - 1] && Subsequence(a[..|a| - 1], b[..|b| - 1]))
      || Subsequence(a, b[..|b| - 1])
  }

  lemma SubsequenceKeep(a: seq<Notification>, b: seq<Notification>, n: Notification)
    requires Subsequence(a, b)
    ensures Subsequence(a + [n], b + [n])
  {
    assert (a + [n])[..|a|] == a && (b + [n])[..|b|] == b;
  }

  lemma {:induction false} SubsequenceWithout(a: seq<Notification>, b: seq<Notification>, k: nat)
    requires Subsequence(a, b) && k < |a|
    ensures Subsequence(a[..k] + a[k + 1..], b)
    decreases |b|
  {
    var m := |a| - 1;
    if a[m] == b[|b| - 1] && Subsequence(a[..m], b[..|b| - 1]) {
      if k == m {
        assert a[..k] + a[k + 1..] == a[..m];
        SubsequenceLonger(a[..m], b);
      } else {
        SubsequenceWithout(a[..m], b[..|b| - 1], k);
        SubsequenceExtend(a[..m][..k] + a[..m][k + 1..], a[m], b);
        LastKept(a, k);
      }
    } else {
      SubsequenceWithout(a, b[..|b| - 1], k);
      SubsequenceLonger(a[..k] + a[k + 1..], b);
    }
  }

  lemma SubsequenceExtend(a: seq<Notification>, n: Notification, b: seq<Notification>)
    requires b != [] && b[|b| - 1] == n && Subsequence(a, b[..|b| - 1])
    ensures Subsequence(a + [n], b)
  {
    assert (a + [n])[..|a|] == a;
  }

  lemma LastKept(a: seq<Notification>, k: nat)
    requires k < |a| - 1
    ensures a[..|a| - 1][..k] + a[..|a| - 1][k + 1..] + [a[|a| - 1]] == a[..k] + a[k + 1..]
  {
    assert a[..|a| - 1][..k] == a[..k];
    assert a[..|a| - 1][k + 1..] + [a[|a| - 1]] == a[k + 1..];
  }

  lemma SubsequenceLonger(a: seq<Notification>, b: seq<Notification>)
    requires b != [] && Subsequence(a, b[..|b| - 1])
    ensures Subsequence(a, b)
  {
  }

  /** Two members of a subsequence stand in the same order in the whole. */
  lemma {:induction false} SubsequencePositions(a: seq<Notification>, b: seq<Notification>, i: nat, j: nat)
    returns (p: nat, q: nat)
    requires Subsequence(a, b) && i < j < |a|
    ensures p < q < |b| && b[p] == a[i] && b[q] == a[j]
    decreases |b|
  {
    var m := |a| - 1;
    if a[m] == b[|b| - 1] && Subsequence(a[..m], b[..|b| - 1]) {
      if j == m {
        p := SubsequencePosition(a[..m], b[..|b| - 1], i);
        q := |b| - 1;
      } else {
        p, q := SubsequencePositions(a[..m], b[..|b| - 1], i, j);
      }
    } else {
      p, q := SubsequencePositions(a, b[..|b| - 1], i, j);
    }
  }

  lemma {:induction false} SubsequencePosition(a: seq<Notification>, b: seq<Notification>, i: nat) returns (p: nat)
    requires Subsequence(a, b) && i < |a|
    ensures p < |b| && b[p] == a[i]
    decreases |b|
  {
    var m := |a| - 1;
    if a[m] == b[|b| - 1] && Subsequence(a[..m], b[..|b| - 1]) {
      if i == m {
        p := |b| - 1;
      } else {
        p := SubsequencePosition(a[..m], b[..|b| - 1], i);
      }
    } else {
      p := SubsequencePosition(a, b[..|b| - 1], i);
    }
  }

  /** Delivered, then posted, then queued: the order in which notifications are to arrive at the callback. */
  function Order(s: Service): seq<Notification> {
    Delivered(s.log) + s.posted + s.pending
  }

  predicate InOrder(s: Service, received: seq<Notification>) {
    Subsequence(Order(s), received)
  }

  /** The operation delivers something while an older notification still waits with the dispatcher. */
  predicate Overtakes(s: Service, op: Op) {
    && s.posted != []
    && match op
       case Registered(cb) => cb.Callback? && s.pending != []
       case Received(_, alive) => s.callback.Callback? && !alive
       case _ => false
  }

  predicate Distinct(ns: seq<Notification>) {
    forall i, j :: 0 <= i < j < |ns| ==> ns[i] != ns[j]
  }

  /** The queue is empty while there is a callback. */
  predicate QueueSound(s: Service) {
    s.callback.Callback? ==> s.pending == []
  }

  lemma KeepsOrder(s: Service, op: Op, received: seq<Notification>)
    requires QueueSound(s) && InOrder(s, received) && !Overtakes(s, op)
    ensures InOrder(Perform(s, op), received + ReceivedBy(op))
  {
    hide Delivered, Lost, Acknowledged, Subsequence, Perform;
    match op
    case Registered(cb) =>
      PerformAccounts(s, op);
      assert received + [] == received;
      assert Order(Perform(s, op)) == Order(s);
    case Received(n, alive) => ReceiveKeepsOrder(s, n, alive, received);
    case _ =>
      assert received + [] == received;
      TaskKeepsOrder(s, op, received);
  }

  lemma ReceiveKeepsOrder(s: Service, n: Notification, alive: bool, received: seq<Notification>)
    requires QueueSound(s) && InOrder(s, received) && !Overtakes(s, Received(n, alive))
    ensures InOrder(Perform(s, Received(n, alive)), received + [n])
  {
    hide Delivered, Lost, Acknowledged, Subsequence, Perform;
    PerformAccounts(s, Received(n, alive));
    if s.callback.Callback? || |s.pending| <= 100 {
      SubsequenceKeep(Order(s), received, n);
      assert Order(Perform(s, Received(n, alive))) == Order(s) + [n];
    } else {
      DiscardKeepsOrder(Delivered(s.log) + s.posted, s.pending, n, received);
    }
  }

  lemma DiscardKeepsOrder(a: seq<Notification>, b: seq<Notification>, n: Notification, whole: seq<Notification>)
    requires b != [] && Subsequence(a + b, whole)
    ensures Subsequence(a + (b[1..] + [n]), whole + [n])
  {
    hide Subsequence;
    SubsequenceKeep(a + b, whole, n);
    SubsequenceWithout(a + b + [n], whole + [n], |a|);
    LeaveOut(a, b, [n]);
    assert a + b[1..] + [n] == a + (b[1..] + [n]);
  }

  lemma TaskKeepsOrder(s: Service, op: Op, received: seq<Notification>)
    requires InOrder(s, received) && (op.DispatcherRuns? || op.DispatcherGoes?)
    ensures InOrder(Perform(s, op), received)
  {
    hide Delivered, Lost, Acknowledged, Subsequence, Perform;
    PerformAccounts(s, op);
    if s.posted != [] {
      if op.DispatcherRuns? && s.callback.Callback? {
        assert Order(Perform(s, op)) == Order(s);
      } else {
        LeftOutKeepsOrder(Delivered(s.log), s.posted, s.pending, received);
        assert Order(Perform(s, op)) == Delivered(s.log) + s.posted[1..] + s.pending;
      }
    }
  }

  lemma LeftOutKeepsOrder(a: seq<Notification>, b: seq<Notification>, c: seq<Notification>, whole: seq<Notification>)
    requires b != [] && Subsequence(a + b + c, whole)
    ensures Subsequence(a + b[1..] + c, whole)
  {
    hide Subsequence;
    SubsequenceWithout(a + b + c, whole, |a|);
    LeaveOut(a, b, c);
  }

  lemma LeaveOut(a: seq<Notification>, b: seq<Notification>, c: seq<Notification>)
    requires b != []
    ensures (a + b + c)[..|a|] + (a + b + c)[|a| + 1..] == a + b[1..] + c
  {
  }

  /** Among distinct notifications, two subsequences agree on which of two members comes first. */
  lemma OrderDecided(a: seq<Notification>, i: nat, j: nat, c: seq<Notification>, k: nat, l: nat,
                     whole: seq<Notification>)
    requires Distinct(whole) && Subsequence(a, whole) && Subsequence(c, whole)
    requires i < j < |a| && k < |c| && l < |c| && k != l && c[k] == a[i] && c[l] == a[j]
    ensures k < l
  {
    hide Subsequence;
    var p, q := SubsequencePositions(a, whole, i, j);
    if l < k {
      var p', q' := SubsequencePositions(c, whole, l, k);
      assert false;
    }
  }

  lemma OvertakingBreaksOrder(s: Service, op: Op, received: seq<Notification>)
    requires QueueSound(s) && InOrder(s, received) && Overtakes(s, op)
    requires Distinct(received + ReceivedBy(op))
    ensures !InOrder(Perform(s, op), received + ReceivedBy(op))
  {
    hide Delivered, Lost, Acknowledged, Subsequence, Perform, Distinct;
    PerformAccounts(s, op);
    var s', d, after := Perform(s, op), |Delivered(s.log)|, received + ReceivedBy(op);
    if InOrder(s', after) {
      match op {
        case Registered(_) =>
          // the first of the queue is delivered before the first of the posted
          assert after == received;
          assert Order(s')[d + |s.pending|] == s.posted[0] == Order(s)[d];
          assert Order(s')[d] == s.pending[0] == Order(s)[d + |s.posted|];
          OrderDecided(Order(s), d, d + |s.posted|, Order(s'), d + |s.pending|, d, after);
        case Received(n, _) =>
          SubsequenceKeep(Order(s), received, n);
          var came := Order(s) + [n];
          assert Order(s')[d + 1] == s.posted[0] == came[d] && Order(s')[d] == n == came[|came| - 1];
          OrderDecided(came, d, |came| - 1, Order(s'), d + 1, d, after);
      }
      assert false;
    }
  }

  ghost predicate NeverOvertakes(ops: seq<Op>) {
    forall k :: 0 <= k < |ops| ==> !Overtakes(PerformAll(NewService, ops[..k]), ops[k])
  }

  ghost predicate AlwaysInOrder(ops: seq<Op>) {
    forall k :: 0 <= k <= |ops| ==> InOrder(PerformAll(NewService, ops[..k]), AllReceived(ops[..k]))
  }

  lemma Prefix(ops: seq<Op>, k: nat)
    requires k < |ops|
    ensures ops[..k + 1] != [] && ops[..k + 1][..k] == ops[..k] && ops[..k + 1][k] == ops[k]
  {
  }

  lemma {:induction false} OrderedUpTo(ops: seq<Op>, k: nat)
    requires k <= |ops| && NeverOvertakes(ops)
    ensures InOrder(PerformAll(NewService, ops[..k]), AllReceived(ops[..k]))
    decreases k
  {
    hide InOrder, Perform;
    if k == 0 {
      assert ops[..0] == [];
      StartsInOrder();
    } else {
      OrderedUpTo(ops, k - 1);
      Prefix(ops, k - 1);
      QueueIsBounded(ops[..k - 1]);
      KeepsOrder(PerformAll(NewService, ops[..k - 1]), ops[k - 1], AllReceived(ops[..k - 1]));
    }
  }

  lemma StartsInOrder()
    ensures InOrder(NewService, [])
  {
    NothingLogged();
  }

  /**
   Over a run of distinct notifications, they are delivered and kept in the order they
   came, at every moment, exactly when no drain and no direct call overtakes a posted one.
   */
  lemma InOrderExactly(ops: seq<Op>)
    requires Distinct(AllReceived(ops))
    ensures AlwaysInOrder(ops) <==> NeverOvertakes(ops)
  {
    hide InOrder, Perform, Overtakes, PerformAll, AllReceived, Distinct;
    if NeverOvertakes(ops) {
      forall k | 0 <= k <= |ops| ensures InOrder(PerformAll(NewService, ops[..k]), AllReceived(ops[..k])) {
        OrderedUpTo(ops, k);
      }
    }
    if AlwaysInOrder(ops) {
      forall k | 0 <= k < |ops| ensures !Overtakes(PerformAll(NewService, ops[..k]), ops[k]) {
        var longer := PerformNext(ops[..k], ops[k]);
        assert longer == ops[..k + 1];
        QueueIsBounded(ops[..k]);
        DistinctPrefix(ops, k + 1);
        assert InOrder(PerformAll(NewService, ops[..k]), AllReceived(ops[..k]));
        assert InOrder(PerformAll(NewService, ops[..k + 1]), AllReceived(ops[..k + 1]));
        if Overtakes(PerformAll(NewService, ops[..k]), ops[k]) {
          OvertakingBreaksOrder(PerformAll(NewService, ops[..k]), ops[k], AllReceived(ops[..k]));
        }
      }
    }
  }

  lemma {:induction false} DistinctPrefix(ops: seq<Op>, k: nat)
    requires k <= |ops| && Distinct(AllReceived(ops))
    ensures Distinct(AllReceived(ops[..k]))
    decreases |ops| - k
  {
    if k == |ops| {
      assert ops[..k] == ops;
    } else {
      DistinctPrefix(ops, k + 1);
      Prefix(ops, k);
      var a, b := AllReceived(ops[..k]), AllReceived(ops[..k + 1]);
      assert b == a + ReceivedBy(ops[k]);
      assert forall i :: 0 <= i < |a| ==> b[i] == a[i];
    }
  }

  /** Without overtaking, what the callback was called with came in this order, repeated notifications or not. */
  lemma DeliversInOrder(ops: seq<Op>)
    requires NeverOvertakes(ops)
    ensures Subsequence(Delivered(PerformAll(NewService, ops).log), AllReceived(ops))
  {
    hide Subsequence, PerformAll, AllReceived, Delivered;
    assert ops[..|ops|] == ops;
    OrderedUpTo(ops, |ops|);
    var s := PerformAll(NewService, ops);
    assert Order(s) == Delivered(s.log) + (s.posted + s.pending) + [];
    DropMiddle(Delivered(s.log), s.posted + s.pending, [], AllReceived(ops));
    assert Delivered(s.log) + [] == Delivered(s.log);
  }

  lemma {:induction false} DropMiddle(a: seq<Notification>, b: seq<Notification>, c: seq<Notification>, whole: seq<Notification>)
    requires Subsequence(a + b + c, whole)
    ensures Subsequence(a + c, whole)
    decreases |b|
  {
    hide Subsequence;
    if b == [] {
      assert a + b + c == a + c;
    } else {
      LeftOutKeepsOrder(a, b, c, whole);
      DropMiddle(a, b[1..], c, whole);
    }
  }

  lemma {:induction false} SubsequenceOfMore(a: seq<Notification>, b: seq<Notification>, more: seq<Notification>)
    requires Subsequence(a, b)
    ensures Subsequence(a, b + more)
    decreases |more|
  {
    if more == [] {
      assert b + more == b;
    } else {
      SubsequenceOfMore(a, b, more[..|more| - 1]);
      assert (b + more)[..|b + more| - 1] == b + more[..|more| - 1];
      SubsequenceLonger(a, b + more);
    }
  }

  // ---------------------------------------------------------------------------
  // The order of what is delivered

  /** How many posted tasks, from the first on, a later notification has overtaken. */
  function OvertakenAfter(s: Service, overtaken: nat, op: Op): nat {
    if Overtakes(s, op) then |s.posted|
    else if (op.DispatcherRuns? || op.DispatcherGoes?) && overtaken > 0 then overtaken - 1
    else overtaken
  }

  function Overtaken(ops: seq<Op>): nat {
    if ops == [] then 0
    else
      var init := ops[..|ops| - 1];
      OvertakenAfter(PerformAll(NewService, init), Overtaken(init), ops[|ops| - 1])
  }

  /** The operation calls the callback with a notification that has been overtaken. */
  predicate DeliversOvertaken(s: Service, overtaken: nat, op: Op) {
    op.DispatcherRuns? && overtaken > 0 && s.callback.Callback?
  }

  ghost predicate NeverDeliversOvertaken(ops: seq<Op>) {
    forall k :: 0 <= k < |ops| ==> !DeliversOvertaken(PerformAll(NewService, ops[..k]), Overtaken(ops[..k]), ops[k])
  }

  /** Without the overtaken tasks, all is in the order received. */
  predicate OrderedBut(s: Service, overtaken: nat, received: seq<Notification>) {
    overtaken <= |s.posted| && InOrder(s.(posted := s.posted[overtaken..]), received)
  }

  lemma OvertakingLeavesOrder(s: Service, overtaken: nat, op: Op, received: seq<Notification>)
    requires QueueSound(s) && OrderedBut(s, overtaken, received) && !DeliversOvertaken(s, overtaken, op)
    ensures OrderedBut(Perform(s, op), OvertakenAfter(s, overtaken, op), received + ReceivedBy(op))
  {
    hide Delivered, Lost, Acknowledged, Subsequence;
    var o' := OvertakenAfter(s, overtaken, op);
    if op.DispatcherRuns? || op.DispatcherGoes? {
      PoppingLeavesOrder(s, overtaken, op, received);
    } else {
      var front, rest := s.posted[overtaken..o'], s.posted[o'..];
      assert Order(s.(posted := s.posted[overtaken..])) == Delivered(s.log) + front + (rest + s.pending) by {
        assert s.posted[overtaken..] == front + rest;
      }
      DropMiddle(Delivered(s.log), front, rest + s.pending, received);
      var t := s.(posted := rest);
      assert Order(t) == Delivered(s.log) + (rest + s.pending);
      KeepsOrder(t, op, received);
      assert Perform(t, op) == Perform(s, op).(posted := Perform(s, op).posted[o'..]);
    }
  }

  lemma PoppingLeavesOrder(s: Service, overtaken: nat, op: Op, received: seq<Notification>)
    requires QueueSound(s) && OrderedBut(s, overtaken, received) && !DeliversOvertaken(s, overtaken, op)
    requires op.DispatcherRuns? || op.DispatcherGoes?
    ensures OrderedBut(Perform(s, op), OvertakenAfter(s, overtaken, op), received + ReceivedBy(op))
  {
    hide Delivered, Lost, Acknowledged, Subsequence, Perform;
    assert received + [] == received;
    PerformAccounts(s, op);
    if overtaken > 0 {
      var s' := Perform(s, op);
      assert s'.posted[overtaken - 1..] == s.posted[overtaken..];
      assert Order(s'.(posted := s'.posted[overtaken - 1..])) == Order(s.(posted := s.posted[overtaken..]));
    } else {
      assert s.(posted := s.posted[0..]) == s;
      KeepsOrder(s, op, received);
      assert Perform(s, op).posted[0..] == Perform(s, op).posted;
    }
  }

  lemma {:induction false} OrderedButUpTo(ops: seq<Op>, k: nat)
    requires k <= |ops| && NeverDeliversOvertaken(ops)
    ensures OrderedBut(PerformAll(NewService, ops[..k]), Overtaken(ops[..k]), AllReceived(ops[..k]))
    decreases k
  {
    hide InOrder, Perform, OvertakenAfter;
    if k == 0 {
      assert ops[..0] == [] && NewService.(posted := NewService.posted[0..]) == NewService;
      StartsInOrder();
    } else {
      OrderedButUpTo(ops, k - 1);
      Prefix(ops, k - 1);
      QueueIsBounded(ops[..k - 1]);
      OvertakingLeavesOrder(PerformAll(NewService, ops[..k - 1]), Overtaken(ops[..k - 1]), ops[k - 1], AllReceived(ops[..k - 1]));
    }
  }

  /** What waits, posted or queued, is always in the order received. */
  lemma {:induction false} WaitsInOrder(ops: seq<Op>)
    ensures var s := PerformAll(NewService, ops); Subsequence(s.posted + s.pending, AllReceived(ops))
    decreases |ops|
  {
    hide Subsequence, Perform;
    if ops == [] {
      StartsInOrder();
      assert NewService.posted + NewService.pending == Order(NewService);
    } else {
      var init := ops[..|ops| - 1];
      WaitsInOrder(init);
      QueueIsBounded(init);
      WaitingKept(PerformAll(NewService, init), ops[|ops| - 1], AllReceived(init));
    }
  }

  lemma WaitingKept(s: Service, op: Op, received: seq<Notification>)
    requires QueueSound(s) && Subsequence(s.posted + s.pending, received)
    ensures Subsequence(Perform(s, op).posted + Perform(s, op).pending, received + ReceivedBy(op))
  {
    hide Subsequence, Delivered, Lost, Acknowledged, Perform;
    if Overtakes(s, op) {
      OvertakingKeepsWaiting(s, op, received);
    } else {
      var t := s.(log := []);
      NothingLogged();
      assert Order(t) == s.posted + s.pending;
      KeepsOrder(t, op, received);
      WaitsWithoutLog(s, op);
      var t' := Perform(t, op);
      assert [] + Delivered(t'.log) + (t'.posted + t'.pending) == Order(t');
      DropMiddle([], Delivered(t'.log), t'.posted + t'.pending, received + ReceivedBy(op));
      assert [] + (t'.posted + t'.pending) == t'.posted + t'.pending;
    }
  }

  lemma WaitsWithoutLog(s: Service, op: Op)
    ensures
      var s', t' := Perform(s, op), Perform(s.(log := []), op);
      t'.posted == s'.posted && t'.pending == s'.pending
  {
  }

  lemma OvertakingKeepsWaiting(s: Service, op: Op, received: seq<Notification>)
    requires QueueSound(s) && Overtakes(s, op) && Subsequence(s.posted + s.pending, received)
    ensures Subsequence(Perform(s, op).posted + Perform(s, op).pending, received + ReceivedBy(op))
  {
    hide Subsequence;
    SubsequenceOfMore(s.posted + s.pending, received, ReceivedBy(op));
    if op.Registered? {
      assert s.posted + s.pending + [] == s.posted + s.pending;
      DropMiddle(s.posted, s.pending, [], received + ReceivedBy(op));
    }
  }

  /** An overtaken task goes back to an operation that overtook it. */
  lemma {:induction false} OvertakenSince(ops: seq<Op>) returns (j: nat, d: nat)
    requires Overtaken(ops) > 0
    ensures j < |ops| && Overtakes(PerformAll(NewService, ops[..j]), ops[j])
    ensures d < |PerformAll(NewService, ops[..j]).posted|
    ensures
      var s, o := PerformAll(NewService, ops), Overtaken(ops);
      o <= |s.posted| && s.posted[..o] == PerformAll(NewService, ops[..j]).posted[d..]
    decreases |ops|
  {
    hide Delivered, Lost, Acknowledged, Perform, Overtakes;
    var n := |ops| - 1;
    var init, op := ops[..n], ops[n];
    var s := PerformAll(NewService, init);
    PerformAccounts(s, op);
    if Overtakes(s, op) {
      OvertakesKeepsPosted(s, op);
      j, d := n, 0;
    } else {
      j, d := OvertakenSince(init);
      assert init[..j] == ops[..j] && init[j] == ops[j];
      if op.DispatcherRuns? || op.DispatcherGoes? {
        var o := Overtaken(init);
        assert s.posted[1..][..o - 1] == s.posted[..o][1..];
        d := d + 1;
      }
    }
  }

  lemma OvertakesKeepsPosted(s: Service, op: Op)
    requires Overtakes(s, op)
    ensures Perform(s, op).posted == s.posted != []
  {
  }

  lemma {:induction false} LogGrows(ops: seq<Op>, k: nat)
    requires k <= |ops|
    ensures Delivered(PerformAll(NewService, ops[..k]).log) <= Delivered(PerformAll(NewService, ops).log)
    ensures AllReceived(ops[..k]) <= AllReceived(ops)
    decreases |ops| - k
  {
    hide Delivered, Lost, Acknowledged, Perform;
    if k == |ops| {
      assert ops[..k] == ops;
    } else {
      LogGrows(ops, k + 1);
      Prefix(ops, k);
      PerformAccounts(PerformAll(NewService, ops[..k]), ops[k]);
    }
  }

  /** What an overtaking operation delivers last is newer than every posted task. */
  lemma OvertakingDelivers(ops: seq<Op>, j: nat) returns (newer: Notification)
    requires j < |ops| && Overtakes(PerformAll(NewService, ops[..j]), ops[j])
    ensures
      var s, d := PerformAll(NewService, ops[..j]), Delivered(PerformAll(NewService, ops[..j + 1]).log);
      && d != [] && d[|d| - 1] == newer
      && exists between :: Subsequence(s.posted + between + [newer], AllReceived(ops[..j + 1]))
  {
    hide Delivered, Lost, Acknowledged, Subsequence, Perform;
    var s, op := PerformAll(NewService, ops[..j]), ops[j];
    Prefix(ops, j);
    WaitsInOrder(ops[..j]);
    QueueIsBounded(ops[..j]);
    PerformAccounts(s, op);
    var received := AllReceived(ops[..j]);
    match op {
      case Registered(_) =>
        newer := s.pending[|s.pending| - 1];
        assert received + [] == received;
        assert s.posted + s.pending[..|s.pending| - 1] + [newer] == s.posted + s.pending;
      case Received(n, _) =>
        newer := n;
        SubsequenceKeep(s.posted + s.pending, received, n);
    }
  }

  lemma DeliveringOvertakenBreaksOrder(ops: seq<Op>, k: nat)
    requires Distinct(AllReceived(ops)) && k < |ops|
    requires DeliversOvertaken(PerformAll(NewService, ops[..k]), Overtaken(ops[..k]), ops[k])
    ensures !Subsequence(Delivered(PerformAll(NewService, ops).log), AllReceived(ops))
  {
    hide Delivered, Lost, Acknowledged, Subsequence, Perform, Overtakes, PerformAll, AllReceived, Overtaken, Distinct;
    var delivered, received := Delivered(PerformAll(NewService, ops).log), AllReceived(ops);
    var s := PerformAll(NewService, ops[..k]);
    var j, d := OvertakenSince(ops[..k]);
    assert ops[..k][..j] == ops[..j] && ops[..k][j] == ops[j];
    var t := PerformAll(NewService, ops[..j]);
    assert s.posted[0] == s.posted[..Overtaken(ops[..k])][0] == t.posted[d];
    var newer := OvertakingDelivers(ops, j);
    var between :| Subsequence(t.posted + between + [newer], AllReceived(ops[..j + 1]));
    var at, late := |Delivered(PerformAll(NewService, ops[..j + 1]).log)| - 1, |Delivered(s.log)|;
    LogGrows(ops, j + 1);
    LogGrows(ops, k);
    LogGrows(ops[..k], j + 1);
    assert ops[..k][..j + 1] == ops[..j + 1];
    LogGrows(ops, k + 1);
    DeliversNext(ops, k);
    if Subsequence(delivered, received) {
      var came := t.posted + between + [newer];
      SubsequenceOfMore(came, AllReceived(ops[..j + 1]), received[|AllReceived(ops[..j + 1])|..]);
      assert received == AllReceived(ops[..j + 1]) + received[|AllReceived(ops[..j + 1])|..];
      assert at < late < |delivered|;
      assert delivered[late] == s.posted[0] == came[d];
      assert delivered[at] == newer == came[|came| - 1];
      OrderDecided(came, d, |came| - 1, delivered, late, at, received);
      assert false;
    }
  }

  lemma DeliversNext(ops: seq<Op>, k: nat)
    requires k < |ops| && ops[k].DispatcherRuns?
    ensures
      var s := PerformAll(NewService, ops[..k]);
      s.callback.Callback? && s.posted != [] ==>
        Delivered(PerformAll(NewService, ops[..k + 1]).log) == Delivered(s.log) + [s.posted[0]]
  {
    hide Delivered, Lost, Acknowledged, Perform;
    Prefix(ops, k);
    PerformAccounts(PerformAll(NewService, ops[..k]), ops[k]);
  }

  /**
   Distinct notifications are delivered in the order they came exactly when no task that
   was overtaken runs while there is a callback: it may still be abandoned, or find none.
   */
  lemma DeliveredInOrderExactly(ops: seq<Op>)
    requires Distinct(AllReceived(ops))
    ensures Subsequence(Delivered(PerformAll(NewService, ops).log), AllReceived(ops)) <==> NeverDeliversOvertaken(ops)
  {
    hide Subsequence, PerformAll, AllReceived, Delivered, Overtaken, DeliversOvertaken, Distinct;
    if NeverDeliversOvertaken(ops) {
      assert ops[..|ops|] == ops;
      OrderedButUpTo(ops, |ops|);
      var s, o := PerformAll(NewService, ops), Overtaken(ops);
      var d, rest := Delivered(s.log), s.posted[o..] + s.pending;
      assert d + s.posted[o..] + s.pending == d + rest + [];
      DropMiddle(d, rest, [], AllReceived(ops));
      assert d + [] == d;
    } else {
      var k :| 0 <= k < |ops| && DeliversOvertaken(PerformAll(NewService, ops[..k]), Overtaken(ops[..k]), ops[k]);
      DeliveringOvertakenBreaksOrder(ops, k);
    }
  }

  /** It does happen: a notification that was queued is delivered before an older one that was posted. */
  lemma DrainOvertakesPosted(n1: Notification, n2: Notification)
    requires n1 != n2 && n1.acknowledgment == NoAck && n2.acknowledgment == NoAck
    ensures
      var ops := [Registered(Callback("a")), Received(n1, true), Registered(NoCallback), Received(n2, true),
                  Registered(Callback("a")), DispatcherRuns];
      AllReceived(ops) == [n1, n2] && PerformAll(NewService, ops).log == [Called("a", n2), Called("a", n1)]
  {
    hide PerformAll, AllReceived;
    var cb := Callback("a");
    var ops := NoOps();
    ops := PerformNext(ops, Registered(cb));
    ops := PerformNext(ops, Received(n1, true));
    ops := PerformNext(ops, Registered(NoCallback));
    ops := PerformNext(ops, Received(n2, true));
    assert PerformAll(NewService, ops) == Service(NoCallback, [n2], [n1], []);
    assert CallAll("a", [n2]) == [Called("a", n2)];
    ops := PerformNext(ops, Registered(cb));
    ops := PerformNext(ops, DispatcherRuns);
    assert ops == [Registered(cb), Received(n1, true), Registered(NoCallback), Received(n2, true),
                   Registered(cb), DispatcherRuns];
  }

  lemma NoOps() returns (ops: seq<Op>)
    ensures ops == [] && PerformAll(NewService, ops) == NewService && AllReceived(ops) == []
  {
    ops := [];
  }

  lemma PerformNext(ops: seq<Op>, op: Op) returns (longer: seq<Op>)
    ensures longer == ops + [op]
    ensures PerformAll(NewService, longer) == Perform(PerformAll(NewService, ops), op)
    ensures AllReceived(longer) == AllReceived(ops) + ReceivedBy(op)
  {
    longer := ops + [op];
    assert longer[..|ops|] == ops;
  }
}
