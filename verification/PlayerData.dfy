/**
 The player data cache: versioned entries by player and key, updated in batches that
 stop at the first outdated entry, and read with default entries inserted on the way.
 */
module PlayerData {

  type Bytes = seq<bv8>

  datatype Entry = Entry(data: Bytes, version: int)

  const NoEntry := Entry([], 0)

  datatype PlayerUpdate = PlayerUpdate(player: string, key: string, entry: Entry)

  type Cache = map<string, map<string, Entry>>

  /** The entry as the code sees it: a missing one reads as the default. */
  function Lookup(c: Cache, player: string, key: string): Entry {
    if player in c && key in c[player] then c[player][key] else NoEntry
  }

  /** Indexing both maps, which inserts what is missing. */
  function Touch(c: Cache, player: string, key: string): Cache {
    var inner := if player in c then c[player] else map[];
    c[player := if key in inner then inner else inner[key := NoEntry]]
  }

  function Put(c: Cache, u: PlayerUpdate): Cache {
    var inner := if u.player in c then c[u.player] else map[];
    c[u.player := inner[u.key := u.entry]]
  }

  predicate Outdated(c: Cache, u: PlayerUpdate) {
    Lookup(c, u.player, u.key).version > u.entry.version
  }

  /** What a batch leaves of the cache, and how many of its entries it applied. */
  function ApplyBatch(c: Cache, updates: seq<PlayerUpdate>): (Cache, nat)
    decreases |updates|
  {
    if updates == [] then (c, 0)
    else
      var touched := Touch(c, updates[0].player, updates[0].key);
      if Outdated(c, updates[0]) then (touched, 0)
      else
        var (c', n) := ApplyBatch(Put(touched, updates[0]), updates[1..]);
        (c', n + 1)
  }

  datatype Reading = Absent | Present(data: Bytes)

  function Read(e: Entry): Reading {
    if e.version <= 0 then Absent else Present(e.data)
  }

  /**
   The entries the listener is told of: `listening(i)` says whether the look taken after
   entry i finds a listener and the scene, either of which may come and go in between.
   */
  function Told(applied: seq<PlayerUpdate>, listening: nat -> bool): seq<PlayerUpdate> {
    if applied == [] then []
    else
      var n := |applied| - 1;
      Told(applied[..n], listening) + if listening(n) then [applied[n]] else []
  }

  class PlayerDataService {
    var cache: Cache
    var posted: seq<PlayerUpdate>

    constructor ()
      ensures cache == map[] && posted == []
    {
      cache, posted := map[], [];
    }

    method GetPlayerData(player: string, key: string) returns (r: Reading)
      modifies this`cache
      ensures r == Read(Lookup(old(cache), player, key))
      ensures r.Present? <==>
        player in old(cache) && key in old(cache)[player] && old(cache)[player][key].version > 0
      ensures r.Present? ==> r.data == old(cache)[player][key].data
      ensures cache == Touch(old(cache), player, key)
    {
      cache := Touch(cache, player, key);
      var entry := cache[player][key];
      if entry.version <= 0 {
        return Absent;
      }
      return Present(entry.data);
    }

    /** Applies a batch up to its first outdated entry, and tells of each entry applied whoever listens then. */
    method OnUpdateReceived(updates: seq<PlayerUpdate>, listening: nat -> bool)
      modifies this`cache, this`posted
      ensures cache == ApplyBatch(old(cache), updates).0
      ensures ApplyBatch(old(cache), updates).1 <= |updates|
      ensures posted == old(posted) + Told(updates[..ApplyBatch(old(cache), updates).1], listening)
    {
      hide Touch, Put, Lookup;
      BatchCount(cache, updates);
      var i := 0;
      while i < |updates|
        invariant 0 <= i <= |updates|
        invariant ApplyBatch(old(cache), updates)
          == (var (c, n) := ApplyBatch(cache, updates[i..]); (c, i + n))
        invariant posted == old(posted) + Told(updates[..i], listening)
      {
        var u := updates[i];
        assert updates[i..][0] == u && updates[i..][1..] == updates[i + 1..];
        TouchedEntry(cache, u);
        cache := Touch(cache, u.player, u.key);
        var existing := cache[u.player][u.key];
        if existing.version > u.entry.version {
          return;
        }
        cache := cache[u.player := cache[u.player][u.key := u.entry]];
        assert updates[..i + 1][..i] == updates[..i];
        if listening(i) {
          posted := posted + [u];
        }
        i := i + 1;
      }
      assert updates[..i] == updates[..ApplyBatch(old(cache), updates).1];
    }
  }

  /** Position by position: an entry applied is told of exactly if someone listens right after it, in order. */
  lemma {:induction false} ToldExactly(applied: seq<PlayerUpdate>, listening: nat -> bool, i: nat)
    requires i < |applied|
    ensures |Told(applied[..i], listening)| <= |Told(applied, listening)|
    ensures
      var k := |Told(applied[..i], listening)|;
      if listening(i) then
        |Told(applied[..i + 1], listening)| == k + 1 && k < |Told(applied, listening)|
        && Told(applied, listening)[k] == applied[i]
      else Told(applied[..i + 1], listening) == Told(applied[..i], listening)
    decreases |applied|
  {
    var n := |applied| - 1;
    assert applied[..i + 1][..i] == applied[..i];
    if i < n {
      assert applied[..n][..i] == applied[..i] && applied[..n][..i + 1] == applied[..i + 1];
      ToldExactly(applied[..n], listening, i);
    } else {
      assert applied[..i + 1] == applied;
    }
  }

  // ---------------------------------------------------------------------------
  // What a batch does

  lemma TouchIsInvisible(c: Cache, player: string, key: string)
    ensures forall p, k :: Lookup(Touch(c, player, key), p, k) == Lookup(c, p, k)
  {
  }

  lemma TouchedEntry(c: Cache, u: PlayerUpdate)
    ensures
      var t := Touch(c, u.player, u.key);
      u.player in t && u.key in t[u.player] && t[u.player][u.key] == Lookup(c, u.player, u.key)
      && Put(t, u) == t[u.player := t[u.player][u.key := u.entry]]
  {
  }

  lemma PutLookup(c: Cache, u: PlayerUpdate)
    ensures forall p, k :: Lookup(Put(c, u), p, k) == if p == u.player && k == u.key then u.entry else Lookup(c, p, k)
  {
  }

  lemma {:induction false} BatchCount(c: Cache, updates: seq<PlayerUpdate>)
    ensures ApplyBatch(c, updates).1 <= |updates|
    decreases |updates|
  {
    hide Touch, Put, Outdated;
    if updates != [] {
      BatchCount(Put(Touch(c, updates[0].player, updates[0].key), updates[0]), updates[1..]);
    }
  }

  /** The reference: all entries stored one after the other, none refused. */
  function PutAll(c: Cache, updates: seq<PlayerUpdate>): Cache
    decreases |updates|
  {
    if updates == [] then c else PutAll(Put(c, updates[0]), updates[1..])
  }

  ghost predicate SameView(c: Cache, d: Cache) {
    forall p, k :: Lookup(c, p, k) == Lookup(d, p, k)
  }

  lemma PutKeepsSameView(c: Cache, d: Cache, u: PlayerUpdate)
    requires SameView(c, d)
    ensures SameView(Put(c, u), Put(d, u)) && SameView(Touch(c, u.player, u.key), d)
    ensures SameView(Put(Touch(c, u.player, u.key), u), Put(d, u))
    ensures Outdated(c, u) <==> Outdated(d, u)
  {
    PutLookup(c, u);
    PutLookup(d, u);
    TouchIsInvisible(c, u.player, u.key);
    PutLookup(Touch(c, u.player, u.key), u);
  }

  /** A batch applies its longest prefix without an outdated entry, each judged by the cache as updated so far. */
  lemma {:induction false} BatchAppliesLongestPrefix(c: Cache, d: Cache, updates: seq<PlayerUpdate>)
    requires SameView(c, d)
    ensures
      var (c', n) := ApplyBatch(c, updates);
      && n <= |updates| && SameView(c', PutAll(d, updates[..n]))
      && (forall i :: 0 <= i < n ==> !Outdated(PutAll(d, updates[..i]), updates[i]))
      && (n < |updates| ==> Outdated(PutAll(d, updates[..n]), updates[n]))
    decreases |updates|
  {
    hide Lookup, Touch, Put, SameView, Outdated;
    if updates != [] {
      var u := updates[0];
      PutKeepsSameView(c, d, u);
      if !Outdated(c, u) {
        var c1, d1 := Put(Touch(c, u.player, u.key), u), Put(d, u);
        BatchAppliesLongestPrefix(c1, d1, updates[1..]);
        var n := ApplyBatch(c1, updates[1..]).1;
        forall i | 0 <= i <= n ensures PutAll(d, updates[..i + 1]) == PutAll(d1, updates[1..][..i]) {
          assert updates[..i + 1][1..] == updates[1..][..i];
        }
        forall i | 0 <= i < n + 1 ensures !Outdated(PutAll(d, updates[..i]), updates[i]) {
          if i > 0 {
            assert PutAll(d, updates[..(i - 1) + 1]) == PutAll(d1, updates[1..][..i - 1]);
            assert updates[1..][i - 1] == updates[i];
          }
        }
        assert PutAll(d, updates[..n + 1]) == PutAll(d1, updates[1..][..n]);
      }
    }
  }

  // ---------------------------------------------------------------------------
  // A batch, by the versions themselves

  /** What the cache holds once `updates` are stored: the last of them for this key, or what was there before. */
  function Latest(c: Cache, updates: seq<PlayerUpdate>, player: string, key: string): Entry {
    if updates == [] then Lookup(c, player, key)
    else
      var u := updates[|updates| - 1];
      if u.player == player && u.key == key then u.entry else Latest(c, updates[..|updates| - 1], player, key)
  }

  /** The entry is at least as recent as what the cache holds when its turn comes. */
  predicate Recent(c: Cache, updates: seq<PlayerUpdate>, j: nat)
    requires j < |updates|
  {
    Latest(c, updates[..j], updates[j].player, updates[j].key).version <= updates[j].entry.version
  }

  predicate RecentThrough(c: Cache, updates: seq<PlayerUpdate>, i: int)
    requires i < |updates|
  {
    forall j :: 0 <= j <= i ==> Recent(c, updates, j)
  }

  /** The two caches differ in one entry, which is the update's. */
  ghost predicate Stored(c: Cache, d: Cache, u: PlayerUpdate) {
    forall p, k :: Lookup(d, p, k) == (if p == u.player && k == u.key then u.entry else Lookup(c, p, k))
  }

  lemma {:induction false} LatestAfterFirst(c: Cache, d: Cache, updates: seq<PlayerUpdate>, p: string, k: string)
    requires updates != [] && Stored(c, d, updates[0])
    ensures Latest(d, updates[1..], p, k) == Latest(c, updates, p, k)
    decreases |updates|
  {
    var n := |updates| - 1;
    if n == 0 {
      assert updates[..0] == [];
    } else {
      assert updates[1..][..n - 1] == updates[..n][1..];
      LatestAfterFirst(c, d, updates[..n], p, k);
    }
  }

  lemma PutStores(c: Cache, u: PlayerUpdate)
    ensures Stored(c, Put(Touch(c, u.player, u.key), u), u)
  {
    TouchIsInvisible(c, u.player, u.key);
    PutLookup(Touch(c, u.player, u.key), u);
  }

  lemma RecentAfterFirst(c: Cache, d: Cache, updates: seq<PlayerUpdate>, j: nat)
    requires 0 < j < |updates| && Stored(c, d, updates[0])
    ensures Recent(d, updates[1..], j - 1) <==> Recent(c, updates, j)
  {
    hide Latest, Stored;
    assert updates[1..][..j - 1] == updates[..j][1..];
    LatestAfterFirst(c, d, updates[..j], updates[j].player, updates[j].key);
  }

  lemma RecentThroughAfterFirst(c: Cache, d: Cache, updates: seq<PlayerUpdate>, i: nat)
    requires i < |updates| && Recent(c, updates, 0) && Stored(c, d, updates[0])
    ensures RecentThrough(c, updates, i) <==> RecentThrough(d, updates[1..], i - 1)
  {
    hide Recent, Stored;
    forall j | 0 < j <= i ensures Recent(d, updates[1..], j - 1) <==> Recent(c, updates, j) {
      RecentAfterFirst(c, d, updates, j);
    }
    if RecentThrough(d, updates[1..], i - 1) {
      forall j | 0 <= j <= i ensures Recent(c, updates, j) {
        assert j > 0 ==> Recent(d, updates[1..], j - 1);
      }
    }
    if RecentThrough(c, updates, i) {
      forall j | 0 <= j <= i - 1 ensures Recent(d, updates[1..], j) {
        assert Recent(c, updates, j + 1) && Recent(d, updates[1..], (j + 1) - 1);
      }
    }
  }

  lemma FirstIsRecent(c: Cache, updates: seq<PlayerUpdate>)
    requires updates != []
    ensures Recent(c, updates, 0) <==> !Outdated(c, updates[0])
    ensures forall i :: 0 <= i < |updates| && RecentThrough(c, updates, i) ==> Recent(c, updates, 0)
  {
    assert updates[..0] == [];
  }

  /**
   An entry is applied exactly if it and all before it in the batch are at least as recent
   as what the cache holds at their turn.
   */
  lemma {:induction false} AppliedExactly(c: Cache, updates: seq<PlayerUpdate>, i: nat)
    requires i < |updates|
    ensures i < ApplyBatch(c, updates).1 <==> RecentThrough(c, updates, i)
    decreases |updates|
  {
    hide Lookup, Touch, Put, Latest, Recent, RecentThrough, Stored;
    var u := updates[0];
    FirstIsRecent(c, updates);
    if !Outdated(c, u) {
      var d := Put(Touch(c, u.player, u.key), u);
      PutStores(c, u);
      RecentThroughAfterFirst(c, d, updates, i);
      if i > 0 {
        AppliedExactly(d, updates[1..], i - 1);
      } else {
        NothingBefore(d, updates[1..]);
      }
    }
  }

  lemma NothingBefore(c: Cache, updates: seq<PlayerUpdate>)
    ensures RecentThrough(c, updates, -1)
  {
  }

  /** What a lookup finds after a batch is the last entry applied for its key, or what was there before. */
  lemma {:induction false} LookupAfterBatch(c: Cache, updates: seq<PlayerUpdate>, p: string, k: string)
    ensures
      var (c', n) := ApplyBatch(c, updates);
      n <= |updates| && Lookup(c', p, k) == Latest(c, updates[..n], p, k)
    decreases |updates|
  {
    hide Lookup, Touch, Put, Stored;
    if updates != [] {
      var u := updates[0];
      if Outdated(c, u) {
        TouchIsInvisible(c, u.player, u.key);
      } else {
        var d, n := Put(Touch(c, u.player, u.key), u), ApplyBatch(c, updates).1;
        LookupAfterBatch(d, updates[1..], p, k);
        PutStores(c, u);
        assert updates[..n][1..] == updates[1..][..n - 1];
        LatestAfterFirst(c, d, updates[..n], p, k);
      }
    }
  }

  /** An entry of the same version as the cached one overwrites it; only an older one is refused. */
  lemma EqualVersionOverwrites(c: Cache, u: PlayerUpdate)
    ensures
      var (c', n) := ApplyBatch(c, [u]);
      && (n == 1 <==> Lookup(c, u.player, u.key).version <= u.entry.version)
      && Lookup(c', u.player, u.key) == if n == 1 then u.entry else Lookup(c, u.player, u.key)
  {
    hide Lookup, ApplyBatch;
    AppliedExactly(c, [u], 0);
    LookupAfterBatch(c, [u], u.player, u.key);
    assert [u][..0] == [] && [u][..1] == [u];
    assert RecentThrough(c, [u], 0) <==> Recent(c, [u], 0);
  }

  // ---------------------------------------------------------------------------
  // Whole runs

  datatype Op = ReadEntry(player: string, key: string) | Batch(updates: seq<PlayerUpdate>)

  function Perform(c: Cache, op: Op): Cache {
    match op
    case ReadEntry(player, key) => Touch(c, player, key)
    case Batch(updates) => ApplyBatch(c, updates).0
  }

  /** What the application can see of an operation: the entry read, or the entries applied. */
  datatype Observation = Saw(r: Reading) | Applied(updates: seq<PlayerUpdate>)

  function Observe(c: Cache, op: Op): Observation {
    match op
    case ReadEntry(player, key) => Saw(Read(Lookup(c, player, key)))
    case Batch(updates) => BatchCount(c, updates); Applied(updates[..ApplyBatch(c, updates).1])
  }

  function Run(c: Cache, ops: seq<Op>): Cache
    decreases |ops|
  {
    if ops == [] then c else Run(Perform(c, ops[0]), ops[1..])
  }

  function Observations(c: Cache, ops: seq<Op>): seq<Observation>
    decreases |ops|
  {
    if ops == [] then [] else [Observe(c, ops[0])] + Observations(Perform(c, ops[0]), ops[1..])
  }

  function BatchesOf(ops: seq<Op>): seq<Op>
    decreases |ops|
  {
    if ops == [] then [] else (if ops[0].Batch? then [ops[0]] else []) + BatchesOf(ops[1..])
  }

  lemma {:induction false} BatchKeepsSameView(c: Cache, d: Cache, updates: seq<PlayerUpdate>)
    requires SameView(c, d)
    ensures SameView(ApplyBatch(c, updates).0, ApplyBatch(d, updates).0)
    ensures ApplyBatch(c, updates).1 == ApplyBatch(d, updates).1
    decreases |updates|
  {
    hide Lookup, Touch, Put, Outdated, SameView;
    if updates != [] {
      var u := updates[0];
      SameViewSymmetric(c, d);
      PutKeepsSameView(d, c, u);
      var c1, d1 := Touch(c, u.player, u.key), Touch(d, u.player, u.key);
      TouchedSameView(c, d, u.player, u.key);
      PutKeepsSameView(c1, d1, u);
      BatchKeepsSameView(Put(c1, u), Put(d1, u), updates[1..]);
    }
  }

  lemma SameViewSymmetric(c: Cache, d: Cache)
    requires SameView(c, d)
    ensures SameView(d, c)
  {
  }

  lemma TouchedSameView(c: Cache, d: Cache, player: string, key: string)
    requires SameView(c, d)
    ensures SameView(Touch(c, player, key), Touch(d, player, key)) && SameView(Touch(c, player, key), d)
  {
    TouchIsInvisible(c, player, key);
    TouchIsInvisible(d, player, key);
  }

  lemma PerformKeepsSameView(c: Cache, d: Cache, op: Op)
    requires SameView(c, d)
    ensures SameView(Perform(c, op), Perform(d, op)) && Observe(c, op) == Observe(d, op)
    ensures op.ReadEntry? ==> SameView(Perform(c, op), d)
  {
    match op
    case ReadEntry(player, key) => TouchedSameView(c, d, player, key);
    case Batch(updates) => BatchKeepsSameView(c, d, updates);
  }

  /** Default entries cannot be told from missing ones, now or later. */
  lemma {:induction false} DefaultsAreUnobservable(c: Cache, d: Cache, ops: seq<Op>)
    requires SameView(c, d)
    ensures Observations(c, ops) == Observations(d, ops)
    decreases |ops|
  {
    hide SameView, Perform, Observe;
    if ops != [] {
      PerformKeepsSameView(c, d, ops[0]);
      DefaultsAreUnobservable(Perform(c, ops[0]), Perform(d, ops[0]), ops[1..]);
    }
  }

  /** Leaving every read out of a run changes nothing anyone can see afterwards. */
  lemma {:induction false} ReadsLeaveNoTrace(c: Cache, d: Cache, ops: seq<Op>, later: seq<Op>)
    requires SameView(c, d)
    ensures SameView(Run(c, ops), Run(d, BatchesOf(ops)))
    ensures Observations(Run(c, ops), later) == Observations(Run(d, BatchesOf(ops)), later)
    decreases |ops|
  {
    hide SameView, Perform, Observe;
    if ops == [] {
      DefaultsAreUnobservable(c, d, later);
    } else {
      PerformKeepsSameView(c, d, ops[0]);
      if ops[0].Batch? {
        ReadsLeaveNoTrace(Perform(c, ops[0]), Perform(d, ops[0]), ops[1..], later);
        assert BatchesOf(ops)[1..] == BatchesOf(ops[1..]);
      } else {
        ReadsLeaveNoTrace(Perform(c, ops[0]), d, ops[1..], later);
        assert BatchesOf(ops) == BatchesOf(ops[1..]);
      }
    }
  }

  lemma {:induction false} BatchNeverLowers(c: Cache, updates: seq<PlayerUpdate>, p: string, k: string)
    ensures Lookup(ApplyBatch(c, updates).0, p, k).version >= Lookup(c, p, k).version
    decreases |updates|
  {
    hide Lookup, Touch, Put;
    if updates != [] {
      var u := updates[0];
      var touched := Touch(c, u.player, u.key);
      TouchIsInvisible(c, u.player, u.key);
      PutLookup(touched, u);
      BatchNeverLowers(Put(touched, u), updates[1..], p, k);
    }
  }

  /** The version of an entry never goes down. */
  lemma {:induction false} VersionsNeverDecrease(c: Cache, ops: seq<Op>, p: string, k: string)
    ensures Lookup(Run(c, ops), p, k).version >= Lookup(c, p, k).version
    decreases |ops|
  {
    hide Lookup, Touch, ApplyBatch;
    if ops != [] {
      match ops[0] {
        case ReadEntry(player, key) => TouchIsInvisible(c, player, key);
        case Batch(updates) => BatchNeverLowers(c, updates, p, k);
      }
      VersionsNeverDecrease(Perform(c, ops[0]), ops[1..], p, k);
    }
  }
}
