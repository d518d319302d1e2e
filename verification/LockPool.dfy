/** The pool of per-session locks and its eviction, whatever locks are held when it is asked. */
module LockPools {
  import opened Sequences
  import opened Wrappers

  datatype Ref = Number(n: int) | Name(s: string)

  datatype Key = Key(chat: Ref, topic: Option<Ref>)

  /** A session key, or a plain chat reference, which means the chat without a topic. */
  datatype Request = Session(key: Key) | Chat(chat: Ref)

  function Normalize(r: Request): Key {
    match r case Session(key) => key case Chat(chat) => Key(chat, None)
  }

  /** A pooled lock; locks are told apart by a number that is never used again. */
  datatype Entry = Entry(key: Key, lock: nat)

  datatype Pool = Pool(locks: seq<Entry>, next: nat)

  predicate Valid(p: Pool) {
    && (forall i, j :: 0 <= i < j < |p.locks| ==>
          p.locks[i].key != p.locks[j].key && p.locks[i].lock != p.locks[j].lock)
    && (forall e :: e in p.locks ==> e.lock < p.next)
  }

  // ----- What a request does to the pool -----

  function Find(locks: seq<Entry>, key: Key): (r: Option<nat>)
    ensures r.Some? ==> Entry(key, r.value) in locks
    ensures r.None? ==> forall e :: e in locks ==> e.key != key
  {
    if locks == [] then None else if locks[0].key == key then Some(locks[0].lock) else Find(locks[1..], key)
  }

  function IdleKeys(locks: seq<Entry>, held: set<nat>): seq<Key> {
    if locks == [] then [] else (if locks[0].lock in held then [] else [locks[0].key]) + IdleKeys(locks[1..], held)
  }

  /** The pool without its n oldest idle locks. */
  function DropIdle(locks: seq<Entry>, held: set<nat>, n: nat): seq<Entry>
    decreases |locks|
  {
    if locks == [] || n == 0 then locks
    else if locks[0].lock in held then [locks[0]] + DropIdle(locks[1..], held, n)
    else DropIdle(locks[1..], held, n - 1)
  }

  function Max(a: int, b: int): int {
    if a < b then b else a
  }

  function Evicted(locks: seq<Entry>, held: set<nat>, maxLocks: int): seq<Entry> {
    if |locks| < maxLocks then locks else DropIdle(locks, held, Max(1, |IdleKeys(locks, held)| / 2))
  }

  /** The pool after a request for a key, given the locks held at that moment. */
  function Got(p: Pool, held: set<nat>, maxLocks: int, key: Key): Pool {
    if Find(p.locks, key).Some? then p
    else Pool(Evicted(p.locks, held, maxLocks) + [Entry(key, p.next)], p.next + 1)
  }

  function LockOf(p: Pool, key: Key): nat {
    match Find(p.locks, key) case Some(lock) => lock case None => p.next
  }

  class LockPool {
    const maxLocks: int
    var locks: seq<Entry>
    var next: nat

    ghost function State(): Pool
      reads this
    {
      Pool(locks, next)
    }

    constructor (maxLocks: int)
      ensures this.maxLocks == maxLocks && State() == Pool([], 0)
    {
      this.maxLocks := maxLocks;
      locks, next := [], 0;
    }

    method Get(request: Request, held: set<nat>) returns (lock: nat)
      requires Valid(State())
      modifies this
      ensures State() == Got(old(State()), held, maxLocks, Normalize(request))
      ensures lock == LockOf(old(State()), Normalize(request)) && Entry(Normalize(request), lock) in locks
      ensures Valid(State())
    {
      var key := Normalize(request);
      var found := Find(locks, key);
      GotIsValid(State(), held, maxLocks, key);
      if found.None? {
        EvictIfNeeded(held);
        locks := locks + [Entry(key, next)];
        next := next + 1;
        return next - 1;
      }
      lock := found.value;
    }

    method EvictIfNeeded(held: set<nat>)
      requires Valid(State())
      modifies this`locks
      ensures locks == Evicted(old(locks), held, maxLocks)
    {
      if |locks| < maxLocks {
        return;
      }
      var idle := ListIdle(held);
      ghost var all := locks;
      var n := Max(1, |idle| / 2);
      var i := 0;
      while i < n && i < |idle|
        invariant 0 <= i <= |idle| && i <= n
        invariant locks == DropIdle(all, held, i)
      {
        DropOneMore(all, held, i);
        locks := Without(locks, idle[i]);
        i := i + 1;
      }
      if i < n {
        DropIdleBeyond(all, held, i, n);
      }
    }

    method ListIdle(held: set<nat>) returns (idle: seq<Key>)
      ensures idle == IdleKeys(locks, held)
    {
      hide IdleKeys;
      idle := [];
      assert locks[0..] == locks;
      for i := 0 to |locks|
        invariant idle + IdleKeys(locks[i..], held) == IdleKeys(locks, held)
      {
        IdleKeysStep(locks, i, held);
        if locks[i].lock !in held {
          Regroup3(idle, [locks[i].key], IdleKeys(locks[i + 1..], held));
          idle := idle + [locks[i].key];
        }
      }
      NothingIdle(locks[|locks|..], held);
    }
  }

  lemma {:induction false} IdleKeysStep(locks: seq<Entry>, i: nat, held: set<nat>)
    requires i < |locks|
    ensures IdleKeys(locks[i..], held) ==
            if locks[i].lock in held then IdleKeys(locks[i + 1..], held)
            else [locks[i].key] + IdleKeys(locks[i + 1..], held)
  {
    assert locks[i..][1..] == locks[i + 1..];
  }

  lemma {:induction false} NothingIdle(locks: seq<Entry>, held: set<nat>)
    requires locks == []
    ensures IdleKeys(locks, held) == []
  {
  }

  /** Deleting a key from the pool. */
  function Without(locks: seq<Entry>, key: Key): seq<Entry> {
    if locks == [] then [] else (if locks[0].key == key then [] else [locks[0]]) + Without(locks[1..], key)
  }

  predicate DistinctKeys(locks: seq<Entry>) {
    forall i, j :: 0 <= i < j < |locks| ==> locks[i].key != locks[j].key
  }

  lemma {:induction false} WithoutAbsent(locks: seq<Entry>, key: Key)
    requires forall e :: e in locks ==> e.key != key
    ensures Without(locks, key) == locks
  {
    if locks != [] {
      WithoutAbsent(locks[1..], key);
    }
  }

  lemma {:induction false} DropNone(locks: seq<Entry>, held: set<nat>)
    ensures DropIdle(locks, held, 0) == locks
  {
  }

  lemma {:induction false} IdleKeyIsThere(locks: seq<Entry>, held: set<nat>, i: nat)
    requires i < |IdleKeys(locks, held)|
    ensures exists e :: e in locks && e.key == IdleKeys(locks, held)[i]
  {
    if locks[0].lock in held {
      IdleKeyIsThere(locks[1..], held, i);
    } else if i > 0 {
      IdleKeyIsThere(locks[1..], held, i - 1);
    } else {
      assert locks[0] in locks;
    }
  }

  lemma {:induction false} DropOneMore(locks: seq<Entry>, held: set<nat>, i: nat)
    requires DistinctKeys(locks) && i < |IdleKeys(locks, held)|
    ensures DropIdle(locks, held, i + 1) == Without(DropIdle(locks, held, i), IdleKeys(locks, held)[i])
    decreases |locks|
  {
    var first, rest := locks[0], locks[1..];
    assert locks == [first] + rest;
    IdleStep(first, rest, held, i);
    IdleStep(first, rest, held, i + 1);
    TailIsDistinct(locks);
    if first.lock in held {
      DropOneMore(rest, held, i);
      IdleKeyIsThere(rest, held, i);
      hide DropIdle, IdleKeys, Without, DistinctKeys;
      WithoutAfter(first, DropIdle(rest, held, i), IdleKeys(rest, held)[i]);
    } else if i == 0 {
      WithoutAbsent(rest, first.key);
      DropNone(rest, held);
      DropNone(locks, held);
      hide DropIdle, IdleKeys, Without, DistinctKeys;
      WithoutAfter(first, rest, first.key);
    } else {
      DropOneMore(rest, held, i - 1);
      hide DropIdle, IdleKeys, Without, DistinctKeys;
    }
  }

  lemma {:induction false} TailIsDistinct(locks: seq<Entry>)
    requires DistinctKeys(locks) && locks != []
    ensures DistinctKeys(locks[1..]) && forall e :: e in locks[1..] ==> e.key != locks[0].key
  {
    assert forall j :: 0 <= j < |locks| - 1 ==> locks[1..][j] == locks[j + 1];
  }

  lemma {:induction false} IdleStep(first: Entry, rest: seq<Entry>, held: set<nat>, n: nat)
    ensures DropIdle([first] + rest, held, n) ==
            if n == 0 then [first] + rest
            else if first.lock in held then [first] + DropIdle(rest, held, n)
            else DropIdle(rest, held, n - 1)
    ensures IdleKeys([first] + rest, held) ==
            (if first.lock in held then [] else [first.key]) + IdleKeys(rest, held)
  {
    assert ([first] + rest)[1..] == rest;
  }

  lemma {:induction false} WithoutAfter(first: Entry, rest: seq<Entry>, key: Key)
    ensures Without([first] + rest, key) == (if first.key == key then [] else [first]) + Without(rest, key)
  {
    assert ([first] + rest)[1..] == rest;
  }

  lemma {:induction false} DropIdleBeyond(locks: seq<Entry>, held: set<nat>, i: nat, n: nat)
    requires |IdleKeys(locks, held)| <= i <= n
    ensures DropIdle(locks, held, n) == DropIdle(locks, held, i)
    decreases |locks|
  {
    if locks != [] {
      if locks[0].lock in held {
        DropIdleBeyond(locks[1..], held, i, n);
      } else if i > 0 {
        DropIdleBeyond(locks[1..], held, i - 1, n - 1);
      }
    }
  }

  // ----- What eviction keeps -----

  function HeldEntries(locks: seq<Entry>, held: set<nat>): seq<Entry> {
    if locks == [] then [] else (if locks[0].lock in held then [locks[0]] else []) + HeldEntries(locks[1..], held)
  }

  lemma {:induction false} DropIdleParts(locks: seq<Entry>, held: set<nat>, n: nat)
    ensures var r, idle := DropIdle(locks, held, n), |IdleKeys(locks, held)|;
            && |r| == |locks| - (if n < idle then n else idle)
            && HeldEntries(r, held) == HeldEntries(locks, held)
            && (forall e :: e in r ==> e in locks)
            && (forall e :: e in locks && e.lock in held ==> e in r)
            && |locks| == idle + |HeldEntries(locks, held)|
    decreases |locks|
  {
    if locks != [] {
      var first, rest := locks[0], locks[1..];
      assert locks == [first] + rest;
      DropIdleParts(rest, held, n);
      if first.lock !in held && n > 0 {
        DropIdleParts(rest, held, n - 1);
      }
    }
  }

  lemma {:induction false} DropIdleKeepsValid(locks: seq<Entry>, held: set<nat>, n: nat, next: nat)
    requires Valid(Pool(locks, next))
    ensures Valid(Pool(DropIdle(locks, held, n), next))
    decreases |locks|
  {
    if locks != [] && n > 0 {
      var first, rest := locks[0], locks[1..];
      assert Valid(Pool(rest, next));
      FirstIsDistinct(locks, next);
      var m := if first.lock in held then n else n - 1;
      DropIdleKeepsValid(rest, held, m, next);
      DropIdleParts(rest, held, m);
      hide IdleKeys, HeldEntries;
      assert first in locks;
      if first.lock in held {
        PrependKeepsValid(first, DropIdle(rest, held, m), next);
      }
    }
  }

  lemma {:induction false} FirstIsDistinct(locks: seq<Entry>, next: nat)
    requires locks != [] && Valid(Pool(locks, next))
    ensures forall e :: e in locks[1..] ==> e.key != locks[0].key && e.lock != locks[0].lock
  {
    var rest := locks[1..];
    forall e | e in rest ensures e.key != locks[0].key && e.lock != locks[0].lock {
      var j :| 0 <= j < |rest| && rest[j] == e;
      assert locks[j + 1] == e;
    }
  }

  lemma {:induction false} PrependKeepsValid(e: Entry, locks: seq<Entry>, next: nat)
    requires Valid(Pool(locks, next)) && e.lock < next
    requires forall f :: f in locks ==> f.key != e.key && f.lock != e.lock
    ensures Valid(Pool([e] + locks, next))
  {
  }

  /** A request keeps keys and locks distinct, and never gives away or forgets a held lock. */
  lemma {:induction false} GotIsValid(p: Pool, held: set<nat>, maxLocks: int, key: Key)
    requires Valid(p)
    ensures var p' := Got(p, held, maxLocks, key);
            && Valid(p') && Entry(key, LockOf(p, key)) in p'.locks
            && (forall e :: e in p.locks && e.lock in held ==> e in p'.locks)
            && (forall e :: e in p'.locks ==> e in p.locks || e == Entry(key, p.next))
  {
    if Find(p.locks, key).None? && |p.locks| >= maxLocks {
      var n := Max(1, |IdleKeys(p.locks, held)| / 2);
      DropIdleParts(p.locks, held, n);
      DropIdleKeepsValid(p.locks, held, n, p.next);
    }
  }

  lemma {:induction false} HeldEntriesBound(locks: seq<Entry>, held: set<nat>)
    requires forall i, j :: 0 <= i < j < |locks| ==> locks[i].lock != locks[j].lock
    ensures |HeldEntries(locks, held)| <= |held|
    decreases |locks|
  {
    if locks != [] {
      var first, rest := locks[0], locks[1..];
      var others := held - {first.lock};
      HeldEntriesBound(rest, others);
      SameHeldEntries(rest, held, others);
    }
  }

  lemma {:induction false} SameHeldEntries(locks: seq<Entry>, a: set<nat>, b: set<nat>)
    requires forall e :: e in locks ==> (e.lock in a <==> e.lock in b)
    ensures HeldEntries(locks, a) == HeldEntries(locks, b)
  {
    if locks != [] {
      SameHeldEntries(locks[1..], a, b);
    }
  }

  /** A request grows the pool beyond its maximum only when every pooled lock is held. */
  lemma {:induction false} GotIsBounded(p: Pool, held: set<nat>, maxLocks: int, key: Key)
    requires Valid(p)
    ensures |Got(p, held, maxLocks, key).locks| <= Max(Max(maxLocks, |held| + 1), |p.locks|)
  {
    DropIdleParts(p.locks, held, Max(1, |IdleKeys(p.locks, held)| / 2));
    HeldEntriesBound(p.locks, held);
  }

  // ----- What a request answers -----

  /** The places of the idle ones among the first i locks. */
  ghost function IdlePlaces(locks: seq<Entry>, held: set<nat>, i: nat): set<int>
    requires i <= |locks|
  {
    set j | 0 <= j < i && locks[j].lock !in held
  }

  /** The places of the locks that stay when the n oldest idle ones go. */
  ghost function KeptPlaces(locks: seq<Entry>, held: set<nat>, n: nat): set<int> {
    set i | 0 <= i < |locks| && (locks[i].lock in held || n <= |IdlePlaces(locks, held, i)|)
  }

  /** The locks from place i on that are at one of the given places, in their order. */
  ghost function Picked(locks: seq<Entry>, places: set<int>, i: nat): seq<Entry>
    requires i <= |locks|
    decreases |locks| - i
  {
    if i == |locks| then [] else (if i in places then [locks[i]] else []) + Picked(locks, places, i + 1)
  }

  lemma {:induction false} NextIdlePlace(locks: seq<Entry>, held: set<nat>, i: nat)
    requires i < |locks|
    ensures |IdlePlaces(locks, held, i + 1)| ==
            |IdlePlaces(locks, held, i)| + if locks[i].lock in held then 0 else 1
  {
    var a := IdlePlaces(locks, held, i);
    assert IdlePlaces(locks, held, i + 1) == if locks[i].lock in held then a else a + {i};
  }

  lemma {:induction false} IdleKeysAreIdle(locks: seq<Entry>, held: set<nat>, i: nat)
    requires i <= |locks|
    ensures |IdleKeys(locks[i..], held)| + |IdlePlaces(locks, held, i)| == |IdlePlaces(locks, held, |locks|)|
    decreases |locks| - i
  {
    hide IdlePlaces;
    if i < |locks| {
      IdleKeysAreIdle(locks, held, i + 1);
      IdleKeysStep(locks, i, held);
      NextIdlePlace(locks, held, i);
    }
  }

  lemma {:induction false} DropIdlePicks(locks: seq<Entry>, held: set<nat>, n: nat, i: nat)
    requires i <= |locks|
    ensures DropIdle(locks[i..], held, Max(0, n - |IdlePlaces(locks, held, i)|)) ==
            Picked(locks, KeptPlaces(locks, held, n), i)
    decreases |locks| - i
  {
    hide IdlePlaces;
    if i < |locks| {
      DropIdlePicks(locks, held, n, i + 1);
      NextIdlePlace(locks, held, i);
      assert locks[i..] == [locks[i]] + locks[i + 1..];
      IdleStep(locks[i], locks[i + 1..], held, Max(0, n - |IdlePlaces(locks, held, i)|));
      DropNone(locks[i + 1..], held);
    }
  }

  /** A request for a pooled key changes nothing and gives its lock. For any other key a new lock is put behind the
      others; a full pool first loses its oldest idle locks, half of the idle ones but at least one. */
  lemma {:induction false} GotAnswers(p: Pool, held: set<nat>, maxLocks: int, key: Key)
    requires Valid(p)
    ensures var p' := Got(p, held, maxLocks, key); var locks := p.locks;
            var idle := |IdlePlaces(locks, held, |locks|)|;
            var n := if idle < 4 then 1 else idle / 2;
            && (forall e :: e in locks && e.key == key ==> p' == p && LockOf(p, key) == e.lock)
            && ((forall e :: e in locks ==> e.key != key) ==>
                  && LockOf(p, key) == p.next && p'.next == p.next + 1
                  && p'.locks == (if |locks| < maxLocks then locks else Picked(locks, KeptPlaces(locks, held, n), 0))
                                 + [Entry(key, p.next)])
  {
    var n := Max(1, |IdleKeys(p.locks, held)| / 2);
    assert p.locks[0..] == p.locks;
    IdleKeysAreIdle(p.locks, held, 0);
    DropIdlePicks(p.locks, held, n, 0);
    assert IdlePlaces(p.locks, held, 0) == {};
    if Find(p.locks, key).Some? {
      assert Entry(key, Find(p.locks, key).value) in p.locks;
    }
    hide IdlePlaces, KeptPlaces, Picked, DropIdle, IdleKeys, Find;
  }

  lemma {:induction false} RequestedKey(r: Request)
    ensures r.Session? ==> Normalize(r) == r.key
    ensures r.Chat? ==> Normalize(r).chat == r.chat && Normalize(r).topic == None
  {
  }

  // ----- Any run of requests -----

  datatype Call = Call(request: Request, held: set<nat>)

  function PoolAfter(maxLocks: int, calls: seq<Call>): Pool {
    if calls == [] then Pool([], 0)
    else
      var c := calls[|calls| - 1];
      Got(PoolAfter(maxLocks, calls[..|calls| - 1]), c.held, maxLocks, Normalize(c.request))
  }

  /** The most locks held at any call. */
  function Peak(calls: seq<Call>): nat {
    if calls == [] then 0 else Max(Peak(calls[..|calls| - 1]), |calls[|calls| - 1].held|)
  }

  /** The pool never grows beyond its maximum or one more than the most locks held at once, whichever is larger. */
  lemma {:induction false} PoolSizeIsBounded(maxLocks: int, calls: seq<Call>)
    ensures Valid(PoolAfter(maxLocks, calls))
    ensures |PoolAfter(maxLocks, calls).locks| <= Max(maxLocks, Peak(calls) + 1)
  {
    if calls != [] {
      var before, c := calls[..|calls| - 1], calls[|calls| - 1];
      var p := PoolAfter(maxLocks, before);
      PoolSizeIsBounded(maxLocks, before);
      GotIsValid(p, c.held, maxLocks, Normalize(c.request));
      GotIsBounded(p, c.held, maxLocks, Normalize(c.request));
      hide Got, Valid;
    }
  }
}
