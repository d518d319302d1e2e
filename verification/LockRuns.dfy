/** Envelopes that need their session's lock: `submit` asks the pool for it and processes the envelope while
    holding it. */
module LockRuns {
  import opened LockPools
  import opened Sets
  import opened Wrappers

  /** A submitted envelope, the key it asked for and the lock it was given. */
  datatype Job = Job(serial: nat, key: Key, lock: nat)

  datatype World = World(pool: Pool, running: set<Job>, waiting: set<Job>, serial: nat)

  const START := World(Pool([], 0), {}, {}, 0)

  /** The await points of `submit`: up to acquiring the lock, resuming with a freed lock, and releasing it. */
  datatype Event = Submit(request: Request) | Wake(job: Job) | Finish(job: Job)

  function Held(w: World): set<nat> {
    set j | j in w.running :: j.lock
  }

  function Submitted(w: World, maxLocks: int, key: Key): World {
    var job := Job(w.serial, key, LockOf(w.pool, key));
    var w' := w.(pool := Got(w.pool, Held(w), maxLocks, key), serial := w.serial + 1);
    if job.lock in Held(w) || exists j :: j in w.waiting && j.lock == job.lock then w'.(waiting := w.waiting + {job})
    else w'.(running := w.running + {job})
  }

  function Next(w: World, maxLocks: int, e: Event): World {
    match e
    case Submit(request) => Submitted(w, maxLocks, Normalize(request))
    case Wake(job) =>
      if job in w.waiting && job.lock !in Held(w) then
        w.(waiting := w.waiting - {job}, running := w.running + {job})
      else w
    case Finish(job) => w.(running := w.running - {job})
  }

  function Run(maxLocks: int, es: seq<Event>): World {
    if es == [] then START else Next(Run(maxLocks, es[..|es| - 1]), maxLocks, es[|es| - 1])
  }

  // ----- What holds in every run -----

  /** A lock is held by one envelope at a time. */
  predicate Good(w: World) {
    && Valid(w.pool)
    && (forall j, k :: j in w.running && k in w.running && j.lock == k.lock ==> j == k)
    && (forall j :: j in w.running + w.waiting ==> j.lock < w.pool.next && j.serial < w.serial)
  }

  lemma {:induction false} StepKeepsGood(w: World, maxLocks: int, e: Event)
    requires Good(w)
    ensures Good(Next(w, maxLocks, e))
  {
    match e
    case Submit(request) =>
      GotIsValid(w.pool, Held(w), maxLocks, Normalize(request));
      hide Got, Valid;
    case _ =>
  }

  lemma {:induction false} RunIsGood(maxLocks: int, es: seq<Event>)
    ensures Good(Run(maxLocks, es))
  {
    if es != [] {
      RunIsGood(maxLocks, es[..|es| - 1]);
      StepKeepsGood(Run(maxLocks, es[..|es| - 1]), maxLocks, es[|es| - 1]);
    }
  }

  /** Every envelope holds or awaits the lock its key has in the pool now. */
  predicate Anchored(w: World) {
    forall j :: j in w.running + w.waiting ==> Entry(j.key, j.lock) in w.pool.locks
  }

  /** A request may evict only while every lock somebody waits for is held. */
  predicate Quiet(w: World, maxLocks: int, key: Key) {
    || Find(w.pool.locks, key).Some? || |w.pool.locks| < maxLocks
    || forall j :: j in w.waiting ==> j.lock in Held(w)
  }

  predicate QuietRun(maxLocks: int, es: seq<Event>) {
    es == [] ||
    (var before, e := es[..|es| - 1], es[|es| - 1];
     QuietRun(maxLocks, before) && (e.Submit? ==> Quiet(Run(maxLocks, before), maxLocks, Normalize(e.request))))
  }

  predicate OnePerKey(w: World) {
    forall j, k :: j in w.running && k in w.running && j.key == k.key ==> j == k
  }

  lemma {:induction false} QuietSubmitStaysAnchored(w: World, maxLocks: int, key: Key)
    requires Good(w) && Anchored(w) && Quiet(w, maxLocks, key)
    ensures Anchored(Submitted(w, maxLocks, key))
  {
    GotIsValid(w.pool, Held(w), maxLocks, key);
    hide DropIdle, IdleKeys, Find, Valid;
  }

  lemma {:induction false} AnchoredMeansOnePerKey(w: World)
    requires Good(w) && Anchored(w)
    ensures OnePerKey(w)
  {
    forall j, k | j in w.running && k in w.running && j.key == k.key ensures j == k {
      var a :| 0 <= a < |w.pool.locks| && w.pool.locks[a] == Entry(j.key, j.lock);
      var b :| 0 <= b < |w.pool.locks| && w.pool.locks[b] == Entry(k.key, k.lock);
      assert a == b;
    }
  }

  /** As long as no request evicts while a freed lock is still awaited, two envelopes of one session are never processed
      together. */
  lemma {:induction false} QuietRunsExclude(maxLocks: int, es: seq<Event>)
    requires QuietRun(maxLocks, es)
    ensures Anchored(Run(maxLocks, es)) && OnePerKey(Run(maxLocks, es))
  {
    RunIsGood(maxLocks, es);
    if es != [] {
      var before, e := es[..|es| - 1], es[|es| - 1];
      var w := Run(maxLocks, before);
      RunIsGood(maxLocks, before);
      QuietRunsExclude(maxLocks, before);
      if e.Submit? {
        QuietSubmitStaysAnchored(w, maxLocks, Normalize(e.request));
      }
    }
    AnchoredMeansOnePerKey(Run(maxLocks, es));
  }

  // ----- Few keys -----

  function Requested(es: seq<Event>): set<Key> {
    set e | e in es && e.Submit? :: Normalize(e.request)
  }

  function Keys(locks: seq<Entry>): set<Key> {
    set e | e in locks :: e.key
  }

  lemma {:induction false} CountKeys(locks: seq<Entry>)
    requires DistinctKeys(locks)
    ensures |Keys(locks)| == |locks|
  {
    if locks != [] {
      var rest := locks[1..];
      CountKeys(rest);
      assert locks == [locks[0]] + rest;
      assert Keys(locks) == Keys(rest) + {locks[0].key};
      assert locks[0].key !in Keys(rest);
    }
  }

  lemma {:induction false} RequestedGrows(es: seq<Event>, e: Event)
    ensures Requested(es + [e]) == Requested(es) + if e.Submit? then {Normalize(e.request)} else {}
  {
  }

  lemma {:induction false} NoEviction(p: Pool, held: set<nat>, maxLocks: int, key: Key, requested: set<Key>)
    requires Valid(p) && Keys(p.locks) <= requested && key in requested && |requested| <= maxLocks
    ensures p.locks <= Got(p, held, maxLocks, key).locks
    ensures Keys(Got(p, held, maxLocks, key).locks) <= requested
    ensures Find(p.locks, key).Some? || |p.locks| < maxLocks
  {
    CountKeys(p.locks);
    if Find(p.locks, key).None? {
      assert key !in Keys(p.locks);
      SubsetIsNoLarger(Keys(p.locks), requested);
    }
  }

  /** With no more distinct keys than the pool may hold, locks are only added, so each key keeps one lock, and two
      envelopes of one session are never processed together. */
  lemma {:induction false} FewKeysExclude(maxLocks: int, es: seq<Event>)
    requires |Requested(es)| <= maxLocks
    ensures QuietRun(maxLocks, es) && OnePerKey(Run(maxLocks, es))
    ensures Keys(Run(maxLocks, es).pool.locks) <= Requested(es)
    ensures es != [] ==> Run(maxLocks, es[..|es| - 1]).pool.locks <= Run(maxLocks, es).pool.locks
  {
    hide Submitted, Got, Requested, Find, Keys, OnePerKey, Anchored, Good;
    if es != [] {
      var before, e := es[..|es| - 1], es[|es| - 1];
      assert es == before + [e];
      RequestedGrows(before, e);
      SubsetIsNoLarger(Requested(before), Requested(es));
      FewKeysExclude(maxLocks, before);
      RunIsGood(maxLocks, before);
      StepWithFewKeys(Run(maxLocks, before), maxLocks, e, Requested(es));
    } else {
      NoKeysYet();
    }
    QuietRunsExclude(maxLocks, es);
  }

  lemma {:induction false} NoKeysYet()
    ensures Keys(START.pool.locks) == {}
  {
  }

  lemma {:induction false} StepWithFewKeys(w: World, maxLocks: int, e: Event, requested: set<Key>)
    requires Good(w) && Keys(w.pool.locks) <= requested && |requested| <= maxLocks
    requires e.Submit? ==> Normalize(e.request) in requested
    ensures e.Submit? ==> Quiet(w, maxLocks, Normalize(e.request))
    ensures w.pool.locks <= Next(w, maxLocks, e).pool.locks
    ensures Keys(Next(w, maxLocks, e).pool.locks) <= requested
  {
    if e.Submit? {
      NoEviction(w.pool, Held(w), maxLocks, Normalize(e.request), requested);
      hide Got, Find, Keys, Held;
    }
  }

  // ----- One key -----

  /** All requests are for one key: it is never evicted, whatever the maximum. */
  lemma {:induction false} OneKeyExcludes(maxLocks: int, es: seq<Event>, k: Key)
    requires Requested(es) <= {k}
    ensures QuietRun(maxLocks, es) && OnePerKey(Run(maxLocks, es))
    ensures Keys(Run(maxLocks, es).pool.locks) <= {k}
  {
    hide Submitted, Got, Requested, Find, Keys, OnePerKey, Anchored, Good;
    if es != [] {
      var before, e := es[..|es| - 1], es[|es| - 1];
      assert es == before + [e];
      RequestedGrows(before, e);
      OneKeyExcludes(maxLocks, before, k);
      RunIsGood(maxLocks, before);
      QuietRunsExclude(maxLocks, before);
      StepWithOneKey(Run(maxLocks, before), maxLocks, e, k);
    } else {
      NoKeysYet();
    }
    QuietRunsExclude(maxLocks, es);
  }

  lemma {:induction false} StepWithOneKey(w: World, maxLocks: int, e: Event, k: Key)
    requires Good(w) && Anchored(w) && Keys(w.pool.locks) <= {k} && (e.Submit? ==> Normalize(e.request) == k)
    ensures e.Submit? ==> Quiet(w, maxLocks, Normalize(e.request))
    ensures Keys(Next(w, maxLocks, e).pool.locks) <= {k}
  {
    if e.Submit? {
      GotIsValid(w.pool, Held(w), maxLocks, k);
      FindsTheOnlyKey(w.pool.locks, k);
      hide Got, Held, Find;
    }
  }

  lemma {:induction false} FindsTheOnlyKey(locks: seq<Entry>, k: Key)
    requires Keys(locks) <= {k}
    ensures locks == [] || Find(locks, k).Some?
  {
    if locks != [] {
      assert locks[0].key in Keys(locks);
    }
  }

  // ----- Beyond that, eviction may break exclusion -----

  function Submits(ks: seq<Key>): seq<Event> {
    seq(|ks|, i requires 0 <= i < |ks| => Submit(Session(ks[i])))
  }

  /** An envelope of k runs, another waits behind it, and every other pooled lock is held. */
  predicate Poised(w: World, k: Key, size: nat) {
    && |w.pool.locks| == size > 0 && w.pool.locks[0] == Entry(k, 0)
    && Job(0, k, 0) in w.running && Job(1, k, 0) in w.waiting
    && (forall i :: 0 < i < size ==> w.pool.locks[i].lock in Held(w))
    && (forall j :: j in w.waiting ==> j.lock == 0)
  }

  lemma {:induction false} PoisedAtFirst(maxLocks: int, k: Key)
    ensures Poised(Run(maxLocks, [Submit(Session(k)), Submit(Session(k))]), k, 1)
    ensures Keys(Run(maxLocks, [Submit(Session(k)), Submit(Session(k))]).pool.locks) <= {k}
  {
    var es := [Submit(Session(k)), Submit(Session(k))];
    assert es[..1] == [Submit(Session(k))] && es[..1][..0] == [];
    assert Run(maxLocks, es[..1]) == Submitted(START, maxLocks, k);
    var w1 := World(Pool([Entry(k, 0)], 1), {Job(0, k, 0)}, {}, 1);
    assert Evicted([], {}, maxLocks) == [];
    assert Held(START) == {};
    assert Submitted(START, maxLocks, k) == w1;
    assert Job(0, k, 0).lock in Held(w1);
  }

  /** A new key enters a pool with room, and its envelope runs. */
  lemma {:induction false} PoisedWithOneMore(w: World, maxLocks: int, k: Key, size: nat, q: Key)
    requires Good(w) && Poised(w, k, size) && size < maxLocks && q !in Keys(w.pool.locks)
    ensures Poised(Submitted(w, maxLocks, q), k, size + 1)
    ensures Keys(Submitted(w, maxLocks, q).pool.locks) == Keys(w.pool.locks) + {q}
  {
    var w' := Submitted(w, maxLocks, q);
    NewLockIsFree(w, q);
    assert w'.pool.locks == w.pool.locks + [Entry(q, w.pool.next)];
    assert w'.running == w.running + {Job(w.serial, q, w.pool.next)} && w'.waiting == w.waiting;
    assert Job(w.serial, q, w.pool.next) in w'.running;
    assert forall j :: j in w.running ==> j in w'.running && j.lock in Held(w');
  }

  lemma {:induction false} NewLockIsFree(w: World, q: Key)
    requires Good(w) && q !in Keys(w.pool.locks)
    ensures Find(w.pool.locks, q).None? && w.pool.next !in Held(w)
    ensures forall j :: j in w.waiting ==> j.lock != w.pool.next
  {
    FoundKeyIsThere(w.pool.locks, q);
  }

  lemma {:induction false} FoundKeyIsThere(locks: seq<Entry>, k: Key)
    ensures Find(locks, k).Some? ==> k in Keys(locks)
  {
    if Find(locks, k).Some? {
      assert Entry(k, Find(locks, k).value) in locks;
    }
  }

  lemma {:induction false} PoisedWhenFull(maxLocks: int, k: Key, ks: seq<Key>)
    requires (forall i, j :: 0 <= i < j < |ks| ==> ks[i] != ks[j]) && k !in ks
    requires ks != [] ==> |ks| < maxLocks
    ensures var w := Run(maxLocks, [Submit(Session(k)), Submit(Session(k))] + Submits(ks));
            && Poised(w, k, |ks| + 1)
            && forall q :: q in Keys(w.pool.locks) ==> q == k || q in ks
  {
    hide Poised, Keys, Good, Submitted;
    var first := [Submit(Session(k)), Submit(Session(k))];
    if ks == [] {
      PoisedAtFirst(maxLocks, k);
      assert first + Submits(ks) == first;
    } else {
      var n := |ks| - 1;
      var front, q := ks[..n], ks[n];
      PoisedWhenFull(maxLocks, k, front);
      RunIsGood(maxLocks, first + Submits(front));
      RunOneMore(maxLocks, first + Submits(front), Submit(Session(q)));
      assert first + Submits(ks) == first + Submits(front) + [Submit(Session(q))];
      PoisedWithOneMore(Run(maxLocks, first + Submits(front)), maxLocks, k, n + 1, q);
    }
  }

  lemma {:induction false} RunOneMore(maxLocks: int, es: seq<Event>, e: Event)
    ensures Run(maxLocks, es + [e]) == Next(Run(maxLocks, es), maxLocks, e)
  {
    assert (es + [e])[..|es|] == es;
  }

  /** From a full poised pool: the lock of k is freed and evicted for another key before its waiter resumes, and a third
      envelope of k gets a new lock. */
  lemma {:induction false} FourStepsBreakExclusion(w: World, maxLocks: int, k: Key, size: nat, q: Key)
    requires Good(w) && Poised(w, k, size) && size >= maxLocks && q !in Keys(w.pool.locks)
    ensures var freed := Next(w, maxLocks, Finish(Job(0, k, 0)));
            var evicted := Next(freed, maxLocks, Submit(Session(q)));
            var resumed := Next(evicted, maxLocks, Wake(Job(1, k, 0)));
            !OnePerKey(Next(resumed, maxLocks, Submit(Session(k))))
  {
    var freed := Next(w, maxLocks, Finish(Job(0, k, 0)));
    var evicted := Next(freed, maxLocks, Submit(Session(q)));
    var resumed := Next(evicted, maxLocks, Wake(Job(1, k, 0)));
    StepKeepsGood(w, maxLocks, Finish(Job(0, k, 0)));
    StepKeepsGood(freed, maxLocks, Submit(Session(q)));
    StepKeepsGood(evicted, maxLocks, Wake(Job(1, k, 0)));
    FreedLockIsIdle(w, k, size);
    IdleLockIsEvicted(freed, maxLocks, k, size, q);
    WaiterResumes(evicted, maxLocks, k, size, q);
    ThirdEnvelopeRuns(resumed, maxLocks, k, size);
  }

  /** Only the first pooled lock is idle. */
  predicate OnlyFirstIdle(w: World, k: Key, size: nat) {
    && |w.pool.locks| == size > 0 && w.pool.locks[0] == Entry(k, 0) && 0 !in Held(w)
    && Job(1, k, 0) in w.waiting && (forall j :: j in w.waiting ==> j.lock == 0)
    && (forall i :: 0 < i < size ==> w.pool.locks[i].lock in Held(w))
  }

  lemma {:induction false} FreedLockIsIdle(w: World, k: Key, size: nat)
    requires Good(w) && Poised(w, k, size)
    ensures OnlyFirstIdle(w.(running := w.running - {Job(0, k, 0)}), k, size)
  {
    var w' := w.(running := w.running - {Job(0, k, 0)});
    forall i | 0 < i < size ensures w.pool.locks[i].lock in Held(w') {
      var j :| j in w.running && j.lock == w.pool.locks[i].lock;
      assert w.pool.locks[0].lock != w.pool.locks[i].lock;
      assert j in w'.running;
    }
  }

  /** All pooled locks are held, and k has none of them. */
  predicate AllBusy(w: World, maxLocks: int, k: Key) {
    && k !in Keys(w.pool.locks) && |w.pool.locks| >= maxLocks
    && (forall e :: e in w.pool.locks ==> e.lock in Held(w))
  }

  lemma {:induction false} IdleLockIsEvicted(w: World, maxLocks: int, k: Key, size: nat, q: Key)
    requires Good(w) && OnlyFirstIdle(w, k, size) && size >= maxLocks && q !in Keys(w.pool.locks)
    ensures var w' := Submitted(w, maxLocks, q);
            AllBusy(w', maxLocks, k) && Job(1, k, 0) in w'.waiting && 0 !in Held(w')
  {
    var first, rest := w.pool.locks[0], w.pool.locks[1..];
    assert w.pool.locks == [first] + rest;
    NewLockIsFree(w, q);
    NoIdleKeys(rest, Held(w));
    IdleStep(first, rest, Held(w), 1);
    DropNone(rest, Held(w));
    assert Evicted(w.pool.locks, Held(w), maxLocks) == rest;
    TailIsDistinct(w.pool.locks);
    var w' := Submitted(w, maxLocks, q);
    hide Evicted, DropIdle, IdleKeys, Find;
    assert w'.pool.locks == rest + [Entry(q, w.pool.next)];
    assert w'.running == w.running + {Job(w.serial, q, w.pool.next)};
    assert Job(w.serial, q, w.pool.next) in w'.running;
    assert forall j :: j in w.running ==> j in w'.running && j.lock in Held(w');
    assert k != q by {
      assert first in w.pool.locks;
    }
  }

  lemma {:induction false} NoIdleKeys(locks: seq<Entry>, held: set<nat>)
    requires forall e :: e in locks ==> e.lock in held
    ensures IdleKeys(locks, held) == [] && forall n: nat :: DropIdle(locks, held, n) == locks
  {
    if locks != [] {
      NoIdleKeys(locks[1..], held);
      assert locks == [locks[0]] + locks[1..];
    }
  }

  lemma {:induction false} WaiterResumes(w: World, maxLocks: int, k: Key, size: nat, q: Key)
    requires AllBusy(w, maxLocks, k) && Job(1, k, 0) in w.waiting && 0 !in Held(w)
    ensures var w' := Next(w, maxLocks, Wake(Job(1, k, 0)));
            AllBusy(w', maxLocks, k) && Job(1, k, 0) in w'.running
  {
    var w' := Next(w, maxLocks, Wake(Job(1, k, 0)));
    assert forall j :: j in w.running ==> j in w'.running && j.lock in Held(w');
  }

  lemma {:induction false} ThirdEnvelopeRuns(w: World, maxLocks: int, k: Key, size: nat)
    requires Good(w) && AllBusy(w, maxLocks, k) && Job(1, k, 0) in w.running
    ensures !OnePerKey(Submitted(w, maxLocks, k))
  {
    var w' := Submitted(w, maxLocks, k);
    NewLockIsFree(w, k);
    assert Job(w.serial, k, w.pool.next) in w'.running && Job(1, k, 0) in w'.running;
  }

  lemma {:induction false} DistinctKeysOf(keys: set<Key>, n: nat) returns (ks: seq<Key>)
    requires n <= |keys|
    ensures |ks| == n && (forall k :: k in ks ==> k in keys)
    ensures forall i, j :: 0 <= i < j < n ==> ks[i] != ks[j]
  {
    if n == 0 {
      ks := [];
    } else {
      var k :| k in keys;
      var rest := DistinctKeysOf(keys - {k}, n - 1);
      ks := [k] + rest;
    }
  }

  /** With more keys than the pool holds there is a run that processes two envelopes of one session together. */
  lemma {:induction false} EvictionBreaksExclusion(maxLocks: int, keys: set<Key>) returns (es: seq<Event>)
    requires |keys| > Max(1, maxLocks)
    ensures Requested(es) <= keys && !OnePerKey(Run(maxLocks, es))
  {
    var size := Max(1, maxLocks);
    var ks := DistinctKeysOf(keys, size + 1);
    es := BreakingRun(ks, size);
    BreakingRunBreaks(maxLocks, ks, size);
    RequestedAreAmong(es, keys);
  }

  /** The first key twice, the keys that fill the pool, and the four steps around its eviction. */
  function BreakingRun(ks: seq<Key>, size: nat): seq<Event>
    requires 1 <= size < |ks|
  {
    [Submit(Session(ks[0])), Submit(Session(ks[0]))] + Submits(ks[1..size])
    + [Finish(Job(0, ks[0], 0))] + [Submit(Session(ks[size]))] + [Wake(Job(1, ks[0], 0))] + [Submit(Session(ks[0]))]
  }

  lemma {:induction false} BreakingRunBreaks(maxLocks: int, ks: seq<Key>, size: nat)
    requires size == Max(1, maxLocks) && |ks| == size + 1 && forall i, j :: 0 <= i < j < |ks| ==> ks[i] != ks[j]
    ensures !OnePerKey(Run(maxLocks, BreakingRun(ks, size)))
  {
    hide OnePerKey, Next, Poised, Keys, Good, Run;
    var k, q := ks[0], ks[size];
    var full := [Submit(Session(k)), Submit(Session(k))] + Submits(ks[1..size]);
    PoisedWhenFull(maxLocks, k, ks[1..size]);
    RunIsGood(maxLocks, full);
    FourStepsBreakExclusion(Run(maxLocks, full), maxLocks, k, size, q);
    var e1, e2, e3, e4 := Finish(Job(0, k, 0)), Submit(Session(q)), Wake(Job(1, k, 0)), Submit(Session(k));
    RunOneMore(maxLocks, full, e1);
    RunOneMore(maxLocks, full + [e1], e2);
    RunOneMore(maxLocks, full + [e1] + [e2], e3);
    RunOneMore(maxLocks, full + [e1] + [e2] + [e3], e4);
  }

  lemma {:induction false} RequestedAreAmong(es: seq<Event>, keys: set<Key>)
    requires forall e :: e in es && e.Submit? ==> Normalize(e.request) in keys
    ensures Requested(es) <= keys
  {
  }

  /** Two envelopes of one session are never processed together, in any run over these keys, exactly when there are no
      more of them than the pool may hold, or just one. */
  lemma {:induction false} ExclusionHoldsExactlyWhen(maxLocks: int, keys: set<Key>)
    ensures (forall es :: Requested(es) <= keys ==> OnePerKey(Run(maxLocks, es))) <==> |keys| <= Max(1, maxLocks)
  {
    if |keys| > Max(1, maxLocks) {
      var es := EvictionBreaksExclusion(maxLocks, keys);
    } else {
      forall es | Requested(es) <= keys ensures OnePerKey(Run(maxLocks, es)) {
        SubsetIsNoLarger(Requested(es), keys);
        if |keys| <= maxLocks {
          FewKeysExclude(maxLocks, es);
        } else {
          var k := TheOnlyKey(keys);
          OneKeyExcludes(maxLocks, es, k);
        }
      }
    }
  }

  lemma {:induction false} TheOnlyKey(keys: set<Key>) returns (k: Key)
    requires |keys| <= 1
    ensures keys <= {k}
  {
    if keys == {} {
      k := Key(Number(0), None);
    } else {
      k :| k in keys;
      SubsetIsNoLarger({k}, keys);
    }
  }
}
