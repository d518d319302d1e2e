/** The on-disk catalogue of a provider's models and its refresh, over any run of loads. */
module ModelCache {
  import opened Wrappers

  /** 24 hours, in microseconds. */
  const MAX_AGE := 24 * 60 * 60 * 1_000_000

  /** A cache; the time of its last update is `None` when its text is no time that can be compared. */
  datatype Cache<M> = Cache(lastUpdated: Option<int>, models: seq<M>)

  /** What the cache file holds. */
  datatype Disk<M> = Missing | Unreadable | Saved(cache: Cache<M>)

  datatype Discovery<M> = Failed | Found(models: seq<M>)

  /** One call of `load_or_refresh`: the clock when it loads and when it refreshes, what discovery would give and
      whether a save would succeed. */
  datatype Load<M> = Load(force: bool, now: int, later: int, discovery: Discovery<M>, saveWorks: bool)

  datatype Outcome<M> = Outcome(disk: Disk<M>, cache: Cache<M>)

  function Discovered<M>(d: Discovery<M>): seq<M> {
    match d case Failed => [] case Found(models) => models
  }

  predicate Fresh<M>(disk: Disk<M>, now: int) {
    && disk.Saved? && disk.cache.lastUpdated.Some? && now - disk.cache.lastUpdated.value < MAX_AGE
    && disk.cache.models != []
  }

  function Refreshed<M>(fallback: seq<M>, disk: Disk<M>, l: Load<M>): Outcome<M> {
    var found := Discovered(l.discovery);
    var stamp := Some(l.later);
    if found != [] then
      Outcome(if l.saveWorks then Saved(Cache(stamp, found)) else disk, Cache(stamp, found))
    else if disk.Saved? && disk.cache.models != [] then Outcome(disk, disk.cache)
    else Outcome(disk, Cache(stamp, fallback))
  }

  function Loaded<M>(fallback: seq<M>, disk: Disk<M>, l: Load<M>): Outcome<M> {
    if !l.force && Fresh(disk, l.now) then Outcome(disk, disk.cache) else Refreshed(fallback, disk, l)
  }

  class CacheFile<M(==)> {
    const fallback: seq<M>
    var disk: Disk<M>

    constructor (fallback: seq<M>, disk: Disk<M>)
      ensures this.fallback == fallback && this.disk == disk
    {
      this.fallback := fallback;
      this.disk := disk;
    }

    method LoadOrRefresh(l: Load<M>) returns (cache: Cache<M>)
      modifies this
      ensures Outcome(disk, cache) == Loaded(fallback, old(disk), l)
    {
      if l.force {
        cache := RefreshAndSave(l);
        return;
      }
      if disk.Saved? {
        cache := disk.cache;
        if cache.lastUpdated.Some? {
          var age := l.now - cache.lastUpdated.value;
          if age < MAX_AGE && cache.models != [] {
            return;
          }
        }
      }
      cache := RefreshAndSave(l);
    }

    method RefreshAndSave(l: Load<M>) returns (cache: Cache<M>)
      modifies this
      ensures Outcome(disk, cache) == Refreshed(fallback, old(disk), l)
    {
      var models := match l.discovery case Failed => [] case Found(ms) => ms;
      if models != [] {
        cache := Cache(Some(l.later), models);
        if l.saveWorks {
          disk := Saved(cache);
        }
        return;
      }
      var existing := TryLoadDisk();
      if existing.Some? && existing.value.models != [] {
        return existing.value;
      }
      if fallback != [] {
        return Cache(Some(l.later), fallback);
      }
      cache := Cache(Some(l.later), []);
    }

    method TryLoadDisk() returns (cache: Option<Cache<M>>)
      ensures cache == if disk.Saved? then Some(disk.cache) else None
    {
      cache := if disk.Saved? then Some(disk.cache) else None;
    }
  }

  // ----- One load -----

  /** A load returns the file's cache untouched exactly when it is not forced and the file is fresh and not empty, or
      discovery gives nothing and the file is not empty; the fallback comes back exactly when neither discovery nor the
      file has a model. */
  lemma {:induction false} LoadChoosesExactly<M>(fallback: seq<M>, disk: Disk<M>, l: Load<M>)
    ensures var r := Loaded(fallback, disk, l); var found := if l.discovery.Found? then l.discovery.models else [];
            var stocked := disk.Saved? && disk.cache.models != [];
            var current := stocked && disk.cache.lastUpdated.Some?
                         && l.now < disk.cache.lastUpdated.value + 86_400_000_000;
            && (r.cache.models == [] <==> fallback == [] && found == [] && !stocked)
            && (r.disk != disk ==> found != [] && l.saveWorks && r.disk == Saved(r.cache) && r.cache.models == found)
            && (stocked && (found == [] || (!l.force && current)) ==> r == Outcome(disk, disk.cache))
            && (!stocked && found == [] ==> r == Outcome(disk, Cache(Some(l.later), fallback)))
            && (found != [] && (l.force || !current) ==>
                  r == Outcome(if l.saveWorks then Saved(Cache(Some(l.later), found)) else disk,
                               Cache(Some(l.later), found)))
  {
  }

  // ----- Any run of loads -----

  function DiskAfter<M>(fallback: seq<M>, disk: Disk<M>, ls: seq<Load<M>>): Disk<M> {
    if ls == [] then disk else Loaded(fallback, DiskAfter(fallback, disk, ls[..|ls| - 1]), ls[|ls| - 1]).disk
  }

  predicate Stocked<M(==)>(disk: Disk<M>) {
    disk.Saved? && disk.cache.models != []
  }

  /** Whatever a run leaves on disk was there before or is what some load of the run discovered and saved: never the
      fallback, never an empty catalogue. */
  lemma {:induction false} DiskComesFromDiscovery<M>(fallback: seq<M>, disk: Disk<M>, ls: seq<Load<M>>)
    ensures var d := DiskAfter(fallback, disk, ls);
            d == disk || exists k :: 0 <= k < |ls| && ls[k].saveWorks && Discovered(ls[k].discovery) != []
                                     && d == Saved(Cache(Some(ls[k].later), Discovered(ls[k].discovery)))
    ensures Stocked(disk) ==> Stocked(DiskAfter(fallback, disk, ls))
  {
    if ls != [] {
      var before, n := ls[..|ls| - 1], |ls| - 1;
      DiskComesFromDiscovery(fallback, disk, before);
      LoadChoosesExactly(fallback, DiskAfter(fallback, disk, before), ls[n]);
      assert forall k :: 0 <= k < n ==> before[k] == ls[k];
    }
  }

  /** With a fallback, every load of every run gives a catalogue that is not empty. */
  lemma {:induction false} EveryLoadHasModels<M>(fallback: seq<M>, disk: Disk<M>, ls: seq<Load<M>>, l: Load<M>)
    requires fallback != []
    ensures Loaded(fallback, DiskAfter(fallback, disk, ls), l).cache.models != []
  {
    LoadChoosesExactly(fallback, DiskAfter(fallback, disk, ls), l);
  }

  /** Once the disk is stocked, losing discovery for good loses nothing: every later load gives what the disk held. */
  lemma {:induction false} StockOutlivesDiscovery<M>(fallback: seq<M>, disk: Disk<M>, ls: seq<Load<M>>)
    requires Stocked(disk) && forall l :: l in ls ==> Discovered(l.discovery) == []
    ensures DiskAfter(fallback, disk, ls) == disk
    ensures ls != [] ==>
              Loaded(fallback, DiskAfter(fallback, disk, ls[..|ls| - 1]), ls[|ls| - 1]) == Outcome(disk, disk.cache)
  {
    if ls != [] {
      StockOutlivesDiscovery(fallback, disk, ls[..|ls| - 1]);
      LoadChoosesExactly(fallback, disk, ls[|ls| - 1]);
    }
  }
}
