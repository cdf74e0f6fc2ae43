/**
 * The in-process TTL cache. Entries expire lazily; under memory pressure a set updates a live
 * key and silently rejects a new one. Contracts speak of the view: the entries live at a time.
 */
module MemoryCache {
  import opened Wrappers

  /** Nanoseconds. */
  type Time = int

  /** A stored value with its expiry instant; None never expires. */
  datatype Item<+V> = Item(value: V, expires: Option<Time>)

  type Store<V> = map<string, Item<V>>

  predicate Live<V>(item: Item<V>, now: Time) {
    item.expires.None? || now <= item.expires.value
  }

  /** The entries a reader at `now` can see. */
  function Visible<V>(s: Store<V>, now: Time): Store<V> {
    map k | k in s && Live(s[k], now) :: s[k]
  }

  /** The expiry of an entry set at `now`: a zero TTL takes the cache's default, a negative one never expires. */
  function Deadline(ttl: int, defaultTtl: int, now: Time): Option<Time> {
    var d := if ttl == 0 then defaultTtl else ttl;
    if d > 0 then Some(now + d) else None
  }

  /** Looking a key up. */
  function Lookup<V>(s: Store<V>, key: string): Option<V> {
    if key in s then Some(s[key].value) else None
  }

  /** One set on a view. */
  function Put<V>(s: Store<V>, key: string, value: V, expires: Option<Time>, pressure: bool): Store<V> {
    if pressure && key !in s then s else s[key := Item(value, expires)]
  }

  /** Setting every entry of `news`; under pressure only the keys already live are touched. */
  function PutAll<V>(s: Store<V>, news: map<string, V>, expires: Option<Time>, pressure: bool): Store<V> {
    map k | k in s.Keys + news.Keys && (k in s || !pressure) ::
      if k in news then Item(news[k], expires) else s[k]
  }

  /** The view after a full sync: only new keys and new values, of which pressure keeps the live keys. */
  function ReplaceAll<V>(s: Store<V>, news: map<string, V>, expires: Option<Time>, pressure: bool): Store<V> {
    map k | k in news && (k in s || !pressure) :: Item(news[k], expires)
  }

  /** Passing time only removes entries, whether or not it is observed in between. */
  lemma VisibleLater<V>(s: Store<V>, t0: Time, t1: Time)
    requires t0 <= t1
    ensures Visible(Visible(s, t0), t1) == Visible(s, t1)
  {}

  /**
   * How long a set key is seen: under no pressure, or when it was live, its new value is there
   * up to the TTL (the cache's own for 0; for ever when that is not positive) and nothing after.
   */
  lemma SeenUntilExpiry<V>(s: Store<V>, key: string, value: V, ttl: int, defaultTtl: int, pressure: bool, setAt: Time, now: Time)
    requires setAt <= now && (!pressure || key in s)
    ensures var d := if ttl == 0 then defaultTtl else ttl;
            Lookup(Visible(Put(s, key, value, Deadline(ttl, defaultTtl, setAt), pressure), now), key) ==
            if d <= 0 || now - setAt <= d then Some(value) else None
  {}

  /** Under pressure a key that is not live is not set, and nothing else is touched either. */
  lemma RejectedUnderPressure<V>(s: Store<V>, key: string, value: V, expires: Option<Time>, other: string)
    ensures key !in s ==> Put(s, key, value, expires, true) == s
    ensures other != key ==> forall pressure: bool :: Lookup(Put(s, key, value, expires, pressure), other) == Lookup(s, other)
  {}

  /** Heap pressure, sampled by a background goroutine. */
  class MemoryMonitor {
    var isUnderPressure: bool

    constructor ()
      ensures !isUnderPressure
    {
      isUnderPressure := false;
    }
  }

  class CacheMemory<V> {
    const monitor: MemoryMonitor
    const defaultTtl: int
    var store: Store<V>

    function View(now: Time): Store<V>
      reads this
    {
      Visible(store, now)
    }

    constructor (monitor: MemoryMonitor, defaultTtl: int)
      ensures this.monitor == monitor && this.defaultTtl == defaultTtl && store == map[]
    {
      this.monitor, this.defaultTtl := monitor, defaultTtl;
      store := map[];
    }

    method Get(key: string, now: Time) returns (v: Option<V>)
      ensures v == Lookup(View(now), key)
    {
      if key in store && Live(store[key], now) {
        v := Some(store[key].value);
      } else {
        v := None;
      }
    }

    method Set(key: string, value: V, ttl: int, now: Time)
      modifies this
      ensures View(now) ==
              Put(old(View(now)), key, value, Deadline(ttl, defaultTtl, now), monitor.isUnderPressure)
    {
      if monitor.isUnderPressure {
        var found := Get(key, now);
        if found.None? {
          return;
        }
      }
      store := store[key := Item(value, Deadline(ttl, defaultTtl, now))];
    }

    method Delete(key: string)
      modifies this
      ensures forall now :: View(now) == old(View(now)) - {key}
    {
      store := store - {key};
      forall now ensures View(now) == old(View(now)) - {key} {}
    }

    method Clear()
      modifies this
      ensures forall now :: View(now) == map[]
    {
      store := map[];
      forall now ensures View(now) == map[] {}
    }

    /** The live keys; their order is arbitrary, so a set. */
    method Keys(now: Time) returns (keys: set<string>)
      ensures keys == View(now).Keys
    {
      keys := set k | k in store && Live(store[k], now);
    }

    /** The janitor's sweep removes only what no reader can see any more. */
    method DeleteExpired(now: Time)
      modifies this
      ensures forall t | now <= t :: View(t) == old(View(t))
    {
      store := Visible(store, now);
      forall t | now <= t ensures View(t) == old(View(t)) {
        VisibleLater(old(store), now, t);
      }
    }

    /**
     * One of the four passes of UpdateSchedules: set every new entry, then delete every key
     * that was live before and is not new. Map iteration order is arbitrary.
     */
    method Replace(news: map<string, V>, ttl: int, now: Time)
      modifies this
      ensures View(now) ==
              ReplaceAll(old(View(now)), news, Deadline(ttl, defaultTtl, now), monitor.isUnderPressure)
    {
      var existing := Keys(now);
      ghost var was := View(now);
      SetAll(news, ttl, now);
      DeleteKeys(existing - news.Keys, now);
      PutThenDrop(was, news, Deadline(ttl, defaultTtl, now), monitor.isUnderPressure);
    }

    /** Deletes every key of `keys`, in any order. */
    method DeleteKeys(keys: set<string>, ghost now: Time)
      modifies this
      ensures View(now) == old(View(now)) - keys
    {
      var todo := keys;
      while todo != {}
        invariant todo <= keys
        invariant View(now) == old(View(now)) - (keys - todo)
        decreases |todo|
      {
        var k :| k in todo;
        Delete(k);
        assert keys - (todo - {k}) == (keys - todo) + {k};
        todo := todo - {k};
      }
    }

    /** Sets every entry of `news`, in any order. */
    method SetAll(news: map<string, V>, ttl: int, now: Time)
      modifies this
      ensures View(now) == PutAll(old(View(now)), news, Deadline(ttl, defaultTtl, now), monitor.isUnderPressure)
    {
      var todo := news.Keys;
      ghost var was, exp := View(now), Deadline(ttl, defaultTtl, now);
      PutNothing(was, news, exp, monitor.isUnderPressure);
      while todo != {}
        invariant todo <= news.Keys
        invariant View(now) == PutAll(was, news - todo, exp, monitor.isUnderPressure)
        decreases |todo|
      {
        var k :| k in todo;
        PutAllStep(was, news, todo, k, exp, monitor.isUnderPressure);
        Set(k, news[k], ttl, now);
        todo := todo - {k};
      }
      assert news - {} == news;
    }
  }

  lemma PutNothing<V>(s: Store<V>, news: map<string, V>, exp: Option<Time>, pressure: bool)
    ensures PutAll(s, news - news.Keys, exp, pressure) == s
  {}

  lemma PutThenDrop<V>(s: Store<V>, news: map<string, V>, exp: Option<Time>, pressure: bool)
    ensures PutAll(s, news, exp, pressure) - (s.Keys - news.Keys) == ReplaceAll(s, news, exp, pressure)
  {}

  lemma PutAllStep<V>(s: Store<V>, news: map<string, V>, todo: set<string>, k: string, exp: Option<Time>, pressure: bool)
    requires k in todo && todo <= news.Keys
    ensures PutAll(s, news - (todo - {k}), exp, pressure) ==
            Put(PutAll(s, news - todo, exp, pressure), k, news[k], exp, pressure)
  {}
}
