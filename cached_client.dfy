/** The week cache in front of the Untis client (`get_class_timetables` and
    `clear_cache` in src/untis/cached_untis_client.rs).

    The persisted cache (`PersistenceManager`'s "cached_timetables" entry)
    is an object whose state the client reads and replaces. The network
    fetch, whose outcome the model takes as a parameter, and the clock,
    whose reading is a parameter `now`, are the other inputs; whether the
    fetch was made is an out-parameter. */
module CachedClient {
  import opened Wrappers
  import opened Errors
  import opened CleanModels
  import opened UntisWeek

  /** `TimeTables`: the class timetables of one week and the pre-selected class. */
  datatype TimeTables = TimeTables(classes: map<Class, WeekTimeTable>, preSelected: Option<int>)

  /** One cached week: an optional expiry and the tables. */
  datatype CacheEntry = CacheEntry(expiry: Option<DateTime>, tables: TimeTables)

  /** `TimeTableCache.tables`. */
  type Cache = map<Week, CacheEntry>

  /** The persisted cache. `saved` is `None` while nothing was ever stored;
      `readFailure` is the message of a read that fails (unreadable storage
      or stored bytes that do not decode). */
  class TimetableStore {
    var saved: Option<Cache>
    var readFailure: Option<string>

    constructor(saved: Option<Cache>, readFailure: Option<string>)
      ensures this.saved == saved && this.readFailure == readFailure
    {
      this.saved := saved;
      this.readFailure := readFailure;
    }

    /** `PersistenceManager::get_timetables`. */
    function Read(): (r: Result<Option<Cache>, string>)
      reads this
      ensures r.Ok? <==> readFailure.None?
      ensures r.Ok? ==> r.value == saved
    {
      match readFailure
      case Some(m) => Err(m)
      case None => Ok(saved)
    }

    /** `PersistenceManager::save_timetables`; a write that fails with
        `failure` leaves the store as it was. */
    method Save(c: Cache, failure: Option<string>) returns (r: Result<(), string>)
      modifies this
      ensures failure.None? ==> r == Ok(()) && saved == Some(c) && readFailure.None?
      ensures failure.Some? ==> r == Err(failure.value) && saved == old(saved) && readFailure == old(readFailure)
    {
      if failure.Some? {
        return Err(failure.value);
      }
      saved := Some(c);
      readFailure := None;
      return Ok(());
    }
  }

  // ----------------------------------------------------------------------
  // The policy, as a function of what was read

  /** What the cache says about `week`: the tables to return, or the cache
      to refill. */
  datatype Lookup = Hit(tables: TimeTables) | Miss(rest: Cache)

  /** An entry is used while it has no expiry or its expiry lies after `now`. */
  predicate Fresh(e: CacheEntry, now: DateTime) {
    e.expiry.None? || Instant(e.expiry.value) > Instant(now)
  }

  function Consult(cache: Option<Cache>, week: Week, now: DateTime): Lookup {
    match cache
    case None => Miss(map[])
    case Some(c) =>
      if week in c && Fresh(c[week], now) then Hit(c[week].tables)
      else if week in c then Miss(c - {week})
      else Miss(c)
  }

  /** The result of one call, whether it fetched, and the cache it stored
      (`None` when nothing was stored). */
  datatype Outcome = Outcome(result: Result<TimeTables, ApiError>, fetches: bool, stored: Option<Cache>)

  /** The cache after the fetched tables of `week` were added to `rest`. */
  function Refilled(rest: Cache, week: Week, tt: TimeTables): Cache {
    rest[week := CacheEntry(None, tt)]
  }

  function Policy(read: Result<Option<Cache>, string>, week: Week, now: DateTime,
                  fetched: Result<TimeTables, ApiError>, writeFailure: Option<string>): Outcome
  {
    match read
    case Err(m) => Outcome(Err(Miscellaneous(m)), false, None)
    case Ok(cache) =>
      match Consult(cache, week, now)
      case Hit(t) => Outcome(Ok(t), false, None)
      case Miss(rest) =>
        match fetched
        case Err(e) => Outcome(Err(e), true, None)
        case Ok(tt) =>
          if writeFailure.Some? then Outcome(Err(Miscellaneous(writeFailure.value)), true, None)
          else Outcome(Ok(tt), true, Some(Refilled(rest, week, tt)))
  }

  // ----------------------------------------------------------------------
  // The source's imperative form

  /** `get_class_timetables(week)`. */
  method GetClassTimetables(store: TimetableStore, week: Week, now: DateTime,
                            fetched: Result<TimeTables, ApiError>, writeFailure: Option<string>)
    returns (r: Result<TimeTables, ApiError>, fetches: bool)
    modifies store
    ensures var o := Policy(old(store.Read()), week, now, fetched, writeFailure);
      && r == o.result && fetches == o.fetches
      && (o.stored.Some? ==> store.saved == o.stored && store.readFailure.None?)
      && (o.stored.None? ==> store.saved == old(store.saved) && store.readFailure == old(store.readFailure))
  {
    var read := store.Read();
    if read.Err? {
      return Err(Miscellaneous(read.error)), false;
    }
    var cacheTable: Cache := map[];
    if read.value.Some? {
      var c := read.value.value;
      if week in c {
        var entry := c[week];
        if entry.expiry.None? {
          return Ok(entry.tables), false;
        }
        if Instant(entry.expiry.value) > Instant(now) {
          return Ok(entry.tables), false;
        } else {
          c := c - {week};
        }
      }
      cacheTable := c;
    }
    fetches := true;
    if fetched.Err? {
      r := Err(fetched.error);
      return;
    }
    var tt := fetched.value;
    cacheTable := cacheTable[week := CacheEntry(None, tt)];
    var saveResult := store.Save(cacheTable, writeFailure);
    if saveResult.Err? {
      r := Err(Miscellaneous(saveResult.error));
      return;
    }
    r := Ok(tt);
  }

  /** `clear_cache()`: stores an empty table. */
  method ClearCache(store: TimetableStore, writeFailure: Option<string>) returns (r: Result<(), ApiError>)
    modifies store
    ensures writeFailure.None? ==> r == Ok(()) && store.saved == Some(map[]) && store.readFailure.None?
    ensures writeFailure.Some? ==>
      r == Err(Miscellaneous(writeFailure.value)) && store.saved == old(store.saved) && store.readFailure == old(store.readFailure)
  {
    var saveResult := store.Save(map[], writeFailure);
    if saveResult.Err? {
      return Err(Miscellaneous(saveResult.error));
    }
    return Ok(());
  }

  // ----------------------------------------------------------------------
  // What the policy promises

  /** A cached week without expiry, or with an expiry after `now`, is
      returned as cached, without fetching or storing. */
  lemma FreshEntryIsReturned(c: Cache, week: Week, now: DateTime,
                             fetched: Result<TimeTables, ApiError>, writeFailure: Option<string>)
    requires week in c && (c[week].expiry.None? || Instant(c[week].expiry.value) > Instant(now))
    ensures Policy(Ok(Some(c)), week, now, fetched, writeFailure) == Outcome(Ok(c[week].tables), false, None)
  {
  }

  /** The cache is consulted, and nothing fetched, exactly when the week
      is cached and fresh; otherwise a stale entry is dropped before the
      fetch. */
  lemma FetchesUnlessFresh(cache: Option<Cache>, week: Week, now: DateTime,
                           fetched: Result<TimeTables, ApiError>, writeFailure: Option<string>)
    ensures Policy(Ok(cache), week, now, fetched, writeFailure).fetches
      <==> !(cache.Some? && week in cache.value && Fresh(cache.value[week], now))
    ensures cache.Some? && week in cache.value && !Fresh(cache.value[week], now)
      ==> Consult(cache, week, now) == Miss(cache.value - {week})
  {
  }

  /** A fetch that fails is returned as it is and nothing is stored. */
  lemma FetchFailureStoresNothing(read: Result<Option<Cache>, string>, week: Week, now: DateTime,
                                  e: ApiError, writeFailure: Option<string>)
    requires read.Ok? && Consult(read.value, week, now).Miss?
    ensures Policy(read, week, now, Err(e), writeFailure) == Outcome(Err(e), true, None)
  {
  }

  /** A failed read is reported without fetching. */
  lemma ReadFailureFetchesNothing(m: string, week: Week, now: DateTime,
                                  fetched: Result<TimeTables, ApiError>, writeFailure: Option<string>)
    ensures Policy(Err(m), week, now, fetched, writeFailure) == Outcome(Err(Miscellaneous(m)), false, None)
  {
  }

  /** After a successful fetch the stored cache maps `week` to the fetched
      tables without expiry and keeps every other week's entry; the fetched
      tables are returned. */
  lemma RefillKeepsOtherWeeks(cache: Option<Cache>, week: Week, now: DateTime, tt: TimeTables)
    requires Consult(cache, week, now).Miss?
    ensures var o := Policy(Ok(cache), week, now, Ok(tt), None);
      && o.result == Ok(tt) && o.fetches && o.stored.Some?
      && week in o.stored.value && o.stored.value[week] == CacheEntry(None, tt)
      && (forall w :: w != week ==> (w in o.stored.value <==> cache.Some? && w in cache.value))
      && (forall w :: w != week && w in o.stored.value ==> o.stored.value[w] == cache.value[w])
  {
  }

  /** What a refill stores is found again: asking for the same week at any
      later time returns the fetched tables without fetching. */
  lemma RefillThenHit(cache: Option<Cache>, week: Week, now: DateTime, later: DateTime, tt: TimeTables,
                      fetched: Result<TimeTables, ApiError>, writeFailure: Option<string>)
    requires Consult(cache, week, now).Miss?
    ensures var o := Policy(Ok(cache), week, now, Ok(tt), None);
      Policy(Ok(o.stored), week, later, fetched, writeFailure) == Outcome(Ok(tt), false, None)
  {
    var o := Policy(Ok(cache), week, now, Ok(tt), None);
    FreshEntryIsReturned(o.stored.value, week, later, fetched, writeFailure);
  }

  /** After `clear_cache` every week is fetched again. */
  lemma ClearedCacheMisses(week: Week, now: DateTime)
    ensures Consult(Some(map[]), week, now) == Miss(map[])
  {
  }
}
