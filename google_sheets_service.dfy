/**
 * src/services/googleSheetsService.js: guest names and table numbers read
 * from a spreadsheet, kept in a module-level cache for five minutes.
 * The clock is an explicit argument (`now` when the cache is consulted,
 * `loadedAt` when a load completes) and the spreadsheet call is its outcome:
 * `Some(rows)` for a response carrying `values`, `None` for a call that threw
 * or a response without `values` (where `rows.length` throws).
 */
module GoogleSheetsService {
  import opened Wrappers
  import opened JsString
  import opened GuestRows
  import Config

  /** One spreadsheet row: its cells, left to right. */
  type Row = seq<string>

  /** `CACHE_TTL`: five minutes, in milliseconds. */
  const CacheTtl: int := 5 * 60 * 1000

  /** `guestsCache` when it is not null: the map and the time it was loaded. */
  datatype CacheEntry = CacheEntry(data: map<string, string>, timestamp: int)

  /** `const [name, table] = rows[i]`. */
  function SheetRecord(row: Row): (r: Record)
    ensures |row| >= 2 ==> r == Record(row[0], row[1])
    ensures |row| < 2 ==> r.table == [] && (|row| == 1 ==> r.name == row[0])
  {
    Record(Field(row, 0), Field(row, 1))
  }

  function SheetRecords(rows: seq<Row>): (records: seq<Record>)
    ensures |records| == |rows|
    ensures forall i :: 0 <= i < |rows| ==> records[i] == SheetRecord(rows[i])
  {
    seq(|rows|, i requires 0 <= i < |rows| => SheetRecord(rows[i]))
  }

  /** The guest map a successful load produces from `rows`. */
  function SheetGuests(rows: seq<Row>): (guests: map<string, string>)
    ensures forall name :: name in guests ==> name != [] && Trimmed(guests[name])
  {
    GuestsEntries(SheetRecords(rows));
    Guests(SheetRecords(rows))
  }

  /**
   * The rows the loader gets to see. `getSheetClient` reads
   * `config.googleSheets.keyFilePath` before any request is made, so without a
   * `googleSheets` section it throws and no rows arrive; otherwise the rows are
   * those of a response that carries `values`.
   */
  function SheetRows(config: Config.AppConfig, response: Option<Option<seq<Row>>>): (rows: Option<seq<Row>>)
    ensures rows.Some? <==> config.googleSheets.Some? && response.Some? && response.value.Some?
    ensures rows.Some? ==> rows == response.value
  {
    if config.googleSheets.None? || response.None? then None else response.value
  }

  /** With the configuration as exported, whatever the environment and the spreadsheet, no load ever succeeds. */
  lemma ExportedConfigNeverLoads(env: Config.Environment, response: Option<Option<seq<Row>>>)
    ensures SheetRows(Config.Load(env), response) == None
  {
  }

  /** The loop of `loadGuestsFromSheet` (lines 37-42): skip the header, set name to trimmed table for every row with both cells. */
  method ParseRows(rows: seq<Row>) returns (guests: map<string, string>)
    ensures guests == SheetGuests(rows)
  {
    ghost var records := SheetRecords(rows);
    guests := map[];
    var i := 1;
    while i < |rows|
      invariant 1 <= i
      invariant guests == GuestsUpTo(records, if i <= |rows| then i else |rows|)
    {
      var name, table := Field(rows[i], 0), Field(rows[i], 1);
      if name != [] && table != [] {
        guests := guests[name := Trim(table)];
      }
      i := i + 1;
    }
  }

  /** `forceRefresh || !guestsCache || Date.now() - guestsCache.timestamp > CACHE_TTL`. */
  predicate MustRefetch(forceRefresh: bool, cache: Option<CacheEntry>, now: int)
    ensures forceRefresh || cache.None? ==> MustRefetch(forceRefresh, cache, now)
    ensures !forceRefresh && cache.Some? ==>
              (MustRefetch(forceRefresh, cache, now) <==> now > cache.value.timestamp + CacheTtl)
  {
    forceRefresh || cache.None? || now - cache.value.timestamp > CacheTtl
  }

  /** An entry is served for its whole lifetime, including the instant it is exactly `CACHE_TTL` old. */
  lemma ServedWhileFresh(entry: CacheEntry, now: int)
    requires now - entry.timestamp <= CacheTtl
    ensures !MustRefetch(false, Some(entry), now)
  {
  }

  /** One millisecond past `CACHE_TTL` the entry is refetched, forced or not. */
  lemma RefetchedWhenStale(entry: CacheEntry, forceRefresh: bool)
    ensures MustRefetch(forceRefresh, Some(entry), entry.timestamp + CacheTtl + 1)
  {
  }

  /** Holds the module variable `guestsCache`. */
  class GuestCache {
    var cache: Option<CacheEntry>

    /** At module load `guestsCache` is null. */
    constructor ()
      ensures cache.None?
    {
      cache := None;
    }

    /**
     * `loadGuestsFromSheet`: on success the whole entry is replaced by the new
     * map and the load time; on failure the result is an empty map and the old
     * entry stays as it was.
     */
    method LoadGuestsFromSheet(fetched: Option<seq<Row>>, loadedAt: int) returns (guests: map<string, string>)
      modifies this
      ensures fetched.None? ==> guests == map[] && cache == old(cache)
      ensures fetched.Some? ==> guests == SheetGuests(fetched.value)
                                && cache == Some(CacheEntry(guests, loadedAt))
    {
      if fetched.None? {
        return map[];
      }
      guests := ParseRows(fetched.value);
      cache := Some(CacheEntry(guests, loadedAt));
    }

    /**
     * `getGuests(forceRefresh)`: loads when forced, when there is no entry or
     * when the entry is older than `CACHE_TTL`; otherwise returns the cached
     * map and leaves the cache alone (no fetch is made, so `fetched` is unused).
     */
    method GetGuests(forceRefresh: bool, now: int, fetched: Option<seq<Row>>, loadedAt: int)
      returns (guests: map<string, string>)
      modifies this
      ensures !MustRefetch(forceRefresh, old(cache), now) ==>
                guests == old(cache).value.data && cache == old(cache)
      ensures MustRefetch(forceRefresh, old(cache), now) && fetched.None? ==>
                guests == map[] && cache == old(cache)
      ensures MustRefetch(forceRefresh, old(cache), now) && fetched.Some? ==>
                guests == SheetGuests(fetched.value) && cache == Some(CacheEntry(guests, loadedAt))
    {
      if MustRefetch(forceRefresh, cache, now) {
        guests := LoadGuestsFromSheet(fetched, loadedAt);
      } else {
        guests := cache.value.data;
      }
    }

    /** `clearCache`: drops the entry and reports `true`; the next `GetGuests` loads whatever `forceRefresh` is. */
    method ClearCache() returns (cleared: bool)
      modifies this
      ensures cleared && cache.None?
      ensures forall forceRefresh: bool, now: int :: MustRefetch(forceRefresh, cache, now)
    {
      cache := None;
      cleared := true;
    }
  }

  /**
   * A failed load leaves an expired entry in place, so the call after it
   * refetches again: over two calls at the same instant with failing fetches,
   * both return empty maps and the stale entry survives.
   */
  method FailedLoadsKeepRefetching(c: GuestCache, now: int, loadedAt: int)
    returns (first: map<string, string>, second: map<string, string>)
    requires c.cache.Some? && now - c.cache.value.timestamp > CacheTtl
    modifies c
    ensures first == map[] && second == map[]
    ensures c.cache == old(c.cache) && MustRefetch(false, c.cache, now)
  {
    first := c.GetGuests(false, now, None, loadedAt);
    second := c.GetGuests(false, now, None, loadedAt);
  }
}
