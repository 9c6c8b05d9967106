/**
 * LastWriteTracker: per user, the instant of that user's last write, kept in a
 * shared key-value cache under a key built from the user id, with an absolute
 * expiry ten minutes after the write.
 */
module LastWrites {
  import opened Wrappers
  import opened Time
  import opened Guids

  /** How long a marker is kept: the tracker's ten-minute time-to-live. */
  const MarkerTtl: Duration := 10 * TicksPerMinute

  /** One cache entry: the instant the stored string encodes, and when the entry expires. */
  datatype Entry = Entry(stamp: Instant, absoluteExpiration: Instant)

  /** What a read of `key` at `now` yields: nothing once the entry's expiry has been reached. */
  function Lookup(entries: map<string, Entry>, key: string, now: Instant): Option<Instant>
  {
    if key in entries && now < entries[key].absoluteExpiration then Some(entries[key].stamp) else None
  }

  /** The shared cache (IDistributedCache) as the tracker uses it: get and set of one key. */
  class DistributedCache {
    var entries: map<string, Entry>

    constructor ()
      ensures entries == map[]
    {
      entries := map[];
    }

    /** GetStringAsync: the live value under `key`, or null. */
    method GetString(key: string, now: Instant) returns (value: Option<Instant>)
      ensures value == Lookup(entries, key, now)
    {
      value := Lookup(entries, key, now);
    }

    /** SetStringAsync with AbsoluteExpirationRelativeToNow: replaces whatever `key` held. */
    method SetString(key: string, value: Instant, relativeToNow: Duration, now: Instant)
      requires relativeToNow > 0
      modifies this
      ensures entries == old(entries)[key := Entry(value, now + relativeToNow)]
    {
      entries := entries[key := Entry(value, now + relativeToNow)];
    }
  }

  /** GetKey: "user:{userId}:last_write_utc", the id in Guid.ToString's form; the id reads back from it. */
  function Key(userId: Guid): (key: string)
    ensures |key| == 56 && key[..5] == "user:" && key[41..] == ":last_write_utc"
    ensures TryParse(key[5..41]) == Some(userId)
  {
    var key := "user:" + Format(userId) + ":last_write_utc";
    assert key[5..41] == Format(userId);
    FormatRoundTrip(userId);
    key
  }

  /** Different users never share a cache key. */
  lemma KeyInjective(u: Guid, v: Guid)
    requires Key(u) == Key(v)
    ensures u == v
  {
  }

  /** What GetLastWrite returns for `userId` at `now`, given the cache's entries. */
  function LastWrite(entries: map<string, Entry>, userId: Guid, now: Instant): Option<Instant>
  {
    Lookup(entries, Key(userId), now)
  }

  /** The cache's entries after RecordWrite for `userId` at `now`. */
  function Recorded(entries: map<string, Entry>, userId: Guid, now: Instant): map<string, Entry>
  {
    entries[Key(userId) := Entry(now, now + MarkerTtl)]
  }

  class LastWriteTracker {
    const cache: DistributedCache

    constructor (cache: DistributedCache)
      ensures this.cache == cache
    {
      this.cache := cache;
    }

    /** GetLastWriteAsync: reads the user's marker and changes nothing. */
    method GetLastWrite(userId: Guid, now: Instant) returns (lastWrite: Option<Instant>)
      ensures lastWrite == LastWrite(cache.entries, userId, now)
    {
      var key := Key(userId);
      lastWrite := cache.GetString(key, now);
    }

    /** RecordWriteAsync: stores `now` under the user's key, expiring MarkerTtl later. */
    method RecordWrite(userId: Guid, now: Instant)
      modifies cache
      ensures cache.entries == Recorded(old(cache.entries), userId, now)
    {
      var key := Key(userId);
      cache.SetString(key, now, MarkerTtl, now);
    }
  }

  /** A user whose key was never written has no last write. */
  lemma NeverRecordedIsAbsent(entries: map<string, Entry>, userId: Guid, now: Instant)
    requires Key(userId) !in entries
    ensures LastWrite(entries, userId, now) == None
  {
  }

  /** After recording at `t`, the marker reads back as exactly `t` until `t + MarkerTtl`, then as absent. */
  lemma LastWriteAfterRecord(entries: map<string, Entry>, userId: Guid, t: Instant, now: Instant)
    ensures LastWrite(Recorded(entries, userId, t), userId, now) == if now < t + MarkerTtl then Some(t) else None
  {
  }

  /** Recording again for the same user replaces both the stamp and the expiry. */
  lemma LastRecordWins(entries: map<string, Entry>, userId: Guid, t1: Instant, t2: Instant)
    ensures Recorded(Recorded(entries, userId, t1), userId, t2) == Recorded(entries, userId, t2)
  {
  }

  /** Recording for one user leaves every other user's marker as it was. */
  lemma RecordLeavesOthersUnchanged(entries: map<string, Entry>, u: Guid, v: Guid, t: Instant, now: Instant)
    requires u != v
    ensures LastWrite(Recorded(entries, u, t), v, now) == LastWrite(entries, v, now)
  {
    if Key(u) == Key(v) {
      KeyInjective(u, v);
    }
  }
}
