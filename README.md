# Read-your-writes routing: a Dafny model

This project models the routing core of a small ASP.NET service that reads from a
leader/follower PostgreSQL pair. It keeps read-your-writes consistency for each user:

- **DbRouter** sends every write to the leader. A read goes to the leader only when
  four things hold together. The read must see the caller's own writes. A user id
  can be resolved from the caller's claims. The tracker holds a marker for that
  user. The marker is younger than the leader window. The window defaults to
  5 seconds. Every other read goes to a follower.
- **LastWriteTracker** keeps each user's last-write instant in a shared
  distributed cache. The key is `user:{id}:last_write_utc` and the entry expires
  10 minutes after the write.
- **DbConnectionFactory** checks at construction that both connection strings are
  configured. It then hands out the primary's string for the leader role and the
  replica's string for the follower role.

Time is counted in .NET ticks of 100 ns. An `Instant` is a `DateTime` and a
`Duration` is a `TimeSpan`. The clock, the caller's claims and the tracker's
state are explicit inputs. The router's decision (`Routing.ReadRole`) and the
factory are pure functions. The tracker is a class over a cache class whose
entry map `SetString` overwrites in place. `GetLastWrite` has no `modifies`
clause, so it provably changes nothing.

User ids are GUIDs. `Guids.TryParse` models `Guid.TryParse` as the router uses
it, and `Guids.Format` models `Guid.ToString()` as the tracker's key uses it.
Their round trip shows that two users never share a cache key.

Two behaviours of the code matter for its guarantee:

- The code has no handling for cache errors. An exception from `GetStringAsync` or
  `SetStringAsync` propagates to the caller (LastWriteTracker.cs lines 19 and 30).
  The model has no cache errors.
- Nothing checks that the 10-minute marker retention (LastWriteTracker.cs line 9)
  is at least the configured leader window (DbRouter.cs lines 25-26).
  `ReadYourWrites.LeaderWhileWindowAndMarkerLast` shows that a longer window is
  cut short at 10 minutes, when the marker expires.

Modules: `Wrappers`, `Time`, `Config`, `Guids`, `Claims`, `DbConnections`
(DbConnectionFactory and DbRole), `LastWrites` (LastWriteTracker and the cache),
`Routing` (DbRouter) and `ReadYourWrites` (the two composed).

## Model

| member | source | states |
|---|---|---|
| `Routing.ReadRole` | src/ReadYourWritesDemo.Api/Services/DbRouter.cs:32-59 | A read is on the leader if and only if freshness is required, a user id exists, the tracker has a marker for it, and `now - marker < window` (strict). Otherwise it is on a follower. |
| `Routing.LeaderWindow` | src/ReadYourWritesDemo.Api/Services/DbRouter.cs:25-26 | The window is a whole number of seconds: 5 when unset, otherwise the configured value. It is positive exactly when the setting is unset or positive. |
| `Routing.NewDbRouter` | src/ReadYourWritesDemo.Api/Services/DbRouter.cs:15-27 | The router keeps the injected factory, and its window is the one read from the configuration. |
| `Routing.DbRouter.GetConnectionForWrite` | src/ReadYourWritesDemo.Api/Services/DbRouter.cs:29-30 | A write always gets the leader's connection string, independent of user, marker and clock. |
| `Routing.DbRouter.GetConnectionForRead` | src/ReadYourWritesDemo.Api/Services/DbRouter.cs:32-59 | A read gets the factory's connection for the role decided from the resolved user id, the tracker and the clock, and so always one of the two configured strings. |
| `Routing.StaleReadIsFollower` | src/ReadYourWritesDemo.Api/Services/DbRouter.cs:34-37 | A read that does not require freshness goes to a follower, and the result does not depend on the tracker at all. |
| `Routing.AnonymousReadIsFollower` | src/ReadYourWritesDemo.Api/Services/DbRouter.cs:39-43 | Without a user id a read goes to a follower, and the result does not depend on the tracker. |
| `Routing.NoMarkerIsFollower` | src/ReadYourWritesDemo.Api/Services/DbRouter.cs:45-49 | A user without a marker reads from a follower. |
| `Routing.WindowBoundaryIsExclusive` | src/ReadYourWritesDemo.Api/Services/DbRouter.cs:51-58 | With a marker at t, a read one tick before t + window is on the leader. A read at exactly t + window, or one tick later, is on a follower. |
| `Routing.FollowerStaysFollower` | src/ReadYourWritesDemo.Api/Services/DbRouter.cs:45-58 | For fixed tracker state, a read that went to a follower still goes to a follower at every later instant. |
| `Routing.SubjectClaimTakesPrecedence` | src/ReadYourWritesDemo.Api/Services/DbRouter.cs:67 | When a `sub` claim exists, the first one alone decides the user id, whatever NameIdentifier claims exist. A `sub` that is not a GUID gives no id. |
| `Routing.NameIdentifierIsFallback` | src/ReadYourWritesDemo.Api/Services/DbRouter.cs:67-71 | Without any `sub` claim, the first NameIdentifier claim read as a GUID is the user id. |
| `Routing.CurrentUserId` | src/ReadYourWritesDemo.Api/Services/DbRouter.cs:61-72 | Without a request context there is no user id. Every resolved user id is the GUID value of some `sub` or NameIdentifier claim of the caller. `SubjectClaimTakesPrecedence`, `NameIdentifierIsFallback` and `NoIdClaimNoUserId` pin down which claim decides. |
| `Routing.NoIdClaimNoUserId` | src/ReadYourWritesDemo.Api/Services/DbRouter.cs:63-69 | No request context, or a principal with neither claim type, gives no user id. |
| `Routing.DemoPrincipalUserId` | src/ReadYourWritesDemo.Api/Infrastructure/DemoUserMiddleware.cs:31-38 | The demo middleware's principal, one NameIdentifier claim holding the id's text, resolves to exactly that id. |
| `Claims.FirstIndexOfType` | src/ReadYourWritesDemo.Api/Services/DbRouter.cs:67 | The claim lookup finds the first claim whose type matches case-insensitively. No earlier claim matches, and none is found only when no claim matches. |
| `Claims.FindFirst` | src/ReadYourWritesDemo.Api/Services/DbRouter.cs:67 | `ClaimsPrincipal.FindFirst` returns a claim of the caller that has the requested type. It returns none exactly when no claim has that type. |
| `Claims.FindFirstAt` | src/ReadYourWritesDemo.Api/Services/DbRouter.cs:67 | The first claim of a type is the one `FindFirst` returns. |
| `Guids.ParseHex` | src/ReadYourWritesDemo.Api/Services/DbRouter.cs:71 | Hex digits parse when every character is a hex digit of either case, and then each value is that digit's value. |
| `Guids.HexChar` | src/ReadYourWritesDemo.Api/Services/LastWriteTracker.cs:36 | A GUID's text uses lower-case digits, and each digit reads back as its value. |
| `Guids.ParseFormatHex` | src/ReadYourWritesDemo.Api/Services/LastWriteTracker.cs:36 | Written digits parse back to the same values. |
| `Guids.Format` | src/ReadYourWritesDemo.Api/Services/LastWriteTracker.cs:36 | `Guid.ToString()` writes the "D" form: 36 characters, hyphens at 8, 13, 18 and 23, and lower-case hexadecimal digits elsewhere. |
| `Guids.TryParse` | src/ReadYourWritesDemo.Api/Services/DbRouter.cs:71 | `Guid.TryParse` succeeds only on 32, 36 or 38 characters. A 32-character text parses exactly when it is all hexadecimal digits. A 36-character text parses exactly when it has the "D" shape. A 38-character text parses exactly when it is a "D" shape in braces or in parentheses. The parsed GUID is the value of the 32 digits in text order, of either case. |
| `Guids.BracketedRoundTrip` | src/ReadYourWritesDemo.Api/Services/DbRouter.cs:71 | `Guid.TryParse` reads the braced and the parenthesised forms of `Guid.ToString()` back as the same GUID. |
| `Guids.FormatRoundTrip` | src/ReadYourWritesDemo.Api/Services/DbRouter.cs:71 | `Guid.TryParse` of `Guid.ToString()` gives back the same GUID. |
| `Guids.FormatInjective` | src/ReadYourWritesDemo.Api/Services/LastWriteTracker.cs:36 | Distinct GUIDs have distinct text forms. |
| `DbConnections.NewConnectionFactory` | src/ReadYourWritesDemo.Api/Services/DbConnectionFactory.cs:11-22 | Construction succeeds if and only if both strings are configured. A missing primary is reported first, even when both are missing. On success, Leader gets the primary's string and Follower the replica's. |
| `DbConnections.ConnectionFactory.CreateConnection` | src/ReadYourWritesDemo.Api/Services/DbConnectionFactory.cs:19-23 | The Leader role gets the primary's connection string and the Follower role gets the replica's. |
| `LastWrites.DistributedCache.GetString` | src/ReadYourWritesDemo.Api/Services/LastWriteTracker.cs:19 | A cache read returns the stored value until its absolute expiry and nothing afterwards. It does not change the cache. |
| `LastWrites.DistributedCache.SetString` | src/ReadYourWritesDemo.Api/Services/LastWriteTracker.cs:30-33 | A cache write replaces the key's entry with the value, expiring the given time from now. Every other key is untouched. |
| `LastWrites.Key` | src/ReadYourWritesDemo.Api/Services/LastWriteTracker.cs:36 | The key is `user:`, the id's 36-character text and `:last_write_utc`. The id reads back from the key, so the key determines the user. |
| `LastWrites.KeyInjective` | src/ReadYourWritesDemo.Api/Services/LastWriteTracker.cs:36 | Different users never share a cache key. |
| `LastWrites.LastWriteTracker.GetLastWrite` | src/ReadYourWritesDemo.Api/Services/LastWriteTracker.cs:16-23 | Returns the user's live marker, or none, and modifies nothing. |
| `LastWrites.LastWriteTracker.RecordWrite` | src/ReadYourWritesDemo.Api/Services/LastWriteTracker.cs:25-34 | Overwrites the user's entry with (now, now + 10 minutes) and leaves every other key as it was. |
| `LastWrites.NeverRecordedIsAbsent` | src/ReadYourWritesDemo.Api/Services/LastWriteTracker.cs:18-20 | A user whose key holds nothing has no last write. |
| `LastWrites.LastWriteAfterRecord` | src/ReadYourWritesDemo.Api/Services/LastWriteTracker.cs:25-33 | After recording at t, the marker reads back as exactly t before t + 10 minutes, and as absent from then on. |
| `LastWrites.LastRecordWins` | src/ReadYourWritesDemo.Api/Services/LastWriteTracker.cs:27-33 | A second record for the same user replaces the first one's stamp and expiry entirely. |
| `LastWrites.RecordLeavesOthersUnchanged` | src/ReadYourWritesDemo.Api/Services/LastWriteTracker.cs:36 | Recording for one user leaves every other user's marker unchanged. |
| `ReadYourWrites.LeaderWhileWindowAndMarkerLast` | src/ReadYourWritesDemo.Api/Services/DbRouter.cs:45-58 | After a record at t, a fresh read by the same user is on the leader if and only if `now - t < window` and `now < t + 10 minutes`. |
| `ReadYourWrites.ReadAfterOwnWriteIsLeader` | src/ReadYourWritesDemo.Api/Services/DbRouter.cs:45-55 | Right after recording a write at t, a fresh read by the same user at t goes to the leader whenever the window is positive. |
| `ReadYourWrites.OtherUsersRoutingUnchanged` | src/ReadYourWritesDemo.Api/Services/LastWriteTracker.cs:36 | Recording a write by one user does not change how any other user's fresh read is routed. |
| `ReadYourWrites.DefaultWindowScenario` | src/ReadYourWritesDemo.Api/Services/DbRouter.cs:25-26 | With the default window and a record at 0, a fresh read at 3 s is on the leader and one at 6 s on a follower. At 601 s the marker has expired. |
| `ReadYourWrites.DemoReadAfterWriteUsesWriteConnection` | src/ReadYourWritesDemo.Api/Endpoints/ApiEndpoints.cs:15-18 | A demo caller's fresh profile read right after their recorded write uses the same connection string as the write. |
| `ReadYourWrites.UpdateProfileThenGetMe` | src/ReadYourWritesDemo.Api/Endpoints/ApiEndpoints.cs:46-71 | In the update-then-read sequence, the write and the following fresh read both use the leader's connection, and the tracker holds the new marker. |

## Left out

- Asynchrony, concurrency and several service instances sharing one cache: the model is sequential, and each call takes `now` as a parameter.
- The two clock readings in a routed read are one instant in the model. These are the cache's expiry check inside `GetLastWriteAsync` and `DateTime.UtcNow` afterwards.
- LastWrites.LastWriteTracker.RecordWrite: uses one clock reading both for the stored stamp and as the start of the 10-minute expiry. The registered Redis cache (Program.cs line 9) instead starts the 10 minutes when the Redis server applies the expiry, and the server's own clock enforces it.
- LastWrites.LastWriteAfterRecord: an entry counts as expired from exactly its absolute expiry instant on, as in the in-memory distributed cache, with one clock for the write and the read. With the registered Redis cache, the 10 minutes run from when the Redis server applies the expiry, on the server's own clock. That is later than the `DateTime.UtcNow` reading the stamp comes from (LastWriteTracker.cs line 28). So "absent from t + 10 minutes" holds only up to that delay plus any offset between the two hosts' clocks, and neither is bounded here.
- Cache failures: the source lets cache exceptions propagate, and the model has no cache errors.
- The "O" round-trip timestamp string: a cache entry holds the instant the string encodes, because formatting and parsing it is assumed exact.
- The `DateTime` range: instants are unbounded naturals, so expiry overflow near year 9999 is not modelled.
- Configuration conversion: the model receives `LeaderWindowSeconds` already converted to `int?`. In the source, a value that is not an integer, or an integer outside the 32-bit range, makes `GetValue<int?>` throw. An empty value reads as unset and gives the 5-second default.
- DbConnections.NewConnectionFactory: connection-string names are matched exactly, whereas `IConfiguration` keys are case-insensitive. For example, a key spelled `postgresprimary` satisfies the source but not the model. The "if and only if configured" contract holds for keys spelled exactly `PostgresPrimary` and `PostgresReplica`.
- Guids.TryParse: does not model the "X" form, trimming of surrounding whitespace, or the compatibility forms with `+` or `0x` inside groups. These are library behaviour that no caller here relies on.
- Claims.EqualsIgnoreCase: folds ASCII letters only, whereas `OrdinalIgnoreCase` also folds other Unicode letters.
- A `ClaimsPrincipal`'s identities are flattened into one ordered claim list. `FindFirst` searches them in that order.
- Database connections are represented by their connection string. Opening, disposing and SQL execution are not modelled.
- The HTTP endpoints beyond the write-then-read ordering, the demo middleware's header parsing, hosting and DI wiring (Program.cs), and the DTO records are not modelled.
