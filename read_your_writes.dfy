/**
 * The guarantee the router and the tracker give together: a write handler commits
 * on the leader and then records the marker; a later fresh read by the same user
 * within the leader window is routed to the leader.
 */
module ReadYourWrites {
  import opened Wrappers
  import opened Time
  import opened Guids
  import opened DbConnections
  import opened LastWrites
  import opened Routing

  /**
   * After recording a write by `u` at `t` (and nothing else), a fresh read by `u` at `now`
   * is on the leader exactly when it falls within the leader window and the marker has
   * not yet expired: a window longer than MarkerTtl is cut short at MarkerTtl.
   */
  lemma LeaderWhileWindowAndMarkerLast(entries: map<string, Entry>, u: Guid, t: Instant, now: Instant,
                                       leaderWindow: Duration)
    ensures ReadRole(true, Some(u), v => LastWrite(Recorded(entries, u, t), v, now), now, leaderWindow) == Leader
        <==> now - t < leaderWindow && now < t + MarkerTtl
  {
  }

  /** Right after recording a write by `u` at `t`, a fresh read by `u` at `t` goes to the leader. */
  lemma ReadAfterOwnWriteIsLeader(entries: map<string, Entry>, u: Guid, t: Instant, leaderWindow: Duration)
    requires leaderWindow > 0
    ensures ReadRole(true, Some(u), v => LastWrite(Recorded(entries, u, t), v, t), t, leaderWindow) == Leader
  {
  }

  /** Recording a write by `u` never sends another user's fresh read to a different role. */
  lemma OtherUsersRoutingUnchanged(entries: map<string, Entry>, u: Guid, v: Guid, t: Instant, now: Instant,
                                   leaderWindow: Duration)
    requires u != v
    ensures ReadRole(true, Some(v), w => LastWrite(Recorded(entries, u, t), w, now), now, leaderWindow)
         == ReadRole(true, Some(v), w => LastWrite(entries, w, now), now, leaderWindow)
  {
    RecordLeavesOthersUnchanged(entries, u, v, t, now);
  }

  /**
   * The default configuration, a write recorded at instant 0: a fresh read at 3 s is on the
   * leader, one at 6 s on a follower, and at 601 s the marker itself has expired.
   */
  lemma DefaultWindowScenario(entries: map<string, Entry>, u: Guid)
    ensures ReadRole(true, Some(u), v => LastWrite(Recorded(entries, u, 0), v, 3 * TicksPerSecond),
                     3 * TicksPerSecond, LeaderWindow(None)) == Leader
    ensures ReadRole(true, Some(u), v => LastWrite(Recorded(entries, u, 0), v, 6 * TicksPerSecond),
                     6 * TicksPerSecond, LeaderWindow(None)) == Follower
    ensures LastWrite(Recorded(entries, u, 0), u, 601 * TicksPerSecond) == None
  {
  }

  /**
   * A demo caller's fresh read right after their own recorded write is served by the same
   * connection string as the write itself.
   */
  lemma DemoReadAfterWriteUsesWriteConnection(router: DbRouter, entries: map<string, Entry>, u: Guid, t: Instant)
    requires router.leaderWindow > 0
    ensures router.GetConnectionForRead(true, Some(DemoPrincipal(u)), v => LastWrite(Recorded(entries, u, t), v, t), t)
         == router.GetConnectionForWrite()
  {
    DemoPrincipalUserId(u);
    ReadAfterOwnWriteIsLeader(entries, u, t, router.leaderWindow);
  }

  /**
   * The profile update followed by the profile read, for a demo caller: the write goes to the
   * leader, the marker is recorded, and the read at the same instant uses the leader's
   * connection string too.
   */
  method UpdateProfileThenGetMe(router: DbRouter, tracker: LastWriteTracker, u: Guid, now: Instant)
    returns (writeConn: Connection, readConn: Connection)
    requires router.leaderWindow > 0
    modifies tracker.cache
    ensures tracker.cache.entries == Recorded(old(tracker.cache.entries), u, now)
    ensures writeConn == readConn == router.factory.CreateConnection(Leader)
  {
    writeConn := router.GetConnectionForWrite();
    tracker.RecordWrite(u, now);
    var entries := tracker.cache.entries;
    readConn := router.GetConnectionForRead(true, Some(DemoPrincipal(u)), v => LastWrite(entries, v, now), now);
    DemoReadAfterWriteUsesWriteConnection(router, old(tracker.cache.entries), u, now);
  }
}
