/**
 * DbRouter: sends every write to the leader, and a read to the leader only when
 * the read must see the caller's own writes and the caller wrote within the
 * leader window. The clock, the caller's identity and the tracker are inputs.
 */
module Routing {
  import opened Wrappers
  import opened Time
  import opened Config
  import opened Guids
  import opened Claims
  import opened DbConnections

  /** The window used when "ReadYourWrites:LeaderWindowSeconds" is not set. */
  const DefaultLeaderWindowSeconds: nat := 5

  /** The constructor's window: the configured whole seconds, or the default, as TimeSpan.FromSeconds. */
  function LeaderWindow(configuredSeconds: Option<Int32>): (window: Duration)
    ensures window % TicksPerSecond == 0
    ensures configuredSeconds.None? ==> window / TicksPerSecond == DefaultLeaderWindowSeconds
    ensures configuredSeconds.Some? ==> window / TicksPerSecond == configuredSeconds.value
    ensures window > 0 <==> configuredSeconds.None? || configuredSeconds.value > 0
  {
    var seconds := match configuredSeconds case Some(s) => s case None => DefaultLeaderWindowSeconds;
    seconds * TicksPerSecond
  }

  /**
   * GetCurrentUserId: the caller's "sub" claim, or failing that its NameIdentifier
   * claim, read as a GUID; null without a request, without such a claim, or when
   * the chosen claim's value is no GUID.
   */
  function CurrentUserId(context: Option<Principal>): (userId: Option<Guid>)
    ensures context.None? ==> userId.None?
    ensures userId.Some? ==>
              exists c :: c in context.value.claims && (HasType(c, Subject) || HasType(c, NameIdentifier))
                          && TryParse(c.value) == userId
  {
    match context
    case None => None
    case Some(user) =>
      var idClaim := match FindFirst(user, Subject)
        case Some(c) => Some(c)
        case None => FindFirst(user, NameIdentifier);
      match idClaim
      case None => None
      case Some(c) => TryParse(c.value)
  }

  /**
   * The role GetConnectionForReadAsync connects to. `lastWriteOf` is the tracker's
   * GetLastWriteAsync as seen at `now`.
   */
  function ReadRole(requiresReadYourWrites: bool, userId: Option<Guid>,
                    lastWriteOf: Guid -> Option<Instant>, now: Instant, leaderWindow: Duration): (role: DbRole)
    ensures role == Leader <==>
              && requiresReadYourWrites
              && userId.Some?
              && lastWriteOf(userId.value).Some?
              && now - lastWriteOf(userId.value).value < leaderWindow
  {
    if !requiresReadYourWrites then Follower
    else if userId.None? then Follower
    else match lastWriteOf(userId.value)
      case None => Follower
      case Some(lastWrite) => if now - lastWrite < leaderWindow then Leader else Follower
  }

  /** A constructed DbRouter: its connection factory and its leader window. */
  datatype DbRouter = DbRouter(factory: ConnectionFactory, leaderWindow: Duration)
  {
    /** GetConnectionForWrite: always a connection to the leader. */
    function GetConnectionForWrite(): (c: Connection)
      ensures c == factory.CreateConnection(Leader)
      ensures c.connectionString == factory.leaderConn
    {
      factory.CreateConnection(Leader)
    }

    /** GetConnectionForReadAsync, with the caller's request context, tracker and clock as inputs. */
    function GetConnectionForRead(requiresReadYourWrites: bool, context: Option<Principal>,
                                  lastWriteOf: Guid -> Option<Instant>, now: Instant): (c: Connection)
      ensures c.connectionString in {factory.leaderConn, factory.replicaConn}
      ensures c == factory.CreateConnection(
                     ReadRole(requiresReadYourWrites, CurrentUserId(context), lastWriteOf, now, leaderWindow))
    {
      var role := ReadRole(requiresReadYourWrites, CurrentUserId(context), lastWriteOf, now, leaderWindow);
      factory.CreateConnection(role)
    }
  }

  /** The constructor: keeps the factory and reads the window from the configuration. */
  function NewDbRouter(factory: ConnectionFactory, config: Configuration): (router: DbRouter)
    ensures router.factory == factory
    ensures router.leaderWindow == LeaderWindow(config.leaderWindowSeconds)
  {
    DbRouter(factory, LeaderWindow(config.leaderWindowSeconds))
  }

  /** A read that tolerates staleness goes to a follower, whatever the tracker would say. */
  lemma StaleReadIsFollower(userId: Option<Guid>, lastWriteOf: Guid -> Option<Instant>,
                            otherLastWriteOf: Guid -> Option<Instant>, now: Instant, leaderWindow: Duration)
    ensures ReadRole(false, userId, lastWriteOf, now, leaderWindow) == Follower
    ensures ReadRole(false, userId, lastWriteOf, now, leaderWindow)
         == ReadRole(false, userId, otherLastWriteOf, now, leaderWindow)
  {
  }

  /** Without a user id, a fresh read goes to a follower, whatever the tracker would say. */
  lemma AnonymousReadIsFollower(requiresReadYourWrites: bool, lastWriteOf: Guid -> Option<Instant>,
                                otherLastWriteOf: Guid -> Option<Instant>, now: Instant, leaderWindow: Duration)
    ensures ReadRole(requiresReadYourWrites, None, lastWriteOf, now, leaderWindow) == Follower
    ensures ReadRole(requiresReadYourWrites, None, lastWriteOf, now, leaderWindow)
         == ReadRole(requiresReadYourWrites, None, otherLastWriteOf, now, leaderWindow)
  {
  }

  /** A user with no marker reads from a follower. */
  lemma NoMarkerIsFollower(requiresReadYourWrites: bool, u: Guid, lastWriteOf: Guid -> Option<Instant>,
                           now: Instant, leaderWindow: Duration)
    requires lastWriteOf(u).None?
    ensures ReadRole(requiresReadYourWrites, Some(u), lastWriteOf, now, leaderWindow) == Follower
  {
  }

  /**
   * With a marker at `t`, a fresh read is on the leader one tick before `t + leaderWindow`,
   * and on a follower at `t + leaderWindow` itself and one tick after: the window is half-open.
   */
  lemma WindowBoundaryIsExclusive(u: Guid, lastWriteOf: Guid -> Option<Instant>, t: Instant, leaderWindow: Duration)
    requires lastWriteOf(u) == Some(t)
    requires t + leaderWindow >= 1
    ensures ReadRole(true, Some(u), lastWriteOf, t + leaderWindow - 1, leaderWindow) == Leader
    ensures ReadRole(true, Some(u), lastWriteOf, t + leaderWindow, leaderWindow) == Follower
    ensures ReadRole(true, Some(u), lastWriteOf, t + leaderWindow + 1, leaderWindow) == Follower
  {
  }

  /** For a fixed tracker state, a read that went to a follower still does at any later instant. */
  lemma FollowerStaysFollower(requiresReadYourWrites: bool, userId: Option<Guid>,
                              lastWriteOf: Guid -> Option<Instant>, now: Instant, later: Instant,
                              leaderWindow: Duration)
    requires now <= later
    requires ReadRole(requiresReadYourWrites, userId, lastWriteOf, now, leaderWindow) == Follower
    ensures ReadRole(requiresReadYourWrites, userId, lastWriteOf, later, leaderWindow) == Follower
  {
  }

  /** The "sub" claim decides the user id whenever there is one, even if a NameIdentifier claim is also present. */
  lemma SubjectClaimTakesPrecedence(user: Principal, i: nat)
    requires i < |user.claims| && HasType(user.claims[i], Subject)
    requires forall j :: 0 <= j < i ==> !HasType(user.claims[j], Subject)
    ensures CurrentUserId(Some(user)) == TryParse(user.claims[i].value)
  {
  }

  /** Without a "sub" claim, the first NameIdentifier claim decides the user id. */
  lemma NameIdentifierIsFallback(user: Principal, i: nat)
    requires forall j :: 0 <= j < |user.claims| ==> !HasType(user.claims[j], Subject)
    requires i < |user.claims| && HasType(user.claims[i], NameIdentifier)
    requires forall j :: 0 <= j < i ==> !HasType(user.claims[j], NameIdentifier)
    ensures CurrentUserId(Some(user)) == TryParse(user.claims[i].value)
  {
  }

  /** No request, or a caller with neither claim, has no user id. */
  lemma NoIdClaimNoUserId(context: Option<Principal>)
    requires context.Some? ==>
               forall j :: 0 <= j < |context.value.claims| ==>
                 !HasType(context.value.claims[j], Subject) && !HasType(context.value.claims[j], NameIdentifier)
    ensures CurrentUserId(context) == None
  {
  }

  /** The principal the demo middleware builds for a caller: one NameIdentifier claim holding the id. */
  function DemoPrincipal(u: Guid): Principal
  {
    Principal([Claim(NameIdentifier, Format(u))])
  }

  /** The demo principal resolves to exactly the id it was built from. */
  lemma DemoPrincipalUserId(u: Guid)
    ensures CurrentUserId(Some(DemoPrincipal(u))) == Some(u)
  {
    assert !HasType(DemoPrincipal(u).claims[0], Subject);
    NameIdentifierIsFallback(DemoPrincipal(u), 0);
    FormatRoundTrip(u);
  }
}
