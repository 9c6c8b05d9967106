/** DbConnectionFactory: the two configured connection strings and the choice between them. */
module DbConnections {
  import opened Wrappers
  import opened Config

  /** DbRole: which side of the replicated database a connection goes to. */
  datatype DbRole = Leader | Follower

  /** A new NpgsqlConnection, known by the connection string it was opened with. */
  datatype Connection = Connection(connectionString: string)

  const PrimaryName: string := "PostgresPrimary"

  const ReplicaName: string := "PostgresReplica"

  /** The InvalidOperationException the constructor throws, by its message. */
  datatype ConfigurationError = PrimaryNotConfigured | ReplicaNotConfigured

  /** A constructed factory: both strings are fixed once construction succeeds. */
  datatype ConnectionFactory = ConnectionFactory(leaderConn: string, replicaConn: string)
  {
    /** CreateConnection: the primary's string for Leader, the replica's for Follower. */
    function CreateConnection(role: DbRole): (c: Connection)
      ensures role == Leader ==> c.connectionString == leaderConn
      ensures role == Follower ==> c.connectionString == replicaConn
    {
      Connection(if role == Leader then leaderConn else replicaConn)
    }
  }

  /** The constructor: reads the primary's string, then the replica's; a missing one throws. */
  function NewConnectionFactory(config: Configuration): (r: Result<ConnectionFactory, ConfigurationError>)
    ensures r.Success? <==> PrimaryName in config.connectionStrings && ReplicaName in config.connectionStrings
    ensures r == Failure(PrimaryNotConfigured) <==> PrimaryName !in config.connectionStrings
    ensures r == Failure(ReplicaNotConfigured) <==>
              PrimaryName in config.connectionStrings && ReplicaName !in config.connectionStrings
    ensures r.Success? ==>
              && r.value.CreateConnection(Leader).connectionString == config.connectionStrings[PrimaryName]
              && r.value.CreateConnection(Follower).connectionString == config.connectionStrings[ReplicaName]
  {
    match config.GetConnectionString(PrimaryName)
    case None => Failure(PrimaryNotConfigured)
    case Some(leaderConn) =>
      match config.GetConnectionString(ReplicaName)
      case None => Failure(ReplicaNotConfigured)
      case Some(replicaConn) => Success(ConnectionFactory(leaderConn, replicaConn))
  }
}
