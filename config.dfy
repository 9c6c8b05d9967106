/** The part of the application's IConfiguration that the core reads. */
module Config {
  import opened Wrappers

  /** A value of C#'s 32-bit `int`. */
  type Int32 = x: int | -0x8000_0000 <= x < 0x8000_0000

  datatype Configuration = Configuration(
    /** The "ConnectionStrings" section: name to value; a name not present reads as null. */
    connectionStrings: map<string, string>,
    /** "ReadYourWrites:LeaderWindowSeconds", already converted to `int?`. */
    leaderWindowSeconds: Option<Int32>)
  {
    /** IConfiguration.GetConnectionString: the value, or null when it is not configured. */
    function GetConnectionString(name: string): Option<string>
    {
      if name in connectionStrings then Some(connectionStrings[name]) else None
    }
  }
}
