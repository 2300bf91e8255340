/**
  The command line of the dump tool, as `argparse` leaves it, and the checks
  `main` makes before it connects to the cluster.
 */
module Options {
  import opened Effects

  /**
    `--keyspace`, `--cf` and `--filter` may be repeated, so each is absent
    or a list; `--no-insert`, `--no-create` and `--quiet` are switches.
   */
  datatype Args = Args(
    host: Option<string>,
    keyspace: Option<seq<string>>,
    cf: Option<seq<string>>,
    filter: Option<seq<string>>,
    noInsert: bool,
    noCreate: bool,
    importFile: Option<string>,
    protocolVersion: Option<string>,
    username: Option<string>,
    password: Option<string>,
    exportFile: Option<string>,
    quiet: bool)

  /** What `main` goes on to do once its checks pass. */
  datatype Action = Import(importFile: string) | Export(exportFile: string) | Idle

  /**
    The checks of `main`, in order, then the choice between import and
    export. The choice tests the file names for truth, so an empty name
    passes the checks and then does nothing.
   */
  function Command(a: Args): (r: Result<Action>)
    ensures r.Ok? <==>
      && (a.importFile.Some? <==> a.exportFile.None?)
      && (a.protocolVersion.Some? ==> a.username.Some? && a.password.Some?)
    ensures r == Err(NoFileGiven) <==> a.importFile.None? && a.exportFile.None?
    ensures r == Err(BothFilesGiven) <==> a.importFile.Some? && a.exportFile.Some?
    ensures r == Err(MissingCredentials) <==>
      && (a.importFile.Some? <==> a.exportFile.None?)
      && a.protocolVersion.Some? && (a.username.None? || a.password.None?)
    ensures r.Ok? && a.importFile.Some? ==>
      r.value == if a.importFile.value == "" then Idle else Import(a.importFile.value)
    ensures r.Ok? && a.exportFile.Some? ==>
      r.value == if a.exportFile.value == "" then Idle else Export(a.exportFile.value)
  {
    if a.importFile.None? && a.exportFile.None? then Err(NoFileGiven)
    else if a.importFile.Some? && a.exportFile.Some? then Err(BothFilesGiven)
    else if a.protocolVersion.Some? && (a.username.None? || a.password.None?) then Err(MissingCredentials)
    else if a.importFile.Some? && a.importFile.value != "" then Ok(Import(a.importFile.value))
    else if a.exportFile.Some? && a.exportFile.value != "" then Ok(Export(a.exportFile.value))
    else Ok(Idle)
  }

  /** How many of `--keyspace`, `--cf` and `--filter` were given, as `export_data` counts them. */
  function Selections(a: Args): (n: nat)
    ensures n <= 3
    ensures n == 0 <==> a.keyspace.None? && a.cf.None? && a.filter.None?
    ensures n > 1 <==>
      || (a.keyspace.Some? && a.cf.Some?)
      || (a.keyspace.Some? && a.filter.Some?)
      || (a.cf.Some? && a.filter.Some?)
  {
    (if a.keyspace.Some? then 1 else 0) + (if a.cf.Some? then 1 else 0) + (if a.filter.Some? then 1 else 0)
  }
}
