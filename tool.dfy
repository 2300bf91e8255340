/**
  `main` once `argparse` has read the command line: its checks, then the
  import or the export. Connecting to the cluster is not modelled beyond
  whether it happens; the connected session is a parameter, and so is the
  contents of the file an import reads.
 */
module Tool {
  import opened Text
  import opened Effects
  import opened Options
  import opened Cluster
  import opened Replay
  import opened Exporter

  /** What one run of the tool leaves behind. */
  datatype Outcome = Outcome(
    stderr: string,             // the message written before `sys.exit(1)`
    connected: bool,            // whether `setup_cluster` was reached
    executed: seq<string>,      // the statements an import gave to `session.execute`, in order
    dumpFile: Option<string>,   // the file an export opened for writing
    dump: seq<string>,          // what the export wrote to it
    log: seq<string>,           // progress messages on standard output
    failure: Option<Failure>)   // why the process ended early, if it did

  function StderrOf(failure: Option<Failure>): string
  {
    if failure.Some? then ExitMessage(failure.value) else ""
  }

  /** A whole run: `readFile(name)` is what reading the import file `name` gives. */
  function ToolOutcome<V>(sess: Session<V>, a: Args, readFile: string -> string): Outcome
  {
    match Command(a)
    case Err(f) => Outcome(ExitMessage(f), false, [], None, [], [], Some(f))
    case Ok(Idle) => Outcome("", true, [], None, [], [], None)
    case Ok(Import(name)) =>
      var executed := Lines(readFile(name));
      Outcome("", true, executed, None, [], Dots(a.quiet, |executed|) + Finish(a.quiet, |executed|), None)
    case Ok(Export(name)) =>
      var (fileOpened, r) := ExportOutcome(sess, a);
      Outcome(StderrOf(r.failure), true, [], if fileOpened then Some(name) else None, r.file, r.log, r.failure)
  }

  /** `main`. */
  method RunTool<V>(sess: Session<V>, a: Args, readFile: string -> string) returns (out: Outcome)
    ensures out == ToolOutcome(sess, a, readFile)
  {
    if a.importFile.None? && a.exportFile.None? {
      return Outcome(ExitMessage(NoFileGiven), false, [], None, [], [], Some(NoFileGiven));
    }
    if a.importFile.Some? && a.exportFile.Some? {
      return Outcome(ExitMessage(BothFilesGiven), false, [], None, [], [], Some(BothFilesGiven));
    }
    if a.protocolVersion.Some? {
      if a.username.None? || a.password.None? {
        return Outcome(ExitMessage(MissingCredentials), false, [], None, [], [], Some(MissingCredentials));
      }
    }

    out := Outcome("", true, [], None, [], [], None);
    if a.importFile.Some? && a.importFile.value != "" {
      var executed, log := ImportData(readFile(a.importFile.value), a.quiet);
      out := out.(executed := executed, log := log);
    } else if a.exportFile.Some? && a.exportFile.value != "" {
      var fileOpened, r := ExportData(sess, a);
      out := Outcome(StderrOf(r.failure), true, [], if fileOpened then Some(a.exportFile.value) else None,
                     r.file, r.log, r.failure);
    }
  }

  /**
    A command line that fails a check of `main` ends the process with that
    check's message before the cluster is contacted; nothing is executed or
    written.
   */
  lemma RejectedBeforeConnecting<V>(sess: Session<V>, a: Args, readFile: string -> string)
    ensures var out := ToolOutcome(sess, a, readFile);
      && (!out.connected <==>
            || (a.importFile.Some? == a.exportFile.Some?)
            || (a.protocolVersion.Some? && (a.username.None? || a.password.None?)))
      && (!out.connected ==>
            && out.failure.Some? && out.stderr == ExitMessage(out.failure.value) && out.stderr != ""
            && out.executed == [] && out.dumpFile.None? && out.dump == [] && out.log == [])
  {
  }

  /**
    An import executes every line of its file once, in file order, logs
    its progress dots, and writes no dump; it never ends the process early.
   */
  lemma ImportReplaysFile<V>(sess: Session<V>, a: Args, readFile: string -> string, name: string)
    requires Command(a) == Ok(Import(name))
    ensures var out := ToolOutcome(sess, a, readFile);
      && out.executed == Lines(readFile(name))
      && Concat(out.executed) == readFile(name)
      && (forall i :: 0 <= i < |out.executed| - 1 ==> IsLine(out.executed[i]))
      && (|out.executed| > 0 ==> IsLastLine(out.executed[|out.executed| - 1]))
      && out.log == Dots(a.quiet, |out.executed|) + Finish(a.quiet, |out.executed|)
      && out.connected && out.stderr == ""
      && out.dumpFile.None? && out.dump == [] && out.failure.None?
  {
  }

  /**
    An export executes nothing and opens the file named by
    `--export-file` exactly when at most one scope option is given; what
    it writes there is the export of that scope.
   */
  lemma ExportOpensFile<V>(sess: Session<V>, a: Args, readFile: string -> string, name: string)
    requires Command(a) == Ok(Export(name))
    ensures var out := ToolOutcome(sess, a, readFile);
      && out.executed == []
      && (out.dumpFile == Some(name) <==> Selections(a) <= 1)
      && (out.dumpFile.None? ==> out.dump == [] && out.stderr == "--cf, --keyspace and --filter can't be combined\n")
      && out.dump == ExportOutcome(sess, a).1.file
  {
    CombinedScopesRejected(sess, a);
  }

  /** An empty file name passes the checks of `main` and then does nothing at all. */
  lemma EmptyFileNameIdles<V>(sess: Session<V>, a: Args, readFile: string -> string)
    requires a.importFile == Some("") || a.exportFile == Some("")
    requires Command(a).Ok?
    ensures ToolOutcome(sess, a, readFile) == Outcome("", true, [], None, [], [], None)
  {
  }
}
