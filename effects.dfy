/**
  What one step of the dump tool leaves behind: the pieces it wrote to the
  dump file, the progress messages it logged, and whether the process ended
  there (`sys.exit(1)` after an error message, or an uncaught exception).
  Steps run one after the other; once one has ended the process, nothing
  after it runs.
 */
module Effects {

  datatype Option<T> = None | Some(value: T)

  /** Why the process stopped early. */
  datatype Failure =
    // checks in `main`
    | NoFileGiven
    | BothFilesGiven
    | MissingCredentials
    // checks in `export_data` and its lookups
    | AmbiguousSelection
    | KeyspaceNotFound(keyspace: string)
    | TableNotFound(table: string)
    | InvalidTableName
    | InvalidFilter
    // uncaught exceptions raised while a table is dumped
    | UnknownColumn(column: string)
    | NonAsciiColumnNames

  datatype Result<T> = Ok(value: T) | Err(failure: Failure)

  /** An uncaught exception, rather than an error message followed by `sys.exit(1)`. */
  predicate IsException(f: Failure)
  {
    f.UnknownColumn? || f.NonAsciiColumnNames?
  }

  /** The text written to standard error before `sys.exit(1)`; empty for an uncaught exception. */
  function ExitMessage(f: Failure): string
  {
    match f
    case NoFileGiven => "--import-file or --export-file must be specified\n"
    case BothFilesGiven => "--import-file and --export-file can't be specified at the same time\n"
    case MissingCredentials => "--username and --password must be specified\n"
    case AmbiguousSelection => "--cf, --keyspace and --filter can't be combined\n"
    case KeyspaceNotFound(k) => "Can't find keyspace \"" + k + "\"\n"
    case TableNotFound(t) => "Can't find table \"" + t + "\"\n"
    case InvalidTableName => "Invalid keyspace.column_family input\n"
    case InvalidFilter => "Invalid input\n"
    case UnknownColumn(_) => ""
    case NonAsciiColumnNames => ""
  }

  /** Writes to the dump file, progress messages, and the failure that ended the process, if any. */
  datatype Run = Run(file: seq<string>, log: seq<string>, failure: Option<Failure>)

  const Nothing := Run([], [], None)

  function Stop(f: Failure): Run
  {
    Run([], [], Some(f))
  }

  /** `log_quiet(msg)`: the message is logged unless `--quiet` was given. */
  function Say(quiet: bool, msg: string): seq<string>
  {
    if quiet then [] else [msg]
  }

  /** `a` then `b`; `b` does not happen when `a` ended the process. */
  function Seq(a: Run, b: Run): Run
  {
    if a.failure.Some? then a else Run(a.file + b.file, a.log + b.log, b.failure)
  }

  /** The steps in order, up to and including the first one that ends the process. */
  function Chain(steps: seq<Run>): Run
  {
    if |steps| == 0 then Nothing else Seq(steps[0], Chain(steps[1..]))
  }

  /** Doing nothing after a step changes nothing. */
  lemma SeqNothing(a: Run)
    ensures Seq(a, Nothing) == a
  {
    assert a.file + [] == a.file && a.log + [] == a.log;
  }

  /** Doing nothing before a step changes nothing. */
  lemma NothingSeq(b: Run)
    ensures Seq(Nothing, b) == b
  {
    assert [] + b.file == b.file && [] + b.log == b.log;
  }

  /** Everything two steps write was written by one of them. */
  lemma SeqWrites(a: Run, b: Run, w: string)
    requires w in Seq(a, b).file
    ensures w in a.file || w in b.file
  {
  }

  lemma SeqAssoc(a: Run, b: Run, c: Run)
    ensures Seq(Seq(a, b), c) == Seq(a, Seq(b, c))
  {
  }

  /** Running two chains one after the other is one chain of all their steps. */
  lemma {:induction false} ChainAppend(first: seq<Run>, second: seq<Run>)
    ensures Chain(first + second) == Seq(Chain(first), Chain(second))
  {
    if |first| == 0 {
      assert [] + second == second;
    } else {
      assert (first + second)[1..] == first[1..] + second;
      ChainAppend(first[1..], second);
      SeqAssoc(first[0], Chain(first[1..]), Chain(second));
    }
  }

  /** A chain ends the process exactly when one of its steps does. */
  lemma {:induction false} ChainFails(steps: seq<Run>)
    ensures Chain(steps).failure.None? <==> forall i :: 0 <= i < |steps| ==> steps[i].failure.None?
  {
    if |steps| > 0 {
      ChainFails(steps[1..]);
      assert forall i :: 1 <= i < |steps| ==> steps[i] == steps[1..][i - 1];
    }
  }

  /** A chain that ends the process ends it for the reason one of its steps does. */
  lemma {:induction false} ChainFailure(steps: seq<Run>)
    requires Chain(steps).failure.Some?
    ensures exists i :: 0 <= i < |steps| && steps[i].failure == Chain(steps).failure
  {
    if steps[0].failure.None? {
      ChainFailure(steps[1..]);
      var i :| 0 <= i < |steps| - 1 && steps[1..][i].failure == Chain(steps[1..]).failure;
      assert steps[i + 1] == steps[1..][i];
    }
  }

  /** Everything a chain writes was written by one of its steps. */
  lemma {:induction false} ChainWrites(steps: seq<Run>, w: string)
    requires w in Chain(steps).file
    ensures exists i :: 0 <= i < |steps| && w in steps[i].file
  {
    if |steps| > 0 && w !in steps[0].file {
      ChainWrites(steps[1..], w);
      var i :| 0 <= i < |steps| - 1 && w in steps[1..][i].file;
      assert steps[i + 1] == steps[1..][i];
    }
  }

  /** Taking one more step of a chain, after what is already done. */
  lemma ChainNext(done: Run, steps: seq<Run>, i: nat)
    requires i < |steps|
    ensures Seq(done, Chain(steps[i..])) == Seq(Seq(done, steps[i]), Chain(steps[i + 1..]))
  {
    assert steps[i..][1..] == steps[i + 1..];
    SeqAssoc(done, steps[i], Chain(steps[i + 1..]));
  }

  /** Once every step of a chain is taken, nothing is left to do. */
  lemma ChainDone(done: Run, steps: seq<Run>)
    ensures Seq(done, Chain(steps[|steps|..])) == done
  {
    assert steps[|steps|..] == [];
    SeqNothing(done);
  }

  // ---------------------------------------------------------------------------
  // progress dots

  /** `DOT_EVERY`: a dot is logged after every this many rows or lines. */
  const DOT_EVERY: nat := 1000

  /** What is logged right after the `count`-th row or line is handled. */
  function Tick(quiet: bool, count: nat): seq<string>
  {
    if count % DOT_EVERY == 0 then Say(quiet, ".") else []
  }

  /** What is logged after the loop, once `count` rows or lines were handled. */
  function Finish(quiet: bool, count: nat): seq<string>
  {
    if count > DOT_EVERY then Say(quiet, "\n") else []
  }

  /** One dot for each multiple of `DOT_EVERY` up to `count`. */
  function Dots(quiet: bool, count: nat): seq<string>
  {
    if quiet then [] else seq(count / DOT_EVERY, _ => ".")
  }

  /** Handling one more row or line adds a dot exactly when its count is a multiple of `DOT_EVERY`. */
  lemma DotsStep(quiet: bool, count: nat)
    ensures Dots(quiet, count + 1) == Dots(quiet, count) + Tick(quiet, count + 1)
  {
    var q, r := count / DOT_EVERY, count % DOT_EVERY;
    assert count == q * DOT_EVERY + r;
    if r + 1 == DOT_EVERY {
      assert count + 1 == (q + 1) * DOT_EVERY;
      assert (count + 1) / DOT_EVERY == q + 1;
      assert (count + 1) % DOT_EVERY == 0;
    } else {
      assert count + 1 == q * DOT_EVERY + (r + 1);
      assert (count + 1) / DOT_EVERY == q;
      assert (count + 1) % DOT_EVERY == r + 1;
    }
  }

  /**
    The whole progress output for `count` rows or lines: `count / DOT_EVERY`
    dots, then a newline only when `count` is strictly above `DOT_EVERY`,
    so exactly `DOT_EVERY` rows log one dot and no newline. Nothing when quiet.
   */
  lemma ProgressShape(quiet: bool, count: nat)
    ensures var p := Dots(quiet, count) + Finish(quiet, count);
      && (quiet ==> p == [])
      && (!quiet ==> |p| == count / DOT_EVERY + (if count > DOT_EVERY then 1 else 0))
      && (!quiet ==> forall i :: 0 <= i < count / DOT_EVERY ==> p[i] == ".")
      && (!quiet && count > DOT_EVERY <==> |p| > 0 && p[|p| - 1] == "\n")
      && (!quiet && count == DOT_EVERY ==> p == ["."])
  {
  }
}
