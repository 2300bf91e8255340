/**
  `table_to_cqlfile`: select the rows of one table (or of a filter), turn
  every row into one `INSERT` line of the dump file, and log a progress dot
  every `DOT_EVERY` rows.
 */
module TableExport {
  import opened Text
  import opened Effects
  import opened Cluster

  /** `"ks"."t"`, the quoted table name the dump uses. */
  function QuotedName(keyname: string, tablename: string): string
  {
    "\"" + keyname + "\".\"" + tablename + "\""
  }

  /**
    The query whose rows are dumped: the whole table, or, with a filter,
    `SELECT * FROM ` followed by the filter text unchanged.
   */
  function SelectQuery(keyname: string, tablename: string, flt: Option<string>): (q: string)
    ensures |q| >= 14 && q[..14] == "SELECT * FROM "
    ensures flt.Some? ==> q[14..] == flt.value
    ensures flt.None? ==> q[14..] == QuotedName(keyname, tablename)
  {
    "SELECT * FROM " + if flt.None? then QuotedName(keyname, tablename) else flt.value
  }

  /** The encoder chosen by a column's declared type name. */
  function Encode<V>(sess: Session<V>, typename: string, value: V): string
  {
    if typename == "blob" then sess.encodeBytes(value) else sess.encodeAll(value)
  }

  /**
    The encoded values of a row, one per column in the row's order: a
    column declared `blob` goes through the bytes encoder, every other
    column through the generic one. A column the table metadata does not
    know raises `KeyError`, at the first such column.
   */
  function EncodeValues<V>(sess: Session<V>, columns: map<string, string>, row: Row<V>): (r: Result<seq<string>>)
    ensures r.Ok? <==> forall i :: 0 <= i < |row| ==> row[i].0 in columns
    ensures r.Ok? ==> |r.value| == |row|
    ensures r.Ok? ==> forall i :: 0 <= i < |row| ==>
      r.value[i] == if columns[row[i].0] == "blob" then sess.encodeBytes(row[i].1) else sess.encodeAll(row[i].1)
    ensures r.Err? ==> r.failure.UnknownColumn? && r.failure.column !in columns && r.failure.column in Names(row)
  {
    if |row| == 0 then Ok([])
    else if row[0].0 !in columns then Err(UnknownColumn(row[0].0))
    else
      match EncodeValues(sess, columns, row[1..])
      case Err(f) => Err(f)
      case Ok(vs) => Ok([Encode(sess, columns[row[0].0], row[0].1)] + vs)
  }

  /** The values already encoded, in front of the encoding of the rest of the row. */
  function Prepend(done: seq<string>, rest: Result<seq<string>>): Result<seq<string>>
  {
    match rest
    case Ok(vs) => Ok(done + vs)
    case Err(f) => Err(f)
  }

  lemma PrependNothing(rest: Result<seq<string>>)
    ensures Prepend([], rest) == rest
  {
    if rest.Ok? {
      assert [] + rest.value == rest.value;
    }
  }

  lemma PrependTwice(done: seq<string>, more: seq<string>, rest: Result<seq<string>>)
    ensures Prepend(done, Prepend(more, rest)) == Prepend(done + more, rest)
  {
    if rest.Ok? {
      assert done + (more + rest.value) == (done + more) + rest.value;
    }
  }

  /** The inner loop of `table_to_cqlfile`: encode a row's values one column at a time. */
  method EncodeRow<V>(sess: Session<V>, columns: map<string, string>, row: Row<V>) returns (r: Result<seq<string>>)
    ensures r == EncodeValues(sess, columns, row)
  {
    var values: seq<string> := [];
    var i := 0;
    assert row[0..] == row;
    PrependNothing(EncodeValues(sess, columns, row));
    while i < |row|
      invariant 0 <= i <= |row|
      invariant EncodeValues(sess, columns, row) == Prepend(values, EncodeValues(sess, columns, row[i..]))
    {
      var (key, value) := row[i];
      assert row[i..][0] == row[i] && row[i..][1..] == row[i + 1..];
      if key !in columns {
        return Err(UnknownColumn(key));
      }
      var encoded := Encode(sess, columns[key], value);
      assert EncodeValues(sess, columns, row[i..]) == Prepend([encoded], EncodeValues(sess, columns, row[i + 1..]));
      PrependTwice(values, [encoded], EncodeValues(sess, columns, row[i + 1..]));
      values := values + [encoded];
      i := i + 1;
    }
    assert row[i..] == [] && values + [] == values;
    r := Ok(values);
  }

  /** Column names as `str.encode('ascii')` accepts them. */
  predicate IsAscii(s: string)
  {
    forall k :: 0 <= k < |s| ==> s[k] < '\U{80}'
  }

  /**
    The line written for one row: `INSERT INTO "ks"."t" (names) VALUES (values)`
    and a newline; it starts with the quoted table name it inserts into.
   */
  function InsertLine(keyname: string, tablename: string, names: seq<string>, values: seq<string>): (w: string)
    ensures IsInsertInto(w, keyname, tablename)
    ensures w[|w| - 1] == '\n'
  {
    var head := "INSERT INTO " + QuotedName(keyname, tablename) + " (";
    head + (Join(", ", names) + ") VALUES (" + Join(", ", values) + ")\n")
  }

  /**
    The line for one row: its encoded values, then its column names joined
    and encoded as ASCII (a non-ASCII name raises `UnicodeEncodeError`).
   */
  function RowLine<V>(sess: Session<V>, keyname: string, tablename: string, columns: map<string, string>, row: Row<V>)
    : (r: Result<string>)
    ensures r.Ok? ==> IsInsertInto(r.value, keyname, tablename)
    ensures r.Err? ==> IsException(r.failure)
  {
    match EncodeValues(sess, columns, row)
    case Err(f) => Err(f)
    case Ok(values) =>
      if !IsAscii(Join(", ", Names(row))) then Err(NonAsciiColumnNames)
      else Ok(InsertLine(keyname, tablename, Names(row), values))
  }

  /** The body of `table_to_cqlfile`'s row loop, up to the write: encode the values, then build the line. */
  method WriteRow<V>(sess: Session<V>, keyname: string, tablename: string, columns: map<string, string>, row: Row<V>)
    returns (line: Result<string>)
    ensures line == RowLine(sess, keyname, tablename, columns, row)
  {
    var values := EncodeRow(sess, columns, row);
    if values.Err? {
      return Err(values.failure);
    }
    var names := Join(", ", Names(row));
    if !IsAscii(names) {
      return Err(NonAsciiColumnNames);
    }
    line := Ok(InsertLine(keyname, tablename, Names(row), values.value));
  }

  /** Dumping the `count`-th row (counting from one): its line and, every `DOT_EVERY` rows, a dot. */
  function RowStep<V>(sess: Session<V>, keyname: string, tablename: string, columns: map<string, string>,
                      quiet: bool, count: nat, row: Row<V>): Run
  {
    match RowLine(sess, keyname, tablename, columns, row)
    case Err(f) => Stop(f)
    case Ok(line) => Run([line], Tick(quiet, count), None)
  }

  function RowSteps<V>(sess: Session<V>, keyname: string, tablename: string, columns: map<string, string>,
                       quiet: bool, rows: seq<Row<V>>): (steps: seq<Run>)
    ensures |steps| == |rows|
    ensures forall i :: 0 <= i < |rows| ==> steps[i] == RowStep(sess, keyname, tablename, columns, quiet, i + 1, rows[i])
  {
    seq(|rows|, i requires 0 <= i < |rows| => RowStep(sess, keyname, tablename, columns, quiet, i + 1, rows[i]))
  }

  /** Everything `table_to_cqlfile` does: the rows in order, then a newline after more than `DOT_EVERY` rows. */
  function TableDump<V>(sess: Session<V>, keyname: string, tablename: string, flt: Option<string>,
                        columns: map<string, string>, quiet: bool): Run
  {
    var rows := sess.fetch(SelectQuery(keyname, tablename, flt));
    Seq(Chain(RowSteps(sess, keyname, tablename, columns, quiet, rows)), Run([], Finish(quiet, |rows|), None))
  }

  /** `table_to_cqlfile`, row by row. */
  method TableToCql<V>(sess: Session<V>, keyname: string, tablename: string, flt: Option<string>,
                       columns: map<string, string>, quiet: bool) returns (r: Run)
    ensures r == TableDump(sess, keyname, tablename, flt, columns, quiet)
  {
    var query := SelectQuery(keyname, tablename, flt);
    var rows := sess.fetch(query);
    ghost var steps := RowSteps(sess, keyname, tablename, columns, quiet, rows);
    var file: seq<string> := [];
    var log: seq<string> := [];
    var cnt := 0;
    while cnt < |rows|
      invariant 0 <= cnt <= |rows|
      invariant Chain(steps) == Seq(Run(file, log, None), Chain(steps[cnt..]))
    {
      var row := rows[cnt];
      NextRow(sess, keyname, tablename, columns, quiet, rows, cnt, Run(file, log, None));
      var line := WriteRow(sess, keyname, tablename, columns, row);
      if line.Err? {
        return Run(file, log, Some(line.failure));
      }
      file := file + [line.value];
      cnt := cnt + 1;
      log := log + Tick(quiet, cnt);
    }
    assert steps[cnt..] == [];
    assert Chain(steps) == Run(file, log, None);
    log := log + Finish(quiet, cnt);
    r := Run(file, log, None);
  }

  /** One more row of `TableToCql`'s loop: its line and dot, or the failure that ends the process. */
  lemma NextRow<V>(sess: Session<V>, keyname: string, tablename: string, columns: map<string, string>,
                   quiet: bool, rows: seq<Row<V>>, cnt: nat, done: Run)
    requires cnt < |rows| && done.failure.None?
    ensures var steps := RowSteps(sess, keyname, tablename, columns, quiet, rows);
      Seq(done, Chain(steps[cnt..])) ==
        match RowLine(sess, keyname, tablename, columns, rows[cnt])
        case Err(f) => Run(done.file, done.log, Some(f))
        case Ok(line) => Seq(Run(done.file + [line], done.log + Tick(quiet, cnt + 1), None), Chain(steps[cnt + 1..]))
  {
    var steps := RowSteps(sess, keyname, tablename, columns, quiet, rows);
    assert steps[cnt..][0] == steps[cnt] && steps[cnt..][1..] == steps[cnt + 1..];
    SeqAssoc(done, steps[cnt], Chain(steps[cnt + 1..]));
  }

  // ---------------------------------------------------------------------------
  // what the dump of a table holds

  /**
    The dump of a table whose first `n` rows have a line and whose next
    row, if any, fails: exactly one line per dumped row, in row order, and
    one dot per `DOT_EVERY` of them; then either the failure of row `n`, or,
    when every row was dumped, the closing newline after more than
    `DOT_EVERY` rows.
   */
  lemma TableDumpOutcome<V>(sess: Session<V>, keyname: string, tablename: string, flt: Option<string>,
                            columns: map<string, string>, quiet: bool, n: nat)
    requires var rows := sess.fetch(SelectQuery(keyname, tablename, flt));
      && n <= |rows|
      && (forall i :: 0 <= i < n ==> RowLine(sess, keyname, tablename, columns, rows[i]).Ok?)
      && (n < |rows| ==> RowLine(sess, keyname, tablename, columns, rows[n]).Err?)
    ensures var rows := sess.fetch(SelectQuery(keyname, tablename, flt));
      var r := TableDump(sess, keyname, tablename, flt, columns, quiet);
      && |r.file| == n
      && (forall i :: 0 <= i < n ==> r.file[i] == RowLine(sess, keyname, tablename, columns, rows[i]).value)
      && (n == |rows| ==> r.failure.None? && r.log == Dots(quiet, n) + Finish(quiet, n))
      && (n < |rows| ==>
            && r.failure == Some(RowLine(sess, keyname, tablename, columns, rows[n]).failure)
            && r.log == Dots(quiet, n))
  {
    var rows := sess.fetch(SelectQuery(keyname, tablename, flt));
    var steps := RowSteps(sess, keyname, tablename, columns, quiet, rows);
    var lines := seq(n, i requires 0 <= i < n => RowLine(sess, keyname, tablename, columns, rows[i]).value);
    RowsDumped(sess, keyname, tablename, columns, quiet, rows, n, lines);
    PrefixSuffix(steps, n);
    ChainAppend(steps[..n], steps[n..]);
    var head := Run(lines, Dots(quiet, n), None);
    var fin := Run([], Finish(quiet, |rows|), None);
    assert TableDump(sess, keyname, tablename, flt, columns, quiet) == Seq(Seq(head, Chain(steps[n..])), fin);
    if n < |rows| {
      assert steps[n..][0] == steps[n];
      assert Chain(steps[n..]) == steps[n] == Stop(RowLine(sess, keyname, tablename, columns, rows[n]).failure);
    } else {
      assert steps[n..] == [];
      SeqNothing(head);
    }
  }

  /** The first `n` rows, all with a line: their lines in order and their dots. */
  lemma {:induction false} RowsDumped<V>(sess: Session<V>, keyname: string, tablename: string,
                                         columns: map<string, string>, quiet: bool, rows: seq<Row<V>>,
                                         n: nat, lines: seq<string>)
    requires n <= |rows| && |lines| == n
    requires forall i :: 0 <= i < n ==> RowLine(sess, keyname, tablename, columns, rows[i]) == Ok(lines[i])
    ensures Chain(RowSteps(sess, keyname, tablename, columns, quiet, rows)[..n]) == Run(lines, Dots(quiet, n), None)
  {
    var steps := RowSteps(sess, keyname, tablename, columns, quiet, rows);
    if n == 0 {
      assert steps[..0] == [];
    } else {
      var last := steps[n - 1];
      assert last == Run([lines[n - 1]], Tick(quiet, n), None);
      assert Chain([last]) == last;
      RowsDumped(sess, keyname, tablename, columns, quiet, rows, n - 1, lines[..n - 1]);
      PrefixSnoc(steps, n);
      ChainAppend(steps[..n - 1], [last]);
      DotsStep(quiet, n - 1);
      PrefixSnoc(lines, n);
      assert lines[..n] == lines;
    }
  }

  /**
    A row's line names the row's columns, in row order, and gives one
    encoded value per column, in the same order; it fails exactly when a
    column is unknown to the table or a column name is not ASCII.
   */
  lemma RowLineColumns<V>(sess: Session<V>, keyname: string, tablename: string, columns: map<string, string>, row: Row<V>)
    ensures var r := RowLine(sess, keyname, tablename, columns, row);
      && (r.Ok? <==> (forall i :: 0 <= i < |row| ==> row[i].0 in columns) && IsAscii(Join(", ", Names(row))))
      && (r.Ok? ==> exists values: seq<string> ::
            && |values| == |row|
            && (forall i :: 0 <= i < |row| ==> values[i] == Encode(sess, columns[row[i].0], row[i].1))
            && r.value == InsertLine(keyname, tablename, Names(row), values))
  {
    var r := RowLine(sess, keyname, tablename, columns, row);
    if r.Ok? {
      var values := EncodeValues(sess, columns, row).value;
      assert forall i :: 0 <= i < |row| ==> values[i] == Encode(sess, columns[row[i].0], row[i].1);
    }
  }

  /**
    A table dump ends the process exactly when one of the selected rows has
    no line, and then with an uncaught exception, never with an error
    message of its own.
   */
  lemma TableDumpFails<V>(sess: Session<V>, keyname: string, tablename: string, flt: Option<string>,
                          columns: map<string, string>, quiet: bool)
    ensures var rows := sess.fetch(SelectQuery(keyname, tablename, flt));
      var r := TableDump(sess, keyname, tablename, flt, columns, quiet);
      && (r.failure.None? <==> forall i :: 0 <= i < |rows| ==> RowLine(sess, keyname, tablename, columns, rows[i]).Ok?)
      && (r.failure.Some? ==> IsException(r.failure.value))
  {
    var rows := sess.fetch(SelectQuery(keyname, tablename, flt));
    var steps := RowSteps(sess, keyname, tablename, columns, quiet, rows);
    ChainFails(steps);
    if Chain(steps).failure.Some? {
      ChainFailure(steps);
    }
  }

  /** Every line of a table dump is the line of one of the selected rows. */
  lemma TableDumpLineOfRow<V>(sess: Session<V>, keyname: string, tablename: string, flt: Option<string>,
                              columns: map<string, string>, quiet: bool, w: string)
    requires w in TableDump(sess, keyname, tablename, flt, columns, quiet).file
    ensures var rows := sess.fetch(SelectQuery(keyname, tablename, flt));
      exists i :: 0 <= i < |rows| && RowLine(sess, keyname, tablename, columns, rows[i]) == Ok(w)
  {
    var rows := sess.fetch(SelectQuery(keyname, tablename, flt));
    var steps := RowSteps(sess, keyname, tablename, columns, quiet, rows);
    SeqWrites(Chain(steps), Run([], Finish(quiet, |rows|), None), w);
    ChainWrites(steps, w);
    var i :| 0 <= i < |steps| && w in steps[i].file;
    RowStepWrites(sess, keyname, tablename, columns, quiet, i + 1, rows[i], w);
  }

  /** What dumping one row writes is that row's line. */
  lemma RowStepWrites<V>(sess: Session<V>, keyname: string, tablename: string, columns: map<string, string>,
                         quiet: bool, count: nat, row: Row<V>, w: string)
    requires w in RowStep(sess, keyname, tablename, columns, quiet, count, row).file
    ensures RowLine(sess, keyname, tablename, columns, row) == Ok(w)
  {
  }

  /** Every line of a table dump is an `INSERT INTO "ks"."t" (` statement. */
  lemma TableDumpInserts<V>(sess: Session<V>, keyname: string, tablename: string, flt: Option<string>,
                            columns: map<string, string>, quiet: bool, w: string)
    requires w in TableDump(sess, keyname, tablename, flt, columns, quiet).file
    ensures IsInsertInto(w, keyname, tablename)
  {
    var rows := sess.fetch(SelectQuery(keyname, tablename, flt));
    TableDumpLineOfRow(sess, keyname, tablename, flt, columns, quiet, w);
    var i :| 0 <= i < |rows| && RowLine(sess, keyname, tablename, columns, rows[i]) == Ok(w);
  }

  predicate IsInsertInto(w: string, keyname: string, tablename: string)
  {
    var head := "INSERT INTO " + QuotedName(keyname, tablename) + " (";
    |head| <= |w| && w[..|head|] == head
  }

  /**
    A line built from names and values without newlines is one complete
    line of the dump file: the file reads back with it as one line.
   */
  lemma InsertLineIsLine(keyname: string, tablename: string, names: seq<string>, values: seq<string>)
    requires '\n' !in keyname && '\n' !in tablename
    requires forall i :: 0 <= i < |names| ==> '\n' !in names[i]
    requires forall i :: 0 <= i < |values| ==> '\n' !in values[i]
    ensures IsLine(InsertLine(keyname, tablename, names, values))
  {
    JoinAvoids(", ", names, '\n');
    JoinAvoids(", ", values, '\n');
    var w := InsertLine(keyname, tablename, names, values);
    var quoted := QuotedName(keyname, tablename);
    assert '\n' !in quoted;
    var front := "INSERT INTO " + quoted + " (";
    assert '\n' !in front;
    var middle := front + Join(", ", names) + ") VALUES (";
    assert '\n' !in middle;
    var body := middle + Join(", ", values) + ")";
    assert '\n' !in body;
    assert w == body + "\n";
    assert w[..|w| - 1] == body;
  }
}
