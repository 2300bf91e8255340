/**
  `import_data`: replay a dump file against the cluster, one statement per
  line of the file. The session's `execute` is modelled by the trace of the
  statements it was given, in order.
 */
module Replay {
  import opened Text
  import opened Effects
  import opened Cluster
  import opened TableExport

  /**
    Every line of the file is executed once, in file order, and nothing
    else is: the trace read back together is the file. Progress is logged
    as for a table dump, one dot per `DOT_EVERY` lines and a closing newline
    after more than `DOT_EVERY` lines.
   */
  method ImportData(text: string, quiet: bool) returns (executed: seq<string>, log: seq<string>)
    ensures executed == Lines(text)
    ensures Concat(executed) == text
    ensures forall i :: 0 <= i < |executed| - 1 ==> IsLine(executed[i])
    ensures log == Dots(quiet, |executed|) + Finish(quiet, |executed|)
  {
    var lines := Lines(text);
    executed := [];
    log := [];
    var cnt := 0;
    while cnt < |lines|
      invariant 0 <= cnt <= |lines|
      invariant executed == lines[..cnt]
      invariant log == Dots(quiet, cnt)
    {
      PrefixSnoc(lines, cnt + 1);
      executed := executed + [lines[cnt]];
      cnt := cnt + 1;
      DotsStep(quiet, cnt - 1);
      log := log + Tick(quiet, cnt);
    }
    assert lines[..cnt] == lines;
    log := log + Finish(quiet, cnt);
  }

  /**
    Replaying a table dump executes exactly the lines it wrote, one
    statement per row, provided the table name, the column names and the
    encoded values hold no newline.
   */
  lemma TableDumpReplays<V>(sess: Session<V>, keyname: string, tablename: string, flt: Option<string>,
                            columns: map<string, string>, quiet: bool)
    requires '\n' !in keyname && '\n' !in tablename
    requires var rows := sess.fetch(SelectQuery(keyname, tablename, flt));
      forall i, j :: 0 <= i < |rows| && 0 <= j < |rows[i]| ==>
        && '\n' !in rows[i][j].0
        && (rows[i][j].0 in columns ==> '\n' !in Encode(sess, columns[rows[i][j].0], rows[i][j].1))
    ensures var file := TableDump(sess, keyname, tablename, flt, columns, quiet).file;
      Lines(Concat(file)) == file
  {
    var rows := sess.fetch(SelectQuery(keyname, tablename, flt));
    var file := TableDump(sess, keyname, tablename, flt, columns, quiet).file;
    forall k | 0 <= k < |file|
      ensures IsLine(file[k])
    {
      TableDumpLineOfRow(sess, keyname, tablename, flt, columns, quiet, file[k]);
      var i :| 0 <= i < |rows| && RowLine(sess, keyname, tablename, columns, rows[i]) == Ok(file[k]);
      RowLineIsLine(sess, keyname, tablename, columns, rows[i]);
    }
    LinesOfConcat(file);
  }

  /** The line of a row whose column names and encoded values hold no newline is one complete line. */
  lemma RowLineIsLine<V>(sess: Session<V>, keyname: string, tablename: string, columns: map<string, string>, row: Row<V>)
    requires '\n' !in keyname && '\n' !in tablename
    requires forall j :: 0 <= j < |row| ==>
      && '\n' !in row[j].0
      && (row[j].0 in columns ==> '\n' !in Encode(sess, columns[row[j].0], row[j].1))
    requires RowLine(sess, keyname, tablename, columns, row).Ok?
    ensures IsLine(RowLine(sess, keyname, tablename, columns, row).value)
  {
    var values := EncodeValues(sess, columns, row).value;
    forall j | 0 <= j < |values|
      ensures '\n' !in values[j]
    {
      assert values[j] == Encode(sess, columns[row[j].0], row[j].1);
    }
    InsertLineIsLine(keyname, tablename, Names(row), values);
  }

  /** A text with a newline before its last character reads back as more than one line. */
  lemma InnerNewlineSplits(w: string, k: nat)
    requires k < |w| - 1 && w[k] == '\n'
    ensures |Lines(w)| > 1
  {
    assert w[..|w| - 1][k] == '\n';
    var ls := Lines(w);
    assert Concat(ls) == if |ls| == 0 then "" else ls[0] + Concat(ls[1..]);
  }

  /** A line whose one value holds a newline has that newline before its last character. */
  lemma InsertLineValueNewline(keyname: string, tablename: string, names: seq<string>, value: string, j: nat)
    requires j < |value| && value[j] == '\n'
    ensures var w := InsertLine(keyname, tablename, names, [value]);
      exists k :: 0 <= k < |w| - 1 && w[k] == '\n'
  {
    var w := InsertLine(keyname, tablename, names, [value]);
    var front := "INSERT INTO " + QuotedName(keyname, tablename) + " (" + Join(", ", names) + ") VALUES (";
    assert w == front + value + ")\n";
    assert w[|front| + j] == value[j];
  }

  /** A session whose every query returns one row, with one text column `c` holding `"a\nb"`. */
  function NewlineSession(): Session<string>
  {
    Session([], (q: string) => [[("c", "a\nb")]], (v: string) => v, (v: string) => v)
  }

  /** The dump of table `k.t` from that session is the single line of its one row. */
  lemma NewlineSessionDump()
    ensures TableDump(NewlineSession(), "k", "t", None, map["c" := "text"], true).file
            == [InsertLine("k", "t", ["c"], ["a\nb"])]
  {
    var sess := NewlineSession();
    var columns := map["c" := "text"];
    var row := [("c", "a\nb")];
    assert sess.fetch(SelectQuery("k", "t", None)) == [row];
    assert Names(row) == ["c"];
    var values := EncodeValues(sess, columns, row);
    assert values.Ok? && |values.value| == 1;
    assert values.value[0] == sess.encodeAll("a\nb") == "a\nb";
    assert values.value == ["a\nb"];
    assert IsAscii(Join(", ", ["c"]));
    TableDumpOutcome(sess, "k", "t", None, columns, true, 1);
  }

  /**
    A value whose encoding holds a newline breaks the round trip: the dump
    of one row whose text value is `"a\nb"` holds one INSERT line, yet the
    file reads back as more than one line, so an import executes the
    pieces of that statement separately.
   */
  lemma NewlineValueSplitsLine()
    ensures var file := TableDump(NewlineSession(), "k", "t", None, map["c" := "text"], true).file;
      && |file| == 1
      && |Lines(Concat(file))| > 1
  {
    NewlineSessionDump();
    var w := InsertLine("k", "t", ["c"], ["a\nb"]);
    assert Concat([w]) == w + Concat([]) == w;
    InsertLineValueNewline("k", "t", ["c"], "a\nb", 1);
    var k :| 0 <= k < |w| - 1 && w[k] == '\n';
    InnerNewlineSplits(w, k);
  }
}
