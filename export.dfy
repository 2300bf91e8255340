/**
  `export_data`: choose what to export from `--keyspace`, `--cf` and
  `--filter` (at most one of them, or none for every user keyspace), then
  write the schema and data of each selected keyspace or table to the dump
  file, stopping the process at the first name that cannot be resolved.
 */
module Exporter {
  import opened Text
  import opened Effects
  import opened Options
  import opened Cluster
  import opened TableExport

  // ---------------------------------------------------------------------------
  // the scope

  /** The keyspaces "export all" leaves out. */
  predicate IsSystemKeyspace(name: string)
  {
    name == "system" || name == "system_traces"
  }

  /** Every keyspace but the system ones, in the order given. */
  function UserKeyspaces(names: seq<string>): (r: seq<string>)
    ensures forall k :: k in r <==> k in names && !IsSystemKeyspace(k)
  {
    if |names| == 0 then []
    else (if IsSystemKeyspace(names[0]) then [] else [names[0]]) + UserKeyspaces(names[1..])
  }

  /** Keeping the user keyspaces of two lists one after the other keeps their order. */
  lemma {:induction false} UserKeyspacesAppend(first: seq<string>, second: seq<string>)
    ensures UserKeyspaces(first + second) == UserKeyspaces(first) + UserKeyspaces(second)
  {
    if |first| > 0 {
      assert (first + second)[0] == first[0];
      assert (first + second)[1..] == first[1..] + second;
      UserKeyspacesAppend(first[1..], second);
    } else {
      assert first + second == second;
    }
  }

  /** Looking at one more name of the metadata keeps it exactly when it is not a system keyspace. */
  lemma UserKeyspacesSnoc(names: seq<string>, i: nat)
    requires i < |names|
    ensures UserKeyspaces(names[..i + 1])
         == UserKeyspaces(names[..i]) + (if IsSystemKeyspace(names[i]) then [] else [names[i]])
  {
    PrefixSnoc(names, i + 1);
    UserKeyspacesAppend(names[..i], [names[i]]);
    assert UserKeyspaces([names[i]]) == (if IsSystemKeyspace(names[i]) then [] else [names[i]]) + UserKeyspaces([]);
  }

  /** The loop of `export_data` that collects the keyspaces to export when no scope is given. */
  method ListUserKeyspaces<V>(sess: Session<V>) returns (keyspaces: seq<string>)
    ensures keyspaces == UserKeyspaces(Names(sess.keyspaces))
  {
    var names := Names(sess.keyspaces);
    keyspaces := [];
    var i := 0;
    while i < |names|
      invariant 0 <= i <= |names|
      invariant keyspaces == UserKeyspaces(names[..i])
    {
      UserKeyspacesSnoc(names, i);
      if !IsSystemKeyspace(names[i]) {
        keyspaces := keyspaces + [names[i]];
      }
      i := i + 1;
    }
    assert names[..i] == names;
  }

  /**
    `name.split('.')[0]` and `name.split('.')[1]`, once `'.' in name` was
    checked: the keyspace is the text before the first dot and the table
    the text between the first dot and the next dot or the end.
   */
  function ParseTarget(name: string): (r: Option<(string, string)>)
    ensures r.None? <==> '.' !in name
    ensures r.Some? ==>
      var (keyname, tablename) := r.value;
      && '.' !in keyname && '.' !in tablename
      && |keyname| + 1 + |tablename| <= |name|
      && name[..|keyname|] == keyname
      && name[|keyname|] == '.'
      && name[|keyname| + 1..|keyname| + 1 + |tablename|] == tablename
      && (|keyname| + 1 + |tablename| == |name| || name[|keyname| + 1 + |tablename|] == '.')
  {
    if '.' !in name then None
    else
      var parts := Split(name, '.');
      SplitHead(name, '.');
      assert |parts[0]| < |name|;
      var rest := name[|parts[0]| + 1..];
      SplitHead(rest, '.');
      assert parts[1] == Split(rest, '.')[0];
      assert name[|parts[0]| + 1..|parts[0]| + 1 + |parts[1]|] == rest[..|parts[1]|];
      Some((parts[0], parts[1]))
  }

  /** `s.split(' ')[0]`: the text before the first space, or all of it. */
  function FirstToken(s: string): (r: string)
    ensures ' ' !in r
    ensures |r| <= |s| && s[..|r|] == r
    ensures |r| < |s| ==> s[|r|] == ' '
  {
    SplitHead(s, ' ');
    Split(s, ' ')[0]
  }

  // ---------------------------------------------------------------------------
  // what one keyspace, table or filter adds

  function DropKeyspace(keyname: string): string
  {
    "DROP KEYSPACE IF EXISTS \"" + keyname + "\";\n"
  }

  function DropTable(keyname: string, tablename: string): string
  {
    "DROP TABLE IF EXISTS " + QuotedName(keyname, tablename) + ";\n"
  }

  /** A table of the selected scope: its schema unless `--no-create`, its rows unless `--no-insert`; only CQL-compatible tables. */
  function TableOut<V>(sess: Session<V>, a: Args, keyname: string, tablename: string, table: Table): Run
  {
    if !table.cqlCompatible then Nothing
    else
      var schema :=
        if a.noCreate then Nothing
        else Run([DropTable(keyname, tablename), table.ddl + ";\n"],
                 Say(a.quiet, "Exporting schema for column family " + keyname + "." + tablename + "\n"), None);
      var data :=
        if a.noInsert then Nothing
        else Seq(Run([], Say(a.quiet, "Exporting data for column family " + keyname + "." + tablename + "\n"), None),
                 TableDump(sess, keyname, tablename, None, table.columns, a.quiet));
      Seq(schema, data)
  }

  function TableOuts<V>(sess: Session<V>, a: Args, keyname: string, tables: seq<(string, Table)>): (outs: seq<Run>)
    ensures |outs| == |tables|
    ensures forall i :: 0 <= i < |tables| ==> outs[i] == TableOut(sess, a, keyname, tables[i].0, tables[i].1)
  {
    seq(|tables|, i requires 0 <= i < |tables| => TableOut(sess, a, keyname, tables[i].0, tables[i].1))
  }

  /** A keyspace of the selected scope: its schema unless `--no-create`, then each of its tables in order. */
  function KeyspaceOut<V>(sess: Session<V>, a: Args, keyname: string): Run
  {
    match Lookup(sess.keyspaces, keyname)
    case None => Stop(KeyspaceNotFound(keyname))
    case Some(ks) =>
      var schema :=
        if a.noCreate then Nothing
        else Run([DropKeyspace(keyname), ks.ddl + "\n"], Say(a.quiet, "Exporting schema for keyspace " + keyname + "\n"), None);
      Seq(schema, Chain(TableOuts(sess, a, keyname, ks.tables)))
  }

  /**
    The keyspace and table named by a `keyspace.table` string, resolved in
    the cluster metadata: `malformed` without a dot, else the first of the
    two names that is not there.
   */
  function Resolve<V>(sess: Session<V>, name: string, malformed: Failure): (r: Result<(string, string, Table)>)
    ensures '.' !in name ==> r == Err(malformed)
    ensures r.Ok? ==>
      && ParseTarget(name) == Some((r.value.0, r.value.1))
      && exists i, j :: 0 <= i < |sess.keyspaces| && sess.keyspaces[i].0 == r.value.0
                     && 0 <= j < |sess.keyspaces[i].1.tables| && sess.keyspaces[i].1.tables[j] == (r.value.1, r.value.2)
    ensures '.' in name ==>
      var (keyname, tablename) := ParseTarget(name).value;
      var ks := Lookup(sess.keyspaces, keyname);
      && (r == Err(KeyspaceNotFound(keyname)) <==> forall i :: 0 <= i < |sess.keyspaces| ==> sess.keyspaces[i].0 != keyname)
      && (r == Err(TableNotFound(tablename)) <==> ks.Some? && Lookup(ks.value.tables, tablename).None?)
      && (r.Ok? <==> ks.Some? && Lookup(ks.value.tables, tablename).Some?)
      && (r.Err? ==> r == Err(KeyspaceNotFound(keyname)) || r == Err(TableNotFound(tablename)))
  {
    match ParseTarget(name)
    case None => Err(malformed)
    case Some((keyname, tablename)) =>
      match Lookup(sess.keyspaces, keyname)
      case None => Err(KeyspaceNotFound(keyname))
      case Some(ks) =>
        match Lookup(ks.tables, tablename)
        case None => Err(TableNotFound(tablename))
        case Some(table) => Ok((keyname, tablename, table))
  }

  /** One `--cf` value: the table it names, exported as in a keyspace export. */
  function CfOut<V>(sess: Session<V>, a: Args, cf: string): Run
  {
    match Resolve(sess, cf, InvalidTableName)
    case Err(f) => Stop(f)
    case Ok((keyname, tablename, table)) => TableOut(sess, a, keyname, tablename, table)
  }

  /** One `--filter` value: the rows it selects from the table named by its first word; never any schema. */
  function FilterOut<V>(sess: Session<V>, a: Args, flt: string): Run
  {
    var stripped := Strip(flt);
    match Resolve(sess, FirstToken(stripped), InvalidFilter)
    case Err(f) => Stop(f)
    case Ok((keyname, tablename, table)) =>
      if a.noInsert then Nothing
      else Seq(Run([], Say(a.quiet, "Exporting data for filter \"" + stripped + "\"\n"), None),
               TableDump(sess, keyname, tablename, Some(stripped), table.columns, a.quiet))
  }

  function KeyspaceOuts<V>(sess: Session<V>, a: Args, names: seq<string>): (outs: seq<Run>)
    ensures |outs| == |names|
  {
    seq(|names|, i requires 0 <= i < |names| => KeyspaceOut(sess, a, names[i]))
  }

  function CfOuts<V>(sess: Session<V>, a: Args, cfs: seq<string>): (outs: seq<Run>)
    ensures |outs| == |cfs|
  {
    seq(|cfs|, i requires 0 <= i < |cfs| => CfOut(sess, a, cfs[i]))
  }

  function FilterOuts<V>(sess: Session<V>, a: Args, filters: seq<string>): (outs: seq<Run>)
    ensures |outs| == |filters|
  {
    seq(|filters|, i requires 0 <= i < |filters| => FilterOut(sess, a, filters[i]))
  }

  // ---------------------------------------------------------------------------
  // the whole export

  /** The keyspaces exported: all user keyspaces when no scope is given, else those of `--keyspace`, if any. */
  function ScopeKeyspaces<V>(sess: Session<V>, a: Args): seq<string>
  {
    if Selections(a) == 0 then UserKeyspaces(Names(sess.keyspaces))
    else if a.keyspace.Some? then a.keyspace.value
    else []
  }

  function Intro(a: Args): Run
  {
    if Selections(a) == 0 then Run([], Say(a.quiet, "Exporting all keyspaces\n"), None) else Nothing
  }

  function KeyspacesPart<V>(sess: Session<V>, a: Args): Run
  {
    Seq(Intro(a), Chain(KeyspaceOuts(sess, a, ScopeKeyspaces(sess, a))))
  }

  function CfPart<V>(sess: Session<V>, a: Args): Run
  {
    if a.cf.Some? then Chain(CfOuts(sess, a, a.cf.value)) else Nothing
  }

  function FilterPart<V>(sess: Session<V>, a: Args): Run
  {
    if a.filter.Some? then Chain(FilterOuts(sess, a, a.filter.value)) else Nothing
  }

  /**
    Everything `export_data` does: whether it opened the dump file, and
    what it wrote, logged and how it ended. Several scope options end the
    process before the file is opened.
   */
  function ExportOutcome<V>(sess: Session<V>, a: Args): (bool, Run)
  {
    if Selections(a) > 1 then (false, Stop(AmbiguousSelection))
    else (true, Seq(Seq(KeyspacesPart(sess, a), CfPart(sess, a)), FilterPart(sess, a)))
  }

  // ---------------------------------------------------------------------------
  // what the export promises

  /** Splitting `keyspace.table` on dots gives back the two names, whatever follows a further dot. */
  lemma ParseTargetOf(keyname: string, tablename: string, rest: string)
    requires '.' !in keyname && '.' !in tablename
    requires rest == [] || rest[0] == '.'
    ensures ParseTarget(keyname + "." + tablename + rest) == Some((keyname, tablename))
  {
    var name := keyname + "." + tablename + rest;
    var start := |keyname| + 1;
    assert name[|keyname|] == '.';
    assert forall i :: 0 <= i < |keyname| ==> name[i] == keyname[i];
    assert forall i :: 0 <= i < |tablename| ==> name[start + i] == tablename[i];
    assert start + |tablename| == |name| || name[start + |tablename|] == '.';
    var (k, t) := ParseTarget(name).value;
    assert forall i :: 0 <= i < |k| ==> name[i] == k[i];
    assert |k| == |keyname|;
    assert k == keyname by { assert name[..|keyname|] == keyname; }
    assert forall i :: 0 <= i < |t| ==> name[start + i] == t[i];
    assert |t| == |tablename|;
    assert name[start..start + |tablename|] == tablename;
  }

  /** The first word of a filter is found again whatever follows it after a space. */
  lemma FirstTokenOf(word: string, rest: string)
    requires ' ' !in word
    requires rest == [] || rest[0] == ' '
    ensures FirstToken(word + rest) == word
  {
    var s := word + rest;
    var r := FirstToken(s);
    assert forall i :: 0 <= i < |word| ==> s[i] == word[i];
    assert forall i :: 0 <= i < |r| ==> s[i] == r[i];
    assert |word| == |s| || s[|word|] == ' ';
    assert |r| == |word|;
    assert s[..|word|] == word;
  }

  /** The user keyspaces of a list are the list itself when it names no system keyspace. */
  lemma {:induction false} UserKeyspacesAll(names: seq<string>)
    requires forall i :: 0 <= i < |names| ==> !IsSystemKeyspace(names[i])
    ensures UserKeyspaces(names) == names
  {
    if |names| > 0 {
      UserKeyspacesAll(names[1..]);
    }
  }

  /**
    More than one of `--keyspace`, `--cf` and `--filter` ends the process
    with its message before the dump file is opened; any other choice
    opens it.
   */
  lemma CombinedScopesRejected<V>(sess: Session<V>, a: Args)
    ensures var (fileOpened, r) := ExportOutcome(sess, a);
      && (!fileOpened <==>
           || (a.keyspace.Some? && a.cf.Some?)
           || (a.keyspace.Some? && a.filter.Some?)
           || (a.cf.Some? && a.filter.Some?))
      && (!fileOpened ==> r.file == [] && r.log == [] && r.failure == Some(AmbiguousSelection))
      && (!fileOpened ==> ExitMessage(r.failure.value) == "--cf, --keyspace and --filter can't be combined\n")
  {
  }

  /**
    With no scope option, every keyspace but `system` and `system_traces`,
    in metadata order, after a notice; with one option, only what it names.
   */
  lemma ExportScopes<V>(sess: Session<V>, a: Args)
    ensures a.keyspace.None? && a.cf.None? && a.filter.None? ==>
      ExportOutcome(sess, a) == (true, Seq(Run([], Say(a.quiet, "Exporting all keyspaces\n"), None),
                                           Chain(KeyspaceOuts(sess, a, UserKeyspaces(Names(sess.keyspaces))))))
    ensures a.keyspace.Some? && a.cf.None? && a.filter.None? ==>
      ExportOutcome(sess, a) == (true, Chain(KeyspaceOuts(sess, a, a.keyspace.value)))
    ensures a.keyspace.None? && a.cf.Some? && a.filter.None? ==>
      ExportOutcome(sess, a) == (true, Chain(CfOuts(sess, a, a.cf.value)))
    ensures a.keyspace.None? && a.cf.None? && a.filter.Some? ==>
      ExportOutcome(sess, a) == (true, Chain(FilterOuts(sess, a, a.filter.value)))
  {
    var keyspacesPart, cfPart, filterPart := KeyspacesPart(sess, a), CfPart(sess, a), FilterPart(sess, a);
    if Selections(a) == 0 {
      SeqNothing(keyspacesPart);
      SeqNothing(Seq(keyspacesPart, cfPart));
    } else if Selections(a) == 1 {
      assert Intro(a) == Nothing;
      NothingSeq(Chain(KeyspaceOuts(sess, a, ScopeKeyspaces(sess, a))));
      if a.keyspace.Some? {
        SeqNothing(keyspacesPart);
        SeqNothing(Seq(keyspacesPart, cfPart));
      } else {
        assert KeyspaceOuts(sess, a, []) == [];
        assert keyspacesPart == Nothing;
        NothingSeq(cfPart);
        if a.cf.Some? {
          SeqNothing(cfPart);
        } else {
          NothingSeq(filterPart);
        }
      }
    }
  }

  /**
    A table is written only when it is CQL-compatible: its DROP TABLE and
    DDL unless `--no-create`, then its rows unless `--no-insert`.
   */
  lemma TableOutShape<V>(sess: Session<V>, a: Args, keyname: string, tablename: string, table: Table)
    ensures var out := TableOut(sess, a, keyname, tablename, table);
      var rows := TableDump(sess, keyname, tablename, None, table.columns, a.quiet);
      && (!table.cqlCompatible ==> out == Nothing)
      && (table.cqlCompatible ==>
            out.file == (if a.noCreate then [] else [DropTable(keyname, tablename), table.ddl + ";\n"])
                        + (if a.noInsert then [] else rows.file))
      && (table.cqlCompatible ==> out.failure == (if a.noInsert then None else rows.failure))
  {
    var rows := TableDump(sess, keyname, tablename, None, table.columns, a.quiet);
    if table.cqlCompatible && a.noInsert {
      assert [DropTable(keyname, tablename), table.ddl + ";\n"] + [] == [DropTable(keyname, tablename), table.ddl + ";\n"];
    }
  }

  /**
    A keyspace that is not in the metadata ends the process with its
    message; one that is starts with DROP KEYSPACE and its DDL unless
    `--no-create`, and then holds its tables in metadata order.
   */
  lemma KeyspaceOutShape<V>(sess: Session<V>, a: Args, keyname: string)
    ensures var out := KeyspaceOut(sess, a, keyname);
      && ((forall i :: 0 <= i < |sess.keyspaces| ==> sess.keyspaces[i].0 != keyname) ==>
            && out.file == [] && out.failure == Some(KeyspaceNotFound(keyname))
            && ExitMessage(out.failure.value) == "Can't find keyspace \"" + keyname + "\"\n")
      && (Lookup(sess.keyspaces, keyname).Some? && !a.noCreate ==>
            && |out.file| >= 2
            && out.file[0] == "DROP KEYSPACE IF EXISTS \"" + keyname + "\";\n"
            && out.file[1] == Lookup(sess.keyspaces, keyname).value.ddl + "\n")
      && (Lookup(sess.keyspaces, keyname).Some? ==>
            var ks := Lookup(sess.keyspaces, keyname).value;
            var tables := Chain(TableOuts(sess, a, keyname, ks.tables));
            && out.file == (if a.noCreate then [] else [DropKeyspace(keyname), ks.ddl + "\n"]) + tables.file
            && out.failure == tables.failure)
  {
    var out := KeyspaceOut(sess, a, keyname);
    var found := Lookup(sess.keyspaces, keyname);
    if found.Some? {
      var tables := Chain(TableOuts(sess, a, keyname, found.value.tables));
      if a.noCreate {
        assert out.file == tables.file == [] + tables.file;
      } else {
        var schema := [DropKeyspace(keyname), found.value.ddl + "\n"];
        assert out.file == schema + tables.file;
      }
    }
  }

  /**
    A table ends the process only while its rows are dumped, never when it
    is skipped as not CQL-compatible or under `--no-insert`, and then with
    the uncaught exception of one of its rows.
   */
  lemma TableOutFails<V>(sess: Session<V>, a: Args, keyname: string, tablename: string, table: Table)
    ensures var out := TableOut(sess, a, keyname, tablename, table);
      var rows := sess.fetch(SelectQuery(keyname, tablename, None));
      && (out.failure.None? <==>
            || !table.cqlCompatible || a.noInsert
            || forall i :: 0 <= i < |rows| ==> RowLine(sess, keyname, tablename, table.columns, rows[i]).Ok?)
      && (out.failure.Some? ==> IsException(out.failure.value))
  {
    TableOutShape(sess, a, keyname, tablename, table);
    TableDumpFails(sess, keyname, tablename, None, table.columns, a.quiet);
  }

  /**
    A keyspace ends the process with its own message exactly when the
    metadata does not list it; a listed one ends it exactly when one of its
    tables does, with that table's exception.
   */
  lemma KeyspaceOutFails<V>(sess: Session<V>, a: Args, keyname: string)
    ensures var out := KeyspaceOut(sess, a, keyname);
      var found := Lookup(sess.keyspaces, keyname);
      && (out.failure == Some(KeyspaceNotFound(keyname)) <==> found.None?)
      && (found.Some? ==>
            var tables := found.value.tables;
            && (out.failure.None? <==>
                  forall i :: 0 <= i < |tables| ==> TableOut(sess, a, keyname, tables[i].0, tables[i].1).failure.None?)
            && (out.failure.Some? ==> IsException(out.failure.value)))
  {
    var found := Lookup(sess.keyspaces, keyname);
    KeyspaceOutShape(sess, a, keyname);
    if found.Some? {
      var tables := found.value.tables;
      var outs := TableOuts(sess, a, keyname, tables);
      ChainFails(outs);
      if Chain(outs).failure.Some? {
        ChainFailure(outs);
        var i :| 0 <= i < |outs| && outs[i].failure == Chain(outs).failure;
        TableOutFails(sess, a, keyname, tables[i].0, tables[i].1);
      }
    }
  }

  /**
    A `--cf` value ends the process with an error message exactly when it
    does not resolve to a table, and then writes and logs nothing; without
    a dot the message is the one for a malformed name. Any other end is
    the uncaught exception of one of the table's rows.
   */
  lemma CfOutFails<V>(sess: Session<V>, a: Args, cf: string)
    ensures var out := CfOut(sess, a, cf);
      var target := Resolve(sess, cf, InvalidTableName);
      && (out.failure == Some(InvalidTableName) <==> '.' !in cf)
      && (out.failure.Some? && !IsException(out.failure.value) <==> target.Err?)
      && (target.Err? ==> out.file == [] && out.log == [] && out.failure == Some(target.failure))
  {
    var target := Resolve(sess, cf, InvalidTableName);
    if target.Ok? {
      TableOutFails(sess, a, target.value.0, target.value.1, target.value.2);
    }
  }

  /**
    A `--filter` value ends the process with an error message exactly when
    its first word does not resolve to a table, and then writes and logs
    nothing; a first word without a dot gets the message for malformed
    input. Any other end is the uncaught exception of one of the selected
    rows, which never happens under `--no-insert`.
   */
  lemma FilterOutFails<V>(sess: Session<V>, a: Args, flt: string)
    ensures var out := FilterOut(sess, a, flt);
      var target := Resolve(sess, FirstToken(Strip(flt)), InvalidFilter);
      && (out.failure == Some(InvalidFilter) <==> '.' !in FirstToken(Strip(flt)))
      && (out.failure.Some? && !IsException(out.failure.value) <==> target.Err?)
      && (target.Err? ==> out.file == [] && out.log == [] && out.failure == Some(target.failure))
      && (a.noInsert ==> out.file == [] && out.log == [] && (out.failure.None? <==> target.Ok?))
  {
    var stripped := Strip(flt);
    var target := Resolve(sess, FirstToken(stripped), InvalidFilter);
    if target.Ok? && !a.noInsert {
      var (keyname, tablename, table) := target.value;
      TableDumpFails(sess, keyname, tablename, Some(stripped), table.columns, a.quiet);
    }
  }

  /** A `--filter` writes nothing but INSERT lines into the table its first word names: never a DROP or a DDL. */
  lemma FilterWritesOnlyRows<V>(sess: Session<V>, a: Args, flt: string, w: string)
    requires w in FilterOut(sess, a, flt).file
    ensures Resolve(sess, FirstToken(Strip(flt)), InvalidFilter).Ok?
    ensures var target := Resolve(sess, FirstToken(Strip(flt)), InvalidFilter).value;
      IsInsertInto(w, target.0, target.1)
  {
    var stripped := Strip(flt);
    var (keyname, tablename, table) := Resolve(sess, FirstToken(stripped), InvalidFilter).value;
    var intro := Run([], Say(a.quiet, "Exporting data for filter \"" + stripped + "\"\n"), None);
    SeqWrites(intro, TableDump(sess, keyname, tablename, Some(stripped), table.columns, a.quiet), w);
    TableDumpInserts(sess, keyname, tablename, Some(stripped), table.columns, a.quiet, w);
  }

  /** A line of the dump file that holds rows rather than schema. */
  predicate IsInsert(w: string)
  {
    |w| >= 12 && w[..12] == "INSERT INTO "
  }

  lemma InsertIntoIsInsert(w: string, keyname: string, tablename: string)
    requires IsInsertInto(w, keyname, tablename)
    ensures IsInsert(w)
  {
    var head := "INSERT INTO " + QuotedName(keyname, tablename) + " (";
    assert w[..12] == head[..12];
  }

  lemma TableOutNoCreate<V>(sess: Session<V>, a: Args, keyname: string, tablename: string, table: Table, w: string)
    requires a.noCreate && w in TableOut(sess, a, keyname, tablename, table).file
    ensures IsInsert(w)
  {
    var intro := Run([], Say(a.quiet, "Exporting data for column family " + keyname + "." + tablename + "\n"), None);
    var rows := TableDump(sess, keyname, tablename, None, table.columns, a.quiet);
    SeqWrites(intro, rows, w);
    TableDumpInserts(sess, keyname, tablename, None, table.columns, a.quiet, w);
    InsertIntoIsInsert(w, keyname, tablename);
  }

  lemma KeyspaceOutNoCreate<V>(sess: Session<V>, a: Args, keyname: string, w: string)
    requires a.noCreate && w in KeyspaceOut(sess, a, keyname).file
    ensures IsInsert(w)
  {
    var ks := Lookup(sess.keyspaces, keyname).value;
    var outs := TableOuts(sess, a, keyname, ks.tables);
    SeqWrites(Nothing, Chain(outs), w);
    ChainWrites(outs, w);
    var i :| 0 <= i < |outs| && w in outs[i].file;
    TableOutNoCreate(sess, a, keyname, ks.tables[i].0, ks.tables[i].1, w);
  }

  lemma CfOutNoCreate<V>(sess: Session<V>, a: Args, cf: string, w: string)
    requires a.noCreate && w in CfOut(sess, a, cf).file
    ensures IsInsert(w)
  {
    var (keyname, tablename, table) := Resolve(sess, cf, InvalidTableName).value;
    TableOutNoCreate(sess, a, keyname, tablename, table, w);
  }

  /** With `--no-create` the dump file holds INSERT lines only, whatever the scope. */
  lemma NoCreateWritesOnlyRows<V>(sess: Session<V>, a: Args, w: string)
    requires a.noCreate && w in ExportOutcome(sess, a).1.file
    ensures IsInsert(w)
  {
    var keyspacesPart, cfPart, filterPart := KeyspacesPart(sess, a), CfPart(sess, a), FilterPart(sess, a);
    SeqWrites(Seq(keyspacesPart, cfPart), filterPart, w);
    if w in Seq(keyspacesPart, cfPart).file {
      SeqWrites(keyspacesPart, cfPart, w);
      if w in keyspacesPart.file {
        var outs := KeyspaceOuts(sess, a, ScopeKeyspaces(sess, a));
        SeqWrites(Intro(a), Chain(outs), w);
        ChainWrites(outs, w);
        var i :| 0 <= i < |outs| && w in outs[i].file;
        KeyspaceOutNoCreate(sess, a, ScopeKeyspaces(sess, a)[i], w);
      } else {
        var outs := CfOuts(sess, a, a.cf.value);
        ChainWrites(outs, w);
        var i :| 0 <= i < |outs| && w in outs[i].file;
        CfOutNoCreate(sess, a, a.cf.value[i], w);
      }
    } else {
      var outs := FilterOuts(sess, a, a.filter.value);
      ChainWrites(outs, w);
      var i :| 0 <= i < |outs| && w in outs[i].file;
      var target := Resolve(sess, FirstToken(Strip(a.filter.value[i])), InvalidFilter);
      FilterWritesOnlyRows(sess, a, a.filter.value[i], w);
      InsertIntoIsInsert(w, target.value.0, target.value.1);
    }
  }

  lemma KeyspaceOutNoInsert<V>(sess: Session<V>, a: Args, fetch: string -> seq<Row<V>>, keyname: string)
    requires a.noInsert
    ensures KeyspaceOut(sess.(fetch := fetch), a, keyname) == KeyspaceOut(sess, a, keyname)
  {
    var found := Lookup(sess.keyspaces, keyname);
    if found.Some? {
      var tables := found.value.tables;
      assert TableOuts(sess.(fetch := fetch), a, keyname, tables) == TableOuts(sess, a, keyname, tables);
    }
  }

  lemma CfOutsNoInsert<V>(sess: Session<V>, a: Args, fetch: string -> seq<Row<V>>, cfs: seq<string>)
    requires a.noInsert
    ensures CfOuts(sess.(fetch := fetch), a, cfs) == CfOuts(sess, a, cfs)
  {
    var other := sess.(fetch := fetch);
    forall i | 0 <= i < |cfs|
      ensures CfOut(other, a, cfs[i]) == CfOut(sess, a, cfs[i])
    {
      assert Resolve(other, cfs[i], InvalidTableName) == Resolve(sess, cfs[i], InvalidTableName);
    }
  }

  lemma FilterOutsNoInsert<V>(sess: Session<V>, a: Args, fetch: string -> seq<Row<V>>, filters: seq<string>)
    requires a.noInsert
    ensures FilterOuts(sess.(fetch := fetch), a, filters) == FilterOuts(sess, a, filters)
  {
    var other := sess.(fetch := fetch);
    forall i | 0 <= i < |filters|
      ensures FilterOut(other, a, filters[i]) == FilterOut(sess, a, filters[i])
    {
      var name := FirstToken(Strip(filters[i]));
      assert Resolve(other, name, InvalidFilter) == Resolve(sess, name, InvalidFilter);
    }
  }

  /** With `--no-insert` no rows are queried: the export is the same whatever the queries would return. */
  lemma NoInsertQueriesNothing<V>(sess: Session<V>, a: Args, fetch: string -> seq<Row<V>>)
    requires a.noInsert
    ensures ExportOutcome(sess.(fetch := fetch), a) == ExportOutcome(sess, a)
  {
    var other := sess.(fetch := fetch);
    var names := ScopeKeyspaces(sess, a);
    forall i | 0 <= i < |names|
      ensures KeyspaceOut(other, a, names[i]) == KeyspaceOut(sess, a, names[i])
    {
      KeyspaceOutNoInsert(sess, a, fetch, names[i]);
    }
    assert KeyspaceOuts(other, a, names) == KeyspaceOuts(sess, a, names);
    assert KeyspacesPart(other, a) == KeyspacesPart(sess, a);
    if a.cf.Some? {
      CfOutsNoInsert(sess, a, fetch, a.cf.value);
    }
    if a.filter.Some? {
      FilterOutsNoInsert(sess, a, fetch, a.filter.value);
    }
  }

  // ---------------------------------------------------------------------------
  // the export, step by step

  /** The body of the table loop of `export_data` (shared by the keyspace and `--cf` scopes). */
  method ExportTable<V>(sess: Session<V>, a: Args, keyname: string, tablename: string, table: Table) returns (r: Run)
    ensures r == TableOut(sess, a, keyname, tablename, table)
  {
    r := Nothing;
    if table.cqlCompatible {
      if !a.noCreate {
        r := Run([DropTable(keyname, tablename), table.ddl + ";\n"],
                 Say(a.quiet, "Exporting schema for column family " + keyname + "." + tablename + "\n"), None);
      }
      if !a.noInsert {
        var intro := Run([], Say(a.quiet, "Exporting data for column family " + keyname + "." + tablename + "\n"), None);
        var rows := TableToCql(sess, keyname, tablename, None, table.columns, a.quiet);
        SeqAssoc(r, intro, rows);
        r := Seq(Seq(r, intro), rows);
      } else {
        SeqNothing(r);
      }
    }
  }

  /** One keyspace: its schema, then its tables in metadata order. */
  method ExportKeyspace<V>(sess: Session<V>, a: Args, keyname: string) returns (r: Run)
    ensures r == KeyspaceOut(sess, a, keyname)
  {
    var found := Lookup(sess.keyspaces, keyname);
    if found.None? {
      return Stop(KeyspaceNotFound(keyname));
    }
    var ks := found.value;
    r := Nothing;
    if !a.noCreate {
      r := Run([DropKeyspace(keyname), ks.ddl + "\n"], Say(a.quiet, "Exporting schema for keyspace " + keyname + "\n"), None);
    }
    ghost var schema := r;
    ghost var outs := TableOuts(sess, a, keyname, ks.tables);
    var i := 0;
    while i < |ks.tables|
      invariant 0 <= i <= |ks.tables| && r.failure.None?
      invariant Seq(schema, Chain(outs)) == Seq(r, Chain(outs[i..]))
    {
      var (tablename, table) := ks.tables[i];
      var out := ExportTable(sess, a, keyname, tablename, table);
      assert out == outs[i];
      ChainNext(r, outs, i);
      r := Seq(r, out);
      if r.failure.Some? {
        return;
      }
      i := i + 1;
    }
    ChainDone(r, outs);
  }

  /** One `--cf` value. */
  method ExportCf<V>(sess: Session<V>, a: Args, cf: string) returns (r: Run)
    ensures r == CfOut(sess, a, cf)
  {
    var target := Resolve(sess, cf, InvalidTableName);
    if target.Err? {
      return Stop(target.failure);
    }
    var (keyname, tablename, table) := target.value;
    r := ExportTable(sess, a, keyname, tablename, table);
  }

  /** One `--filter` value. */
  method ExportFilter<V>(sess: Session<V>, a: Args, flt: string) returns (r: Run)
    ensures r == FilterOut(sess, a, flt)
  {
    var stripped := Strip(flt);
    var cf := FirstToken(stripped);
    var target := Resolve(sess, cf, InvalidFilter);
    if target.Err? {
      return Stop(target.failure);
    }
    var (keyname, tablename, table) := target.value;
    r := Nothing;
    if !a.noInsert {
      var intro := Run([], Say(a.quiet, "Exporting data for filter \"" + stripped + "\"\n"), None);
      var rows := TableToCql(sess, keyname, tablename, Some(stripped), table.columns, a.quiet);
      r := Seq(intro, rows);
    }
  }

  /** `export_data`. */
  method ExportData<V>(sess: Session<V>, a: Args) returns (fileOpened: bool, r: Run)
    ensures (fileOpened, r) == ExportOutcome(sess, a)
  {
    var selectionOptions := 0;
    if a.keyspace.Some? {
      selectionOptions := selectionOptions + 1;
    }
    if a.cf.Some? {
      selectionOptions := selectionOptions + 1;
    }
    if a.filter.Some? {
      selectionOptions := selectionOptions + 1;
    }
    if selectionOptions > 1 {
      return false, Stop(AmbiguousSelection);
    }
    fileOpened := true;

    r := Nothing;
    var keyspaces: Option<seq<string>> := None;
    if selectionOptions == 0 {
      r := Run([], Say(a.quiet, "Exporting all keyspaces\n"), None);
      var all := ListUserKeyspaces(sess);
      keyspaces := Some(all);
    }
    if a.keyspace.Some? {
      keyspaces := a.keyspace;
    }
    assert r == Intro(a);

    var names := if keyspaces.Some? then keyspaces.value else [];
    assert names == ScopeKeyspaces(sess, a);
    r := ExportKeyspaces(sess, a, names, r);
    if r.failure.Some? {
      return;
    }

    if a.cf.Some? {
      r := ExportCfs(sess, a, a.cf.value, r);
      if r.failure.Some? {
        return;
      }
    } else {
      SeqNothing(r);
    }

    if a.filter.Some? {
      r := ExportFilters(sess, a, a.filter.value, r);
    } else {
      SeqNothing(r);
    }
  }

  /** The keyspace loop of `export_data`, after what was already done. */
  method ExportKeyspaces<V>(sess: Session<V>, a: Args, names: seq<string>, done: Run) returns (r: Run)
    requires done.failure.None?
    ensures r == Seq(done, Chain(KeyspaceOuts(sess, a, names)))
  {
    ghost var outs := KeyspaceOuts(sess, a, names);
    r := done;
    var i := 0;
    while i < |names|
      invariant 0 <= i <= |names| && r.failure.None?
      invariant Seq(done, Chain(outs)) == Seq(r, Chain(outs[i..]))
    {
      var out := ExportKeyspace(sess, a, names[i]);
      ChainNext(r, outs, i);
      r := Seq(r, out);
      if r.failure.Some? {
        return;
      }
      i := i + 1;
    }
    ChainDone(r, outs);
  }

  /** The `--cf` loop of `export_data`, after what was already done. */
  method ExportCfs<V>(sess: Session<V>, a: Args, cfs: seq<string>, done: Run) returns (r: Run)
    requires done.failure.None?
    ensures r == Seq(done, Chain(CfOuts(sess, a, cfs)))
  {
    ghost var outs := CfOuts(sess, a, cfs);
    r := done;
    var i := 0;
    while i < |cfs|
      invariant 0 <= i <= |cfs| && r.failure.None?
      invariant Seq(done, Chain(outs)) == Seq(r, Chain(outs[i..]))
    {
      var out := ExportCf(sess, a, cfs[i]);
      ChainNext(r, outs, i);
      r := Seq(r, out);
      if r.failure.Some? {
        return;
      }
      i := i + 1;
    }
    ChainDone(r, outs);
  }

  /** The `--filter` loop of `export_data`, after what was already done. */
  method ExportFilters<V>(sess: Session<V>, a: Args, filters: seq<string>, done: Run) returns (r: Run)
    requires done.failure.None?
    ensures r == Seq(done, Chain(FilterOuts(sess, a, filters)))
  {
    ghost var outs := FilterOuts(sess, a, filters);
    r := done;
    var i := 0;
    while i < |filters|
      invariant 0 <= i <= |filters| && r.failure.None?
      invariant Seq(done, Chain(outs)) == Seq(r, Chain(outs[i..]))
    {
      var out := ExportFilter(sess, a, filters[i]);
      ChainNext(r, outs, i);
      r := Seq(r, out);
      if r.failure.Some? {
        return;
      }
      i := i + 1;
    }
    ChainDone(r, outs);
  }
}
