# cassandradump, modelled in Dafny

cassandradump dumps the keyspaces and tables of a Cassandra cluster to a file
of CQL statements, and replays such a file against a cluster. This project
models the parts of `cassandradump.py` that are plain sequential logic:

- the checks `main` makes on the command line and its choice between import
  and export;
- `export_data`: the choice of scope (`--keyspace`, `--cf`, `--filter`, or all
  user keyspaces), the parsing of `keyspace.table` names and of filters, and
  which DROP, DDL and INSERT pieces are written, depending on `--no-create`,
  `--no-insert` and whether a table is CQL-compatible;
- `table_to_cqlfile`: the SELECT query, the choice of value encoder per
  column, the `INSERT` line of each row and the progress dots;
- `import_data`: every line of the file executed once, in order, with the
  same progress dots.

The driver is not modelled. A `Session` carries three things as plain
values: the cluster metadata (keyspaces and tables, in metadata order, with
their DDL text), the rows a query returns (a function from query text to
rows), and the two value encoders (functions from a value to its CQL text).
What the tool writes is not performed as I/O. A `Run` records it instead:
the pieces written to the dump file, the messages logged to standard output,
and the reason the process ended early (`sys.exit(1)` or an uncaught
exception). Steps are composed so that nothing after a failure happens.

Modules, one per file:

| file | module | models |
|---|---|---|
| `text.dfy` | `Text` | `str.join`, `str.split`, `str.strip`, reading a file line by line |
| `effects.dfy` | `Effects` | failures and their messages, `Run`, `log_quiet`, progress dots |
| `options.dfy` | `Options` | the parsed command line and the checks of `main` |
| `cluster.dfy` | `Cluster` | metadata, rows and encoders reached through the session |
| `table_dump.dfy` | `TableExport` | `table_to_cqlfile` |
| `replay.dfy` | `Replay` | `import_data` |
| `export.dfy` | `Exporter` | `export_data`, `get_keyspace_or_fail`, `get_column_family_or_fail` |
| `tool.dfy` | `Tool` | `main` after argument parsing |

Each loop of the source is a method with a loop, proved equal to a function
that states the whole outcome. Separate lemmas prove what that outcome means.

The model follows the code. The code writes no counter-table `UPDATE`
statements and does not leave NULL columns out. It puts no `;` at the end of `INSERT` lines and
does not quote column names. Its import runs no concurrent batches: it
executes one line at a time.

## Model

| member | source | states |
|---|---|---|
| Text.Split | cassandradump.py:151-152 | `split` on one character gives at least one piece, and no piece holds the separator |
| Text.JoinSplit | cassandradump.py:151-152 | joining the pieces of a split with the separator gives back the original string |
| Text.SplitJoin | cassandradump.py:151-152 | splitting a join of separator-free pieces gives back those pieces |
| Text.SplitHead | cassandradump.py:151-152 | the first piece is the prefix before the first separator (all of the string when there is none); the later pieces are the split of what follows that separator |
| Text.Strip | cassandradump.py:169 | the result is the input with its longest leading and trailing runs of Python whitespace removed; it is empty or starts and ends with a non-space |
| Text.Lines | cassandradump.py:61 | the lines a file is read as join back to the file; each line but the last ends with its only newline, and the last may lack one |
| Text.LinesOfConcat | cassandradump.py:61 | a file written as complete lines reads back as exactly those lines |
| Text.Join | cassandradump.py:45 | `sep.join(parts)`: the parts with the separator between each two; it has no contract of its own, and `JoinSplit` and `SplitJoin` prove it the inverse of `Split` |
| Text.IsSpace | cassandradump.py:169 | the six ASCII whitespace characters `strip()` removes from a byte string: space, tab, newline, carriage return, vertical tab and form feed |
| Text.JoinAvoids | cassandradump.py:45 | a character absent from the separator and from every part is absent from their join |
| Effects.ExitMessage | cassandradump.py:244-255 | the text written to standard error before `sys.exit(1)`, one per failure: the three checks of `main` (lines 245, 249, 254) and those of `export_data` and its lookups (lines 79, 89, 108, 148, 173), naming the keyspace or table not found; empty for an uncaught exception |
| Effects.Say | cassandradump.py:19-22 | `log_quiet`: the message is the one log entry unless `--quiet`, then nothing |
| Effects.Tick | cassandradump.py:49-50 | after the `count`-th row or line, a dot exactly when `count` is a multiple of `DOT_EVERY` (also lines 66-67); `DotsStep` and `ProgressShape` state what the ticks add up to |
| Effects.Finish | cassandradump.py:52-53 | after the loop, a newline exactly when the count is above `DOT_EVERY` (also lines 69-70); `ProgressShape` states it with the dots |
| Effects.DotsStep | cassandradump.py:47-50 | handling one more row or line adds one dot exactly when the new count is a multiple of `DOT_EVERY` |
| Effects.ProgressShape | cassandradump.py:49-53 | after n rows: n / 1000 dots, then a newline only when n > 1000, so exactly 1000 rows give one dot and no newline; nothing when quiet |
| Options.Command | cassandradump.py:244-262 | the run proceeds exactly when one of the two files is given and a protocol version comes with a username and a password; each failed check gives its own failure; an empty file name does nothing |
| Options.Selections | cassandradump.py:96-105 | the count is 0 exactly when no scope option is given, and above 1 exactly when two of them are |
| Cluster.Lookup | cassandradump.py:75-92 | a name is found exactly when some entry carries it, and what is found belongs to an entry with that name |
| Cluster.Names | cassandradump.py:118 | one name per entry, in metadata order |
| TableExport.SelectQuery | cassandradump.py:26-29 | the query is `SELECT * FROM ` followed by the quoted table name, or by the filter text unchanged |
| TableExport.Encode | cassandradump.py:38-41 | a column declared `blob` goes through the bytes encoder and every other column through the generic one; `EncodeValues` and `RowLineColumns` state this for every column of a row |
| TableExport.EncodeValues | cassandradump.py:36-43 | the encoding succeeds exactly when every column of the row is known to the table; then there is one value per column, in row order, from the bytes encoder for `blob` columns and the generic encoder otherwise; a failure names an unknown column of the row |
| TableExport.EncodeRow | cassandradump.py:36-43 | the loop over a row's columns computes the encoding `EncodeValues` describes, failing as it does |
| TableExport.WriteRow | cassandradump.py:36-45 | the body of the row loop produces the row's line, or the exception its columns raise |
| TableExport.TableToCql | cassandradump.py:25-53 | the row loop writes, logs and fails exactly as `TableDump` describes |
| TableExport.TableDumpOutcome | cassandradump.py:33-53 | when the first n rows have lines and row n (if any) fails: exactly those n lines are written, in row order; with no failure the log is the dots and the closing newline, otherwise the dots so far and the row's failure |
| TableExport.RowsDumped | cassandradump.py:33-50 | dumping n rows that all have lines writes those lines in order and logs n / 1000 dots |
| TableExport.RowLineColumns | cassandradump.py:36-45 | a row gets a line exactly when all its columns are known and their names are ASCII; the line is `INSERT INTO "ks"."t" (names) VALUES (values)` with one encoded value per column, in the same order as the names |
| TableExport.IsAscii | cassandradump.py:45 | the joined column names pass `encode('ascii')` exactly when every character is below 128 |
| TableExport.InsertLine | cassandradump.py:45 | the line of a row starts `INSERT INTO "ks"."t" (` for the table it inserts into and ends in a newline |
| TableExport.RowLine | cassandradump.py:36-45 | a row's line, when it has one, inserts into the dumped table; when it has none, the failure is an uncaught exception (`KeyError` or `UnicodeEncodeError`), never an error message |
| TableExport.RowStep | cassandradump.py:36-50 | one pass of the row loop: the row's line and, at a multiple of `DOT_EVERY`, a dot, or the exception that ends the process; `NextRow` and `RowsDumped` state what the passes add up to |
| TableExport.TableDump | cassandradump.py:25-53 | the whole of `table_to_cqlfile`: the steps of the selected rows in order, stopping at the first row without a line, then the closing newline; `TableDumpOutcome` and `TableDumpFails` state what it writes and how it ends |
| TableExport.TableDumpFails | cassandradump.py:35-45 | a table dump ends the process exactly when one of its selected rows has no line, and then always with an uncaught exception |
| TableExport.TableDumpLineOfRow | cassandradump.py:33-45 | every line a table dump writes is the line of one of the selected rows |
| TableExport.TableDumpInserts | cassandradump.py:45 | every line a table dump writes starts `INSERT INTO "ks"."t" (` |
| TableExport.InsertLineIsLine | cassandradump.py:45 | a row's line whose names and values hold no newline is one complete line: it ends in its only newline |
| Replay.ImportData | cassandradump.py:56-72 | the statements executed are the lines of the file, each once, in file order, and together they are the whole file; the log is the dots and the closing newline for that many lines |
| Replay.TableDumpReplays | cassandradump.py:61-62 | reading back a table dump whose names and values hold no newline gives exactly the lines it wrote, so importing it executes each INSERT once, in order |
| Replay.RowLineIsLine | cassandradump.py:45 | the line of a row whose table name, column names and encoded values hold no newline is one complete line |
| Replay.InnerNewlineSplits | cassandradump.py:61 | a text with a newline before its last character reads back as more than one line |
| Replay.InsertLineValueNewline | cassandradump.py:45 | a line whose one value holds a newline has a newline before its end |
| Replay.NewlineSessionDump | cassandradump.py:25-53 | the dump of a table with one row, whose text column holds `"a\nb"`, is exactly that row's one line |
| Replay.NewlineValueSplitsLine | cassandradump.py:45-62 | that one-line dump reads back as more than one line, so an import executes the pieces of the statement separately |
| Exporter.IsSystemKeyspace | cassandradump.py:119 | the two keyspaces "export all" skips: `system` and `system_traces` |
| Exporter.UserKeyspaces | cassandradump.py:115-120 | a name is kept exactly when it is listed and is neither `system` nor `system_traces` |
| Exporter.UserKeyspacesAppend | cassandradump.py:118-120 | the user keyspaces of two lists in a row are those of the first and then those of the second, so metadata order is kept |
| Exporter.UserKeyspacesAll | cassandradump.py:118-120 | a list naming no system keyspace is kept whole, in order |
| Exporter.ListUserKeyspaces | cassandradump.py:115-120 | the collecting loop yields the user keyspaces of the metadata, in metadata order |
| Exporter.ParseTarget | cassandradump.py:147-152 | no result exactly when the name has no dot; otherwise the keyspace is the dot-free text before the first dot, and the table the dot-free text after it, up to the next dot or the end |
| Exporter.ParseTargetOf | cassandradump.py:151-152 | `k.t`, whatever follows a further dot, parses back to `k` and `t` when they hold no dot |
| Exporter.FirstToken | cassandradump.py:170 | the first word holds no space, is a prefix of the input, and is followed by a space or the end |
| Exporter.FirstTokenOf | cassandradump.py:170 | a space-free word followed by a space or nothing is found again as the first word |
| Exporter.Resolve | cassandradump.py:147-155 | a name without a dot is malformed; with a dot, it fails with the keyspace's name exactly when the metadata lists no such keyspace, with the table's name exactly when the keyspace is listed and its table is not, and succeeds exactly when both are listed, giving the parsed names and the table the metadata lists under them |
| Exporter.CombinedScopesRejected | cassandradump.py:96-111 | the dump file is left unopened exactly when two of `--keyspace`, `--cf` and `--filter` are given; the process then ends with its message and nothing written or logged |
| Exporter.ExportScopes | cassandradump.py:113-189 | with no scope option: the notice, then every user keyspace in metadata order; with one option: only the keyspaces, the tables or the filters it lists, in the order given |
| Exporter.TableOutShape | cassandradump.py:157-165 | an incompatible table adds nothing; a compatible one writes DROP TABLE and its DDL unless `--no-create`, then its rows unless `--no-insert`, and fails only as its rows do |
| Exporter.KeyspaceOutShape | cassandradump.py:125-143 | a keyspace absent from the metadata ends the process with its message and writes nothing; otherwise it writes exactly `DROP KEYSPACE IF EXISTS "ks";` and its DDL (unless `--no-create`) followed by the output of its tables, and fails as they do |
| Exporter.DropKeyspace | cassandradump.py:131 | the text `DROP KEYSPACE IF EXISTS "ks";` and a newline; `KeyspaceOutShape` states where it is written |
| Exporter.DropTable | cassandradump.py:138 | the text `DROP TABLE IF EXISTS "ks"."t";` and a newline, as also at line 160; `TableOutShape` states where it is written |
| Exporter.ScopeKeyspaces | cassandradump.py:113-123 | the keyspaces exported: every user keyspace when no scope option is given, those of `--keyspace` when it is, none otherwise; `ExportScopes` states the export of each case |
| Exporter.Intro | cassandradump.py:115-116 | the notice `Exporting all keyspaces` exactly when no scope option is given, unless quiet; `ExportScopes` states it in front of the keyspaces |
| Exporter.TableOut | cassandradump.py:134-143 | one table of the scope: DROP TABLE and DDL unless `--no-create`, its dump unless `--no-insert`, nothing for an incompatible table; `TableOutShape` and `TableOutFails` state its output |
| Exporter.KeyspaceOut | cassandradump.py:126-143 | one keyspace of the scope: the lookup, DROP KEYSPACE and DDL unless `--no-create`, then each table in metadata order; `KeyspaceOutShape` and `KeyspaceOutFails` state its output |
| Exporter.CfOut | cassandradump.py:146-165 | one `--cf` value: its lookup, then the table as in a keyspace export; `CfOutFails` states how it ends |
| Exporter.FilterOut | cassandradump.py:168-189 | one `--filter` value: the lookup of its first word, then the rows it selects, never schema; `FilterWritesOnlyRows` and `FilterOutFails` state its output |
| Exporter.ExportOutcome | cassandradump.py:95-191 | the whole of `export_data`: whether the file is opened and what is written, logged and how it ends; `CombinedScopesRejected` and `ExportScopes` state it for each choice of scope options |
| Exporter.TableOutFails | cassandradump.py:134-143 | a table ends the process only while its rows are dumped (compatible, without `--no-insert`), exactly when one of them has no line, and then with an uncaught exception |
| Exporter.KeyspaceOutFails | cassandradump.py:126-143 | a keyspace ends the process with its not-found message exactly when the metadata does not list it; a listed one ends it exactly when one of its tables does, with an uncaught exception |
| Exporter.CfOutFails | cassandradump.py:147-155 | a `--cf` value ends the process with an error message exactly when it does not resolve to a table, writing and logging nothing; the malformed-name message exactly when it has no dot; any other end is an uncaught exception |
| Exporter.FilterOutFails | cassandradump.py:169-189 | a `--filter` value ends the process with an error message exactly when its first word does not resolve, writing and logging nothing; the malformed-input message exactly when that word has no dot; under `--no-insert` it writes and logs nothing and ends early exactly when the lookup fails |
| Exporter.FilterWritesOnlyRows | cassandradump.py:167-189 | a filter writes only `INSERT` lines into the table named by its first word, never DROP or DDL, and only once that table was found |
| Exporter.NoCreateWritesOnlyRows | cassandradump.py:129-165 | with `--no-create` every piece of the dump file is an `INSERT` line, whatever the scope |
| Exporter.NoInsertQueriesNothing | cassandradump.py:163-189 | with `--no-insert` the export does not depend on the rows any query returns |
| Exporter.ExportTable | cassandradump.py:157-165 | the per-table body writes, logs and fails as `TableOut` describes |
| Exporter.ExportKeyspace | cassandradump.py:126-143 | the per-keyspace body, with its loop over tables, is `KeyspaceOut` |
| Exporter.ExportKeyspaces | cassandradump.py:125-143 | the keyspace loop runs each keyspace's output in order, up to the first failure |
| Exporter.ExportCf | cassandradump.py:147-165 | the per-`--cf` body is `CfOut` |
| Exporter.ExportCfs | cassandradump.py:145-165 | the `--cf` loop runs each table's output in order, up to the first failure |
| Exporter.ExportFilter | cassandradump.py:169-189 | the per-`--filter` body is `FilterOut` |
| Exporter.ExportFilters | cassandradump.py:167-189 | the `--filter` loop runs each filter's output in order, up to the first failure |
| Exporter.ExportData | cassandradump.py:95-191 | `export_data` opens the file, writes, logs and fails as `ExportOutcome` describes |
| Tool.ToolOutcome | cassandradump.py:244-262 | the whole of `main` after parsing: the checks, then the import or the export; `RejectedBeforeConnecting`, `ImportReplaysFile`, `ExportOpensFile` and `EmptyFileNameIdles` state what each case does |
| Tool.RunTool | cassandradump.py:244-262 | `main` after parsing behaves as `ToolOutcome` describes |
| Tool.RejectedBeforeConnecting | cassandradump.py:244-257 | the cluster is contacted exactly when the checks pass; a failed check ends the process with its non-empty message, having executed, written and logged nothing |
| Tool.ImportReplaysFile | cassandradump.py:259-260 | an import executes exactly the lines its file is read as, each once, in file order (each but the last ends in its only newline, and together they are the file), logs their progress dots, writes no dump and never fails |
| Tool.ExportOpensFile | cassandradump.py:261-262 | an export executes nothing and opens the named file exactly when at most one scope option is given; what it writes is the export of that scope |
| Tool.EmptyFileNameIdles | cassandradump.py:259-262 | an empty import or export file name passes the checks and then does nothing |

## Left out

- Connecting to the cluster is left out: `setup_cluster`, `cleanup_cluster` and `getCredential`, the host, the authentication provider and the load-balancing policy. `Tool.ToolOutcome` records only whether the connection is reached.
- A protocol version other than `1` or `2` with credentials leaves the cluster unset in `setup_cluster`, so the process crashes. Connecting is outside the model, so this crash is too.
- The driver's value encoders (`cql_encode_bytes`, `cql_encode_all_types`), `as_cql_query` and the metadata lookups are foreign library code. They are parameters: functions and strings carried by the session. The model states how a line is assembled from their results, not how a value is encoded.
- Query paging (`FETCH_SIZE`), the request timeout and driver errors raised by `session.execute` are not modelled. Every query returns its rows and every imported statement succeeds.
- File handling: opening, writing and closing the dump or import file, and flushing standard output. What is written is a sequence of pieces, and the import file's contents are a parameter of `Tool.ToolOutcome`.
- `argparse` is not modelled. `Options.Args` is its result.
- Python's traceback for an uncaught exception is not modelled. The exception is a failure with an empty message.
- Python 2 string handling: values and names are sequences of characters. Only the ASCII check on the joined column names is modelled. Mixing byte and unicode strings in a line and its encoding errors are not.
- The check `if not tableval` after a filter's table lookup is not modelled separately. `get_column_family_or_fail` has already ended the process for a missing table, so the check never fires.
- Metadata lookups return the first entry with the name. The metadata is a dictionary, so names are unique and this is the entry `get` returns.
- TableExport.EncodeValues: does not state which unknown column the failure names when several are unknown (it is the first in row order).
- Replay.TableDumpReplays: assumes that no name or encoded value holds a newline. Values are not escaped, so a text value with a newline splits its `INSERT` across lines, and an import executes the pieces separately; `Replay.NewlineValueSplitsLine` proves this for a one-row dump.
- Replay.TableDumpReplays: covers the `INSERT` lines of a table dump only. The DDL text of keyspaces and tables comes from the driver, so whether it reads back as single lines is not known to the model.
