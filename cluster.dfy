/**
  What the dump tool reads from the cluster through the driver: keyspace and
  table metadata, the rows a query returns, and the driver's two value
  encoders. The driver itself is not modelled: the rows of a query and the
  encoders are functions the session carries.
 */
module Cluster {
  import opened Effects

  /** A row as the ordered-dict row factory gives it: column names and values, in column order. */
  type Row<V> = seq<(string, V)>

  /**
    Table metadata: the DDL `as_cql_query()` renders, whether the table is
    CQL-compatible, and each column's declared type name.
   */
  datatype Table = Table(ddl: string, cqlCompatible: bool, columns: map<string, string>)

  /** Keyspace metadata: its DDL and its tables in the order the metadata lists them. */
  datatype Keyspace = Keyspace(ddl: string, tables: seq<(string, Table)>)

  /**
    A connected session: the keyspaces in the order the metadata lists them,
    the rows `session.execute(query)` returns, and the encoders
    `cql_encode_bytes` and `cql_encode_all_types`.
   */
  datatype Session<!V> = Session(
    keyspaces: seq<(string, Keyspace)>,
    fetch: string -> seq<Row<V>>,
    encodeBytes: V -> string,
    encodeAll: V -> string)

  /** `d.get(name)` on metadata listed as name/value pairs: the entry with that name, if any. */
  function Lookup<X>(entries: seq<(string, X)>, name: string): (r: Option<X>)
    ensures r.None? <==> forall i :: 0 <= i < |entries| ==> entries[i].0 != name
    ensures r.Some? ==> exists i :: 0 <= i < |entries| && entries[i].0 == name && entries[i].1 == r.value
  {
    if |entries| == 0 then None
    else if entries[0].0 == name then Some(entries[0].1)
    else
      var r := Lookup(entries[1..], name);
      assert forall i :: 1 <= i < |entries| ==> entries[i] == entries[1..][i - 1];
      r
  }

  /** The names of metadata entries, in order: `d.keys()`. */
  function Names<X>(entries: seq<(string, X)>): (names: seq<string>)
    ensures |names| == |entries|
    ensures forall i :: 0 <= i < |entries| ==> names[i] == entries[i].0
  {
    seq(|entries|, i requires 0 <= i < |entries| => entries[i].0)
  }
}
