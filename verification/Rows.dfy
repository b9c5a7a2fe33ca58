/** Version-guarded rows, as the Postgres repositories save them. */
module Rows {
  import opened Shared

  datatype Row<+T> = Row(content: T, version: nat)

  type Table<K, +V> = map<K, Row<V>>

  /**
   The guarded upsert: a new id is inserted with the aggregate's own version; an existing row is replaced only while
   it is still at the version the aggregate was read at, and its version goes up by one.
   */
  function Save<K, V>(t: Table<K, V>, id: K, content: V, version: nat): Result<Row<V>> {
    if id !in t then Ok(Row(content, version))
    else if t[id].version == version then Ok(Row(content, version + 1))
    else Err(ConcurrentModification)
  }

  /** The tables' contents without their versions. */
  function Contents<K, V>(t: Table<K, V>): map<K, V> {
    map k | k in t :: t[k].content
  }

  lemma ContentsWritten<K, V>(t: Table<K, V>, k: K, row: Row<V>)
    ensures Contents(t + map[k := row]) == Contents(t)[k := row.content]
    ensures k in t ==> k in Contents(t) && Contents(t)[k] == t[k].content
  {
  }

  /** Contents row by row, before and after some rows are written. */
  lemma ContentsRead<K, V>(t: Table<K, V>, w: Table<K, V>)
    ensures Contents(t).Keys == t.Keys && (forall k :: k in t ==> Contents(t)[k] == t[k].content)
    ensures Contents(t + w).Keys == t.Keys + w.Keys
    ensures forall k :: k in t || k in w ==> Contents(t + w)[k] == if k in w then w[k].content else t[k].content
    ensures w == map[] ==> Contents(t + w) == Contents(t)
  {
  }

  /** A row as a reader once saw it: the table has it at that version or a later one, unchanged if at that version. */
  ghost predicate Seen<K, V>(t: Table<K, V>, id: K, row: Row<V>) {
    && id in t
    && (t[id] == row || t[id].version > row.version)
  }

  /** The table moved on: rows stay or are replaced at a higher version. */
  ghost predicate Ahead<K, V>(t: Table<K, V>, t': Table<K, V>) {
    forall k :: k in t ==> Seen(t', k, t[k])
  }

  /** What was seen before stays seen, however far the table moves on. */
  lemma SeenStays<K, V>(t: Table<K, V>, t': Table<K, V>, id: K, row: Row<V>)
    requires Seen(t, id, row) && Ahead(t, t')
    ensures Seen(t', id, row)
  {
  }

  /** A guarded save of a row that was read succeeds only on the very content that was read. */
  lemma GuardedSaveIsAtomic<K, V>(t: Table<K, V>, id: K, row: Row<V>, content: V)
    requires Seen(t, id, row)
    ensures Save(t, id, content, row.version) ==
            if t[id] == row then Ok(Row(content, row.version + 1)) else Err(ConcurrentModification)
  {
  }

  /** A repository over one table, changed in place. */
  class RowStore<K(==), V> {
    var rows: Table<K, V>

    constructor ()
      ensures rows == map[]
    {
      rows := map[];
    }

    method Find(id: K) returns (row: Option<Row<V>>)
      ensures row == if id in rows then Some(rows[id]) else None
    {
      row := if id in rows then Some(rows[id]) else None;
    }

    /** The upsert and its affected-row count: zero rows means another writer got there first. */
    method SaveRow(id: K, content: V, version: nat) returns (r: Outcome)
      modifies this
      ensures match Save(old(rows), id, content, version)
              case Ok(row) => r == Pass && rows == old(rows)[id := row]
              case Err(e) => r == Fail(e) && rows == old(rows)
    {
      var affected := 0;
      if id !in rows {
        rows := rows[id := Row(content, version)];
        affected := 1;
      } else if rows[id].version == version {
        rows := rows[id := Row(content, rows[id].version + 1)];
        affected := 1;
      }
      if affected == 0 {
        return Fail(ConcurrentModification);
      }
      return Pass;
    }
  }
}
