/** The PostgreSQL `images` table (`id SERIAL PRIMARY KEY, url TEXT UNIQUE NOT NULL, file_path TEXT NOT
    NULL`) and `store_image_record`, an insert-or-get: `INSERT … ON CONFLICT (url) DO NOTHING RETURNING
    id`, then, when no row came back, `SELECT id FROM images WHERE url = $1`. */
module Records {
  import opened Wrappers

  /** One row, keyed by its URL in the table. The `downloaded_at` timestamp is not modelled. */
  datatype Row = Row(id: nat, filePath: string)

  /** The rows by URL (the UNIQUE constraint makes the URL a key) and the next value of the SERIAL
      sequence. */
  datatype Table = Table(rows: map<string, Row>, nextId: nat)

  /** How the database behaves during one call: normally; with a query raising (connection lost,
      pool closed); or with another session deleting the conflicting row between the INSERT and the
      SELECT, the one way both queries can come back empty. */
  datatype DbEnv = Healthy | QueryFails | RowDeleted

  /** A newly created table: no rows, and the sequence starts at 1. */
  function EmptyTable(): (t: Table)
    ensures WellFormed(t) && t.rows == map[]
  {
    Table(map[], 1)
  }

  /** What the schema guarantees: ids are positive SERIAL values already handed out, and no two rows
      share an id. */
  predicate WellFormed(t: Table)
  {
    && t.nextId >= 1
    && (forall u :: u in t.rows ==> 1 <= t.rows[u].id < t.nextId)
    && (forall u, v :: u in t.rows && v in t.rows && u != v ==> t.rows[u].id != t.rows[v].id)
  }

  /** `INSERT INTO images (url, file_path) VALUES ($1, $2) ON CONFLICT (url) DO NOTHING RETURNING id`.
      PostgreSQL draws the SERIAL default before it detects the conflict, so the sequence advances
      either way; the new row's id comes back only when there was no conflict. */
  function Insert(t: Table, url: string, path: string): (Table, Option<nat>)
  {
    if url in t.rows then (Table(t.rows, t.nextId + 1), None)
    else (Table(t.rows[url := Row(t.nextId, path)], t.nextId + 1), Some(t.nextId))
  }

  /** `SELECT id FROM images WHERE url = $1`. */
  function Select(t: Table, url: string): Option<nat>
  {
    if url in t.rows then Some(t.rows[url].id) else None
  }

  /** `store_image_record(url, file_path)`: the new table and the id, `None`, or the error it raises.
      Both versions of the service behave alike: the newer lets the error escape, the legacy one logs
      and re-raises it. */
  function StoreRecord(t: Table, url: string, path: string, env: DbEnv): (Table, Result<Option<nat>, string>)
  {
    if env == QueryFails then (t, Failure("database error"))
    else
      var (t1, inserted) := Insert(t, url, path);
      if inserted.Some? then (t1, Success(inserted))
      else if env == RowDeleted then
        var t2 := Table(t1.rows - {url}, t1.nextId);
        (t2, Success(Select(t2, url)))
      else (t1, Success(Select(t1, url)))
  }

  /** A new URL gets a fresh row holding its path, and that row's id is returned. */
  lemma NewUrlInserted(t: Table, url: string, path: string, env: DbEnv)
    requires WellFormed(t) && url !in t.rows && env != QueryFails
    ensures var (t', r) := StoreRecord(t, url, path, env);
            && r == Success(Some(t.nextId))
            && t'.rows == t.rows[url := Row(t.nextId, path)]
            && forall u :: u in t.rows ==> t.rows[u].id != t.nextId
  {
  }

  /** A URL already present adds no row, keeps its stored path and returns its existing id. */
  lemma ExistingUrlKept(t: Table, url: string, path: string)
    requires url in t.rows
    ensures var (t', r) := StoreRecord(t, url, path, Healthy);
            t'.rows == t.rows && r == Success(Some(t.rows[url].id))
  {
  }

  /** Storing the same URL twice returns the same id both times, even with different paths. */
  lemma StoreTwiceSameId(t: Table, url: string, p1: string, p2: string)
    ensures var (t1, r1) := StoreRecord(t, url, p1, Healthy);
            var (t2, r2) := StoreRecord(t1, url, p2, Healthy);
            r1 == r2 && r1.Success? && r1.value.Some? && t2.rows == t1.rows
  {
  }

  /** `None` comes back only when neither query yields a row, which needs the row to vanish between
      them; and an error leaves the table as it was. */
  lemma NoneOnlyWhenRowVanished(t: Table, url: string, path: string, env: DbEnv)
    ensures var (t', r) := StoreRecord(t, url, path, env);
            && (r == Success(None) <==> url in t.rows && env == RowDeleted)
            && (r.Failure? <==> env == QueryFails)
            && (r.Failure? ==> t' == t)
  {
  }

  /** The schema's invariant holds after every call, so ids stay positive and distinct per URL. */
  lemma StorePreservesWellFormed(t: Table, url: string, path: string, env: DbEnv)
    requires WellFormed(t)
    ensures WellFormed(StoreRecord(t, url, path, env).0)
  {
  }

  /** Every id returned is positive (so the caller's `if image_id:` takes it) and names the URL's row. */
  lemma ReturnedIdNamesRow(t: Table, url: string, path: string, env: DbEnv)
    requires WellFormed(t)
    ensures var (t', r) := StoreRecord(t, url, path, env);
            r.Success? && r.value.Some? ==> r.value.value >= 1 && url in t'.rows && t'.rows[url].id == r.value.value
  {
  }

  /** The database: its table, as the driver's queries see it. */
  class Database {
    var table: Table

    constructor ()
      ensures table == EmptyTable()
    {
      table := EmptyTable();
    }

    /** `store_image_record`: the insert, then the select only when the insert returned no row. */
    method StoreImageRecord(url: string, path: string, env: DbEnv) returns (r: Result<Option<nat>, string>)
      modifies this
      ensures (table, r) == StoreRecord(old(table), url, path, env)
    {
      if env == QueryFails {
        return Failure("database error");
      }
      var (t1, inserted) := Insert(table, url, path);
      table := t1;
      if inserted.Some? {
        return Success(inserted);
      }
      if env == RowDeleted {
        table := Table(table.rows - {url}, table.nextId);
      }
      var existing := Select(table, url);
      if existing.Some? {
        return Success(existing);
      }
      return Success(None);
    }
  }
}
