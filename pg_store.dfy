/** misc/CrawlDB.py: the crawl records and the store-agnostic registry of known
    apps, kept in a PostgreSQL database reached through psycopg2. The database
    behind a connection is modelled as one `CrawlDB` object that holds both
    tables; the outcome of each database call is a parameter. */
module PgStore {
  import opened Wrappers
  import opened Text

  /** One row of the `mac_crawls` table. */
  datatype CrawlRow = CrawlRow(id: int, store: string, outfile: string, inProgress: bool,
                               kind: string, summarised: bool)

  predicate UniqueIds(rows: seq<CrawlRow>)
  {
    forall i, j :: 0 <= i < j < |rows| ==> rows[i].id != rows[j].id
  }

  function Elems(s: seq<int>): set<int>
  {
    set x | x in s
  }

  /** `UPDATE mac_crawls SET ... WHERE id = %s`: every row carrying `id` gets
      the five given fields; the others are untouched. */
  function UpdateWhereId(rows: seq<CrawlRow>, id: int, store: string, outfile: string,
                         inProgress: bool, kind: string, summarised: bool): seq<CrawlRow>
  {
    seq(|rows|, i requires 0 <= i < |rows| =>
      if rows[i].id == id then CrawlRow(id, store, outfile, inProgress, kind, summarised) else rows[i])
  }

  /** With unique ids the update rewrites exactly the row that has that id. */
  lemma UpdateWhereIdHitsOneRow(rows: seq<CrawlRow>, k: nat, store: string, outfile: string,
                                inProgress: bool, kind: string, summarised: bool)
    requires UniqueIds(rows) && k < |rows|
    ensures UpdateWhereId(rows, rows[k].id, store, outfile, inProgress, kind, summarised)
            == rows[k := CrawlRow(rows[k].id, store, outfile, inProgress, kind, summarised)]
  {
  }

  const MacAppsSchema := "CREATE TABLE" + " mac_apps (trackId INTEGER NOT NULL)"

  /** The mac_crawls schema as the source spells it: a triple-quoted literal whose
      first character is a line break (the SQL comments inside it are omitted here). */
  const MacCrawlsSchema := "\n" + "CREATE TABLE" + " mac_crawls (\n\t\t\tid SERIAL PRIMARY KEY,"
    + "\n\t\t\tstore char(2) NOT NULL,\n\t\t\toutfile varchar(255) NOT NULL,"
    + "\n\t\t\tin_progress BOOLEAN,\n\t\t\tkind varchar(255) NOT NULL,"
    + "\n\t\t\tsummarised BOOLEAN)\n"

  /** `db_create_table` as written: the statement runs only when its lower-cased
      text starts with "create table"; `executeOk` is the database's answer. */
  function DbCreateTable(sql: string, executeOk: bool): (created: bool)
    ensures !StartsWith(Lower(sql), "create table") ==> !created
    ensures StartsWith(Lower(sql), "create table") ==> created == executeOk
  {
    if !StartsWith(Lower(sql), "create table") then false else executeOk
  }

  lemma UpperCreateTable(sql: string)
    requires StartsWith(sql, "CREATE TABLE")
    ensures StartsWith(Lower(sql), "create table")
  {
    var low := Lower(sql);
    forall i | 0 <= i < 12
      ensures low[i] == "create table"[i]
    {
      assert sql[i] == "CREATE TABLE"[i];
    }
  }

  /** The guard as written refuses the mac_crawls schema, because the schema
      literal begins with a line break: setup_tables never creates that table. */
  lemma CrawlsSchemaRefused(executeOk: bool)
    ensures !DbCreateTable(MacCrawlsSchema, executeOk)
    ensures DbCreateTable(MacAppsSchema, executeOk) == executeOk
  {
    assert Lower(MacCrawlsSchema)[0] == LowerChar(MacCrawlsSchema[0]) == '\n';
    UpperCreateTable(MacAppsSchema);
  }

  /** The guard as evidently intended: leading white space is ignored. */
  function DbCreateTableStripped(sql: string, executeOk: bool): (created: bool)
    ensures created ==> executeOk
  {
    if !StartsWith(Lower(LStrip(sql)), "create table") then false else executeOk
  }

  /** The corrected guard accepts a CREATE TABLE statement after any run of
      leading white space. */
  lemma {:induction false} StrippedGuardAcceptsIndented(ws: string, stmt: string, executeOk: bool)
    requires forall i :: 0 <= i < |ws| ==> IsSpace(ws[i])
    requires StartsWith(stmt, "CREATE TABLE")
    ensures DbCreateTableStripped(ws + stmt, executeOk) == executeOk
    decreases |ws|
  {
    if |ws| == 0 {
      assert ws + stmt == stmt;
      assert stmt[0] == 'C';
      assert LStrip(stmt) == stmt;
      UpperCreateTable(stmt);
    } else {
      assert (ws + stmt)[1..] == ws[1..] + stmt;
      StrippedGuardAcceptsIndented(ws[1..], stmt, executeOk);
    }
  }

  /** The corrected guard accepts both schemas. */
  lemma StrippedGuardAcceptsSchemas(schema: string, executeOk: bool)
    requires schema == MacCrawlsSchema || schema == MacAppsSchema
    ensures DbCreateTableStripped(schema, executeOk) == executeOk
  {
    if schema == MacCrawlsSchema {
      assert schema == "\n" + schema[1..];
      StrippedGuardAcceptsIndented("\n", schema[1..], executeOk);
    } else {
      assert schema == "" + schema;
      StrippedGuardAcceptsIndented("", schema, executeOk);
    }
  }

  /** On statements without leading white space the corrected guard agrees
      with the guard as written. */
  lemma StrippedGuardAgrees(sql: string, executeOk: bool)
    requires |sql| > 0 && !IsSpace(sql[0])
    ensures DbCreateTableStripped(sql, executeOk) == DbCreateTable(sql, executeOk)
  {
    assert LStrip(sql) == sql;
  }

  /** `str` of a Python bool. */
  function BoolText(b: bool): (t: string)
    ensures t == "True" <==> b
    ensures t == "False" <==> !b
  {
    if b then "True" else "False"
  }

  /** `str` of an optional id: "None", or the decimal text that parses back
      to the id; it never holds a comma. */
  function IdText(id: Option<int>): (t: string)
    ensures id.None? ==> t == "None"
    ensures id.Some? ==> IsIntText(t) && ParseInt(t) == id.value
    ensures ',' !in t
  {
    match id
    case None => "None"
    case Some(i) =>
      ParseIntToString(i);
      IntToString(i)
  }

  /** The six fields of a crawl through `str`, in order. */
  function CrawlStrs(id: Option<int>, store: string, outfile: string, inProgress: bool,
                     kind: string, summarised: bool): seq<string>
  {
    [IdText(id), store, outfile, BoolText(inProgress), kind, BoolText(summarised)]
  }

  lemma CrawlStrsCommaFree(id: Option<int>, store: string, outfile: string, inProgress: bool,
                           kind: string, summarised: bool)
    requires ',' !in store && ',' !in outfile && ',' !in kind
    ensures var parts := CrawlStrs(id, store, outfile, inProgress, kind, summarised);
            forall k :: 0 <= k < |parts| ==> ',' !in parts[k]
  {
    assert ',' !in BoolText(inProgress) && ',' !in BoolText(summarised);
  }

  /** `MacCrawl.__str__`: the six fields through `str`, joined by ", " in
      parentheses. When none of the text fields holds a comma, the text
      between the parentheses splits back into the six fields. */
  function CrawlText(id: Option<int>, store: string, outfile: string, inProgress: bool,
                     kind: string, summarised: bool): (s: string)
    ensures |s| >= 2 && s[0] == '(' && s[|s| - 1] == ')'
    ensures s[1..|s| - 1] == Join(CrawlStrs(id, store, outfile, inProgress, kind, summarised), ", ")
    ensures ',' !in store && ',' !in outfile && ',' !in kind ==>
              var parts := CrawlStrs(id, store, outfile, inProgress, kind, summarised);
              Split(s[1..|s| - 1], ',') == [parts[0]] + Spaced(parts[1..])
  {
    var parts := CrawlStrs(id, store, outfile, inProgress, kind, summarised);
    var s := "(" + Join(parts, ", ") + ")";
    assert s[1..|s| - 1] == Join(parts, ", ");
    if ',' !in store && ',' !in outfile && ',' !in kind then
      CrawlStrsCommaFree(id, store, outfile, inProgress, kind, summarised);
      SplitCommaJoin(parts);
      s
    else
      s
  }

  /** A crawl record (`MacCrawl`). Its id is fixed when the object is built,
      so no later assignment can change it; the other five fields are public
      and updated by callers. */
  class MacCrawl {
    const id: Option<int>
    var store: string
    var outfile: string
    var inProgress: bool
    var kind: string
    var summarised: bool
    const dbConnection: CrawlDB?

    /** The constructor takes a 6-tuple typed (int, str, str, bool, str, bool),
        which Dafny's types enforce, and copies it in order; a record that did
        not come from the database gets no id. */
    constructor (data: (int, string, string, bool, string, bool), dbConnection: CrawlDB?, existing: bool)
      ensures id == (if existing then Some(data.0) else None)
      ensures store == data.1 && outfile == data.2 && inProgress == data.3
      ensures kind == data.4 && summarised == data.5
      ensures this.dbConnection == dbConnection
    {
      id := if existing then Some(data.0) else None;
      store := data.1;
      outfile := data.2;
      inProgress := data.3;
      kind := data.4;
      summarised := data.5;
      this.dbConnection := dbConnection;
    }

    /** `new_crawl`: no id, empty store, outfile and kind, both flags false. */
    static method NewCrawl() returns (c: MacCrawl)
      ensures fresh(c) && c.id == None && c.dbConnection == null
      ensures c.store == "" && c.outfile == "" && c.kind == ""
      ensures !c.inProgress && !c.summarised
    {
      c := new MacCrawl((-1, "", "", false, "", false), null, false);
    }

    predicate Mirrors(row: CrawlRow)
      reads this
    {
      id == Some(row.id) && store == row.store && outfile == row.outfile &&
      inProgress == row.inProgress && kind == row.kind && summarised == row.summarised
    }

    /** `__str__`. */
    function ToString(): (s: string)
      reads this
      ensures |s| >= 2 && s[0] == '(' && s[|s| - 1] == ')'
      ensures s[1..|s| - 1] == Join(CrawlStrs(id, store, outfile, inProgress, kind, summarised), ", ")
    {
      CrawlText(id, store, outfile, inProgress, kind, summarised)
    }

    /** The connection `persist` writes through: the one given at construction
        if any, otherwise the argument. */
    function Target(connection: CrawlDB?): CrawlDB?
      reads this
    {
      if dbConnection != null then dbConnection else connection
    }

    /** `persist`: inserts a new row when the record has no id (the database
        assigns the next serial and the record's id stays None), otherwise
        rewrites the row with that id. It answers false, changing nothing, when
        the database fails, and raises when there is no connection at all. */
    method Persist(connection: CrawlDB?, storageOk: bool) returns (r: Result<bool>)
      requires Target(connection) != null ==> Target(connection).Valid()
      modifies Target(connection)
      ensures Target(connection) == null ==> r == Err(AssertionError)
      ensures Target(connection) != null ==> r == Ok(storageOk) && Target(connection).Valid()
      ensures Target(connection) != null ==> Target(connection).apps == old(Target(connection).apps)
      ensures Target(connection) != null && !storageOk ==>
                Target(connection).rows == old(Target(connection).rows) &&
                Target(connection).nextId == old(Target(connection).nextId)
      ensures Target(connection) != null && storageOk && id.None? ==>
                Target(connection).rows == old(Target(connection).rows) +
                  [CrawlRow(old(Target(connection).nextId), store, outfile, inProgress, kind, summarised)] &&
                Target(connection).nextId == old(Target(connection).nextId) + 1
      ensures Target(connection) != null && storageOk && id.Some? ==>
                Target(connection).rows ==
                  UpdateWhereId(old(Target(connection).rows), id.value, store, outfile, inProgress, kind, summarised) &&
                Target(connection).nextId == old(Target(connection).nextId)
    {
      var db := Target(connection);
      if db == null {
        return Err(AssertionError);
      }
      if !storageOk {
        return Ok(false);
      }
      if id == None {
        db.rows := db.rows + [CrawlRow(db.nextId, store, outfile, inProgress, kind, summarised)];
        db.nextId := db.nextId + 1;
      } else {
        db.rows := UpdateWhereId(db.rows, id.value, store, outfile, inProgress, kind, summarised);
      }
      return Ok(true);
    }
  }

  /** `CrawlDB`: the `mac_apps` table (trackIds in insertion order, not scoped by
      store) and the `mac_crawls` table with its serial id counter. */
  class CrawlDB {
    var apps: seq<int>
    var rows: seq<CrawlRow>
    var nextId: int

    ghost predicate Valid()
      reads this
    {
      UniqueIds(rows) && forall i :: 0 <= i < |rows| ==> rows[i].id < nextId
    }

    constructor (apps: seq<int>, rows: seq<CrawlRow>, nextId: int)
      requires UniqueIds(rows) && forall i :: 0 <= i < |rows| ==> rows[i].id < nextId
      ensures Valid() && this.apps == apps && this.rows == rows && this.nextId == nextId
    {
      this.apps, this.rows, this.nextId := apps, rows, nextId;
    }

    /** `add_mac_apps` as written: refuses the whole call when any given id is
        already stored; otherwise inserts every given id in order (duplicates in
        the argument included), each insert committed on its own. `failAt` is
        the position of the insert at which the database fails, if any. */
    method AddMacApps(trackIds: seq<int>, failAt: Option<nat>) returns (ok: bool)
      modifies this
      ensures rows == old(rows) && nextId == old(nextId)
      ensures Elems(trackIds) * Elems(old(apps)) != {} ==> !ok && apps == old(apps)
      ensures Elems(trackIds) * Elems(old(apps)) == {} ==>
                ok == (failAt.None? || failAt.value >= |trackIds|) &&
                apps == old(apps) + trackIds[..if ok then |trackIds| else failAt.value]
    {
      if Elems(trackIds) * Elems(apps) != {} {
        return false;
      }
      var i := 0;
      while i < |trackIds|
        invariant i <= |trackIds|
        invariant failAt.Some? ==> i <= failAt.value
        invariant apps == old(apps) + trackIds[..i]
        invariant rows == old(rows) && nextId == old(nextId)
      {
        if failAt == Some(i) {
          return false;
        }
        apps := apps + [trackIds[i]];
        i := i + 1;
        assert trackIds[..i] == trackIds[..i - 1] + [trackIds[i - 1]];
      }
      assert trackIds[..i] == trackIds;
      return true;
    }

    /** `get_mac_apps`: every stored trackId, in table order. */
    method GetMacApps() returns (ids: seq<int>)
      ensures ids == apps
    {
      ids := apps;
    }

    /** `add_mac_app(x)` is `add_mac_apps([x])`. */
    method AddMacApp(trackId: int, failAt: Option<nat>) returns (ok: bool)
      modifies this
      ensures rows == old(rows) && nextId == old(nextId)
      ensures trackId in old(apps) ==> !ok && apps == old(apps)
      ensures trackId !in old(apps) ==>
                ok == (failAt != Some(0)) && apps == old(apps) + (if ok then [trackId] else [])
    {
      assert trackId in old(apps) ==> trackId in Elems([trackId]) * Elems(apps);
      ok := AddMacApps([trackId], failAt);
    }

    /** `get_mac_crawls`: one fresh record object per row, in table order, each
        bound to this connection. */
    method GetMacCrawls() returns (crawls: seq<MacCrawl>)
      ensures |crawls| == |rows|
      ensures forall i :: 0 <= i < |crawls| ==>
                fresh(crawls[i]) && crawls[i].Mirrors(rows[i]) && crawls[i].dbConnection == this
      ensures forall i, j :: 0 <= i < j < |crawls| ==> crawls[i] != crawls[j]
    {
      crawls := [];
      for i := 0 to |rows|
        invariant |crawls| == i
        invariant forall k :: 0 <= k < i ==>
                    fresh(crawls[k]) && crawls[k].Mirrors(rows[k]) && crawls[k].dbConnection == this
        invariant forall k, j :: 0 <= k < j < i ==> crawls[k] != crawls[j]
      {
        var r := rows[i];
        var c := new MacCrawl((r.id, r.store, r.outfile, r.inProgress, r.kind, r.summarised), this, true);
        crawls := crawls + [c];
      }
    }

    /** `add_mac_crawl`: `persist` with this connection, so the record's own
        connection, when it has one, is the one written; an INSERT for a record
        without id, an UPDATE by id otherwise, and no change when the database
        fails. */
    method AddMacCrawl(crawl: MacCrawl, storageOk: bool) returns (r: Result<bool>)
      requires Valid() && (crawl.dbConnection != null ==> crawl.dbConnection.Valid())
      modifies crawl.Target(this)
      ensures crawl.Target(this) == (if crawl.dbConnection != null then crawl.dbConnection else this)
      ensures r == Ok(storageOk)
      ensures crawl.Target(this).Valid() && crawl.Target(this).apps == old(crawl.Target(this).apps)
      ensures !storageOk ==>
                crawl.Target(this).rows == old(crawl.Target(this).rows) &&
                crawl.Target(this).nextId == old(crawl.Target(this).nextId)
      ensures storageOk && crawl.id.None? ==>
                crawl.Target(this).rows == old(crawl.Target(this).rows) +
                  [CrawlRow(old(crawl.Target(this).nextId), crawl.store, crawl.outfile,
                            crawl.inProgress, crawl.kind, crawl.summarised)] &&
                crawl.Target(this).nextId == old(crawl.Target(this).nextId) + 1
      ensures storageOk && crawl.id.Some? ==>
                crawl.Target(this).rows ==
                  UpdateWhereId(old(crawl.Target(this).rows), crawl.id.value, crawl.store, crawl.outfile,
                                crawl.inProgress, crawl.kind, crawl.summarised) &&
                crawl.Target(this).nextId == old(crawl.Target(this).nextId)
      ensures crawl.Target(this) != this ==>
                rows == old(rows) && apps == old(apps) && nextId == old(nextId)
    {
      r := crawl.Persist(this, storageOk);
    }
  }

  /** `persist` never records the id it inserted, so persisting the same new
      record twice inserts two rows. */
  method PersistTwiceInsertsTwice(db: CrawlDB)
    requires db.Valid()
    modifies db
    ensures |db.rows| == |old(db.rows)| + 2
    ensures db.rows[|db.rows| - 2].store == db.rows[|db.rows| - 1].store == "de"
  {
    var c := MacCrawl.NewCrawl();
    c.store := "de";
    var r1 := c.Persist(db, true);
    var r2 := c.Persist(db, true);
  }
}
