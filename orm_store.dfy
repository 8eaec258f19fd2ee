/** misc/db.py: the store-scoped registry of known apps and the crawl table,
    behind SQLAlchemy sessions. Tables are in-memory values; a session holds
    the view its queries see (pending adds included) until it is committed. */
module OrmStore {
  import opened Wrappers
  import opened Text

  /** A `mac_apps` row; (appId, store) is the primary key, so the table is a set. */
  datatype MacApp = MacApp(appId: int, store: string)

  /** A `mas_crawls` row as far as this core writes it. */
  datatype MasCrawl = MasCrawl(store: string, outfile: string)

  datatype Tables = Tables(apps: set<MacApp>, crawls: seq<MasCrawl>)

  function Elems(s: seq<int>): set<int>
  {
    set x | x in s
  }

  /** The ids the registry knows for one store. */
  function StoreIds(apps: set<MacApp>, store: string): (ids: set<int>)
    ensures forall a :: a in ids <==> MacApp(a, store) in apps
  {
    set r | r in apps && r.store == store :: r.appId
  }

  /** The registry after `add_mac_apps(store, ids)`. */
  function WithApps(apps: set<MacApp>, store: string, ids: seq<int>): set<MacApp>
  {
    apps + set a | a in ids :: MacApp(a, store)
  }

  /** Adding merges the given ids into the store's set and leaves every other
      store as it was. */
  lemma AddMergesStore(apps: set<MacApp>, store: string, ids: seq<int>, other: string)
    ensures StoreIds(WithApps(apps, store, ids), store) == StoreIds(apps, store) + Elems(ids)
    ensures other != store ==> StoreIds(WithApps(apps, store, ids), other) == StoreIds(apps, other)
  {
    var after := WithApps(apps, store, ids);
    forall a
      ensures a in StoreIds(after, store) <==> a in StoreIds(apps, store) + Elems(ids)
    {
      if a in ids {
        assert MacApp(a, store) in after;
      }
      if MacApp(a, store) in after && MacApp(a, store) !in apps {
        var b :| b in ids && MacApp(b, store) == MacApp(a, store);
      }
    }
  }

  /** Adding the same ids twice has the effect of adding them once. */
  lemma AddIdempotent(apps: set<MacApp>, store: string, ids: seq<int>)
    ensures WithApps(WithApps(apps, store, ids), store, ids) == WithApps(apps, store, ids)
  {
  }

  /** Only the set of given ids matters: repeating an id adds it once. */
  lemma AddIgnoresRepeats(apps: set<MacApp>, store: string, ids: seq<int>, ids': seq<int>)
    requires Elems(ids) == Elems(ids')
    ensures WithApps(apps, store, ids) == WithApps(apps, store, ids')
  {
    forall a | a in ids ensures a in ids' { assert a in Elems(ids); }
    forall a | a in ids' ensures a in ids { assert a in Elems(ids'); }
  }

  /** The store grows by exactly the given ids it did not know yet. */
  lemma AddCount(apps: set<MacApp>, store: string, ids: seq<int>)
    ensures |StoreIds(WithApps(apps, store, ids), store)|
            == |StoreIds(apps, store)| + |Elems(ids) - StoreIds(apps, store)|
  {
    var before := StoreIds(apps, store);
    AddMergesStore(apps, store, ids, store);
    assert before + Elems(ids) == before + (Elems(ids) - before);
    assert before !! (Elems(ids) - before);
  }

  /** The settings `make_engine` reads. */
  datatype DbConfig = DbConfig(engine: string, databaseFile: string, user: string,
                               password: string, address: string, name: string)

  /** `make_engine`: the connection URL of the configured engine. Any other
      engine ends in `assert(false and ...)`, which raises NameError because
      `false` is not a Python name. */
  function MakeEngine(c: DbConfig): (r: Result<string>)
    ensures r.Ok? <==> c.engine == "sqlite" || c.engine == "postgresql"
    ensures r.Err? ==> r.error == NameError
    ensures c.engine == "sqlite" ==>
              StartsWith(r.value, "sqlite:///") && r.value[10..] == c.databaseFile
    ensures c.engine == "postgresql" ==> StartsWith(r.value, "postgresql://")
  {
    if c.engine == "sqlite" then
      Ok("sqlite:///" + c.databaseFile)
    else if c.engine == "postgresql" then
      Ok(c.engine + "://" + c.user + ":" + c.password + "@" + c.address + "/" + c.name)
    else
      Err(NameError)
  }

  /** A postgresql URL gives back its five fields when none contains a
      character that delimits them. */
  lemma PostgresUrlFields(c: DbConfig)
    requires c.engine == "postgresql"
    requires '@' !in c.user && '@' !in c.password && '@' !in c.address && '@' !in c.name
    requires ':' !in c.user && ':' !in c.password && '/' !in c.address && '/' !in c.name
    ensures var parts := Split(MakeEngine(c).value[13..], '@');
            |parts| == 2 &&
            Split(parts[0], ':') == [c.user, c.password] &&
            Split(parts[1], '/') == [c.address, c.name]
  {
    var credentials := c.user + ":" + c.password;
    var location := c.address + "/" + c.name;
    assert MakeEngine(c).value[13..] == credentials + "@" + location;
    assert Join([credentials, location], "@") == credentials + "@" + location;
    SplitJoin([credentials, location], '@');
    assert Join([c.user, c.password], ":") == credentials;
    SplitJoin([c.user, c.password], ':');
    assert Join([c.address, c.name], "/") == location;
    SplitJoin([c.address, c.name], '/');
  }

  /** A session: the tables as its queries see them, and whether it is open. */
  class Session {
    var view: Tables
    var open: bool

    constructor (view: Tables)
      ensures this.view == view && open
    {
      this.view := view;
      open := true;
    }
  }

  class Database {
    /** The committed contents of the database. */
    var tables: Tables

    constructor (tables: Tables)
      ensures this.tables == tables
    {
      this.tables := tables;
    }

    /** Entering `session_scope`: a new session over the committed tables. */
    method BeginScope() returns (s: Session)
      ensures fresh(s) && s.view == tables && s.open
    {
      s := new Session(tables);
    }

    /** Leaving `session_scope`: when the body completed, commit its view
        (a failing commit is handled like a raising body); otherwise roll back
        and re-raise. The session is closed in every case. */
    method EndScope(s: Session, raised: Option<Error>, commitOk: bool) returns (r: Result<()>)
      modifies this, s
      ensures !s.open && s.view == old(s.view)
      ensures raised.None? && commitOk ==> r == Ok(()) && tables == old(s.view)
      ensures raised.Some? ==> r == Err(raised.value) && tables == old(tables)
      ensures raised.None? && !commitOk ==> r == Err(DatabaseError) && tables == old(tables)
    {
      if raised.Some? {
        r := Err(raised.value);
      } else if !commitOk {
        r := Err(DatabaseError);
      } else {
        tables := s.view;
        r := Ok(());
      }
      s.open := false;
    }

    /** `get_mac_apps`: the ids of exactly the rows of the given store. */
    function GetMacApps(s: Session, store: string): (ids: set<int>)
      reads s
      ensures forall a :: a in ids <==> MacApp(a, store) in s.view.apps
    {
      StoreIds(s.view.apps, store)
    }

    /** `add_mac_apps`: adds a row for each given id the store does not know
        yet; ids already known are skipped silently, never an error. */
    method AddMacApps(s: Session, store: string, appIds: seq<int>)
      modifies s
      ensures s.open == old(s.open) && s.view.crawls == old(s.view.crawls)
      ensures s.view.apps == WithApps(old(s.view.apps), store, appIds)
    {
      var existing := GetMacApps(s, store);
      var newApps := Elems(appIds) - existing;
      ghost var added: set<int> := {};
      while newApps != {}
        invariant s.open == old(s.open) && s.view.crawls == old(s.view.crawls)
        invariant added !! newApps && added + newApps == Elems(appIds) - existing
        invariant s.view.apps == old(s.view.apps) + set a | a in added :: MacApp(a, store)
        decreases newApps
      {
        NonEmptyHasMember(newApps);
        var a :| a in newApps;
        s.view := s.view.(apps := s.view.apps + {MacApp(a, store)});
        newApps := newApps - {a};
        added := added + {a};
      }
      forall a | a in appIds
        ensures MacApp(a, store) in s.view.apps
      {
        if a !in existing {
          assert a in added;
        }
      }
    }

    /** `add_mac_app(store, x)` is `add_mac_apps(store, [x])`. */
    method AddMacApp(s: Session, store: string, appId: int)
      modifies s
      ensures s.open == old(s.open) && s.view.crawls == old(s.view.crawls)
      ensures s.view.apps == old(s.view.apps) + {MacApp(appId, store)}
    {
      AddMacApps(s, store, [appId]);
    }

    /** `add_mas_crawl`: the record is added to the session. */
    method AddMasCrawl(s: Session, crawl: MasCrawl)
      modifies s
      ensures s.open == old(s.open) && s.view.apps == old(s.view.apps)
      ensures s.view.crawls == old(s.view.crawls) + [crawl]
    {
      s.view := s.view.(crawls := s.view.crawls + [crawl]);
    }
  }
}
