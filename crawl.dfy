/** crawl.py: one crawl of a store driven in-process, against the SQLAlchemy
    registry. The spider's feed, the clock, the file system and the outcome of
    each commit are inputs; the spider is represented by the arguments it is
    started with. */
module Crawl {
  import opened Wrappers
  import opened Text
  import opened Files
  import opened OrmStore
  import Schedule

  /** The settings crawl.py reads from its `config` module. */
  datatype Config = Config(outputBasedir: string, outputFormat: string, latestOutputBasedir: string)

  /** The artifact name of a crawl of store `cc` started at `t`. */
  function OutputName(cfg: Config, cc: string, t: Schedule.Timestamp): string
    requires Schedule.ValidTimestamp(t)
  {
    "mac_apps_" + (cc + "_" + Schedule.Datestring(t)) + "." + cfg.outputFormat
  }

  /** The artifact path of a crawl. */
  function ArtifactPath(cfg: Config, cc: string, t: Schedule.Timestamp): string
    requires Schedule.ValidTimestamp(t)
  {
    PathJoin(cfg.outputBasedir, OutputName(cfg, cc, t))
  }

  /** `get_output_filepath`: the artifact path under the output directory, with
      no `file://` prefix; an existing file fails the assertion. */
  function GetOutputFilepath(cfg: Config, cc: string, t: Schedule.Timestamp, fs: FileSystem): (r: Result<string>)
    requires Schedule.ValidTimestamp(t)
    ensures r.Err? <==> ArtifactPath(cfg, cc, t) in fs
    ensures r.Err? ==> r.error == AssertionError
    ensures r.Ok? ==> r.value == ArtifactPath(cfg, cc, t) && EndsWith(r.value, OutputName(cfg, cc, t))
    ensures r.Ok? && EndsWith(cfg.outputBasedir, "/") ==> r.value == cfg.outputBasedir + OutputName(cfg, cc, t)
  {
    var parts := ["mac_apps", cc, Schedule.Datestring(t)];
    assert Join(parts[1..], "_") == cc + "_" + Schedule.Datestring(t) by {
      assert parts[1..][1..] == [Schedule.Datestring(t)];
    }
    var name := Join(parts, "_") + "." + cfg.outputFormat;
    assert name == OutputName(cfg, cc, t);
    assert name[0] == 'm';
    var path := PathJoin(cfg.outputBasedir, name);
    if path in fs then Err(AssertionError) else Ok(path)
  }

  /** With schedule.py's directory and format, both scripts name a crawl's
      artifact alike; schedule.py only adds the `file://` prefix. */
  lemma SameArtifactAsSchedule(cfg: Config, cc: string, t: Schedule.Timestamp, fs: FileSystem)
    requires Schedule.ValidTimestamp(t)
    requires cfg.outputBasedir == Schedule.OutputBasedir && cfg.outputFormat == Schedule.OutputFormat
    ensures GetOutputFilepath(cfg, cc, t, fs).Ok? <==> Schedule.CreateOutputFile(cc, t, fs).Ok?
    ensures GetOutputFilepath(cfg, cc, t, fs).Ok? ==>
              Schedule.CreateOutputFile(cc, t, fs).value == Schedule.FileScheme + GetOutputFilepath(cfg, cc, t, fs).value
  {
    assert EndsWith(Schedule.OutputBasedir, "/");
    assert OutputName(cfg, cc, t) == Schedule.OutputName(cc, t);
  }

  /** The fixed place where the latest artifact of a store is published. */
  function StaticPath(cfg: Config, cc: string): string
  {
    PathJoin(cfg.latestOutputBasedir, "mac_apps_" + cc + "_latest.jsonlines")
  }

  /** `update_static_location`: copies the artifact over the store's static
      path; a missing artifact raises, and so does an artifact that already is
      the static path. */
  function UpdateStaticLocation(cfg: Config, fs: FileSystem, outfile: string, cc: string): (r: Result<FileSystem>)
    ensures r.Err? <==> outfile !in fs || outfile == StaticPath(cfg, cc)
    ensures outfile !in fs ==> r == Err(FileNotFoundError)
    ensures outfile in fs && outfile == StaticPath(cfg, cc) ==> r == Err(SameFileError)
    ensures r.Ok? ==> StaticPath(cfg, cc) in r.value && r.value[StaticPath(cfg, cc)] == fs[outfile]
    ensures r.Ok? ==> r.value.Keys == fs.Keys + {StaticPath(cfg, cc)}
    ensures r.Ok? ==> forall p :: p in fs && p != StaticPath(cfg, cc) ==> r.value[p] == fs[p]
  {
    Copy(fs, outfile, StaticPath(cfg, cc))
  }

  /** `compress_file`: writes the artifact's records to `outfile + ".gz"` and
      removes the original unless asked to keep it (the default keeps it); a
      missing artifact raises. Only the effect on the file system is modelled. */
  function CompressFile(fs: FileSystem, outfile: string, keepUncompressed: bool := true): (r: Result<FileSystem>)
    ensures r.Err? <==> outfile !in fs
    ensures r.Err? ==> r.error == FileNotFoundError
    ensures r.Ok? ==> outfile + ".gz" in r.value && r.value[outfile + ".gz"] == fs[outfile]
    ensures r.Ok? ==> (outfile in r.value <==> keepUncompressed)
    ensures r.Ok? ==> r.value.Keys == (fs.Keys + {outfile + ".gz"}) - (if keepUncompressed then {} else {outfile})
    ensures r.Ok? ==> forall p :: p in fs && p != outfile && p != outfile + ".gz" ==> r.value[p] == fs[p]
  {
    if outfile !in fs then Err(FileNotFoundError)
    else
      assert outfile != outfile + ".gz" by {
        assert |outfile + ".gz"| == |outfile| + 3;
      }
      var compressed := fs[outfile + ".gz" := fs[outfile]];
      if keepUncompressed then Ok(compressed) else Ok(compressed - {outfile})
  }

  /** The ids of the entries that carry a trackId, in file order; entries
      without one are skipped. */
  function TrackIds(entries: seq<Entry>): (ids: seq<int>)
    ensures |ids| <= |entries|
    ensures forall x :: x in ids <==> exists i :: 0 <= i < |entries| && entries[i].trackId == Some(x)
  {
    if |entries| == 0 then []
    else
      var rest := TrackIds(entries[1..]);
      assert forall x :: (exists i :: 0 <= i < |entries[1..]| && entries[1..][i].trackId == Some(x)) <==>
                         (exists i :: 1 <= i < |entries| && entries[i].trackId == Some(x)) by {
        forall x | exists i :: 1 <= i < |entries| && entries[i].trackId == Some(x)
          ensures exists i :: 0 <= i < |entries[1..]| && entries[1..][i].trackId == Some(x)
        {
          var i :| 1 <= i < |entries| && entries[i].trackId == Some(x);
          assert entries[1..][i - 1] == entries[i];
        }
      }
      match entries[0].trackId
      case Some(id) => [id] + rest
      case None => rest
  }

  /** `process_output_file`: the registry of store `cc` learns every trackId of
      the artifact; the answer is the store's size before and its growth. A
      missing artifact fails the assertion and changes nothing. */
  method ProcessOutputFile(db: Database, s: Session, store: string, outfile: string, fs: FileSystem)
    returns (r: Result<(int, int)>)
    modifies s
    ensures s.open == old(s.open) && s.view.crawls == old(s.view.crawls)
    ensures outfile !in fs ==> r == Err(AssertionError) && s.view == old(s.view)
    ensures outfile in fs ==>
              var before := StoreIds(old(s.view.apps), store);
              var ids := TrackIds(fs[outfile]);
              s.view.apps == WithApps(old(s.view.apps), store, ids) &&
              r == Ok((|before|, |Elems(ids) - before|))
  {
    if outfile !in fs {
      return Err(AssertionError);
    }
    var nExisting := |db.GetMacApps(s, store)|;
    var appIds := TrackIds(fs[outfile]);
    db.AddMacApps(s, store, appIds);
    AddCount(old(s.view.apps), store, appIds);
    var nAdded := |db.GetMacApps(s, store)| - nExisting;
    r := Ok((nExisting, nAdded));
  }

  /** How the spider is started: its feed URI, the apps it should revisit and
      the store. */
  datatype SpiderRun = SpiderRun(feedUri: string, knownApps: set<int>, countryCode: string)

  /** What a completed crawl leaves behind. */
  datatype Report = Report(spider: SpiderRun, existing: int, added: int, notice: string)

  /** The text of the notification sent once a crawl is done. */
  function Notice(cc: string, added: int): string
  {
    "\"" + cc + "\" store crawled with " + IntToString(added) + " new entries."
  }

  /** The first session of `do_crawl`: read the store's apps and record the
      crawl. Nothing in it raises, so it ends in a commit. */
  method RecordCrawl(db: Database, cc: string, path: string, commitOk: bool)
    returns (known: set<int>, r: Result<()>)
    modifies db
    ensures known == StoreIds(old(db.tables.apps), cc)
    ensures commitOk ==> r == Ok(()) && db.tables == Tables(old(db.tables.apps), old(db.tables.crawls) + [MasCrawl(cc, path)])
    ensures !commitOk ==> r == Err(DatabaseError) && db.tables == old(db.tables)
  {
    var s := db.BeginScope();
    known := db.GetMacApps(s, cc);
    db.AddMasCrawl(s, MasCrawl(cc, path));
    r := db.EndScope(s, None, commitOk);
  }

  /** The second session of `do_crawl`: process the artifact; a failed
      assertion rolls the session back. */
  method HarvestArtifact(db: Database, cc: string, path: string, fs: FileSystem, commitOk: bool)
    returns (r: Result<(int, int)>)
    modifies db
    ensures path !in fs ==> r == Err(AssertionError) && db.tables == old(db.tables)
    ensures path in fs && !commitOk ==> r == Err(DatabaseError) && db.tables == old(db.tables)
    ensures path in fs && commitOk ==>
              var before := StoreIds(old(db.tables.apps), cc);
              var ids := TrackIds(fs[path]);
              r == Ok((|before|, |Elems(ids) - before|)) &&
              db.tables == Tables(WithApps(old(db.tables.apps), cc, ids), old(db.tables.crawls))
  {
    var s := db.BeginScope();
    var counts := ProcessOutputFile(db, s, cc, path, fs);
    var closed := db.EndScope(s, if counts.Err? then Some(counts.error) else None, commitOk);
    if closed.Err? {
      return Err(closed.error);
    }
    r := counts;
  }

  /** Publishing a freshly written artifact and then compressing it leaves
      the static copy and the `.gz` file, and no original. */
  lemma PublishThenCompress(cfg: Config, cc: string, fs: FileSystem, path: string, feed: seq<Entry>)
    requires StaticPath(cfg, cc) != path
    ensures var published := UpdateStaticLocation(cfg, fs[path := feed], path, cc);
            published.Ok? && CompressFile(published.value, path, false).Ok? &&
            CompressFile(published.value, path, false).value ==
              fs[StaticPath(cfg, cc) := feed][path + ".gz" := feed] - {path}
  {
    var published := UpdateStaticLocation(cfg, fs[path := feed], path, cc);
    assert published.value == fs[path := feed][StaticPath(cfg, cc) := feed];
    var compressed := CompressFile(published.value, path, false).value;
    var expected := fs[StaticPath(cfg, cc) := feed][path + ".gz" := feed] - {path};
    assert compressed.Keys == expected.Keys;
    forall p | p in compressed.Keys
      ensures compressed[p] == expected[p]
    {
    }
  }

  /** `do_crawl`, without the notification's delivery. The steps run in order:
      choose the artifact path; in one session read the store's apps and
      record the crawl; run the spider, which writes `feed` to the artifact
      (None: it wrote no file); in a second session process the artifact;
      publish it under the static path; compress it and delete the original.
      The first failing step ends the crawl with its exception; `fs'` is the
      file system as the crawl leaves it, whichever way it ends. */
  method DoCrawl(db: Database, cfg: Config, cc: string, t: Schedule.Timestamp, fs: FileSystem,
                 feed: Option<seq<Entry>>, firstCommitOk: bool, secondCommitOk: bool)
    returns (r: Result<Report>, fs': FileSystem)
    requires Schedule.ValidTimestamp(t)
    modifies db
    ensures ArtifactPath(cfg, cc, t) in fs ==>
              r == Err(AssertionError) && fs' == fs && db.tables == old(db.tables)
    ensures ArtifactPath(cfg, cc, t) !in fs && !firstCommitOk ==>
              r == Err(DatabaseError) && fs' == fs && db.tables == old(db.tables)
    ensures ArtifactPath(cfg, cc, t) !in fs && firstCommitOk ==>
              db.tables.crawls == old(db.tables.crawls) + [MasCrawl(cc, ArtifactPath(cfg, cc, t))]
    ensures ArtifactPath(cfg, cc, t) !in fs && firstCommitOk && feed.None? ==>
              r == Err(AssertionError) && fs' == fs && db.tables.apps == old(db.tables.apps)
    ensures ArtifactPath(cfg, cc, t) !in fs && firstCommitOk && feed.Some? && !secondCommitOk ==>
              r == Err(DatabaseError) && fs' == fs[ArtifactPath(cfg, cc, t) := feed.value] &&
              db.tables.apps == old(db.tables.apps)
    ensures ArtifactPath(cfg, cc, t) !in fs && firstCommitOk && feed.Some? && secondCommitOk ==>
              db.tables.apps == WithApps(old(db.tables.apps), cc, TrackIds(feed.value))
    ensures ArtifactPath(cfg, cc, t) !in fs && firstCommitOk && feed.Some? && secondCommitOk &&
            StaticPath(cfg, cc) == ArtifactPath(cfg, cc, t) ==>
              r == Err(SameFileError) && fs' == fs[ArtifactPath(cfg, cc, t) := feed.value]
    ensures ArtifactPath(cfg, cc, t) !in fs && firstCommitOk && feed.Some? && secondCommitOk &&
            StaticPath(cfg, cc) != ArtifactPath(cfg, cc, t) ==>
              var path := ArtifactPath(cfg, cc, t);
              var known := StoreIds(old(db.tables.apps), cc);
              var ids := TrackIds(feed.value);
              r.Ok? &&
              r.value.spider == SpiderRun("file://" + path, known, cc) &&
              r.value.existing == |known| && r.value.added == |Elems(ids) - known| &&
              r.value.notice == Notice(cc, r.value.added) &&
              fs' == fs[StaticPath(cfg, cc) := feed.value][path + ".gz" := feed.value] - {path}
  {
    fs' := fs;
    var created := GetOutputFilepath(cfg, cc, t, fs);
    if created.Err? {
      return Err(created.error), fs';
    }
    var path := created.value;
    var known, recorded := RecordCrawl(db, cc, path, firstCommitOk);
    if recorded.Err? {
      return Err(recorded.error), fs';
    }
    var spider := SpiderRun("file://" + path, known, cc);
    fs' := if feed.Some? then fs[path := feed.value] else fs;
    var counts := HarvestArtifact(db, cc, path, fs', secondCommitOk);
    if counts.Err? {
      return Err(counts.error), fs';
    }
    var published := UpdateStaticLocation(cfg, fs', path, cc);
    if published.Err? {
      assert published.error == SameFileError;
      return Err(published.error), fs';
    }
    PublishThenCompress(cfg, cc, fs, path, feed.value);
    var compressed := CompressFile(published.value, path, false);
    fs' := compressed.value;
    var (existingCount, addedCount) := counts.value;
    r := Ok(Report(spider, existingCount, addedCount, Notice(cc, addedCount)));
  }
}
