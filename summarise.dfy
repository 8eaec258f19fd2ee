/** summarise.py: one pass of the summariser over the psycopg2 crawl table.
    Every finished crawl that is not summarised yet has its artifact read; the
    ids the registry does not know are gathered; the crawl is marked summarised
    and persisted at once; at the end the gathered ids are added to the
    registry in one call. The file system and the outcome of each database
    call are inputs. */
module Summarise {
  import opened Wrappers
  import opened Text
  import opened Files
  import opened PgStore
  import BatchList
  import Schedule
  import Crawl

  /** A crawl the pass reads: neither summarised already nor still running. */
  predicate Eligible(row: CrawlRow)
  {
    !row.summarised && !row.inProgress
  }

  /** The file an artifact path is read from: the path itself when it exists,
      otherwise its gzip sibling; a ValueError when neither exists. */
  function Resolve(fs: FileSystem, path: string): (r: Result<seq<Entry>>)
    ensures path in fs ==> r == Ok(fs[path])
    ensures path !in fs && path + ".gz" in fs ==> r == Ok(fs[path + ".gz"])
    ensures r.Err? <==> path !in fs && path + ".gz" !in fs
    ensures r.Err? ==> r.error == ValueError
  {
    if path in fs then Ok(fs[path])
    else if path + ".gz" in fs then Ok(fs[path + ".gz"])
    else Err(ValueError)
  }

  /** Every trackId the entries carry. */
  function IdsIn(entries: seq<Entry>): set<int>
  {
    set k | 0 <= k < |entries| && entries[k].trackId.Some? :: entries[k].trackId.value
  }

  lemma IdsInSnoc(entries: seq<Entry>, k: nat)
    requires k < |entries|
    ensures IdsIn(entries[..k + 1]) ==
            IdsIn(entries[..k]) + (if entries[k].trackId.Some? then {entries[k].trackId.value} else {})
  {
    var longer := entries[..k + 1];
    assert forall j :: 0 <= j < k ==> longer[j] == entries[..k][j];
    assert longer[k] == entries[k];
  }

  /** The ids an artifact yields. As written, an entry without a trackId raises
      KeyError (`skipMissing` false); skipping such entries, as crawl.py does,
      is the corrected reading (`skipMissing` true). */
  function ArtifactIds(entries: seq<Entry>, skipMissing: bool): (r: Result<set<int>>)
    ensures r.Err? <==> !skipMissing && exists k :: 0 <= k < |entries| && entries[k].trackId.None?
    ensures r.Err? ==> r.error == KeyError
    ensures r.Ok? ==> forall x :: x in r.value <==> exists k :: 0 <= k < |entries| && entries[k].trackId == Some(x)
  {
    if !skipMissing && exists k :: 0 <= k < |entries| && entries[k].trackId.None? then Err(KeyError)
    else
      assert forall x :: x in IdsIn(entries) <==> exists k :: 0 <= k < |entries| && entries[k].trackId == Some(x) by {
        forall x | exists k :: 0 <= k < |entries| && entries[k].trackId == Some(x)
          ensures x in IdsIn(entries)
        {
          var k :| 0 <= k < |entries| && entries[k].trackId == Some(x);
          assert entries[k].trackId.value == x;
        }
      }
      Ok(IdsIn(entries))
  }

  /** The corrected reading gathers exactly the ids crawl.py's
      `process_output_file` registers from the same artifact. */
  lemma SkippingMatchesCrawl(entries: seq<Entry>)
    ensures ArtifactIds(entries, true) == Ok(Elems(Crawl.TrackIds(entries)))
  {
    var ids := Crawl.TrackIds(entries);
    forall x ensures x in ArtifactIds(entries, true).value <==> x in Elems(ids)
    {
      assert (x in ArtifactIds(entries, true).value) ==
             (exists k :: 0 <= k < |entries| && entries[k].trackId == Some(x));
      assert (x in ids) == (exists k :: 0 <= k < |entries| && entries[k].trackId == Some(x));
      assert x in Elems(ids) <==> x in ids;
    }
    assert ArtifactIds(entries, true).Ok?;
    assert ArtifactIds(entries, true).value == Elems(ids);
  }

  /** On an artifact every entry of which has a trackId, both readings agree. */
  lemma ReadingsAgree(entries: seq<Entry>)
    requires forall k :: 0 <= k < |entries| ==> entries[k].trackId.Some?
    ensures ArtifactIds(entries, false) == ArtifactIds(entries, true)
  {
  }

  /** The ids the artifact of one eligible crawl yields, or the exception
      that stops the pass at it: its outfile must carry the `file://` prefix,
      and the path after the prefix must resolve. */
  function CrawlIds(row: CrawlRow, fs: FileSystem, skipMissing: bool): (r: Result<set<int>>)
    ensures !StartsWith(row.outfile, Schedule.FileScheme) ==> r == Err(AssertionError)
    ensures StartsWith(row.outfile, Schedule.FileScheme) ==>
              var path := row.outfile[|Schedule.FileScheme|..];
              (Resolve(fs, path).Err? ==> r == Err(ValueError)) &&
              (Resolve(fs, path).Ok? ==> r == ArtifactIds(Resolve(fs, path).value, skipMissing))
    ensures skipMissing && r.Err? ==> r.error != KeyError
  {
    if !StartsWith(row.outfile, Schedule.FileScheme) then Err(AssertionError)
    else
      var path := DropFirst(row.outfile, |Schedule.FileScheme|);
      match Resolve(fs, path)
      case Err(e) => Err(e)
      case Ok(entries) => ArtifactIds(entries, skipMissing)
  }

  /** The outfile schedule.py records, `file://` + path, reads the path the
      crawl wrote, and still reads it after crawl.py compressed it away. */
  lemma CompressedArtifactResolves(row: CrawlRow, path: string, fs: FileSystem, keepUncompressed: bool)
    requires row.outfile == Schedule.FileScheme + path && path in fs
    ensures CrawlIds(row, fs, true) == Ok(IdsIn(fs[path]))
    ensures var compressed := Crawl.CompressFile(fs, path, keepUncompressed);
            compressed.Ok? && CrawlIds(row, compressed.value, true) == Ok(IdsIn(fs[path]))
  {
    assert row.outfile[|Schedule.FileScheme|..] == path;
  }

  /** A crawl the pass gets past: skipped, or read without an exception. */
  predicate Passes(row: CrawlRow, fs: FileSystem, skipMissing: bool)
  {
    !Eligible(row) || CrawlIds(row, fs, skipMissing).Ok?
  }

  /** The position of the crawl at which the pass stops with an exception,
      or the number of crawls when it gets past all of them. */
  function Halt(rows: seq<CrawlRow>, fs: FileSystem, skipMissing: bool): (h: nat)
    ensures h <= |rows|
    ensures forall k :: 0 <= k < h ==> Passes(rows[k], fs, skipMissing)
    ensures h < |rows| ==> !Passes(rows[h], fs, skipMissing)
    decreases |rows|
  {
    if |rows| == 0 then 0
    else if !Passes(rows[0], fs, skipMissing) then 0
    else
      var rest := Halt(rows[1..], fs, skipMissing);
      assert forall k :: 1 <= k < 1 + rest ==> rows[k] == rows[1..][k - 1];
      1 + rest
  }

  /** The pass stops at the first crawl it cannot get past. */
  lemma HaltAt(rows: seq<CrawlRow>, fs: FileSystem, skipMissing: bool, h: nat)
    requires h <= |rows|
    requires forall k :: 0 <= k < h ==> Passes(rows[k], fs, skipMissing)
    requires h < |rows| ==> !Passes(rows[h], fs, skipMissing)
    ensures Halt(rows, fs, skipMissing) == h
  {
  }

  /** The ids gathered from the first `n` crawls: those their artifacts yield
      that the registry did not know. */
  function Collected(rows: seq<CrawlRow>, fs: FileSystem, existing: set<int>, skipMissing: bool, n: nat): (ids: set<int>)
    requires n <= Halt(rows, fs, skipMissing)
    ensures ids !! existing
    ensures forall k :: 0 <= k < n && Eligible(rows[k]) ==> CrawlIds(rows[k], fs, skipMissing).value - existing <= ids
    ensures forall x :: x in ids ==>
              exists k :: 0 <= k < n && Eligible(rows[k]) && x in CrawlIds(rows[k], fs, skipMissing).value
  {
    if n == 0 then {}
    else
      var before := Collected(rows, fs, existing, skipMissing, n - 1);
      if Eligible(rows[n - 1]) then before + (CrawlIds(rows[n - 1], fs, skipMissing).value - existing)
      else before
  }

  /** The crawl table after the first `n` crawls were visited: an eligible one
      is summarised unless its persist failed (its position is in
      `persistFails`). */
  function Marked(rows: seq<CrawlRow>, n: nat, persistFails: set<int>): (r: seq<CrawlRow>)
    ensures |r| == |rows|
    ensures forall k :: 0 <= k < |rows| ==>
              r[k] == rows[k] || (Eligible(rows[k]) && r[k] == rows[k].(summarised := true))
    ensures forall k :: 0 <= k < |rows| && (k >= n || k in persistFails) ==> r[k] == rows[k]
    ensures forall k :: 0 <= k < |rows| ==>
              (r[k].summarised <==> (rows[k].summarised || (k < n && Eligible(rows[k]) && k !in persistFails)))
  {
    seq(|rows|, k requires 0 <= k < |rows| =>
      if k < n && Eligible(rows[k]) && k !in persistFails then rows[k].(summarised := true) else rows[k])
  }

  /** Visiting a crawl that is skipped, or whose persist fails, leaves the
      table as it was. */
  lemma MarkedUnchanged(rows: seq<CrawlRow>, i: nat, persistFails: set<int>)
    requires i < |rows| && (!Eligible(rows[i]) || i in persistFails)
    ensures Marked(rows, i + 1, persistFails) == Marked(rows, i, persistFails)
  {
  }

  /** Visiting an eligible crawl whose persist succeeds summarises its row. */
  lemma MarkedStep(rows: seq<CrawlRow>, i: nat, persistFails: set<int>)
    requires i < |rows| && Eligible(rows[i]) && i !in persistFails
    ensures Marked(rows, i + 1, persistFails) == Marked(rows, i, persistFails)[i := rows[i].(summarised := true)]
  {
  }

  /** A crawl the pass gets past moves the stopping point beyond it, and adds
      what its artifact yields. */
  lemma PassStep(rows: seq<CrawlRow>, fs: FileSystem, existing: set<int>, skipMissing: bool, i: nat)
    requires i <= Halt(rows, fs, skipMissing) && i < |rows| && Passes(rows[i], fs, skipMissing)
    ensures i + 1 <= Halt(rows, fs, skipMissing)
    ensures Collected(rows, fs, existing, skipMissing, i + 1) ==
            Collected(rows, fs, existing, skipMissing, i) +
            (if Eligible(rows[i]) then CrawlIds(rows[i], fs, skipMissing).value - existing else {})
  {
  }

  /** What the pass has done after visiting the first `i` crawls of `rows`. */
  ghost predicate Visited(db: CrawlDB, rows: seq<CrawlRow>, apps: seq<int>, nextId: int, fs: FileSystem,
                          skipMissing: bool, persistFails: set<int>, i: nat, collected: set<int>)
    reads db
  {
    && db.Valid() && UniqueIds(rows) && db.apps == apps && db.nextId == nextId
    && i <= Halt(rows, fs, skipMissing)
    && db.rows == Marked(rows, i, persistFails)
    && collected == Collected(rows, fs, Elems(apps), skipMissing, i)
  }

  /** The inner loop of the pass: each entry's trackId is gathered unless the
      registry or the pass already has it; a missing one raises KeyError as
      written, or is skipped in the corrected reading. */
  method ReadArtifact(entries: seq<Entry>, existing: set<int>, collected: set<int>, skipMissing: bool)
    returns (r: Result<set<int>>)
    ensures ArtifactIds(entries, skipMissing).Err? ==> r == Err(KeyError)
    ensures ArtifactIds(entries, skipMissing).Ok? ==>
              r == Ok(collected + (ArtifactIds(entries, skipMissing).value - existing))
  {
    var gathered := collected;
    for k := 0 to |entries|
      invariant gathered == collected + (IdsIn(entries[..k]) - existing)
      invariant !skipMissing ==> forall j :: 0 <= j < k ==> entries[j].trackId.Some?
    {
      IdsInSnoc(entries, k);
      match entries[k].trackId
      case None =>
        if !skipMissing {
          return Err(KeyError);
        }
      case Some(trackId) =>
        if trackId !in existing && trackId !in gathered {
          gathered := gathered + {trackId};
        }
    }
    assert entries[..|entries|] == entries;
    r := Ok(gathered);
  }

  /** One iteration of the pass over crawl `i`, whose record object is `crawl`. */
  method VisitCrawl(db: CrawlDB, crawl: MacCrawl, ghost rows: seq<CrawlRow>, ghost apps: seq<int>,
                    ghost nextId: int, fs: FileSystem, skipMissing: bool, persistFails: set<int>,
                    i: nat, existing: set<int>, collected: set<int>)
    returns (failure: Option<Error>, collected': set<int>)
    requires Visited(db, rows, apps, nextId, fs, skipMissing, persistFails, i, collected)
    requires i < |rows| && crawl.Mirrors(rows[i]) && crawl.dbConnection == db && existing == Elems(apps)
    modifies db, crawl
    ensures failure.None? ==> Visited(db, rows, apps, nextId, fs, skipMissing, persistFails, i + 1, collected')
    ensures failure.Some? ==>
              Halt(rows, fs, skipMissing) == i && failure.value == CrawlIds(rows[i], fs, skipMissing).error &&
              db.Valid() && db.apps == apps && db.nextId == nextId && db.rows == Marked(rows, i, persistFails)
  {
    collected' := collected;
    if crawl.summarised || crawl.inProgress {
      MarkedUnchanged(rows, i, persistFails);
      PassStep(rows, fs, existing, skipMissing, i);
      return None, collected';
    }
    if !StartsWith(crawl.outfile, Schedule.FileScheme) {
      return Some(AssertionError), collected';
    }
    var path := DropFirst(crawl.outfile, |Schedule.FileScheme|);
    var entries := Resolve(fs, path);
    if entries.Err? {
      return Some(entries.error), collected';
    }
    var gathered := ReadArtifact(entries.value, existing, collected, skipMissing);
    if gathered.Err? {
      return Some(gathered.error), collected';
    }
    collected' := gathered.value;
    assert CrawlIds(rows[i], fs, skipMissing) == ArtifactIds(entries.value, skipMissing);
    PassStep(rows, fs, existing, skipMissing, i);
    failure := None;
    crawl.summarised := true;
    var persisted := crawl.Persist(null, i !in persistFails);
    if i !in persistFails {
      UpdateWhereIdHitsOneRow(Marked(rows, i, persistFails), i, crawl.store, crawl.outfile,
                              crawl.inProgress, crawl.kind, true);
      MarkedStep(rows, i, persistFails);
    } else {
      MarkedUnchanged(rows, i, persistFails);
    }
  }

  /** `list(mac_apps)`: the ids of a set, each once, in the set's own order. */
  method ListOf(ids: set<int>) returns (list: seq<int>)
    ensures Elems(list) == ids && BatchList.NoDuplicates(list)
  {
    list := [];
    var rest := ids;
    while rest != {}
      invariant Elems(list) !! rest && Elems(list) + rest == ids
      invariant BatchList.NoDuplicates(list)
      decreases rest
    {
      NonEmptyHasMember(rest);
      var x :| x in rest;
      assert x !in list by {
        assert x !in Elems(list);
      }
      list := list + [x];
      rest := rest - {x};
    }
  }

  /** A duplicate-free list is as long as the set of its members. */
  lemma {:induction false} DistinctCount(list: seq<int>)
    requires BatchList.NoDuplicates(list)
    ensures |Elems(list)| == |list|
    decreases |list|
  {
    if |list| > 0 {
      var init := list[..|list| - 1];
      var last := list[|list| - 1];
      assert forall i, j :: 0 <= i < j < |init| ==> init[i] == list[i] && init[j] == list[j];
      DistinctCount(init);
      assert list == init + [last];
      assert Elems(list) == Elems(init) + {last};
      assert last !in Elems(init) by {
        forall i | 0 <= i < |init| ensures init[i] != last {
          assert init[i] == list[i];
        }
      }
    }
  }

  /** The loop of the pass over the record objects `crawls`, one per row of
      `rows`, against the registry contents `apps`: it visits them in order and
      stops at the first exception, at position `stop`. */
  method VisitAll(db: CrawlDB, crawls: seq<MacCrawl>, ghost rows: seq<CrawlRow>, apps: seq<int>, fs: FileSystem,
                  skipMissing: bool, persistFails: set<int>)
    returns (failure: Option<Error>, ghost stop: nat, gathered: set<int>)
    requires db.Valid() && db.rows == rows && db.apps == apps && |crawls| == |rows|
    requires forall k :: 0 <= k < |crawls| ==> crawls[k].Mirrors(rows[k]) && crawls[k].dbConnection == db
    requires forall k, j :: 0 <= k < j < |crawls| ==> crawls[k] != crawls[j]
    modifies db, set k | 0 <= k < |crawls| :: crawls[k]
    ensures db.Valid() && db.apps == apps && db.nextId == old(db.nextId)
    ensures stop == Halt(rows, fs, skipMissing) && db.rows == Marked(rows, stop, persistFails)
    ensures failure.Some? <==> stop < |rows|
    ensures failure.Some? ==> failure.value == CrawlIds(rows[stop], fs, skipMissing).error
    ensures failure.None? ==> gathered == Collected(rows, fs, Elems(apps), skipMissing, |rows|)
  {
    gathered := {};
    var existing := Elems(apps);
    for i := 0 to |crawls|
      invariant Visited(db, rows, apps, old(db.nextId), fs, skipMissing, persistFails, i, gathered)
      invariant forall k :: i <= k < |crawls| ==> crawls[k].Mirrors(rows[k])
    {
      assert forall k :: i < k < |crawls| ==> crawls[k] != crawls[i];
      failure, gathered := VisitCrawl(db, crawls[i], rows, apps, old(db.nextId), fs, skipMissing, persistFails,
                                      i, existing, gathered);
      if failure.Some? {
        return failure, i, gathered;
      }
    }
    failure, stop := None, |crawls|;
  }

  /** `main`: one summarisation pass. The first crawl it cannot get past ends
      the pass with its exception (`r` is Err): the crawls before it stay as
      the pass left them and the registry is untouched. Otherwise `r` holds the
      list of gathered ids handed to `add_mac_apps`; they are disjoint from the
      registry, so the call is never refused, and `addFailAt` is where its
      inserts fail, if anywhere. `persistFails` holds the positions of the
      crawls whose persist fails; the pass ignores such failures. */
  method Summarise(db: CrawlDB, fs: FileSystem, skipMissing: bool, persistFails: set<int>, addFailAt: Option<nat>)
    returns (r: Result<seq<int>>)
    requires db.Valid()
    modifies db
    ensures db.Valid() && db.nextId == old(db.nextId)
    ensures db.rows == Marked(old(db.rows), Halt(old(db.rows), fs, skipMissing), persistFails)
    ensures Halt(old(db.rows), fs, skipMissing) < |old(db.rows)| ==>
              r == Err(CrawlIds(old(db.rows)[Halt(old(db.rows), fs, skipMissing)], fs, skipMissing).error) &&
              db.apps == old(db.apps)
    ensures Halt(old(db.rows), fs, skipMissing) == |old(db.rows)| ==>
              r.Ok? && BatchList.NoDuplicates(r.value) &&
              Elems(r.value) == Collected(old(db.rows), fs, Elems(old(db.apps)), skipMissing, |old(db.rows)|) &&
              db.apps == old(db.apps) + r.value[..if addFailAt.None? || addFailAt.value >= |r.value| then |r.value|
                                                 else addFailAt.value]
  {
    var crawls := db.GetMacCrawls();
    var apps := db.GetMacApps();
    ghost var stop;
    var failure, gathered;
    failure, stop, gathered := VisitAll(db, crawls, db.rows, apps, fs, skipMissing, persistFails);
    if failure.Some? {
      return Err(failure.value);
    }
    var list := ListOf(gathered);
    var added := db.AddMacApps(list, addFailAt);
    r := Ok(list);
  }

  /** Once a pass got past every crawl with no persist failing, a second pass
      reads nothing, marks nothing and hands an empty list to `add_mac_apps`,
      whatever the registry holds by then. */
  lemma SecondPassIsNoOp(rows: seq<CrawlRow>, fs: FileSystem, existing: set<int>, skipMissing: bool,
                         persistFails: set<int>)
    requires Halt(rows, fs, skipMissing) == |rows|
    ensures var after := Marked(rows, |rows|, {});
            Halt(after, fs, skipMissing) == |after| &&
            Collected(after, fs, existing, skipMissing, |after|) == {} &&
            Marked(after, |after|, persistFails) == after
  {
    var after := Marked(rows, |rows|, {});
    assert forall k :: 0 <= k < |after| ==> !Eligible(after[k]);
    HaltAt(after, fs, skipMissing, |after|);
  }

  /** As written, an artifact entry without a trackId stops the pass at its
      crawl, which stays unsummarised: every later pass stops at the same crawl
      with the same KeyError, so no id is ever added again. The corrected
      reading gets past that crawl. */
  lemma StrictPassWedged(rows: seq<CrawlRow>, fs: FileSystem, persistFails: set<int>)
    requires Halt(rows, fs, false) < |rows|
    requires CrawlIds(rows[Halt(rows, fs, false)], fs, false) == Err(KeyError)
    ensures var h := Halt(rows, fs, false);
            var after := Marked(rows, h, persistFails);
            Halt(after, fs, false) == h && CrawlIds(after[h], fs, false) == Err(KeyError)
    ensures CrawlIds(rows[Halt(rows, fs, false)], fs, true).Ok?
  {
    var h := Halt(rows, fs, false);
    var after := Marked(rows, h, persistFails);
    forall k | 0 <= k < h
      ensures Passes(after[k], fs, false)
    {
      if after[k] != rows[k] {
        assert !Eligible(after[k]);
      }
    }
    assert after[h] == rows[h];
    HaltAt(after, fs, false, h);
  }

  /** An artifact with one entry lacking its trackId. */
  lemma MissingTrackIdStopsPass()
    ensures var row := CrawlRow(1, "de", "file:///a", false, "daily", false);
            var fs := map["/a" := [Entry(None)]];
            CrawlIds(row, fs, false) == Err(KeyError) && CrawlIds(row, fs, true) == Ok({})
  {
    var row := CrawlRow(1, "de", "file:///a", false, "daily", false);
    assert StartsWith(row.outfile, Schedule.FileScheme);
    assert row.outfile[|Schedule.FileScheme|..] == "/a";
    var entries := [Entry(None)];
    assert entries[0].trackId.None?;
    assert IdsIn(entries) == {};
  }

  /** One finished crawl whose artifact holds ids 10 and 20 and an entry
      without an id, against a registry that knows 10: with the corrected
      reading the pass adds 20 and marks the crawl summarised. */
  method KnownAndNewIds(db: CrawlDB) returns (r: Result<seq<int>>)
    requires db.Valid() && db.apps == [10]
    requires db.rows == [CrawlRow(1, "de", "file:///a", false, "daily", false)]
    modifies db
    ensures r == Ok([20]) && db.apps == [10, 20]
    ensures db.rows == [CrawlRow(1, "de", "file:///a", false, "daily", true)]
  {
    var row := CrawlRow(1, "de", "file:///a", false, "daily", false);
    var entries := [Entry(Some(10)), Entry(Some(20)), Entry(None)];
    var fs := map["/a" := entries];
    assert StartsWith(row.outfile, Schedule.FileScheme);
    assert row.outfile[|Schedule.FileScheme|..] == "/a";
    assert IdsIn(entries) == {10, 20} by {
      assert entries[0].trackId.value == 10 && entries[1].trackId.value == 20;
    }
    assert CrawlIds(row, fs, true) == Ok({10, 20});
    HaltAt([row], fs, true, 1);
    assert Collected([row], fs, {10}, true, 1) == {20};
    r := Summarise(db, fs, true, {}, None);
    assert Elems(r.value) == {20};
    DistinctCount(r.value);
    assert |r.value| == 1;
    assert r.value[0] in Elems(r.value);
    assert r.value == [20];
    assert db.apps == [10] + [20];
  }
}
