/** schedule.py: starting a scrapyd crawl of one store and bookkeeping its
    completion. The clock, the file system and the outcome of each database
    call are inputs; scrapyd is represented by the request it receives. */
module Schedule {
  import opened Wrappers
  import opened Text
  import opened Files
  import opened PgStore

  const OutputBasedir := "/root/crawl_res/"
  const OutputFormat := "jsonlines"
  /** Scrapy wants local feed URIs to carry this prefix. */
  const FileScheme := "file://"

  /** A reading of `datetime.now()`. */
  datatype Timestamp = Timestamp(year: int, month: int, day: int, hour: int, minute: int, second: int)

  /** The range of Python's `datetime` (months are not told apart by length). */
  predicate ValidTimestamp(t: Timestamp)
  {
    1 <= t.year <= 9999 && 1 <= t.month <= 12 && 1 <= t.day <= 31 &&
    0 <= t.hour < 24 && 0 <= t.minute < 60 && 0 <= t.second < 60
  }

  /** `strftime("%Y-%m-%dT%H-%M-%S")`: every field but the year is zero-padded to
      two digits; the C library prints the year without padding. */
  function Datestring(t: Timestamp): (s: string)
    requires ValidTimestamp(t)
    ensures |s| == |NatToString(t.year)| + 15
    ensures forall k :: 0 <= k < |s| ==> IsDigit(s[k]) || s[k] == '-' || s[k] == 'T'
  {
    NatToString(t.year) + TimeOfYear(t)
  }

  /** The part of the date string after the year: `-mm-ddTHH-MM-SS`. */
  function TimeOfYear(t: Timestamp): (s: string)
    requires ValidTimestamp(t)
    ensures |s| == 15
    ensures forall k :: 0 <= k < |s| ==> IsDigit(s[k]) || s[k] == '-' || s[k] == 'T'
  {
    "-" + Pad2(t.month) + "-" + Pad2(t.day) + "T" + Pad2(t.hour) + "-" + Pad2(t.minute) + "-" + Pad2(t.second)
  }

  /** Years from 1000 on give the documented `YYYY-mm-ddTHH-MM-SS` layout. */
  lemma DatestringLayout(t: Timestamp)
    requires ValidTimestamp(t) && 1000 <= t.year
    ensures var s := Datestring(t);
            |s| == 19 && s[4] == '-' && s[7] == '-' && s[10] == 'T' && s[13] == '-' && s[16] == '-'
  {
    NatToStringFourDigits(t.year);
  }

  /** The shape of a date string, read from its end (the year has no fixed width). */
  predicate IsDatestring(s: string)
  {
    |s| >= 16 &&
    var n := |s| - 15;
    AllDigits(s[..n]) && s[n] == '-' && AllDigits(s[n + 1..n + 3]) && s[n + 3] == '-' &&
    AllDigits(s[n + 4..n + 6]) && s[n + 6] == 'T' && AllDigits(s[n + 7..n + 9]) &&
    s[n + 9] == '-' && AllDigits(s[n + 10..n + 12]) && s[n + 12] == '-' && AllDigits(s[n + 13..])
  }

  function ParseDatestring(s: string): (t: Option<Timestamp>)
    ensures t.Some? <==> IsDatestring(s)
  {
    if !IsDatestring(s) then None
    else
      var n := |s| - 15;
      Some(Timestamp(ParseNat(s[..n]), ParseNat(s[n + 1..n + 3]), ParseNat(s[n + 4..n + 6]),
                     ParseNat(s[n + 7..n + 9]), ParseNat(s[n + 10..n + 12]), ParseNat(s[n + 13..])))
  }

  /** Where the fields sit in a string laid out as a date string. */
  lemma DatestringFields(y: string, mo: string, d: string, h: string, mi: string, se: string)
    requires |mo| == 2 && |d| == 2 && |h| == 2 && |mi| == 2 && |se| == 2
    ensures var s := y + ("-" + mo + "-" + d + "T" + h + "-" + mi + "-" + se);
            var n := |y|;
            |s| == n + 15 && s[..n] == y && s[n] == '-' && s[n + 1..n + 3] == mo && s[n + 3] == '-' &&
            s[n + 4..n + 6] == d && s[n + 6] == 'T' && s[n + 7..n + 9] == h && s[n + 9] == '-' &&
            s[n + 10..n + 12] == mi && s[n + 12] == '-' && s[n + 13..] == se
  {
  }

  /** A date string names its moment: parsing it gives the timestamp back. */
  lemma DatestringRoundTrip(t: Timestamp)
    requires ValidTimestamp(t)
    ensures ParseDatestring(Datestring(t)) == Some(t)
  {
    DatestringFields(NatToString(t.year), Pad2(t.month), Pad2(t.day), Pad2(t.hour), Pad2(t.minute), Pad2(t.second));
    ParseNatToString(t.year);
  }

  lemma DatestringInjective(t1: Timestamp, t2: Timestamp)
    requires ValidTimestamp(t1) && ValidTimestamp(t2) && Datestring(t1) == Datestring(t2)
    ensures t1 == t2
  {
    DatestringRoundTrip(t1);
    DatestringRoundTrip(t2);
  }

  /** The artifact name of a crawl of store `cc` started at `t`, as the name
      components joined by "_" give it. */
  function OutputName(cc: string, t: Timestamp): string
    requires ValidTimestamp(t)
  {
    "mac_apps_" + (cc + "_" + Datestring(t)) + "." + OutputFormat
  }

  function OutputPath(cc: string, t: Timestamp): string
    requires ValidTimestamp(t)
  {
    OutputBasedir + OutputName(cc, t)
  }

  /** `create_output_file`: the feed URI of the new artifact under the output
      directory; an existing file fails the assertion. */
  function CreateOutputFile(cc: string, t: Timestamp, fs: FileSystem): (r: Result<string>)
    requires ValidTimestamp(t)
    ensures r.Err? <==> OutputPath(cc, t) in fs
    ensures r.Err? ==> r.error == AssertionError
    ensures r.Ok? ==> r.value == FileScheme + OutputPath(cc, t)
  {
    var parts := ["mac_apps", cc, Datestring(t)];
    assert Join(parts[1..], "_") == cc + "_" + Datestring(t) by {
      assert parts[1..][1..] == [Datestring(t)];
    }
    var name := Join(parts, "_") + "." + OutputFormat;
    assert name == OutputName(cc, t);
    assert name[0] == 'm' && EndsWith(OutputBasedir, "/");
    var path := PathJoin(OutputBasedir, name);
    if path in fs then Err(AssertionError) else Ok(FileScheme + path)
  }

  lemma CancelPrefix(p: string, x1: string, x2: string)
    requires p + x1 == p + x2
    ensures x1 == x2
  {
    assert x1 == (p + x1)[|p|..];
    assert x2 == (p + x2)[|p|..];
  }

  lemma CancelAffixes(p: string, x1: string, x2: string, q: string)
    requires p + x1 + q == p + x2 + q
    ensures x1 == x2
  {
    assert x1 == (p + x1 + q)[|p|..|p| + |x1|];
    assert x2 == (p + x2 + q)[|p|..|p| + |x2|];
  }

  lemma SplitAtLength(p1: string, r1: string, p2: string, r2: string)
    requires p1 + r1 == p2 + r2 && |r1| == |r2|
    ensures p1 == p2 && r1 == r2
  {
    assert p1 == (p1 + r1)[..|p1|];
    assert p2 == (p2 + r2)[..|p2|];
    assert r1 == (p1 + r1)[|p1|..];
    assert r2 == (p2 + r2)[|p2|..];
  }

  /** The text after the last "_" of a name is recovered when it is all digits. */
  lemma UnderscoreDigits(a: string, y: string, b: string, z: string)
    requires |y| > 0 && |z| > 0 && AllDigits(y) && AllDigits(z)
    requires a + "_" + y == b + "_" + z
    ensures a == b && y == z
  {
    var s := a + "_" + y;
    assert s[|a|] == '_';
    assert (b + "_" + z)[|b|] == '_';
    assert forall k :: |a| < k < |s| ==> IsDigit(s[k]) by {
      forall k | |a| < k < |s| ensures IsDigit(s[k]) {
        assert s[k] == y[k - |a| - 1];
      }
    }
    assert forall k :: |b| < k < |s| ==> IsDigit(s[k]) by {
      forall k | |b| < k < |s| ensures IsDigit(s[k]) {
        assert s[k] == (b + "_" + z)[k] == z[k - |b| - 1];
      }
    }
    assert |y| == |z|;
    SplitAtLength(a + "_", y, b + "_", z);
    SplitAtLength(a, "_", b, "_");
  }

  /** Distinct stores or distinct moments never share an artifact path, whatever
      the store code contains. */
  lemma OutputPathInjective(cc1: string, t1: Timestamp, cc2: string, t2: Timestamp)
    requires ValidTimestamp(t1) && ValidTimestamp(t2)
    ensures OutputPath(cc1, t1) == OutputPath(cc2, t2) <==> cc1 == cc2 && t1 == t2
  {
    if OutputPath(cc1, t1) == OutputPath(cc2, t2) {
      CancelPrefix(OutputBasedir, OutputName(cc1, t1), OutputName(cc2, t2));
      assert OutputName(cc1, t1) == "mac_apps_" + (cc1 + "_" + Datestring(t1)) + ("." + OutputFormat);
      assert OutputName(cc2, t2) == "mac_apps_" + (cc2 + "_" + Datestring(t2)) + ("." + OutputFormat);
      CancelAffixes("mac_apps_", cc1 + "_" + Datestring(t1), cc2 + "_" + Datestring(t2), "." + OutputFormat);
      var y1, y2 := NatToString(t1.year), NatToString(t2.year);
      assert cc1 + "_" + Datestring(t1) == (cc1 + "_" + y1) + TimeOfYear(t1);
      assert cc2 + "_" + Datestring(t2) == (cc2 + "_" + y2) + TimeOfYear(t2);
      SplitAtLength(cc1 + "_" + y1, TimeOfYear(t1), cc2 + "_" + y2, TimeOfYear(t2));
      UnderscoreDigits(cc1, y1, cc2, y2);
      DatestringInjective(t1, t2);
    }
  }

  /** `scrapyd_mac_scrape_finished`: an empty status is an assertion failure;
      otherwise the job is done exactly when scrapyd reports "finished". */
  function ScrapeFinished(status: string): (r: Result<bool>)
    ensures r.Err? <==> status == ""
    ensures r.Err? ==> r.error == AssertionError
    ensures r.Ok? ==> (r.value <==> status == "finished")
  {
    if status == "" then Err(AssertionError) else Ok(status == "finished")
  }

  /** The position of the first crawl row recorded for `outfile`. */
  function FirstWithOutfile(rows: seq<CrawlRow>, outfile: string): (r: Option<nat>)
    ensures r.None? <==> forall k :: 0 <= k < |rows| ==> rows[k].outfile != outfile
    ensures r.Some? ==> r.value < |rows| && rows[r.value].outfile == outfile &&
                        forall k :: 0 <= k < r.value ==> rows[k].outfile != outfile
  {
    if |rows| == 0 then None
    else if rows[0].outfile == outfile then Some(0)
    else match FirstWithOutfile(rows[1..], outfile)
      case None => None
      case Some(i) => Some(i + 1)
  }

  /** `crawl_for_outfile`: a fresh record object for the first row with the
      given outfile, bound to the database; ValueError when there is none. */
  method CrawlForOutfile(db: CrawlDB, outfile: string) returns (r: Result<MacCrawl>)
    ensures r.Err? <==> FirstWithOutfile(db.rows, outfile).None?
    ensures r.Err? ==> r.error == ValueError
    ensures r.Ok? ==> fresh(r.value) && r.value.dbConnection == db &&
                      r.value.Mirrors(db.rows[FirstWithOutfile(db.rows, outfile).value])
  {
    var crawls := db.GetMacCrawls();
    var i := 0;
    while i < |crawls|
      invariant i <= |crawls|
      invariant forall k :: 0 <= k < i ==> db.rows[k].outfile != outfile
    {
      if crawls[i].outfile == outfile {
        return Ok(crawls[i]);
      }
      i := i + 1;
    }
    return Err(ValueError);
  }

  /** What scrapyd is asked to run: project, spider, the feed URI setting and
      the spider arguments. */
  datatype JobRequest = JobRequest(project: string, spider: string, feedUri: string,
                                   countryCode: string, appIndex: string)

  /** `scrapyd_schedule_mac_scraper`: records a new daily crawl in progress,
      then asks scrapyd for the job. The outcome of the insert is not looked
      at: the job is requested even when the record was not stored. */
  method ScheduleMacScraper(db: CrawlDB, cc: string, outfile: string, appIndex: string, storageOk: bool)
    returns (job: JobRequest)
    requires db.Valid()
    modifies db
    ensures job == JobRequest("mac_scraper", "mac_apps", outfile, cc, appIndex)
    ensures db.Valid() && db.apps == old(db.apps)
    ensures db.rows == old(db.rows) +
              (if storageOk then [CrawlRow(old(db.nextId), cc, outfile, true, "daily", false)] else [])
  {
    var crawl := MacCrawl.NewCrawl();
    crawl.store := cc;
    crawl.outfile := outfile;
    crawl.inProgress := true;
    crawl.kind := "daily";
    var _ := db.AddMacCrawl(crawl, storageOk);
    job := JobRequest("mac_scraper", "mac_apps", outfile, cc, appIndex);
  }

  /** One line of the app index file: the id in decimal, a space, a line break. */
  function IndexLine(app: int): string
  {
    IntToString(app) + " " + "\n"
  }

  /** The app index file's text: one line per known app, in registry order. */
  function IndexText(apps: seq<int>): string
  {
    if |apps| == 0 then "" else IndexLine(apps[0]) + IndexText(apps[1..])
  }

  lemma {:induction false} IndexTextAppend(apps: seq<int>, app: int)
    ensures IndexText(apps + [app]) == IndexText(apps) + IndexLine(app)
  {
    if |apps| > 0 {
      assert (apps + [app])[1..] == apps[1..] + [app];
      IndexTextAppend(apps[1..], app);
    }
  }

  /** `mac_apps_index_file`'s write loop: the text written for the registry. */
  method MacAppsIndexFile(db: CrawlDB) returns (text: string)
    ensures text == IndexText(db.apps)
  {
    text := "";
    for i := 0 to |db.apps|
      invariant text == IndexText(db.apps[..i])
    {
      IndexTextAppend(db.apps[..i], db.apps[i]);
      assert db.apps[..i + 1] == db.apps[..i] + [db.apps[i]];
      text := text + IndexLine(db.apps[i]);
    }
    assert db.apps[..|db.apps|] == db.apps;
  }

  /** The lines of an index text as `split("\n")` gives them. */
  function IndexLines(apps: seq<int>): seq<string>
  {
    if |apps| == 0 then [""] else [IntToString(apps[0]) + " "] + IndexLines(apps[1..])
  }

  lemma {:induction false} SplitIndexText(apps: seq<int>)
    ensures Split(IndexText(apps), '\n') == IndexLines(apps)
  {
    if |apps| == 0 {
      assert Split("", '\n') == [""];
    } else {
      var line := IntToString(apps[0]) + " ";
      assert IndexText(apps) == line + ['\n'] + IndexText(apps[1..]);
      assert '\n' !in line by {
        assert forall k :: 0 <= k < |line| - 1 ==> line[k] == IntToString(apps[0])[k];
      }
      SplitCons(line, '\n', IndexText(apps[1..]));
      SplitIndexText(apps[1..]);
    }
  }

  /** Reads index lines back: each line but the last, empty one is an integer
      followed by one space. */
  function ParseIndexLines(lines: seq<string>): Option<seq<int>>
  {
    if |lines| == 0 then None
    else if |lines| == 1 then (if lines[0] == "" then Some([]) else None)
    else
      var line := lines[0];
      if |line| >= 1 && line[|line| - 1] == ' ' && IsIntText(line[..|line| - 1]) then
        match ParseIndexLines(lines[1..])
        case None => None
        case Some(rest) => Some([ParseInt(line[..|line| - 1])] + rest)
      else None
  }

  lemma {:induction false} ParseIndexLinesRoundTrip(apps: seq<int>)
    ensures ParseIndexLines(IndexLines(apps)) == Some(apps)
  {
    if |apps| > 0 {
      var line := IntToString(apps[0]) + " ";
      assert IndexLines(apps)[0] == line && IndexLines(apps)[1..] == IndexLines(apps[1..]);
      assert line[..|line| - 1] == IntToString(apps[0]);
      ParseIntToString(apps[0]);
      ParseIndexLinesRoundTrip(apps[1..]);
      assert [apps[0]] + apps[1..] == apps;
    }
  }

  function ParseIndex(text: string): Option<seq<int>>
  {
    ParseIndexLines(Split(text, '\n'))
  }

  /** The index file lists exactly the registry's ids, in order: reading it
      back line by line gives them all. */
  lemma IndexRoundTrip(apps: seq<int>)
    ensures ParseIndex(IndexText(apps)) == Some(apps)
  {
    SplitIndexText(apps);
    ParseIndexLinesRoundTrip(apps);
  }

  /** The fixed place where the latest artifact of a store is published. */
  function LatestPath(cc: string): string
  {
    "/root/mac_apps_" + cc + "_latest.jsonlines"
  }

  /** The completion steps of `main` once the job has finished: publish the
      artifact under the fixed path, look up its crawl record, clear its
      in-progress flag and persist it (the persist's answer is ignored). The
      copy is made before the lookup, so it stays when the lookup raises;
      `fs'` is the file system afterwards. Removing the temporary app index
      file is not modelled. */
  method CompleteCrawl(db: CrawlDB, fs: FileSystem, cc: string, outfile: string, storageOk: bool)
    returns (r: Result<()>, fs': FileSystem)
    requires db.Valid()
    modifies db
    ensures db.Valid() && db.apps == old(db.apps) && db.nextId == old(db.nextId)
    ensures var src := DropFirst(outfile, |FileScheme|);
            src !in fs ==> r == Err(FileNotFoundError) && fs' == fs && db.rows == old(db.rows)
    ensures var src := DropFirst(outfile, |FileScheme|);
            src in fs && src == LatestPath(cc) ==> r == Err(SameFileError) && fs' == fs && db.rows == old(db.rows)
    ensures var src := DropFirst(outfile, |FileScheme|);
            src in fs && src != LatestPath(cc) ==> fs' == fs[LatestPath(cc) := fs[src]]
    ensures var src := DropFirst(outfile, |FileScheme|);
            src in fs && src != LatestPath(cc) && FirstWithOutfile(old(db.rows), outfile).None? ==>
              r == Err(ValueError) && db.rows == old(db.rows)
    ensures var src := DropFirst(outfile, |FileScheme|);
            src in fs && src != LatestPath(cc) && FirstWithOutfile(old(db.rows), outfile).Some? ==>
              r == Ok(()) &&
              var i := FirstWithOutfile(old(db.rows), outfile).value;
              db.rows == if storageOk then old(db.rows)[i := old(db.rows)[i].(inProgress := false)]
                         else old(db.rows)
  {
    fs' := fs;
    var copied := Copy(fs, DropFirst(outfile, |FileScheme|), LatestPath(cc));
    if copied.Err? {
      return Err(copied.error), fs';
    }
    fs' := copied.value;
    var found := CrawlForOutfile(db, outfile);
    if found.Err? {
      return Err(found.error), fs';
    }
    var entry := found.value;
    ghost var i := FirstWithOutfile(db.rows, outfile).value;
    entry.inProgress := false;
    var _ := entry.Persist(null, storageOk);
    if storageOk {
      UpdateWhereIdHitsOneRow(old(db.rows), i, entry.store, entry.outfile, false, entry.kind, entry.summarised);
    }
    r := Ok(());
  }

  lemma FirstWithOutfileAppended(rows: seq<CrawlRow>, row: CrawlRow, outfile: string)
    requires FirstWithOutfile(rows, outfile).None? && row.outfile == outfile
    ensures FirstWithOutfile(rows + [row], outfile) == Some(|rows|)
  {
    assert (rows + [row])[|rows|] == row;
  }

  /** The published copy never overwrites an artifact: they live in
      different directories. */
  lemma LatestPathIsNotOutputPath(cc: string, cc': string, t: Timestamp)
    requires ValidTimestamp(t)
    ensures LatestPath(cc) != OutputPath(cc', t)
  {
    assert LatestPath(cc)[6] == 'm';
    assert OutputPath(cc', t)[6] == 'c';
  }

  /** The first half of `main`: choose the artifact path, write the app
      index to `indexPath` and schedule the job. */
  method StartCrawl(db: CrawlDB, fs: FileSystem, cc: string, t: Timestamp, indexPath: string, storageOk: bool)
    returns (r: Result<JobRequest>, indexText: string)
    requires db.Valid() && ValidTimestamp(t)
    modifies db
    ensures db.Valid() && db.apps == old(db.apps)
    ensures OutputPath(cc, t) in fs ==> r == Err(AssertionError) && db.rows == old(db.rows)
    ensures OutputPath(cc, t) !in fs ==>
              r == Ok(JobRequest("mac_scraper", "mac_apps", FileScheme + OutputPath(cc, t), cc, indexPath)) &&
              indexText == IndexText(db.apps) &&
              db.rows == old(db.rows) +
                (if storageOk then [CrawlRow(old(db.nextId), cc, FileScheme + OutputPath(cc, t), true, "daily", false)]
                 else [])
  {
    var created := CreateOutputFile(cc, t, fs);
    if created.Err? {
      return Err(created.error), "";
    }
    indexText := MacAppsIndexFile(db);
    var job := ScheduleMacScraper(db, cc, created.value, indexPath, storageOk);
    r := Ok(job);
  }

  /** `main`, with the wait for scrapyd collapsed: the job is started, the
      spider writes `feed` to the artifact, and the completion steps run.
      `scheduleOk` is the outcome of the insert that records the crawl and
      `completeOk` that of the update that clears its in-progress flag. */
  method RunSchedule(db: CrawlDB, fs: FileSystem, cc: string, t: Timestamp, indexPath: string,
                     feed: seq<Entry>, scheduleOk: bool, completeOk: bool) returns (r: Result<()>, fs': FileSystem)
    requires db.Valid() && ValidTimestamp(t)
    modifies db
    ensures db.Valid() && db.apps == old(db.apps)
    ensures OutputPath(cc, t) in fs ==> r == Err(AssertionError) && fs' == fs && db.rows == old(db.rows)
    ensures OutputPath(cc, t) !in fs ==>
              var outfile := FileScheme + OutputPath(cc, t);
              var recorded := old(db.rows) +
                (if scheduleOk then [CrawlRow(old(db.nextId), cc, outfile, true, "daily", false)] else []);
              fs' == fs[OutputPath(cc, t) := feed][LatestPath(cc) := feed] &&
              match FirstWithOutfile(recorded, outfile)
              case None => r == Err(ValueError) && db.rows == recorded
              case Some(i) =>
                r == Ok(()) &&
                db.rows == if completeOk then recorded[i := recorded[i].(inProgress := false)] else recorded
    /** The usual run: no earlier row names the new artifact. */
    ensures OutputPath(cc, t) !in fs && FirstWithOutfile(old(db.rows), FileScheme + OutputPath(cc, t)).None? ==>
              (r.Ok? <==> scheduleOk) &&
              (scheduleOk ==> db.rows == old(db.rows) + [CrawlRow(old(db.nextId), cc, FileScheme + OutputPath(cc, t),
                                                                  !completeOk, "daily", false)])
  {
    var started, _ := StartCrawl(db, fs, cc, t, indexPath, scheduleOk);
    if started.Err? {
      return Err(started.error), fs;
    }
    var outfile := FileScheme + OutputPath(cc, t);
    var written := fs[OutputPath(cc, t) := feed];
    assert DropFirst(outfile, |FileScheme|) == OutputPath(cc, t);
    ghost var row := CrawlRow(old(db.nextId), cc, outfile, true, "daily", false);
    ghost var unseen := FirstWithOutfile(old(db.rows), outfile).None?;
    if scheduleOk && unseen {
      FirstWithOutfileAppended(old(db.rows), row, outfile);
    }
    LatestPathIsNotOutputPath(cc, cc, t);
    ghost var mid := db.rows;
    r, fs' := CompleteCrawl(db, written, cc, outfile, completeOk);
    if scheduleOk && unseen {
      assert mid == old(db.rows) + [row];
      assert mid[|old(db.rows)| := row.(inProgress := false)] == old(db.rows) + [row.(inProgress := false)];
    }
  }
}
