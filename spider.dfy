/** spider.py: the identifier extraction from app links, the URLs the spider
    follows, and the lookup queue it feeds from page callbacks and drains when
    idle. Selecting links out of HTML and sending requests are not modelled:
    the links are inputs and a request is represented by its URL. */
module Spider {
  import opened Wrappers
  import opened Text
  import opened BatchList

  const BatchSize := 100
  const StoreBase := "https://itunes.apple.com/"
  const AppUrlSuffix := "?mt=12"

  /** The length of the run of decimal digits at the end of `s`. */
  function TrailingDigits(s: string): (n: nat)
    ensures n <= |s|
    ensures forall k :: |s| - n <= k < |s| ==> IsDigit(s[k])
    ensures n < |s| ==> !IsDigit(s[|s| - n - 1])
  {
    if |s| == 0 || !IsDigit(s[|s| - 1]) then 0 else TrailingDigits(s[..|s| - 1]) + 1
  }

  lemma {:induction false} TrailingDigitsOf(x: string, d: string)
    requires |x| > 0 && !IsDigit(x[|x| - 1]) && AllDigits(d)
    ensures TrailingDigits(x + d) == |d|
  {
    if |d| > 0 {
      assert (x + d)[..|x + d| - 1] == x + d[..|d| - 1];
      TrailingDigitsOf(x, d[..|d| - 1]);
    } else {
      assert x + d == x;
    }
  }

  /** The text a regular expression's `$` can end at: Python's `$` also
      matches just before one final line break. */
  function AnchorBody(s: string): (b: string)
    ensures s == b || s == b + "\n"
  {
    if |s| > 0 && s[|s| - 1] == '\n' then s[..|s| - 1] else s
  }

  /** `itunes_url_extract_id`: `re.match(r'^.*\/id(\d+)\?mt\=12$', url)`.
      Since `.*` is greedy and the digits run up to "?mt=12", the group is
      the whole run of digits before the suffix, which must follow "/id";
      `.` matches no line break. */
  function ExtractId(url: string): (r: Option<string>)
    ensures r.Some? ==> |r.value| > 0 && AllDigits(r.value)
  {
    var b := AnchorBody(url);
    if !EndsWith(b, AppUrlSuffix) then None
    else
      var core := b[..|b| - |AppUrlSuffix|];
      var n := TrailingDigits(core);
      var p := core[..|core| - n];
      if n > 0 && EndsWith(p, "/id") && '\n' !in p[..|p| - 3] then Some(core[|core| - n..]) else None
  }

  /** A URL the expression accepts, with the id it captures: a prefix without
      line breaks, "/id", a non-empty run of digits, "?mt=12", and possibly
      one final line break. */
  predicate IsAppUrl(url: string, prefix: string, id: string, newline: bool)
  {
    url == prefix + "/id" + id + AppUrlSuffix + (if newline then "\n" else "") &&
    '\n' !in prefix && |id| > 0 && AllDigits(id)
  }

  /** Every URL of the accepted shape yields its id. */
  lemma ExtractIdComplete(url: string, prefix: string, id: string, newline: bool)
    requires IsAppUrl(url, prefix, id, newline)
    ensures ExtractId(url) == Some(id)
  {
    var core := prefix + "/id" + id;
    var b := core + AppUrlSuffix;
    assert b[|b| - 1] == '2';
    assert AnchorBody(url) == b by {
      if newline {
        assert url == b + "\n";
        assert url[..|url| - 1] == b;
      } else {
        assert url == b;
      }
    }
    assert b[..|b| - |AppUrlSuffix|] == core;
    assert (prefix + "/id")[|prefix + "/id"| - 1] == 'd';
    TrailingDigitsOf(prefix + "/id", id);
    assert core[..|core| - |id|] == prefix + "/id";
    assert core[|core| - |id|..] == id;
    assert (prefix + "/id")[..|prefix + "/id"| - 3] == prefix;
  }

  /** Every id extracted comes from a URL of the accepted shape. */
  lemma ExtractIdSound(url: string)
    requires ExtractId(url).Some?
    ensures exists prefix, newline :: IsAppUrl(url, prefix, ExtractId(url).value, newline)
  {
    var b := AnchorBody(url);
    assert EndsWith(b, AppUrlSuffix);
    var core := b[..|b| - |AppUrlSuffix|];
    assert b == core + AppUrlSuffix;
    var n := TrailingDigits(core);
    var p := core[..|core| - n];
    var id := core[|core| - n..];
    assert core == p + id;
    assert EndsWith(p, "/id") && '\n' !in p[..|p| - 3] && ExtractId(url).value == id;
    var prefix := p[..|p| - 3];
    assert p == prefix + "/id";
    var newline := |url| > 0 && url[|url| - 1] == '\n';
    assert url == b + (if newline then "\n" else "");
    assert IsAppUrl(url, prefix, id, newline);
  }

  /** The example in the source's comment. */
  lemma TrelloLinkGivesId()
    ensures ExtractId(StoreBase + "de/app/trello" + "/id" + "1278508951" + AppUrlSuffix) == Some("1278508951")
  {
    var prefix := StoreBase + "de/app/trello";
    assert forall k :: 0 <= k < |prefix| ==> prefix[k] != '\n';
    assert AllDigits("1278508951");
    ExtractIdComplete(StoreBase + "de/app/trello" + "/id" + "1278508951" + AppUrlSuffix, prefix, "1278508951", false);
  }

  /** The store page of app `app`, as linked from the listing pages. */
  function StoreLink(app: nat): string
  {
    StoreBase + "de/app/name" + "/id" + NatToString(app) + AppUrlSuffix
  }

  /** The id extracted from an app's store link is its queue key `str(app)`. */
  lemma StoreLinkGivesKey(app: nat)
    ensures ExtractId(StoreLink(app)) == Some(IntToString(app))
  {
    var prefix := StoreBase + "de/app/name";
    assert forall k :: 0 <= k < |prefix| ==> prefix[k] != '\n';
    ExtractIdComplete(StoreLink(app), prefix, NatToString(app), false);
  }

  /** The start page is not an app link: it has no "?mt=12". */
  lemma GenrePageGivesNoId()
    ensures ExtractId(StoreBase + "de/genre/mac/id39") == None
  {
    var url := StoreBase + "de/genre/mac/id39";
    assert url[|url| - 1] == '9';
    assert AnchorBody(url) == url;
    assert url[|url| - 1] != AppUrlSuffix[|AppUrlSuffix| - 1];
  }

  /** The iTunes lookup URL for a batch of ids. */
  function LookupUrl(cc: string, ids: seq<string>): string
  {
    StoreBase + cc + "/lookup?id=" + Join(ids, ",")
  }

  /** The query of a lookup URL gives the batch back when no id contains a comma. */
  lemma LookupUrlRoundTrip(cc: string, ids: seq<string>)
    requires |ids| > 0 && forall k :: 0 <= k < |ids| ==> ',' !in ids[k]
    ensures var prefix := StoreBase + cc + "/lookup?id=";
            StartsWith(LookupUrl(cc, ids), prefix) &&
            Split(LookupUrl(cc, ids)[|prefix|..], ',') == ids
  {
    var prefix := StoreBase + cc + "/lookup?id=";
    assert LookupUrl(cc, ids) == prefix + Join(ids, [',']);
    assert LookupUrl(cc, ids)[|prefix|..] == Join(ids, [',']);
    SplitJoin(ids, ',');
  }

  /** The ids of a batch that holds no None. */
  function Unwrap(batch: seq<Option<string>>): (ids: seq<string>)
    requires None !in batch
    ensures |ids| == |batch| && forall k :: 0 <= k < |batch| ==> batch[k] == Some(ids[k])
  {
    assert forall k :: 0 <= k < |batch| ==> batch[k] in batch;
    seq(|batch|, k requires 0 <= k < |batch| => if batch[k].Some? then batch[k].value else "")
  }

  /** The lookup URLs for a sequence of batches, one per batch, in order. */
  function DrainUrls(cc: string, batches: seq<seq<Option<string>>>): (urls: seq<string>)
    requires forall i :: 0 <= i < |batches| ==> None !in batches[i]
    ensures |urls| == |batches|
    ensures forall i :: 0 <= i < |batches| ==> urls[i] == LookupUrl(cc, Unwrap(batches[i]))
  {
    if |batches| == 0 then [] else DrainUrls(cc, batches[..|batches| - 1]) + [LookupUrl(cc, Unwrap(batches[|batches| - 1]))]
  }

  /** The queue keys of the apps the spider is started with: `str(app)`. */
  function AppKeys(apps: seq<int>): (keys: seq<Option<string>>)
    ensures |keys| == |apps| && None !in keys
    ensures forall k :: 0 <= k < |apps| ==> keys[k] == Some(IntToString(apps[k]))
  {
    seq(|apps|, k requires 0 <= k < |apps| => Some(IntToString(apps[k])))
  }

  /** Distinct known apps are all queued, in the given order. */
  lemma SeedingKeepsAllApps(apps: seq<int>)
    requires NoDuplicates(apps)
    ensures Enqueue([], [], AppKeys(apps)) == AppKeys(apps)
  {
    var keys := AppKeys(apps);
    forall i, j | 0 <= i < j < |keys| ensures keys[i] != keys[j] {
      if keys[i] == keys[j] {
        IntToStringInjective(apps[i], apps[j]);
        assert false;
      }
    }
    assert [] + [] + keys == keys;
    EnqueueFresh([], [], keys);
  }

  /** The key the corrected add enqueues for one link: its id, if it is an
      app link. */
  function FoundId(link: string): (keys: seq<Option<string>>)
    ensures None !in keys && |keys| <= 1
    ensures ExtractId(link).Some? <==> keys == [ExtractId(link)]
  {
    var id := ExtractId(link);
    if id.Some? then [id] else []
  }

  /** The keys the link handler as written enqueues: one extraction result
      per link, None for a link that is not an app link. */
  function ExtractedKeys(links: seq<string>): (keys: seq<Option<string>>)
    ensures |keys| == |links|
    ensures forall k :: 0 <= k < |links| ==> keys[k] == ExtractId(links[k])
  {
    seq(|links|, k requires 0 <= k < |links| => ExtractId(links[k]))
  }

  lemma ExtractedKeysAppend(links: seq<string>, i: nat)
    requires i < |links|
    ensures ExtractedKeys(links[..i + 1]) == ExtractedKeys(links[..i]) + [ExtractId(links[i])]
  {
    var a, b := ExtractedKeys(links[..i + 1]), ExtractedKeys(links[..i]) + [ExtractId(links[i])];
    assert |a| == |b|;
    forall k | 0 <= k < |a|
      ensures a[k] == b[k]
    {
      assert links[..i + 1][k] == links[k];
    }
  }

  /** Through the add as written, a page with one link that is not an app
      link leaves None pending, unless None was handed out before. */
  lemma NonAppLinkQueuesNone(items: seq<Option<string>>, history: seq<Option<string>>, links: seq<string>, k: nat)
    requires k < |links| && ExtractId(links[k]).None? && None !in history
    ensures None in Enqueue(items, history, ExtractedKeys(links))
  {
    assert ExtractedKeys(links)[k] == None;
  }

  /** The keys the corrected link handler enqueues: the ids of the app links only. */
  function FoundIds(links: seq<string>): (keys: seq<Option<string>>)
    ensures None !in keys && |keys| <= |links|
  {
    if |links| == 0 then [] else FoundIds(links[..|links| - 1]) + FoundId(links[|links| - 1])
  }

  lemma FoundIdsAppend(links: seq<string>, i: nat)
    requires i < |links|
    ensures FoundIds(links[..i + 1]) == FoundIds(links[..i]) + FoundId(links[i])
  {
    assert links[..i + 1][..i] == links[..i];
  }

  lemma EnqueueStep<T>(items: seq<T>, history: seq<T>, xs: seq<T>, x: T)
    ensures Enqueue(items, history, xs + [x]) ==
            var before := Enqueue(items, history, xs);
            if x in before || x in history then before else before + [x]
  {
    assert (xs + [x])[..|xs|] == xs;
  }

  /** No batch holds None. */
  predicate NoNoneBatch(batches: seq<seq<Option<string>>>)
  {
    forall i :: 0 <= i < |batches| ==> None !in batches[i]
  }

  lemma DrainAppend(cc: string, bs: seq<seq<Option<string>>>, b: seq<Option<string>>)
    requires NoNoneBatch(bs) && None !in b
    ensures NoNoneBatch(bs + [b])
    ensures DrainUrls(cc, bs + [b]) == DrainUrls(cc, bs) + [LookupUrl(cc, Unwrap(b))]
  {
    assert (bs + [b])[..|bs|] == bs;
  }

  /** No pending key is None, so every batch turns into a lookup URL. */
  predicate OnlyIds(items: seq<Option<string>>)
  {
    None !in items
  }

  class MacAppSpider {
    const countryCode: string
    /** The lookup queue, batch size 100. */
    const queue: BatchedList<Option<string>>
    var startUrls: seq<string>

    ghost predicate Valid()
      reads this, queue
    {
      queue.Valid() && queue.batchSize == BatchSize
    }

    /** `__init__`: the store defaults to "de"; every known app is queued as
        `str(app)` and the store's Mac genre page becomes the start URL. */
    constructor (knownApps: seq<int>, countryCode: Option<string>)
      ensures Valid() && fresh(queue)
      ensures this.countryCode == (if countryCode.Some? then countryCode.value else "de")
      ensures queue.items == Enqueue([], [], AppKeys(knownApps)) && queue.history == []
      ensures startUrls == [StoreBase + this.countryCode + "/genre/mac/id39"]
    {
      this.countryCode := if countryCode.Some? then countryCode.value else "de";
      queue := new BatchedList<Option<string>>(BatchSize);
      new;
      AddKeys(AppKeys(knownApps));
      startUrls := [StoreBase + this.countryCode + "/genre/mac/id39"];
    }

    /** The constructor's loop: each key is added in turn. */
    method AddKeys(keys: seq<Option<string>>)
      requires Valid()
      modifies queue
      ensures Valid() && queue.history == old(queue.history)
      ensures queue.items == Enqueue(old(queue.items), old(queue.history), keys)
    {
      for i := 0 to |keys|
        invariant Valid() && queue.history == old(queue.history)
        invariant queue.items == Enqueue(old(queue.items), old(queue.history), keys[..i])
      {
        assert keys[..i + 1] == keys[..i] + [keys[i]];
        EnqueueAppend(old(queue.items), old(queue.history), keys[..i], [keys[i]]);
        AddKey(keys[i]);
      }
      assert keys[..|keys|] == keys;
    }

    /** `apps_queued.add(key)`. */
    method AddKey(key: Option<string>)
      requires Valid()
      modifies queue
      ensures Valid() && queue.history == old(queue.history)
      ensures queue.items == Enqueue(old(queue.items), old(queue.history), [key])
    {
      EnqueueStep(queue.items, queue.history, [], key);
      assert [] + [key] == [key];
      queue.Add(key);
    }

    /** `queued_apps_add` as written: the extraction result is queued as is,
        so a link that is not an app link queues None. */
    method QueuedAppsAdd(url: string)
      requires Valid()
      modifies queue
      ensures Valid() && queue.history == old(queue.history)
      ensures queue.items == Enqueue(old(queue.items), old(queue.history), [ExtractId(url)])
    {
      AddKey(ExtractId(url));
    }

    /** `queued_apps_add` as evidently intended: only app links queue an id. */
    method QueuedAppsAddChecked(url: string)
      requires Valid()
      modifies queue
      ensures Valid() && queue.history == old(queue.history)
      ensures OnlyIds(old(queue.items)) ==> OnlyIds(queue.items)
      ensures queue.items == Enqueue(old(queue.items), old(queue.history), FoundId(url))
    {
      var id := ExtractId(url);
      if id.Some? {
        AddKey(id);
      }
    }

    /** `queued_apps_get_request`: draws a batch; None when the queue has none
        to give, otherwise the lookup URL of the batch. Joining a batch that
        holds None raises TypeError after the batch has been drawn. */
    method QueuedAppsGetRequest(onlyFull: bool := true) returns (r: Result<Option<string>>)
      requires Valid()
      modifies queue
      ensures Valid()
      ensures NextBatch(old(queue.items), BatchSize, onlyFull).None? ==>
                r == Ok(None) && queue.items == old(queue.items) && queue.history == old(queue.history)
      ensures NextBatch(old(queue.items), BatchSize, onlyFull).Some? ==>
                var taken := NextBatch(old(queue.items), BatchSize, onlyFull).value;
                queue.items == old(queue.items)[|taken|..] &&
                queue.history == old(queue.history) + taken &&
                (None in taken ==> r == Err(TypeError)) &&
                (None !in taken ==> r == Ok(Some(LookupUrl(countryCode, Unwrap(taken)))))
    {
      var batch := queue.GetBatch(onlyFull);
      if batch.None? {
        return Ok(None);
      }
      if None in batch.value {
        return Err(TypeError);
      }
      r := Ok(Some(LookupUrl(countryCode, Unwrap(batch.value))));
    }

    /** `spider_idle`: for this spider, requests partial batches until the
        queue is empty, so every pending id is looked up, in order, in batches
        of at most 100. A None in the queue raises TypeError on the way;
        another spider's idle signal is ignored. */
    method SpiderIdle(other: MacAppSpider) returns (requests: seq<string>, failure: Option<Error>)
      requires Valid()
      modifies queue
      ensures Valid()
      ensures other != this ==>
                requests == [] && failure.None? &&
                queue.items == old(queue.items) && queue.history == old(queue.history)
      ensures other == this && OnlyIds(old(queue.items)) ==>
                failure.None? && queue.items == [] &&
                queue.history == old(queue.history) + old(queue.items) &&
                requests == DrainUrls(countryCode, Chunks(old(queue.items), BatchSize))
      ensures other == this && !OnlyIds(old(queue.items)) ==> failure == Some(TypeError)
      ensures failure.Some? ==>
                failure == Some(TypeError) &&
                exists done, bad ::
                  Chunks(old(queue.items), BatchSize) == done + [bad] + Chunks(queue.items, BatchSize) &&
                  NoNoneBatch(done) && None in bad && requests == DrainUrls(countryCode, done) &&
                  queue.history == old(queue.history) + Flatten(done) + bad
    {
      requests, failure := [], None;
      if other == this {
        requests, failure := DrainQueue();
      }
    }

    /** The state of the drain loop started on pending items `start` with
        history `startHistory`: `done` are the batches drawn so far, the first
        chunks of `start`, and `requests` their lookup URLs. */
    ghost predicate Draining(start: seq<Option<string>>, startHistory: seq<Option<string>>,
                             done: seq<seq<Option<string>>>, requests: seq<string>)
      reads this, queue
    {
      && Valid()
      && Chunks(start, BatchSize) == done + Chunks(queue.items, BatchSize)
      && queue.history == startHistory + Flatten(done)
      && NoNoneBatch(done) && requests == DrainUrls(countryCode, done)
      && (!OnlyIds(start) ==> !OnlyIds(queue.items))
      && (OnlyIds(start) ==> OnlyIds(queue.items))
    }

    /** The drain loop of `spider_idle`. */
    method DrainQueue() returns (requests: seq<string>, failure: Option<Error>)
      requires Valid()
      modifies queue
      ensures Valid()
      ensures OnlyIds(old(queue.items)) ==>
                failure.None? && queue.items == [] &&
                queue.history == old(queue.history) + old(queue.items) &&
                requests == DrainUrls(countryCode, Chunks(old(queue.items), BatchSize))
      ensures !OnlyIds(old(queue.items)) ==> failure == Some(TypeError)
      ensures failure.Some? ==>
                failure == Some(TypeError) &&
                exists done, bad ::
                  Chunks(old(queue.items), BatchSize) == done + [bad] + Chunks(queue.items, BatchSize) &&
                  NoNoneBatch(done) && None in bad && requests == DrainUrls(countryCode, done) &&
                  queue.history == old(queue.history) + Flatten(done) + bad
    {
      requests, failure := [], None;
      ghost var done: seq<seq<Option<string>>> := [];
      while true
        invariant Draining(old(queue.items), old(queue.history), done, requests)
        decreases |queue.items|
      {
        var request;
        ghost var bad;
        request, done, requests, bad := DrainStep(old(queue.items), old(queue.history), done, requests);
        if request.Err? {
          return requests, Some(request.error);
        }
        if request.value.None? {
          break;
        }
      }
      assert Chunks(queue.items, BatchSize) == [];
      assert done + [] == done;
    }

    /** One pass of the drain loop, with its effect on the loop state. */
    method DrainStep(ghost start: seq<Option<string>>, ghost startHistory: seq<Option<string>>,
                     ghost done: seq<seq<Option<string>>>, requests: seq<string>)
      returns (r: Result<Option<string>>, ghost done': seq<seq<Option<string>>>, requests': seq<string>,
               ghost bad: seq<Option<string>>)
      requires Draining(start, startHistory, done, requests)
      modifies queue
      ensures Valid()
      ensures old(queue.items) != [] ==> (r.Err? <==> None in NextBatch(old(queue.items), BatchSize, false).value)
      ensures r.Err? ==> r.error == TypeError && !OnlyIds(start) && done' == done && requests' == requests
      ensures r.Err? ==>
                Chunks(start, BatchSize) == done + [bad] + Chunks(queue.items, BatchSize) &&
                NoNoneBatch(done) && None in bad && requests == DrainUrls(countryCode, done) &&
                queue.history == startHistory + Flatten(done) + bad
      ensures r.Ok? && r.value.None? ==> queue.items == [] && Draining(start, startHistory, done', requests')
      ensures r.Ok? && r.value.Some? ==>
                |queue.items| < |old(queue.items)| && Draining(start, startHistory, done', requests')
    {
      ghost var taken;
      r, taken := DrawLookup();
      done', requests', bad := done, requests, taken;
      if r.Err? {
        ConcatAssoc(done, [taken], Chunks(queue.items, BatchSize));
        assert Chunks(start, BatchSize)[|done|] == taken;
      } else if r.value.Some? {
        ConcatAssoc(done, [taken], Chunks(queue.items, BatchSize));
        FlattenAppend(done, taken);
        ConcatAssoc(startHistory, Flatten(done), taken);
        DrainAppend(countryCode, done, taken);
        requests' := requests + [r.value.value];
        done' := done + [taken];
      }
    }

    /** One pass of the drain loop: the partial batch drawn is the first of
        the chunks of the pending items, and the rest are the chunks of what
        remains pending. */
    method DrawLookup() returns (r: Result<Option<string>>, ghost taken: seq<Option<string>>)
      requires Valid()
      modifies queue
      ensures Valid()
      ensures r.Ok? && r.value.None? ==>
                old(queue.items) == [] && queue.items == [] && queue.history == old(queue.history)
      ensures r.Ok? && r.value.Some? ==>
                Chunks(old(queue.items), BatchSize) == [taken] + Chunks(queue.items, BatchSize) &&
                queue.history == old(queue.history) + taken &&
                None !in taken && r.value.value == LookupUrl(countryCode, Unwrap(taken))
      ensures r.Err? ==>
                r.error == TypeError &&
                Chunks(old(queue.items), BatchSize) == [taken] + Chunks(queue.items, BatchSize) &&
                queue.history == old(queue.history) + taken && None in taken
      ensures old(queue.items) != [] ==>
                taken == NextBatch(old(queue.items), BatchSize, false).value &&
                (r.Err? <==> None in taken)
      ensures OnlyIds(old(queue.items)) ==> r.Ok? && OnlyIds(queue.items)
      ensures !OnlyIds(old(queue.items)) ==>
                r == Err(TypeError) || (r.Ok? && r.value.Some? && !OnlyIds(queue.items))
    {
      ghost var before := queue.items;
      r := QueuedAppsGetRequest(false);
      taken := [];
      if |before| > 0 {
        ChunksStep(before, BatchSize);
        taken := NextBatch(before, BatchSize, false).value;
        assert before == taken + queue.items;
      }
    }

    /** `parse_alphabetical_page`'s callback `parse_application_names` as
        written: every link on the page goes through the unfiltered add, then
        only a full batch is requested. A link that is not an app link queues
        None (unless None was already handed out), and the request for a full
        batch holding it raises TypeError. */
    method ParseApplicationNames(links: seq<string>) returns (r: Result<Option<string>>)
      requires Valid()
      modifies queue
      ensures Valid()
      ensures var pending := Enqueue(old(queue.items), old(queue.history), ExtractedKeys(links));
              if |pending| >= BatchSize then
                var taken := pending[..BatchSize];
                queue.items == pending[BatchSize..] && queue.history == old(queue.history) + taken &&
                r == (if None in taken then Err(TypeError) else Ok(Some(LookupUrl(countryCode, Unwrap(taken)))))
              else
                r == Ok(None) && queue.items == pending && queue.history == old(queue.history)
    {
      for i := 0 to |links|
        invariant Valid() && queue.history == old(queue.history)
        invariant queue.items == Enqueue(old(queue.items), old(queue.history), ExtractedKeys(links[..i]))
      {
        ExtractedKeysAppend(links, i);
        EnqueueAppend(old(queue.items), old(queue.history), ExtractedKeys(links[..i]), [ExtractId(links[i])]);
        QueuedAppsAdd(links[i]);
      }
      assert links[..|links|] == links;
      ghost var pending := queue.items;
      r := QueuedAppsGetRequest(true);
      if |pending| >= BatchSize {
        assert NextBatch(pending, BatchSize, true) == Some(pending[..BatchSize]);
      }
    }

    /** `parse_application_names` with the corrected add: only app links queue
        an id, so on a queue without None the request never raises. */
    method ParseApplicationNamesChecked(links: seq<string>) returns (r: Result<Option<string>>)
      requires Valid()
      modifies queue
      ensures Valid()
      ensures var pending := Enqueue(old(queue.items), old(queue.history), FoundIds(links));
              if |pending| >= BatchSize then
                var taken := pending[..BatchSize];
                queue.items == pending[BatchSize..] && queue.history == old(queue.history) + taken &&
                r == (if None in taken then Err(TypeError) else Ok(Some(LookupUrl(countryCode, Unwrap(taken)))))
              else
                r == Ok(None) && queue.items == pending && queue.history == old(queue.history)
      ensures OnlyIds(old(queue.items)) ==> r.Ok?
    {
      for i := 0 to |links|
        invariant Valid() && queue.history == old(queue.history)
        invariant queue.items == Enqueue(old(queue.items), old(queue.history), FoundIds(links[..i]))
        invariant OnlyIds(old(queue.items)) ==> OnlyIds(queue.items)
      {
        FoundIdsAppend(links, i);
        EnqueueAppend(old(queue.items), old(queue.history), FoundIds(links[..i]), FoundId(links[i]));
        QueuedAppsAddChecked(links[i]);
      }
      assert links[..|links|] == links;
      ghost var pending := queue.items;
      r := QueuedAppsGetRequest(true);
      if |pending| >= BatchSize {
        assert NextBatch(pending, BatchSize, true) == Some(pending[..BatchSize]);
        if OnlyIds(old(queue.items)) {
          assert None !in pending[..BatchSize];
        }
      }
    }
  }

  /** `^.*letter=([A-Z])$`: a link to one upper-case letter's page. */
  predicate IsLetterHref(href: string)
  {
    var b := AnchorBody(href);
    |b| >= 8 && 'A' <= b[|b| - 1] <= 'Z' && b[|b| - 8..|b| - 1] == "letter=" && '\n' !in b[..|b| - 8]
  }

  /** `parse_genre`: the pages followed for one alphabetical link, in order:
      the link itself, then, for a letter link, the link with its last
      character lower-cased. */
  function AlphaFollows(href: string): (r: seq<string>)
    ensures |r| > 0 && r[0] == href
    ensures |r| == 2 <==> IsLetterHref(href)
  {
    if IsLetterHref(href) then [href, href[..|href| - 1] + [LowerChar(href[|href| - 1])]] else [href]
  }

  /** For a letter link the second page is the lower-case letter's page. */
  lemma LetterLinkAlsoLowercase(href: string)
    requires IsLetterHref(href) && href[|href| - 1] != '\n'
    ensures var second := AlphaFollows(href)[1];
            |second| == |href| && second[..|href| - 1] == href[..|href| - 1] &&
            'a' <= second[|href| - 1] <= 'z' && second != href
  {
  }

  /** The expression also accepts a letter link that ends in a line break; the
      last character lower-cased is then the line break, and the same page is
      followed twice. */
  lemma LetterLinkWithNewline(href: string)
    requires IsLetterHref(href) && href[|href| - 1] == '\n'
    ensures AlphaFollows(href) == [href, href]
  {
    assert href[..|href| - 1] + [href[|href| - 1]] == href;
  }

  /** `parse_alphabetical_page`: the listing pages followed for a page at
      `url` with the given pagination links. */
  function PaginationUrls(url: string, subPages: seq<string>): seq<string>
  {
    if |subPages| == 0 then [url + "&page=1#page", url + "&page=2#page"]
    else subPages + [url + "&page=" + IntToString(|subPages| + 1) + "#page"]
  }

  /** All listed pages are followed, plus one page past the last listed one
      (a page without pagination links counts as listing page 1 only). */
  lemma PaginationGoesOnePastTheEnd(url: string, subPages: seq<string>)
    ensures var r := PaginationUrls(url, subPages);
            var last := if |subPages| == 0 then 1 else |subPages|;
            |r| == last + 1 &&
            r[|r| - 1] == url + "&page=" + IntToString(last + 1) + "#page" &&
            (|subPages| > 0 ==> r[..|subPages|] == subPages) &&
            (|subPages| == 0 ==> r[0] == url + "&page=1#page")
  {
    if |subPages| == 0 {
      assert IntToString(2) == "2";
    }
  }

  /** A queue holding one key is drained by one lookup of that key. */
  lemma SingleKeyDrain(cc: string, key: string)
    ensures Chunks([Some(key)], BatchSize) == [[Some(key)]]
    ensures DrainUrls(cc, [[Some(key)]]) == [LookupUrl(cc, [key])]
  {
    assert Unwrap([Some(key)]) == [key];
  }

  /** A link that is not an app link queues None through the add as written;
      the first request of the idle drain then fails on the batch holding it,
      here on a spider seeded with the known app 7. */
  method NonAppLinkBreaksLookup(spider: MacAppSpider) returns (failure: Option<Error>)
    requires spider.Valid() && spider.queue.items == [Some("7")] && spider.queue.history == []
    modifies spider.queue
    ensures failure == Some(TypeError) && spider.queue.history == [Some("7"), None]
  {
    GenrePageGivesNoId();
    EnqueueOne([Some("7")], [], None);
    spider.QueuedAppsAdd(StoreBase + "de/genre/mac/id39");
    assert spider.queue.items == [Some("7"), None];
    assert NextBatch([Some("7"), None], BatchSize, false) == Some([Some("7"), None]);
    var request := spider.QueuedAppsGetRequest(false);
    failure := if request.Err? then Some(request.error) else None;
  }

  /** The known app drawn in the failed batch is never looked up, and when
      its link is found again the queue refuses it. */
  lemma FailedBatchLosesApp(history: seq<Option<string>>)
    requires history == [Some("7"), None]
    ensures Enqueue([], history, FoundId(StoreLink(7))) == []
  {
    StoreLinkGivesKey(7);
    assert IntToString(7) == "7";
    EnqueueOne([], history, Some("7"));
  }

  /** With the corrected add the same page queues nothing and the drain looks
      up the known app. */
  method CheckedAddKeepsLookupWorking() returns (requests: seq<string>, failure: Option<Error>)
    ensures failure.None? && requests == [LookupUrl("de", ["7"])]
  {
    var spider := new MacAppSpider([7], None);
    SeedingKeepsAllApps([7]);
    GenrePageGivesNoId();
    assert IntToString(7) == "7";
    spider.QueuedAppsAddChecked(StoreBase + "de/genre/mac/id39");
    assert spider.queue.items == [Some("7")];
    requests, failure := spider.SpiderIdle(spider);
    SingleKeyDrain("de", "7");
  }
}
