/** The deduplicating FIFO queue of misc/batch_list.py. Each method of the
    Python class runs under one lock, so each is modelled as one atomic step. */
module BatchList {
  import opened Wrappers

  predicate NoDuplicates<T(==)>(s: seq<T>)
  {
    forall i, j :: 0 <= i < j < |s| ==> s[i] != s[j]
  }

  function Flatten<T>(ss: seq<seq<T>>): seq<T>
  {
    if ss == [] then [] else ss[0] + Flatten(ss[1..])
  }

  lemma {:induction false} FlattenAppend<T>(ss: seq<seq<T>>, s: seq<T>)
    ensures Flatten(ss + [s]) == Flatten(ss) + s
  {
    if ss != [] {
      assert (ss + [s])[1..] == ss[1..] + [s];
      FlattenAppend(ss[1..], s);
    } else {
      assert [s][1..] == [];
    }
  }

  /** Re-association, as a step the solver is given rather than searches for. */
  lemma ConcatAssoc<T>(a: seq<T>, b: seq<T>, c: seq<T>)
    ensures a + (b + c) == (a + b) + c
  {
  }

  /** The batches that repeated partial `getBatch` calls cut `s` into: every
      batch is non-empty and at most `n` long, all but the last exactly `n`,
      and together, in order, they are `s`. */
  function Chunks<T>(s: seq<T>, n: nat): (r: seq<seq<T>>)
    requires n > 0
    ensures Flatten(r) == s
    ensures forall i :: 0 <= i < |r| ==> 0 < |r[i]| <= n
    ensures forall i :: 0 <= i < |r| - 1 ==> |r[i]| == n
    ensures forall i, x :: 0 <= i < |r| && x in r[i] ==> x in s
    decreases |s|
  {
    if s == [] then []
    else if |s| <= n then
      assert [s][1..] == [];
      [s]
    else
      var rest := Chunks(s[n..], n);
      assert ([s[..n]] + rest)[1..] == rest;
      [s[..n]] + rest
  }

  /** What `getBatch` hands out from the pending items `items`. */
  function NextBatch<T>(items: seq<T>, n: nat, onlyFull: bool): (r: Option<seq<T>>)
    ensures r.Some? ==> |r.value| <= n && |r.value| <= |items| && r.value == items[..|r.value|]
    ensures r.Some? && n > 0 ==> |r.value| > 0
    ensures r.None? <==> |items| < n && (|items| == 0 || onlyFull)
  {
    if |items| >= n then Some(items[..n])
    else if |items| > 0 && !onlyFull then Some(items)
    else None
  }

  /** Partial batches drawn one after another are exactly the chunks. */
  lemma ChunksStep<T>(items: seq<T>, n: nat)
    requires n > 0 && |items| > 0
    ensures var b := NextBatch(items, n, false);
            b.Some? && Chunks(items, n) == [b.value] + Chunks(items[|b.value|..], n)
  {
    if |items| <= n {
      assert items[|items|..] == [];
    }
  }

  lemma {:induction false} InFlatten<T>(ss: seq<seq<T>>, i: nat, x: T)
    requires i < |ss| && x in ss[i]
    ensures x in Flatten(ss)
  {
    if i > 0 {
      InFlatten(ss[1..], i - 1, x);
    }
  }

  /** The pending items after `Add` is called with each of `xs` in turn, on a
      queue whose pending items are `items` and whose history is `history`. */
  function Enqueue<T(==)>(items: seq<T>, history: seq<T>, xs: seq<T>): (r: seq<T>)
    ensures |items| <= |r| && r[..|items|] == items
    ensures forall x :: x in r ==> x in items || (x in xs && x !in history)
    ensures forall x :: x in xs && x !in history ==> x in r
    decreases |xs|
  {
    if |xs| == 0 then items
    else
      var before := Enqueue(items, history, xs[..|xs| - 1]);
      var x := xs[|xs| - 1];
      assert forall y :: y in xs ==> y in xs[..|xs| - 1] || y == x;
      if x in before || x in history then before else before + [x]
  }

  /** One add: refused when pending or flushed, appended otherwise. */
  lemma EnqueueOne<T>(items: seq<T>, history: seq<T>, x: T)
    ensures Enqueue(items, history, [x]) == if x in items || x in history then items else items + [x]
  {
    assert [x][..0] == [];
  }

  /** Adding `xs` and then `ys` is adding `xs + ys`. */
  lemma {:induction false} EnqueueAppend<T>(items: seq<T>, history: seq<T>, xs: seq<T>, ys: seq<T>)
    ensures Enqueue(items, history, xs + ys) == Enqueue(Enqueue(items, history, xs), history, ys)
    decreases |ys|
  {
    if |ys| == 0 {
      assert xs + ys == xs;
    } else {
      var init := ys[..|ys| - 1];
      assert (xs + ys)[..|xs + ys| - 1] == xs + init;
      EnqueueAppend(items, history, xs, init);
    }
  }

  /** Adds of distinct new items are all accepted, in order. */
  lemma {:induction false} EnqueueFresh<T>(items: seq<T>, history: seq<T>, xs: seq<T>)
    requires NoDuplicates(history + items + xs)
    ensures Enqueue(items, history, xs) == items + xs
    decreases |xs|
  {
    if |xs| > 0 {
      var init := xs[..|xs| - 1];
      var x := xs[|xs| - 1];
      assert history + items + xs == (history + items + init) + [x];
      assert NoDuplicates(history + items + init) by {
        forall i, j | 0 <= i < j < |history + items + init|
          ensures (history + items + init)[i] != (history + items + init)[j]
        {
          assert (history + items + init)[i] == (history + items + xs)[i];
          assert (history + items + init)[j] == (history + items + xs)[j];
        }
      }
      EnqueueFresh(items, history, init);
      var whole := history + items + xs;
      assert whole[|whole| - 1] == x;
      forall y | y in items + init ensures y != x {
        var k :| 0 <= k < |items + init| && (items + init)[k] == y;
        assert whole[|history| + k] == y;
      }
      forall y | y in history ensures y != x {
        var k :| 0 <= k < |history| && history[k] == y;
        assert whole[k] == y;
      }
      assert items + init + [x] == items + xs;
    }
  }

  class BatchedList<T(==)> {
    const batchSize: nat
    /** Identifiers waiting to be looked up, oldest first. */
    var items: seq<T>
    /** Every identifier ever returned by GetBatch, in the order returned. */
    var history: seq<T>
    /** The batches returned so far, and every add that was accepted. */
    ghost var batches: seq<seq<T>>
    ghost var accepted: seq<T>

    /** No identifier is pending twice, none is both pending and flushed, the
        batches concatenate to the history, and history then pending is the
        order in which adds were accepted (FIFO). */
    ghost predicate Valid()
      reads this
    {
      && NoDuplicates(history + items)
      && Flatten(batches) == history
      && history + items == accepted
    }

    constructor (batchSize: nat)
      ensures Valid() && this.batchSize == batchSize
      ensures items == [] && history == [] && batches == [] && accepted == []
    {
      this.batchSize := batchSize;
      items, history := [], [];
      batches, accepted := [], [];
    }

    /** `add`: a no-op when the item is pending or was ever flushed, otherwise
        it joins the tail of the queue. */
    method Add(x: T)
      requires Valid()
      modifies this
      ensures Valid()
      ensures history == old(history) && batches == old(batches)
      ensures x in old(items) || x in old(history) ==>
                items == old(items) && accepted == old(accepted)
      ensures x !in old(items) && x !in old(history) ==>
                items == old(items) + [x] && accepted == old(accepted) + [x]
    {
      if x in items || x in history {
        return;
      }
      assert history + (items + [x]) == (history + items) + [x];
      items := items + [x];
      accepted := accepted + [x];
    }

    /** `contained`: whether the item was ever returned in a batch. */
    method Contained(x: T) returns (b: bool)
      ensures b <==> x in history
    {
      b := x in history;
    }

    /** `contains`: whether the item is pending; flushed items do not count. */
    method Contains(x: T) returns (b: bool)
      ensures b <==> x in items
    {
      b := x in items;
    }

    /** `count`: the number of pending items. */
    method Count() returns (n: nat)
      ensures n == |items|
    {
      n := |items|;
    }

    /** `getBatch`: a full batch from the head of the queue when there is
        one; otherwise everything pending when partial batches are allowed;
        otherwise None with nothing changed. A returned batch is appended to
        the history, so its items are refused by every later Add. */
    method GetBatch(onlyFull: bool) returns (batch: Option<seq<T>>)
      requires Valid()
      modifies this
      ensures Valid() && accepted == old(accepted)
      ensures batch == NextBatch(old(items), batchSize, onlyFull)
      ensures batch.Some? ==> items == old(items)[|batch.value|..]
      ensures |old(items)| >= batchSize ==>
                batch == Some(old(items)[..batchSize]) && items == old(items)[batchSize..]
      ensures 0 < |old(items)| < batchSize && !onlyFull ==>
                batch == Some(old(items)) && items == []
      ensures batch.None? <==> |old(items)| < batchSize && (|old(items)| == 0 || onlyFull)
      ensures batch.None? ==>
                items == old(items) && history == old(history) && batches == old(batches)
      ensures batch.Some? ==>
                |batch.value| <= batchSize &&
                history == old(history) + batch.value && batches == old(batches) + [batch.value]
    {
      var taken: seq<T>;
      if |items| >= batchSize {
        taken, items := items[..batchSize], items[batchSize..];
      } else if |items| > 0 && !onlyFull {
        taken, items := items, [];
      } else {
        return None;
      }
      assert history + taken + items == old(history + items);
      FlattenAppend(batches, taken);
      history := history + taken;
      batches := batches + [taken];
      batch := Some(taken);
    }
  }

  /** Batch size 3 and four adds: one full batch, then None when only full
      batches are asked for, then the remainder as a partial batch. */
  method Scenario() returns (first: Option<seq<int>>, second: Option<seq<int>>, third: Option<seq<int>>)
    ensures first == Some([1, 2, 3])
    ensures second == None
    ensures third == Some([4])
  {
    var q := new BatchedList<int>(3);
    q.Add(1);
    assert q.items == [1];
    q.Add(2);
    assert q.items == [1, 2];
    q.Add(3);
    assert q.items == [1, 2, 3];
    q.Add(4);
    assert q.items == [1, 2, 3, 4];
    first := q.GetBatch(true);
    assert q.items == [4];
    second := q.GetBatch(true);
    third := q.GetBatch(false);
  }

  /** An item handed out in a batch is refused when it is added again. */
  method FlushedItemRefused() returns (pending: nat, flushed: bool)
    ensures pending == 0 && flushed
  {
    var q := new BatchedList<int>(3);
    q.Add(1);
    assert q.items == [1];
    q.Add(2);
    assert q.items == [1, 2] && q.history == [];
    var batch := q.GetBatch(false);
    assert q.items == [] && q.history == [1, 2];
    q.Add(2);
    pending := q.Count();
    flushed := q.Contained(2);
  }
}
