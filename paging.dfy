/** Page arithmetic of the task list: skip = (page - 1) * limit, at most `limit`
    items, and pages = ceil(total / limit). */
module Paging {

  function Min(a: int, b: int): int {
    if a <= b then a else b
  }

  /** `Math.ceil(n / d)`: the least number of pages of `d` items that hold `n` items,
      counted one page at a time. */
  function CeilDiv(n: nat, d: nat): (r: nat)
    requires d >= 1
    ensures r * d >= n
    ensures r == 0 || (r - 1) * d < n
    decreases n
  {
    if n == 0 then 0
    else if n <= d then 1
    else 1 + CeilDiv(n - d, d)
  }

  /** Number of results skipped before `page`. */
  function Skip(page: nat, limit: nat): nat
    requires page >= 1
  {
    (page - 1) * limit
  }

  lemma SkipStep(page: nat, limit: nat)
    requires page >= 1
    ensures Skip(page + 1, limit) == Skip(page, limit) + limit
  {
  }

  /** The MongoDB cursor `.skip((page - 1) * limit).limit(limit)` over the ordered results `r`:
      the items from position Skip on, at most `limit` of them, as many as there are. */
  function Window<T>(r: seq<T>, page: nat, limit: nat): (w: seq<T>)
    requires page >= 1 && limit >= 1
    ensures |w| <= limit
    ensures Skip(page, limit) >= |r| ==> w == []
    ensures Skip(page, limit) < |r| ==> |w| == Min(limit, |r| - Skip(page, limit))
    ensures forall i :: 0 <= i < |w| ==> w[i] == r[Skip(page, limit) + i]
  {
    var skip := Skip(page, limit);
    if skip >= |r| then [] else r[skip..Min(skip + limit, |r|)]
  }

  /** A page holds only results. */
  lemma WindowWithin<T>(r: seq<T>, page: nat, limit: nat)
    requires page >= 1 && limit >= 1
    ensures forall x :: x in Window(r, page, limit) ==> x in r
  {
    var w := Window(r, page, limit);
    forall x | x in w ensures x in r {
      var i :| 0 <= i < |w| && w[i] == x;
      assert x == r[Skip(page, limit) + i];
    }
  }

  /** `r` cut into consecutive runs of `limit` items; only the last may be shorter. */
  function Chunks<T>(r: seq<T>, limit: nat): seq<seq<T>>
    requires limit >= 1
    decreases |r|
  {
    if r == [] then []
    else if |r| <= limit then [r]
    else [r[..limit]] + Chunks(r[limit..], limit)
  }

  function Flatten<T>(c: seq<seq<T>>): seq<T> {
    if c == [] then [] else c[0] + Flatten(c[1..])
  }

  /** `pages = ceil(total / limit)` is the number of non-empty pages. */
  lemma {:induction false} ChunksCount<T>(r: seq<T>, limit: nat)
    requires limit >= 1
    ensures |Chunks(r, limit)| == CeilDiv(|r|, limit)
    decreases |r|
  {
    if r != [] && |r| > limit {
      ChunksCount(r[limit..], limit);
    }
  }

  /** Read one after another, the runs give back every result exactly once, in order. */
  lemma {:induction false} ChunksFlatten<T>(r: seq<T>, limit: nat)
    requires limit >= 1
    ensures Flatten(Chunks(r, limit)) == r
    decreases |r|
  {
    if r != [] && |r| > limit {
      ChunksFlatten(r[limit..], limit);
      assert r == r[..limit] + r[limit..];
    }
  }

  /** Page `page` of the list reply is the page-th run. */
  lemma {:induction false} ChunkIsWindow<T>(r: seq<T>, limit: nat, page: nat)
    requires limit >= 1
    requires 1 <= page <= |Chunks(r, limit)|
    ensures Chunks(r, limit)[page - 1] == Window(r, page, limit)
    decreases |r|
  {
    if |r| > limit && page > 1 {
      var rest := r[limit..];
      ChunkIsWindow(rest, limit, page - 1);
      var skip := Skip(page - 1, limit);
      SkipStep(page - 1, limit);
      if skip < |rest| {
        assert rest[skip..Min(skip + limit, |rest|)] == r[skip + limit..Min(skip + limit + limit, |r|)];
      }
    }
  }

  /** Every page after the last one is empty. */
  lemma WindowPastLastPage<T>(r: seq<T>, limit: nat, page: nat)
    requires limit >= 1
    requires page > CeilDiv(|r|, limit)
    ensures Window(r, page, limit) == []
  {
    var c := CeilDiv(|r|, limit);
    ScaleMonotone(c, page - 1, limit);
  }

  /** Multiplying by the same natural keeps the order. */
  lemma ScaleMonotone(a: nat, b: nat, k: nat)
    requires a <= b
    ensures a * k <= b * k
  {
    assert b * k == a * k + (b - a) * k;
  }

  /** Reading pages 1 .. ceil(total / limit) one after another yields every result
      exactly once and in order: no result is skipped or repeated by paging. */
  lemma PagesCoverResults<T>(r: seq<T>, limit: nat)
    requires limit >= 1
    ensures var pages := CeilDiv(|r|, limit);
            Flatten(seq(pages, p requires 0 <= p < pages => Window(r, p + 1, limit))) == r
  {
    var pages := CeilDiv(|r|, limit);
    var all := seq(pages, p requires 0 <= p < pages => Window(r, p + 1, limit));
    ChunksCount(r, limit);
    forall p | 0 <= p < pages ensures all[p] == Chunks(r, limit)[p] {
      ChunkIsWindow(r, limit, p + 1);
    }
    assert all == Chunks(r, limit);
    ChunksFlatten(r, limit);
  }
}
