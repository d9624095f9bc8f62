/** The round-robin endpoint selector built by `makeLoadbalancedList`
    (src/backend/providers/fetchers.ts:17-28). Each selector owns one cursor,
    the captured `listIndex`; each call re-reads the pool, resets a stale
    cursor to a random index, serves the endpoint under the cursor and moves
    the cursor on by one, modulo the pool length. */
module LoadBalancer {
  import opened Wrappers

  /** The value of `listIndex`. It is a JavaScript number: `At(-1)` before the
      first call, a position afterwards, and `NaN` once `(i + 1) % 0` has been
      computed on an empty pool. `NaN === -1` and `NaN >= n` are both false,
      so a `NaN` cursor is never reset again. */
  datatype Cursor = At(index: int) | NaN

  /** The cursor a selector starts with. */
  const Unset: Cursor := At(-1)

  /** The cursors a selector can reach: the sentinel, a position, or `NaN`. */
  predicate WellFormed(c: Cursor)
  {
    c.NaN? || c.index >= -1
  }

  /** The values `Math.floor(Math.random() * n)` can take: an index of a
      non-empty pool, and 0 for an empty one. */
  predicate RandomIndex(rnd: nat, n: nat)
  {
    rnd < n || rnd == 0
  }

  /** Lines 21-23: the sentinel or a cursor past the end of the pool is
      replaced by the random start `rnd`. */
  function Reset(c: Cursor, n: nat, rnd: nat): Cursor
  {
    if c.At? && (c.index == -1 || c.index >= n) then At(rnd) else c
  }

  /** Line 24: `fetchers[listIndex]`, `undefined` outside the pool. */
  function Pick(c: Cursor, pool: seq<string>): Option<string>
  {
    if c.At? && 0 <= c.index < |pool| then Some(pool[c.index]) else None
  }

  /** Line 25: `(listIndex + 1) % fetchers.length`. Applied after `Reset`, so
      the index is non-negative and Dafny's `%` agrees with JavaScript's; a
      zero length or a `NaN` cursor gives `NaN`. */
  function Advance(c: Cursor, n: nat): Cursor
  {
    if c.At? && n > 0 then At((c.index + 1) % n) else NaN
  }

  /** What one call returns and the cursor it leaves behind. */
  datatype Selection = Selection(url: Option<string>, cursor: Cursor)

  /** One call of the selector on the pool `pool`, with random start `rnd`. */
  function Step(c: Cursor, pool: seq<string>, rnd: nat): (s: Selection)
    requires WellFormed(c)
    ensures WellFormed(s.cursor)
    // a cursor inside the pool serves its endpoint and moves on by one
    ensures c.At? && 0 <= c.index < |pool| ==>
              s == Selection(Some(pool[c.index]), At((c.index + 1) % |pool|))
    // a stale cursor restarts at the random index
    ensures c.At? && (c.index == -1 || c.index >= |pool|) && rnd < |pool| ==>
              s == Selection(Some(pool[rnd]), At((rnd + 1) % |pool|))
    // on a non-empty pool a live cursor always serves a member and stays inside
    ensures c.At? && |pool| > 0 && RandomIndex(rnd, |pool|) ==>
              s.url.Some? && s.url.value in pool && s.cursor.At? && 0 <= s.cursor.index < |pool|
    // an empty pool serves nothing and poisons the cursor; a poisoned cursor stays poisoned
    ensures |pool| == 0 || c.NaN? ==> s == Selection(None, NaN)
  {
    var c' := Reset(c, |pool|, rnd);
    Selection(Pick(c', pool), Advance(c', |pool|))
  }

  /** The outcome of several consecutive calls. */
  datatype Rotation = Rotation(cursor: Cursor, served: seq<Option<string>>)

  /** `|rnds|` consecutive calls on the same pool, the k-th with random start `rnds[k]`. */
  function Run(c: Cursor, pool: seq<string>, rnds: seq<nat>): (r: Rotation)
    requires WellFormed(c)
    ensures WellFormed(r.cursor) && |r.served| == |rnds|
    decreases |rnds|
  {
    if rnds == [] then Rotation(c, [])
    else
      var s := Step(c, pool, rnds[0]);
      var rest := Run(s.cursor, pool, rnds[1..]);
      Rotation(rest.cursor, [s.url] + rest.served)
  }

  /** The position served by the `j`-th of consecutive calls that start at
      position `s` of a pool of size `n`: `(s + j) mod n`, for `j < n`. */
  function Position(s: nat, j: nat, n: nat): (p: nat)
    requires s < n && j < n
    ensures p < n
  {
    if s + j < n then s + j else s + j - n
  }

  /** The call, among consecutive calls starting at `s`, that serves position `k`:
      `(k - s) mod n`. */
  function CallFor(s: nat, k: nat, n: nat): (j: nat)
    requires s < n && k < n
    ensures j < n && Position(s, j, n) == k
  {
    if k >= s then k - s else k + n - s
  }

  /** Line 25 on a position inside the pool: moving on by one wraps to 0 past the end. */
  lemma AdvanceWraps(i: nat, n: nat)
    requires i < n
    ensures (i + 1) % n == if i + 1 < n then i + 1 else 0
  {
    if i + 1 == n {
      assert (i + 1) % n == n % n == 0;
    }
  }

  /** The position the first of several calls serves. */
  function StartIndex(c: Cursor, n: nat, rnd: nat): int
    requires c.At?
  {
    Reset(c, n, rnd).index
  }

  /** Up to `n` consecutive calls on a fixed non-empty pool of size `n` serve
      consecutive positions, cyclically, from the start position, and leave the
      cursor on the position after the last one served. */
  lemma {:induction false} RotationIsCyclic(c: Cursor, pool: seq<string>, rnds: seq<nat>)
    requires c.At? && WellFormed(c) && 0 < |rnds| <= |pool|
    requires forall k :: 0 <= k < |rnds| ==> rnds[k] < |pool|
    ensures var n, s := |pool|, StartIndex(c, |pool|, rnds[0]);
            && 0 <= s < n
            && Run(c, pool, rnds).cursor == At(if |rnds| == n then s else Position(s, |rnds|, n))
            && forall j :: 0 <= j < |rnds| ==> Run(c, pool, rnds).served[j] == Some(pool[Position(s, j, n)])
    decreases |rnds|
  {
    var n := |pool|;
    var s := StartIndex(c, n, rnds[0]);
    var first := Step(c, pool, rnds[0]);
    var s' := if s + 1 < n then s + 1 else 0;
    AdvanceWraps(s, n);
    assert first.cursor == At(s');
    var rest := Run(first.cursor, pool, rnds[1..]);
    var r := Run(c, pool, rnds);
    assert r.served == [Some(pool[s])] + rest.served;
    if |rnds| > 1 {
      RotationIsCyclic(first.cursor, pool, rnds[1..]);
      assert StartIndex(first.cursor, n, rnds[1]) == s';
      forall j | 0 < j < |rnds| ensures r.served[j] == Some(pool[Position(s, j, n)]) {
        assert r.served[j] == rest.served[j - 1];
        assert Position(s', j - 1, n) == Position(s, j, n);
      }
    }
  }

  /** A full round of `n` calls on a fixed pool of size `n` serves every
      position exactly once, in cyclic order from the start position, and
      brings the cursor back to that start. */
  lemma FullRotation(c: Cursor, pool: seq<string>, rnds: seq<nat>)
    requires c.At? && WellFormed(c) && 0 < |pool| && |rnds| == |pool|
    requires forall k :: 0 <= k < |rnds| ==> rnds[k] < |pool|
    ensures var n, s, r := |pool|, StartIndex(c, |pool|, rnds[0]), Run(c, pool, rnds);
            && 0 <= s < n
            && r.cursor == At(s)
            // call j serves position (s + j) mod n ...
            && (forall j :: 0 <= j < n ==> r.served[j] == Some(pool[Position(s, j, n)]))
            // ... every position k is served, by call (k - s) mod n ...
            && (forall k :: 0 <= k < n ==> r.served[CallFor(s, k, n)] == Some(pool[k]))
            // ... and no position by two calls
            && (forall i, j :: 0 <= i < j < n ==> Position(s, i, n) != Position(s, j, n))
  {
    RotationIsCyclic(c, pool, rnds);
  }

  /** A pool that shrank below the cursor restarts at the new random index
      instead of failing. */
  lemma ShrunkPoolRestarts(i: nat, pool: seq<string>, rnd: nat)
    requires |pool| <= i && rnd < |pool|
    ensures Step(At(i), pool, rnd) == Selection(Some(pool[rnd]), At((rnd + 1) % |pool|))
  {
  }

  /** Calling the selector on an empty pool poisons it: afterwards it serves
      `undefined` on every call, whatever pools it is later given. */
  lemma {:induction false} PoisonedForever(c: Cursor, pools: seq<seq<string>>, rnds: seq<nat>)
    requires WellFormed(c) && |pools| == |rnds|
    requires |pools| > 0 && (c.NaN? || pools[0] == [])
    ensures RunOver(c, pools, rnds) == Rotation(NaN, seq(|rnds|, _ => None))
    decreases |rnds|
  {
    var s := Step(c, pools[0], rnds[0]);
    assert s == Selection(None, NaN);
    if |rnds| > 1 {
      PoisonedForever(NaN, pools[1..], rnds[1..]);
    }
  }

  /** Consecutive calls where the k-th call sees the pool `pools[k]`. */
  function RunOver(c: Cursor, pools: seq<seq<string>>, rnds: seq<nat>): (r: Rotation)
    requires WellFormed(c) && |pools| == |rnds|
    ensures WellFormed(r.cursor) && |r.served| == |rnds|
    decreases |rnds|
  {
    if rnds == [] then Rotation(c, [])
    else
      var s := Step(c, pools[0], rnds[0]);
      var rest := RunOver(s.cursor, pools[1..], rnds[1..]);
      Rotation(rest.cursor, [s.url] + rest.served)
  }

  /** One selector: the closure returned by `makeLoadbalancedList` together
      with the `listIndex` it captures. The pool getter is not stored; the
      caller passes the pool it returned on this call. */
  class LoadbalancedList {
    var cursor: Cursor

    ghost predicate Valid()
      reads this
    {
      WellFormed(cursor)
    }

    /** Line 18: `let listIndex = -1`. */
    constructor ()
      ensures Valid() && cursor == Unset
    {
      cursor := Unset;
    }

    /** Lines 19-27, one call of the closure. `rnd` is the value of
        `Math.floor(Math.random() * fetchers.length)`. */
    method Next(pool: seq<string>, rnd: nat) returns (url: Option<string>)
      requires Valid() && RandomIndex(rnd, |pool|)
      modifies this
      ensures Valid()
      ensures Selection(url, cursor) == Step(old(cursor), pool, rnd)
    {
      var n := |pool|;
      if cursor.At? && (cursor.index == -1 || cursor.index >= n) {
        cursor := At(rnd);
      }
      url := if cursor.At? && 0 <= cursor.index < n then Some(pool[cursor.index]) else None;
      cursor := if cursor.At? && n > 0 then At((cursor.index + 1) % n) else NaN;
    }
  }
}
