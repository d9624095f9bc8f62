/** `getEnabledM3U8ProxyUrls` (src/backend/providers/fetchers.ts:33-49): the
    M3U8 proxy pool narrowed by the enablement map persisted under
    `m3u8-proxy-enabled`, a JSON object from stringified pool index to boolean.
    The stored string and the outcome of `JSON.parse` are inputs. */
module EnabledProxies {
  import opened Wrappers
  import opened Text
  import opened Seqs

  /** `enabled[index.toString()] === false`: only an explicit `false` disables a
      position. A missing key, or one holding anything else, leaves it enabled. */
  predicate Disabled(enabled: map<string, bool>, i: nat)
  {
    NatToString(i) in enabled && !enabled[NatToString(i)]
  }

  /** `pool.filter((_url, index) => enabled[index.toString()] !== false)`,
      from position `from` on. */
  function KeepEnabledFrom(pool: seq<string>, enabled: map<string, bool>, from: nat): (r: seq<string>)
    requires from <= |pool|
    ensures |r| <= |pool| - from
    decreases |pool| - from
  {
    if from == |pool| then []
    else (if Disabled(enabled, from) then [] else [pool[from]]) + KeepEnabledFrom(pool, enabled, from + 1)
  }

  /** Lines 43-45. */
  function KeepEnabled(pool: seq<string>, enabled: map<string, bool>): (r: seq<string>)
    ensures |r| <= |pool|
    // when no position is disabled, and in particular under an empty map, nothing is dropped
    ensures (forall i :: 0 <= i < |pool| ==> !Disabled(enabled, i)) ==> r == pool
    ensures enabled == map[] ==> r == pool
  {
    KeepEnabledFromAll(pool, enabled, 0);
    assert pool[0..] == pool;
    KeepEnabledFrom(pool, enabled, 0)
  }

  /** With no position disabled from `from` on, the filter keeps the whole suffix. */
  lemma {:induction false} KeepEnabledFromAll(pool: seq<string>, enabled: map<string, bool>, from: nat)
    requires from <= |pool|
    ensures (forall i :: from <= i < |pool| ==> !Disabled(enabled, i))
            ==> KeepEnabledFrom(pool, enabled, from) == pool[from..]
    decreases |pool| - from
  {
    if from < |pool| && forall i :: from <= i < |pool| ==> !Disabled(enabled, i) {
      KeepEnabledFromAll(pool, enabled, from + 1);
      assert pool[from..] == [pool[from]] + pool[from + 1..];
    }
  }

  /** Lines 33-49. `stored` is `localStorage.getItem("m3u8-proxy-enabled")`;
      `parsed` is what `JSON.parse(stored)` yields, `None` when it throws or
      yields a value that cannot be indexed (`null`). */
  function EnabledM3U8ProxyUrls(pool: seq<string>, stored: Option<string>, parsed: Option<map<string, bool>>): (r: seq<string>)
    // fails open: no stored map, an empty one, or one that does not parse filters nothing
    ensures !Truthy(stored) || parsed.None? ==> r == pool
    ensures |r| <= |pool|
  {
    if !Truthy(stored) then pool
    else match parsed
      case None => pool
      case Some(enabled) => KeepEnabled(pool, enabled)
  }

  /** `idx` lists, in increasing order, the positions of `pool` that `r` holds. */
  ghost predicate PicksPositions(r: seq<string>, pool: seq<string>, idx: seq<nat>)
  {
    && |idx| == |r|
    && (forall j :: 0 <= j < |idx| ==> idx[j] < |pool| && r[j] == pool[idx[j]])
    && (forall j, k :: 0 <= j < k < |idx| ==> idx[j] < idx[k])
  }

  /** Keeping one more position, below all those already kept. */
  lemma PicksPositionsCons(rest: seq<string>, pool: seq<string>, from: nat, idx: seq<nat>)
    requires from < |pool| && PicksPositions(rest, pool, idx)
    requires forall j :: 0 <= j < |idx| ==> from < idx[j]
    ensures PicksPositions([pool[from]] + rest, pool, [from] + idx)
  {
    var r, idx' := [pool[from]] + rest, [from] + idx;
    forall j | 0 < j < |idx'| ensures idx'[j] < |pool| && r[j] == pool[idx'[j]] {
      assert idx'[j] == idx[j - 1] && r[j] == rest[j - 1];
    }
    forall j, k | 0 <= j < k < |idx'| ensures idx'[j] < idx'[k] {
      assert idx'[k] == idx[k - 1];
      if j > 0 { assert idx'[j] == idx[j - 1]; }
    }
  }

  /** Adding position `from` to the kept positions exactly when it is kept. */
  lemma MembershipCons(idx: seq<nat>, from: nat, n: nat, keep: nat -> bool)
    requires forall j :: 0 <= j < |idx| ==> from < idx[j]
    requires forall i :: from < i < n ==> (i in idx <==> keep(i))
    ensures var idx' := if keep(from) then [from] + idx else idx;
            forall i :: from <= i < n ==> (i in idx' <==> keep(i))
  {
    var idx' := if keep(from) then [from] + idx else idx;
    forall i | from <= i < n ensures i in idx' <==> keep(i) {
      assert i in idx' <==> (keep(from) && i == from) || i in idx;
    }
  }

  lemma {:induction false} KeepEnabledFromPositions(pool: seq<string>, enabled: map<string, bool>, from: nat)
    returns (idx: seq<nat>)
    requires from <= |pool|
    ensures PicksPositions(KeepEnabledFrom(pool, enabled, from), pool, idx)
    ensures forall j :: 0 <= j < |idx| ==> from <= idx[j]
    ensures forall i :: from <= i < |pool| ==> (i in idx <==> !Disabled(enabled, i))
    decreases |pool| - from
  {
    var r := KeepEnabledFrom(pool, enabled, from);
    if from == |pool| {
      idx := [];
    } else {
      var idx' := KeepEnabledFromPositions(pool, enabled, from + 1);
      var rest := KeepEnabledFrom(pool, enabled, from + 1);
      var keep := (i: nat) => !Disabled(enabled, i);
      MembershipCons(idx', from, |pool|, keep);
      if Disabled(enabled, from) {
        idx := idx';
        assert r == rest;
      } else {
        idx := [from] + idx';
        assert r == [pool[from]] + rest;
        PicksPositionsCons(rest, pool, from, idx');
      }
    }
  }

  /** The filter is positional: the result is the pool's elements at the
      positions, in increasing order, whose key does not map to `false`. In
      particular the order of the pool is kept and missing keys count as
      enabled. */
  lemma KeepEnabledPositions(pool: seq<string>, enabled: map<string, bool>)
    ensures exists idx ::
              && PicksPositions(KeepEnabled(pool, enabled), pool, idx)
              && (forall i :: 0 <= i < |pool| ==> (i in idx <==> !Disabled(enabled, i)))
  {
    var idx := KeepEnabledFromPositions(pool, enabled, 0);
    assert PicksPositions(KeepEnabled(pool, enabled), pool, idx);
  }

  /** The filtered pool is an ordered subsequence of the full pool. */
  lemma {:induction false} KeepEnabledIsSubsequence(pool: seq<string>, enabled: map<string, bool>, from: nat)
    requires from <= |pool|
    ensures IsSubsequence(KeepEnabledFrom(pool, enabled, from), pool[from..])
    decreases |pool| - from
  {
    if from < |pool| {
      KeepEnabledIsSubsequence(pool, enabled, from + 1);
      var rest := KeepEnabledFrom(pool, enabled, from + 1);
      assert pool[from..][1..] == pool[from + 1..];
      if Disabled(enabled, from) {
        assert KeepEnabledFrom(pool, enabled, from) == rest;
        SubsequenceSkip(rest, pool[from..]);
      } else {
        var r := [pool[from]] + rest;
        assert KeepEnabledFrom(pool, enabled, from) == r;
        assert r[0] == pool[from..][0] && r[1..] == rest;
      }
    }
  }

  /** Every result of the full operation is an ordered subsequence of the pool. */
  lemma EnabledIsSubsequence(pool: seq<string>, stored: Option<string>, parsed: Option<map<string, bool>>)
    ensures IsSubsequence(EnabledM3U8ProxyUrls(pool, stored, parsed), pool)
  {
    if Truthy(stored) && parsed.Some? {
      KeepEnabledIsSubsequence(pool, parsed.value, 0);
      assert pool[0..] == pool;
    } else {
      SubsequenceReflexive(pool);
    }
  }

  /** The filter reads the persisted map by decimal index: a map whose only
      entry disables position `k` drops exactly the element at `k`. */
  lemma DisablingOnePosition(pool: seq<string>, k: nat)
    requires k < |pool|
    ensures KeepEnabled(pool, map[NatToString(k) := false]) == pool[..k] + pool[k + 1..]
  {
    DroppedOnlyAt(pool, k, 0);
  }

  lemma {:induction false} DroppedOnlyAt(pool: seq<string>, k: nat, from: nat)
    requires k < |pool| && from <= |pool|
    ensures KeepEnabledFrom(pool, map[NatToString(k) := false], from)
            == if from <= k then pool[from..k] + pool[k + 1..] else pool[from..]
    decreases |pool| - from
  {
    var m := map[NatToString(k) := false];
    if from < |pool| {
      DroppedOnlyAt(pool, k, from + 1);
      assert Disabled(m, from) <==> from == k by {
        if Disabled(m, from) { NatToStringInjective(from, k); }
      }
      if from < k {
        assert pool[from..k] == [pool[from]] + pool[from + 1..k];
      } else if from > k {
        assert pool[from..] == [pool[from]] + pool[from + 1..];
      }
    }
  }

  /** The pool `["a", "b", "c"]` under the stored map `{"1": false}` keeps
      `["a", "c"]`; under a stored string that does not parse it keeps all three. */
  lemma EnabledFilterExample()
    ensures EnabledM3U8ProxyUrls(["a", "b", "c"], Some("{\"1\": false}"), Some(map["1" := false])) == ["a", "c"]
    ensures EnabledM3U8ProxyUrls(["a", "b", "c"], Some("{bad json"), None) == ["a", "b", "c"]
  {
    DisablingOnePosition(["a", "b", "c"], 1);
    assert NatToString(1) == "1";
  }
}
