/**
 * cmd/gt-pipeline/semantic_hook.go, applyPairs: that a hit does find its counterpart. Only
 * time and a full pool throw waiting hits out; one that is answered in time is paired.
 */
module PairProgress {
  import opened Seqs
  import opened PairEngine

  // ---- what an eviction throws out --------------------------------------------------------

  /** Too old to be waited for. */
  predicate Expired<E>(p: Pool<E>, key: string, now: int)
    requires key in p.pending
  {
    now - p.pending[key].at > PENDING_TTL
  }

  lemma {:induction false} UnexpiredSize<E>(pending: map<string, Pending<E>>, now: int)
    ensures |Unexpired(pending, now)| <= |pending|
  {
    SmallerMap(Unexpired(pending, now), pending);
  }

  /**
   * A hit that finds no counterpart, with a pool that is not full: the others that are not too
   * old stay as they are, the hit itself waits, and on every 512th insertion all those that
   * are too old go, and only then.
   */
  lemma {:induction false} OnlyExpiredLeave<E>(p: Pool<E>, evt: E, conn: string, h: Hit, now: int, key: string)
    requires !Matches(p, conn, h) && |p.pending| + 1 < MAX_PENDING
    ensures var q := After(p, evt, conn, h, now);
            && q.inserts == p.inserts + 1
            && MapKey(conn, h) in q.pending && q.pending[MapKey(conn, h)] == Pending(h, evt, conn, now)
            && (key != MapKey(conn, h) && key in p.pending ==>
                  && (key !in q.pending <==> (p.inserts + 1) % EVICT_EVERY == 0 && Expired(p, key, now))
                  && (key in q.pending ==> q.pending[key] == p.pending[key]))
  {
    var more := p.pending[MapKey(conn, h) := Pending(h, evt, conn, now)];
    assert |more| <= |p.pending| + 1 by {
      assert more.Keys == p.pending.Keys + {MapKey(conn, h)};
    }
    UnexpiredSize(more, now);
  }

  /** A full pool gives up the hits that are too old to take a new one, and all of them when none is. */
  lemma {:induction false} FullPoolMakesRoom<E>(p: Pool<E>, evt: E, conn: string, h: Hit, now: int, key: string)
    requires !Matches(p, conn, h) && |p.pending| == MAX_PENDING && key in p.pending && key != MapKey(conn, h)
    requires (p.inserts + 1) % EVICT_EVERY != 0
    ensures var q := After(p, evt, conn, h, now);
            && MapKey(conn, h) in q.pending && q.pending[MapKey(conn, h)] == Pending(h, evt, conn, now)
            && (key in q.pending <==> !Expired(p, key, now) && exists k :: k in p.pending && Expired(p, k, now))
  {
    EvictingIff(p, now, key);
    var room := EvictExpired(p.pending, now);
    assert After(p, evt, conn, h, now).pending == room[MapKey(conn, h) := Pending(h, evt, conn, now)];
  }

  lemma {:induction false} EvictingIff<E>(p: Pool<E>, now: int, key: string)
    requires |p.pending| == MAX_PENDING && key in p.pending
    ensures key in EvictExpired(p.pending, now) <==> !Expired(p, key, now) && exists k :: k in p.pending && Expired(p, k, now)
  {
    var kept := Unexpired(p.pending, now);
    if k :| k in p.pending && Expired(p, k, now) {
      SubsetSize(kept.Keys, p.pending.Keys - {k});
      assert |p.pending.Keys - {k}| == |p.pending.Keys| - 1;
    } else {
      assert kept == p.pending;
    }
  }

  // ---- over runs --------------------------------------------------------------------------

  /** Hit m waits in the pool, as it arrived. */
  predicate Waiting(t: seq<Input>, pools: seq<Pool<Arrival>>, m: nat, n: nat)
    requires m < |t| && n < |pools|
  {
    && t[m].Key() in pools[n].pending
    && pools[n].pending[t[m].Key()] == Pending(t[m].hit, Arrival(m, t[m].event), t[m].conn, t[m].now)
  }

  lemma {:induction false} KeepsWaiting(t: seq<Input>, pools: seq<Pool<Arrival>>, m: nat, n: nat)
    requires IsRun(t, pools) && m < n < |t| && Waiting(t, pools, m, n) && t[n].Key() != t[m].Key()
    requires |pools[n].pending| + 1 < MAX_PENDING && t[n].now - t[m].now <= PENDING_TTL
    ensures Waiting(t, pools, m, n + 1)
  {
    assert Steps(pools[n], n, t[n], pools[n + 1]);
    if Matches(pools[n], t[n].conn, t[n].hit) {
      OtherKeys(pools[n], Arrival(n, t[n].event), t[n].conn, t[n].hit, t[n].now, t[m].Key());
    } else {
      OnlyExpiredLeave(pools[n], Arrival(n, t[n].event), t[n].conn, t[n].hit, t[n].now, t[m].Key());
    }
  }

  lemma {:induction false} StillWaiting(t: seq<Input>, pools: seq<Pool<Arrival>>, m: nat, n: nat)
    requires IsRun(t, pools) && m < n <= |t| && Partner(t, pools, m) == None
    requires forall k: nat | m < k < n :: t[k].Key() != t[m].Key() && t[k].now - t[m].now <= PENDING_TTL
    requires forall k: nat | m <= k < n :: |pools[k].pending| + 1 < MAX_PENDING
    ensures Waiting(t, pools, m, n)
  {
    if n == m + 1 {
      assert Steps(pools[m], m, t[m], pools[m + 1]);
      OnlyExpiredLeave(pools[m], Arrival(m, t[m].event), t[m].conn, t[m].hit, t[m].now, t[m].Key());
    } else {
      StillWaiting(t, pools, m, n - 1);
      KeepsWaiting(t, pools, m, n - 1);
    }
  }

  /**
   * A hit that was not paired when it came is paired with the next hit under its pool key, if
   * that one belongs to the same connection, rule and key and is on the other side, provided
   * that nothing in between came more than 30 seconds after it and the pool did not fill up.
   */
  lemma TimelyCounterpartPairs(t: seq<Input>, pools: seq<Pool<Arrival>>, m: nat, n: nat)
    requires IsRun(t, pools) && m < n < |t| && Partner(t, pools, m) == None
    requires t[m].conn == t[n].conn && t[m].hit.ruleId == t[n].hit.ruleId != "" && t[m].hit.key == t[n].hit.key
    requires t[m].hit.side != t[n].hit.side
    requires forall k: nat | m < k < n :: t[k].Key() != t[m].Key() && t[k].now - t[m].now <= PENDING_TTL
    requires forall k: nat | m <= k < n :: |pools[k].pending| + 1 < MAX_PENDING
    ensures Partner(t, pools, n) == Some(m)
  {
    StillWaiting(t, pools, m, n);
  }

  /** Hits that are paired belong to one connection, rule and key, and are on different sides. */
  lemma PairsBelongTogether(t: seq<Input>, pools: seq<Pool<Arrival>>, m: nat, n: nat)
    requires IsRun(t, pools) && m < n < |t| && Partner(t, pools, n) == Some(m)
    ensures t[m].conn == t[n].conn && t[m].hit.ruleId == t[n].hit.ruleId != "" && t[m].hit.key == t[n].hit.key
    ensures {t[m].hit.side, t[n].hit.side} == {RequestSide, ResponseSide}
  {
    PairedIff(t, pools, m, n);
  }

  /** Connections and rules without a NUL in their names never share a pool key. */
  lemma PoolKeysTellHitsApart(c1: string, h1: Hit, c2: string, h2: Hit)
    requires '\0' !in c1 && '\0' !in c2 && '\0' !in h1.ruleId && '\0' !in h2.ruleId
    ensures MapKey(c1, h1) == MapKey(c2, h2) <==> c1 == c2 && h1.ruleId == h2.ruleId && h1.key == h2.key
  {
    var a, b := MapKey(c1, h1), MapKey(c2, h2);
    assert a == c1 + "\0" + (h1.ruleId + "\0" + h1.key) && b == c2 + "\0" + (h2.ruleId + "\0" + h2.key);
    if a == b {
      SplitsAtNul(c1, h1.ruleId + "\0" + h1.key, c2, h2.ruleId + "\0" + h2.key);
      SplitsAtNul(h1.ruleId, h1.key, h2.ruleId, h2.key);
    }
  }

  lemma SplitsAtNul(x1: string, y1: string, x2: string, y2: string)
    requires '\0' !in x1 && '\0' !in x2 && x1 + "\0" + y1 == x2 + "\0" + y2
    ensures x1 == x2 && y1 == y2
  {
    var a, b := x1 + "\0" + y1, x2 + "\0" + y2;
    assert a[|x1|] == '\0' && b[|x2|] == '\0';
    assert forall i | 0 <= i < |x1| :: a[i] == x1[i] && a[i] != '\0';
    assert forall i | 0 <= i < |x2| :: b[i] == x2[i] && b[i] != '\0';
    assert |x1| == |x2|;
    assert x1 == a[..|x1|] && x2 == b[..|x2|] && y1 == a[|x1| + 1..] && y2 == b[|x2| + 1..];
  }
}
