/**
 The debounce cache (rflink/publisher.go): a map from the key of a line to the time it was
 last let through, pruned once it has more than 500 entries. Only the publish loop calls it,
 so the clock readings of a run never go back. Times and the window are integer nanoseconds.
 */
module Debounce {
  import opened SensorMessages

  const MAX_ENTRIES := 500

  /** A line, the key that the debouncer computes for it, and when it arrived. */
  datatype Arrival = Arrival(msg: string, key: string, at: int)

  function Arrive(msg: string, at: int): Arrival {
    Arrival(msg, DedupKey(msg), at)
  }

  type Cache = map<string, int>

  ghost predicate Ordered(ms: seq<Arrival>) {
    forall i, j :: 0 <= i < j < |ms| ==> ms[i].at <= ms[j].at
  }

  // ----- The reference: keep everything -----

  /** Some kept arrival has the key of a and is less than one window older. */
  predicate Recent(window: int, kept: seq<Arrival>, a: Arrival) {
    exists i :: 0 <= i < |kept| && kept[i].key == a.key && a.at - kept[i].at < window
  }

  /** All arrivals among the first n that are let through when none is ever forgotten. */
  function Kept(window: int, ms: seq<Arrival>, n: nat): seq<Arrival>
    requires n <= |ms|
  {
    if n == 0 then [] else
    var kept := Kept(window, ms, n - 1);
    if Recent(window, kept, ms[n - 1]) then kept else kept + [ms[n - 1]]
  }

  // ----- The pruned map -----

  predicate Drops(window: int, m: Cache, a: Arrival) {
    a.key in m && a.at - m[a.key] < window
  }

  function Pruned(window: int, m: Cache, now: int): Cache {
    map k | k in m && now - m[k] <= window * 2 :: m[k]
  }

  function Next(window: int, m: Cache, a: Arrival): Cache {
    if Drops(window, m, a) then m else
    var n := m[a.key := a.at];
    if |n| > MAX_ENTRIES then Pruned(window, n, a.at) else n
  }

  /** The cache after the first n arrivals. */
  function Exec(window: int, ms: seq<Arrival>, n: nat): Cache
    requires n <= |ms|
  {
    if n == 0 then map[] else Next(window, Exec(window, ms, n - 1), ms[n - 1])
  }

  /** Message i of the run is let through. */
  predicate Accepted(window: int, ms: seq<Arrival>, i: nat)
    requires i < |ms|
  {
    !Drops(window, Exec(window, ms, i), ms[i])
  }

  // ----- The map decides as the history does -----

  /** The cache has an entry at least as late, or the arrival is more than two windows old. */
  predicate CoveredBy(window: int, m: Cache, now: int, a: Arrival) {
    if a.key in m then a.at <= m[a.key] else now - a.at > window * 2
  }

  /** At time now, m covers every kept arrival, and each of its entries is one of them. */
  ghost predicate Remembers(window: int, kept: seq<Arrival>, m: Cache, now: int) {
    && (forall i :: 0 <= i < |kept| ==> kept[i].at <= now && CoveredBy(window, m, now, kept[i]))
    && (forall k :: k in m ==> exists i :: 0 <= i < |kept| && kept[i].key == k && kept[i].at == m[k])
  }

  lemma DecidesAsHistory(window: int, kept: seq<Arrival>, m: Cache, now: int, a: Arrival)
    requires window > 0 && Remembers(window, kept, m, now) && now <= a.at
    ensures Drops(window, m, a) <==> Recent(window, kept, a)
  {
    if Recent(window, kept, a) {
      var i :| 0 <= i < |kept| && kept[i].key == a.key && a.at - kept[i].at < window;
      assert CoveredBy(window, m, now, kept[i]);
    }
  }

  lemma StaysCovered(window: int, m: Cache, now: int, earlier: Arrival, a: Arrival)
    requires window > 0 && CoveredBy(window, m, now, earlier) && earlier.at <= now <= a.at
    ensures CoveredBy(window, Next(window, m, a), a.at, earlier)
  {}

  lemma RemembersStep(window: int, kept: seq<Arrival>, m: Cache, now: int, a: Arrival)
    requires window > 0 && Remembers(window, kept, m, now) && now <= a.at
    ensures Remembers(window, if Recent(window, kept, a) then kept else kept + [a], Next(window, m, a), a.at)
  {
    DecidesAsHistory(window, kept, m, now, a);
    var kept', m' := if Recent(window, kept, a) then kept else kept + [a], Next(window, m, a);
    forall i | 0 <= i < |kept'| ensures kept'[i].at <= a.at && CoveredBy(window, m', a.at, kept'[i]) {
      if i < |kept| {
        StaysCovered(window, m, now, kept[i], a);
      }
    }
    forall k | k in m' ensures exists i :: 0 <= i < |kept'| && kept'[i].key == k && kept'[i].at == m'[k] {
      if k in m && m'[k] == m[k] {
        var i :| 0 <= i < |kept| && kept[i].key == k && kept[i].at == m[k];
        assert kept'[i] == kept[i];
      } else {
        assert kept'[|kept|] == a;
      }
    }
  }

  lemma {:induction false} CacheRemembers(window: int, ms: seq<Arrival>, n: nat)
    requires window > 0 && n <= |ms| && Ordered(ms)
    ensures n > 0 ==> Remembers(window, Kept(window, ms, n), Exec(window, ms, n), ms[n - 1].at)
  {
    if n == 0 {
    } else {
      CacheRemembers(window, ms, n - 1);
      RemembersStep(window, Kept(window, ms, n - 1), Exec(window, ms, n - 1),
                    if n > 1 then ms[n - 2].at else ms[0].at, ms[n - 1]);
    }
  }

  /** Every message of every run is let through exactly if the full history would let it through. */
  lemma AcceptedAsByHistory(window: int, ms: seq<Arrival>, n: nat)
    requires window > 0 && n < |ms| && Ordered(ms)
    ensures Accepted(window, ms, n) <==> !Recent(window, Kept(window, ms, n), ms[n])
  {
    CacheRemembers(window, ms, n);
    DecidesAsHistory(window, Kept(window, ms, n), Exec(window, ms, n), if n > 0 then ms[n - 1].at else ms[0].at, ms[n]);
  }

  lemma {:induction false} KeptWasAccepted(window: int, ms: seq<Arrival>, n: nat, i: nat) returns (j: nat)
    requires window > 0 && n <= |ms| && Ordered(ms) && i < |Kept(window, ms, n)|
    ensures j < n && Accepted(window, ms, j) && ms[j] == Kept(window, ms, n)[i]
  {
    AcceptedAsByHistory(window, ms, n - 1);
    if i < |Kept(window, ms, n - 1)| {
      j := KeptWasAccepted(window, ms, n - 1, i);
    } else {
      j := n - 1;
    }
  }

  lemma {:induction false} AcceptedIsKept(window: int, ms: seq<Arrival>, n: nat, j: nat)
    requires window > 0 && j < n <= |ms| && Ordered(ms) && Accepted(window, ms, j)
    ensures ms[j] in Kept(window, ms, n)
  {
    if j < n - 1 {
      AcceptedIsKept(window, ms, n - 1, j);
    } else {
      AcceptedAsByHistory(window, ms, j);
    }
  }

  /** A message is dropped exactly if one with its key was let through less than one window before. */
  lemma PruningIsInvisible(window: int, ms: seq<Arrival>, n: nat)
    requires window > 0 && n < |ms| && Ordered(ms)
    ensures !Accepted(window, ms, n) <==>
            exists j :: 0 <= j < n && Accepted(window, ms, j) && ms[j].key == ms[n].key && ms[n].at - ms[j].at < window
  {
    var kept := Kept(window, ms, n);
    AcceptedAsByHistory(window, ms, n);
    if Recent(window, kept, ms[n]) {
      var i :| 0 <= i < |kept| && kept[i].key == ms[n].key && ms[n].at - kept[i].at < window;
      var j := KeptWasAccepted(window, ms, n, i);
    }
    forall j | 0 <= j < n && Accepted(window, ms, j) && ms[j].key == ms[n].key && ms[n].at - ms[j].at < window
      ensures Recent(window, kept, ms[n])
    {
      AcceptedIsKept(window, ms, n, j);
    }
  }

  /** A dropped line repeats the sensor record of a line let through less than one window ago. */
  lemma DropLosesNoReading(window: int, ms: seq<Arrival>, n: nat, now: int)
    requires window > 0 && n < |ms| && Ordered(ms)
    requires forall i :: 0 <= i < |ms| ==> ms[i].key == DedupKey(ms[i].msg)
    requires !Accepted(window, ms, n) && Parsed(ms[n].msg, now).Ok?
    ensures exists j :: 0 <= j < n && Accepted(window, ms, j)
                        && ms[n].at - ms[j].at < window && Parsed(ms[j].msg, now) == Parsed(ms[n].msg, now)
  {
    PruningIsInvisible(window, ms, n);
    var j :| 0 <= j < n && Accepted(window, ms, j) && ms[j].key == ms[n].key && ms[n].at - ms[j].at < window;
    EqualKeysSameRecord(ms[j].msg, ms[n].msg, now);
  }

  // ----- Spacing and progress -----

  /** Two same-key messages that are let through are at least one window apart. */
  lemma AcceptedAreApart(window: int, ms: seq<Arrival>, i: nat, j: nat)
    requires window > 0 && i < j < |ms| && Ordered(ms)
    requires Accepted(window, ms, i) && Accepted(window, ms, j) && ms[i].key == ms[j].key
    ensures ms[j].at - ms[i].at >= window
  {
    PruningIsInvisible(window, ms, j);
  }

  /** In ms[i..hi], an arrival with the key of arrival i comes at most gap after the one before. */
  ghost predicate GapsAtMost(ms: seq<Arrival>, i: nat, hi: nat, gap: int)
    requires i <= hi < |ms|
  {
    forall q :: i < q <= hi && ms[q].key == ms[i].key ==>
      exists p :: i <= p < q && ms[p].key == ms[i].key && ms[q].at - ms[p].at <= gap
  }

  /** The first same-key arrival at least one window after one that was let through is let through. */
  lemma FirstLateOnePasses(window: int, ms: seq<Arrival>, i: nat, hi: nat)
    requires window > 0 && i < hi < |ms| && Ordered(ms) && Accepted(window, ms, i)
    requires ms[hi].key == ms[i].key && ms[hi].at >= ms[i].at + window
    requires forall m :: i < m < hi && ms[m].key == ms[i].key ==> ms[m].at < ms[i].at + window
    ensures Accepted(window, ms, hi)
  {
    PruningIsInvisible(window, ms, hi);
    forall j | 0 <= j < hi && Accepted(window, ms, j) && ms[j].key == ms[hi].key
      ensures ms[hi].at - ms[j].at >= window
    {
      PruningIsInvisible(window, ms, j);
      assert j <= i;
      assert j < i ==> ms[j].at <= ms[i].at;
    }
  }

  /**
   A stream of one key with gaps of at most gap is never starved: after a message that is let
   through, the next one is let through within window + gap.
   */
  lemma {:induction false} StreamKeepsPassing(window: int, ms: seq<Arrival>, i: nat, hi: nat, gap: int)
    returns (l: nat)
    requires window > 0 && i < hi < |ms| && Ordered(ms) && Accepted(window, ms, i)
    requires ms[hi].key == ms[i].key && ms[hi].at >= ms[i].at + window
    requires GapsAtMost(ms, i, hi, gap)
    ensures i < l <= hi && ms[l].key == ms[i].key && Accepted(window, ms, l)
    ensures ms[i].at + window <= ms[l].at <= ms[i].at + window + gap
    decreases hi
  {
    if m :| i < m < hi && ms[m].key == ms[i].key && ms[m].at >= ms[i].at + window {
      l := StreamKeepsPassing(window, ms, i, m, gap);
    } else {
      l := hi;
      FirstLateOnePasses(window, ms, i, hi);
      var p :| i <= p < hi && ms[p].key == ms[i].key && ms[hi].at - ms[p].at <= gap;
    }
  }

  // ----- The code -----

  /** window <= 0 turns debouncing off. */
  class Debouncer {
    const window: int
    var dedupLast: Cache
    var dedupDropped: nat

    constructor (window: int)
      ensures this.window == window && dedupLast == Exec(window, [], 0) && dedupDropped == 0
    {
      this.window := window;
      dedupLast, dedupDropped := map[], 0;
    }

    method IsDuplicate(msg: string, now: int) returns (dup: bool)
      modifies this
      ensures window <= 0 ==> !dup && unchanged(this)
      ensures window > 0 ==>
                && dup == Drops(window, old(dedupLast), Arrive(msg, now))
                && dedupLast == Next(window, old(dedupLast), Arrive(msg, now))
                && dedupDropped == old(dedupDropped) + if dup then 1 else 0
    {
      if window <= 0 {
        return false;
      }
      var key := DedupKey(msg);
      if key in dedupLast && now - dedupLast[key] < window {
        dedupDropped := dedupDropped + 1;
        return true;
      }
      dedupLast := dedupLast[key := now];
      if |dedupLast| > MAX_ENTRIES {
        ghost var all := dedupLast;
        var rest := dedupLast.Keys;
        while rest != {}
          invariant rest <= dedupLast.Keys && dedupDropped == old(dedupDropped)
          invariant dedupLast == map k | k in all && (k in rest || now - all[k] <= window * 2) :: all[k]
          decreases rest
        {
          var k :| k in rest;
          rest := rest - {k};
          if now - dedupLast[k] > window * 2 {
            dedupLast := dedupLast - {k};
          }
        }
      }
      return false;
    }
  }
}
