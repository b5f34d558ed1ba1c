/**
 The GUI session store (rflink/session.go): at most 16 sessions, oldest-first eviction, lazy
 expiry in Get and List, and a background reaper. Session IDs come from a random source and
 are a parameter. Create reads the clock before it takes the mutex, so a creation time may lie
 before the instant of its lock section; the instants of the lock sections never go back.
 */
module SessionStore {
  import opened Wrappers

  const SESSION_TTL := 72 * 3600 * 1_000_000_000
  const MAX_SESSIONS := 16

  datatype Session = Session(id: string, createdAt: int, expiresAt: int, ip: string)

  type Store = map<string, Session>

  predicate IsLive(x: Session, now: int) {
    now <= x.expiresAt
  }

  /** The sessions that a client can still use at time now. */
  function Live(s: Store, now: int): Store {
    map id | id in s && IsLive(s[id], now) :: s[id]
  }

  ghost predicate Oldest(s: Store, id: string) {
    id in s && forall other :: other in s ==> s[id].createdAt <= s[other].createdAt
  }

  /** What the eviction loop of Create may leave; ties go to the map's arbitrary order. */
  ghost predicate Evicts(s: Store, t: Store) {
    if |s| < MAX_SESSIONS then t == s
    else exists id :: Oldest(s, id) && t == s - {id}
  }

  // ----- Calls -----

  /** One lock section at the instant at; Idle is a reaper that has not run. */
  datatype Event =
    | Create(id: string, ip: string, created: int, at: int)
    | Get(id: string, at: int)
    | List(at: int)
    | Revoke(id: string, at: int)
    | RevokeAllExcept(keepID: string, at: int)
    | Count(at: int)
    | Reap(at: int)
    | Idle(at: int)

  datatype Answer =
    | Found(session: Option<Session>)
    | Listed(live: Store)
    | Revoked(found: bool)
    | Counted(n: nat)
    | Done

  ghost predicate Step(s: Store, e: Event, t: Store) {
    match e
    case Create(id, ip, created, _) =>
      exists kept :: Evicts(s, kept) && t == kept[id := Session(id, created, created + SESSION_TTL, ip)]
    case Get(id, at) => t == if id in s && !IsLive(s[id], at) then s - {id} else s
    case List(_) => t == s
    case Revoke(id, _) => t == s - {id}
    case RevokeAllExcept(keepID, _) => t == map id | id in s && id == keepID :: s[id]
    case Count(_) => t == s
    case Reap(at) => t == Live(s, at)
    case Idle(_) => t == s
  }

  /** What a call tells its caller. */
  function AnswerOf(s: Store, e: Event): Answer {
    match e
    case Get(id, at) => Found(if id in s && IsLive(s[id], at) then Some(s[id]) else None)
    case List(at) => Listed(Live(s, at))
    case Revoke(id, _) => Revoked(id in s)
    case RevokeAllExcept(keepID, _) => Counted(|s - {keepID}|)
    case Count(_) => Counted(|s|)
    case _ => Done
  }

  // ----- Runs -----

  /** ss are the stores before, between and after the calls es. */
  ghost predicate IsRun(ss: seq<Store>, es: seq<Event>) {
    |ss| == |es| + 1 && Linked(ss, es)
  }

  ghost predicate Linked(ss: seq<Store>, es: seq<Event>)
    requires |ss| == |es| + 1
    decreases |es|
  {
    if es == [] then ss[0] == map[] else
    Linked(ss[..|es|], es[..|es| - 1]) && Step(ss[|es| - 1], es[|es| - 1], ss[|es|])
  }

  /** e does not come before the last call of es. */
  predicate Follows(es: seq<Event>, e: Event) {
    es == [] || es[|es| - 1].at <= e.at
  }

  predicate Ordered(es: seq<Event>) {
    es == [] || (Ordered(es[..|es| - 1]) && Follows(es[..|es| - 1], es[|es| - 1]))
  }

  function CreationTimes(es: seq<Event>): set<int> {
    if es == [] then {} else
    CreationTimes(es[..|es| - 1]) + if es[|es| - 1].Create? then {es[|es| - 1].created} else {}
  }

  predicate DistinctCreationTimes(es: seq<Event>) {
    es == [] ||
    (var pre, e := es[..|es| - 1], es[|es| - 1];
     DistinctCreationTimes(pre) && (e.Create? ==> e.created !in CreationTimes(pre)))
  }

  predicate SameEventUpToReaping(e: Event, f: Event) {
    e == f || ((e.Reap? || e.Idle?) && (f.Reap? || f.Idle?) && e.at == f.at)
  }

  /** The same calls, with the reaper running at other moments. */
  predicate SameUpToReaping(es: seq<Event>, fs: seq<Event>) {
    if es == [] || fs == [] then es == fs else
    && SameUpToReaping(es[..|es| - 1], fs[..|fs| - 1])
    && SameEventUpToReaping(es[|es| - 1], fs[|fs| - 1])
  }

  /** Holds of every store that a run reaches. */
  ghost predicate StoreInvariant(s: Store) {
    && |s| <= MAX_SESSIONS
    && forall id :: id in s ==> s[id].id == id && s[id].expiresAt == s[id].createdAt + SESSION_TTL
  }

  ghost predicate DistinctlyStored(s: Store, times: set<int>) {
    && (forall id :: id in s ==> s[id].createdAt in times)
    && (forall id, other :: id in s && other in s && id != other ==> s[id].createdAt != s[other].createdAt)
  }

  lemma SubmapSize<K, V>(s: map<K, V>, t: map<K, V>)
    requires t.Keys <= s.Keys
    ensures |t| <= |s|
    ensures |t| == |s| ==> t.Keys == s.Keys
  {
    var rest := s.Keys - t.Keys;
    assert s.Keys == t.Keys + rest;
    assert |s.Keys| == |t.Keys| + |rest|;
  }

  lemma InvariantStep(s: Store, e: Event, t: Store)
    requires StoreInvariant(s) && Step(s, e, t)
    ensures StoreInvariant(t)
  {
    if !e.Create? {
      assert t.Keys <= s.Keys;
      SubmapSize(s, t);
    }
  }

  lemma DistinctStep(s: Store, times: set<int>, e: Event, t: Store)
    requires DistinctlyStored(s, times) && Step(s, e, t)
    requires e.Create? ==> e.created !in times
    ensures DistinctlyStored(t, if e.Create? then times + {e.created} else times)
  {}

  /** The store never exceeds 16 sessions, and every stored session keeps the constant TTL. */
  lemma {:induction false} RunInvariant(ss: seq<Store>, es: seq<Event>)
    requires IsRun(ss, es)
    ensures StoreInvariant(ss[|es|])
    decreases |es|
  {
    if es == [] {
    } else {
      RunInvariant(ss[..|es|], es[..|es| - 1]);
      InvariantStep(ss[|es| - 1], es[|es| - 1], ss[|es|]);
    }
  }

  lemma {:induction false} RunIsDistinct(ss: seq<Store>, es: seq<Event>)
    requires IsRun(ss, es) && DistinctCreationTimes(es)
    ensures DistinctlyStored(ss[|es|], CreationTimes(es))
    decreases |es|
  {
    if es == [] {
    } else {
      RunIsDistinct(ss[..|es|], es[..|es| - 1]);
      DistinctStep(ss[|es| - 1], CreationTimes(es[..|es| - 1]), es[|es| - 1], ss[|es|]);
    }
  }

  // ----- How long a session lives -----

  /** The Create calls that can push session es[n] out: those after it, and those with a creation time not before. */
  predicate IsRival(es: seq<Event>, n: nat, j: nat)
    requires n < |es| && j < |es| && es[n].Create?
  {
    j != n && es[j].Create? && (j > n || es[j].created >= es[n].created)
  }

  /** How many rivals there are among the first m calls, and their IDs. */
  function RivalCount(es: seq<Event>, n: nat, m: nat): nat
    requires n < |es| && m <= |es| && es[n].Create?
  {
    if m == 0 then 0 else RivalCount(es, n, m - 1) + if IsRival(es, n, m - 1) then 1 else 0
  }

  function RivalIDs(es: seq<Event>, n: nat, m: nat): (ids: set<string>)
    requires n < |es| && m <= |es| && es[n].Create?
    ensures |ids| <= RivalCount(es, n, m)
  {
    if m == 0 then {} else RivalIDs(es, n, m - 1) + if IsRival(es, n, m - 1) then {es[m - 1].id} else {}
  }

  /** Sessions other than es[n] that are as new as it belong to rivals. */
  ghost predicate RivalsOnly(s: Store, es: seq<Event>, n: nat, m: nat)
    requires n < |es| && m <= |es| && es[n].Create?
  {
    forall k :: k in s && k != es[n].id && s[k].createdAt >= es[n].created ==> k in RivalIDs(es, n, m)
  }

  lemma {:induction false} StoredRivals(ss: seq<Store>, es: seq<Event>, all: seq<Event>, n: nat)
    requires IsRun(ss, es) && es <= all && n < |all| && all[n].Create?
    ensures RivalsOnly(ss[|es|], all, n, |es|)
    decreases |es|
  {
    if es == [] {
    } else {
      var m := |es| - 1;
      StoredRivals(ss[..|es|], es[..m], all, n);
      RivalsStep(ss[m], all, n, m, ss[|es|]);
    }
  }

  lemma RivalsStep(s: Store, all: seq<Event>, n: nat, m: nat, t: Store)
    requires n < |all| && m < |all| && all[n].Create? && RivalsOnly(s, all, n, m) && Step(s, all[m], t)
    ensures RivalsOnly(t, all, n, m + 1)
  {
    forall k | k in t && k != all[n].id && t[k].createdAt >= all[n].created ensures k in RivalIDs(all, n, m + 1) {
      if !(k in s && t[k] == s[k]) {
        assert all[m].Create? && all[m].id == k;
      }
    }
  }

  /** The call takes the session away by name. */
  predicate Removes(e: Event, id: string) {
    (e.Revoke? && e.id == id) || (e.RevokeAllExcept? && e.keepID != id) || (e.Create? && e.id == id)
  }

  lemma EvictionSpares(s: Store, kept: Store, id: string, rivals: set<string>)
    requires id in s && StoreInvariant(s) && Evicts(s, kept) && |rivals| < 15
    requires forall k :: k in s && k != id && s[k].createdAt >= s[id].createdAt ==> k in rivals
    ensures id in kept && kept[id] == s[id]
  {
    if |s| >= MAX_SESSIONS {
      var v :| Oldest(s, v) && kept == s - {v};
      if v == id {
        var others := s.Keys - {id};
        assert |s.Keys| == |others| + 1;
        assert others <= rivals;
        SetSize(others, rivals);
      }
    }
  }

  lemma SetSize(a: set<string>, b: set<string>)
    requires a <= b
    ensures |a| <= |b|
  {
    assert b == a + (b - a);
  }

  lemma SurvivesStep(s: Store, e: Event, t: Store, id: string, rivals: set<string>, now: int)
    requires id in s && StoreInvariant(s) && Step(s, e, t) && !Removes(e, id) && e.at <= now && IsLive(s[id], now)
    requires e.Create? ==> |rivals| < 15
    requires forall k :: k in s && k != id && s[k].createdAt >= s[id].createdAt ==> k in rivals
    ensures id in t && t[id] == s[id]
  {
    if e.Create? {
      var kept :| Evicts(s, kept) && t == kept[e.id := Session(e.id, e.created, e.created + SESSION_TTL, e.ip)];
      EvictionSpares(s, kept, id, rivals);
    }
  }

  /**
   In every run a session is found until 72 hours after its creation, whatever is looked up, listed or
   reaped in between, unless it is revoked or 16 other sessions are created after it or as new as it.
   */
  lemma {:induction false} SessionSurvives(ss: seq<Store>, es: seq<Event>, all: seq<Event>, n: nat, now: int)
    requires IsRun(ss, es) && Ordered(es) && es <= all && n < |es| && all[n].Create? && Follows(es, Get(all[n].id, now))
    requires forall j :: n < j < |es| ==> !Removes(es[j], all[n].id)
    requires RivalCount(all, n, |es|) < 16 && now <= all[n].created + 259_200_000_000_000
    ensures var x := Session(all[n].id, all[n].created, all[n].created + 259_200_000_000_000, all[n].ip);
            && all[n].id in ss[|es|] && ss[|es|][all[n].id] == x
            && AnswerOf(ss[|es|], Get(all[n].id, now)) == Found(Some(x))
    decreases |es|
  {
    var m, e := |es| - 1, es[|es| - 1];
    if n < m {
      SessionSurvives(ss[..|es|], es[..m], all, n, now);
      StoredRivals(ss[..|es|], es[..m], all, n);
      RunInvariant(ss[..|es|], es[..m]);
      assert e == all[m] && (e.Create? ==> IsRival(all, n, m));
      SurvivesStep(ss[m], e, ss[|es|], all[n].id, RivalIDs(all, n, m), now);
    }
  }

  /** Calls that only create, under different IDs and one after the other. */
  ghost predicate Creations(es: seq<Event>) {
    && (forall j :: 0 <= j < |es| ==> es[j].Create?)
    && (forall i, j :: 0 <= i < j < |es| ==> es[i].id != es[j].id && es[i].created < es[j].created)
  }

  function SessionOf(e: Event): Session
    requires e.Create?
  {
    Session(e.id, e.created, e.created + 259_200_000_000_000, e.ip)
  }

  /** The sessions of the calls lo .. hi-1. */
  function Created(es: seq<Event>, lo: nat, hi: nat): Store
    requires lo <= hi <= |es|
  {
    if lo == hi then map[]
    else if es[hi - 1].Create? then Created(es, lo, hi - 1)[es[hi - 1].id := SessionOf(es[hi - 1])]
    else Created(es, lo, hi - 1)
  }

  lemma {:induction false} CreatedBy(es: seq<Event>, lo: nat, hi: nat, k: string) returns (i: nat)
    requires lo <= hi <= |es| && Creations(es) && k in Created(es, lo, hi)
    ensures lo <= i < hi && es[i].id == k && Created(es, lo, hi)[k] == SessionOf(es[i])
  {
    if es[hi - 1].id == k {
      i := hi - 1;
    } else {
      i := CreatedBy(es, lo, hi - 1, k);
    }
  }

  lemma {:induction false} CreatedSize(es: seq<Event>, lo: nat, hi: nat)
    requires lo <= hi <= |es| && Creations(es)
    ensures |Created(es, lo, hi)| == hi - lo
  {
    if lo == hi {
    } else {
      var before, id := Created(es, lo, hi - 1), es[hi - 1].id;
      CreatedSize(es, lo, hi - 1);
      if id in before {
        var i := CreatedBy(es, lo, hi - 1, id);
        assert false;
      }
      assert Created(es, lo, hi).Keys == before.Keys + {id};
    }
  }

  /** Without the first of them. */
  lemma {:induction false} CreatedRest(es: seq<Event>, lo: nat, hi: nat)
    requires lo < hi <= |es| && Creations(es)
    ensures es[lo].id in Created(es, lo, hi) && Created(es, lo, hi)[es[lo].id] == SessionOf(es[lo])
    ensures Created(es, lo, hi) - {es[lo].id} == Created(es, lo + 1, hi)
  {
    if lo + 1 == hi {
      assert Created(es, lo, lo) == map[];
    } else {
      CreatedRest(es, lo, hi - 1);
      assert es[lo].id != es[hi - 1].id;
    }
  }

  lemma EvictionTakesTheFirst(s: Store, kept: Store, es: seq<Event>, lo: nat, hi: nat)
    requires lo + 16 == hi <= |es| && Creations(es) && s == Created(es, lo, hi) && Evicts(s, kept)
    ensures kept == Created(es, lo + 1, hi)
  {
    CreatedSize(es, lo, hi);
    CreatedRest(es, lo, hi);
    var v :| Oldest(s, v) && kept == s - {v};
    var i := CreatedBy(es, lo, hi, v);
    assert s[v].createdAt <= s[es[lo].id].createdAt;
    assert i == lo;
  }

  /** With creations only, exactly the last 16 sessions are stored. */
  lemma {:induction false} LastSixteenStay(ss: seq<Store>, es: seq<Event>, all: seq<Event>)
    requires IsRun(ss, es) && es <= all && Creations(all)
    ensures ss[|es|] == Created(all, if |es| < 16 then 0 else |es| - 16, |es|)
    decreases |es|
  {
    if es == [] {
    } else {
      var m, e := |es| - 1, es[|es| - 1];
      LastSixteenStay(ss[..|es|], es[..m], all);
      LastSixteenStep(ss[m], all, m, ss[|es|]);
    }
  }

  lemma LastSixteenStep(s: Store, all: seq<Event>, m: nat, t: Store)
    requires m < |all| && Creations(all) && Step(s, all[m], t)
    requires s == Created(all, if m < 16 then 0 else m - 16, m)
    ensures t == Created(all, if m + 1 < 16 then 0 else m + 1 - 16, m + 1)
  {
    var e := all[m];
    var kept :| Evicts(s, kept) && t == kept[e.id := Session(e.id, e.created, e.created + SESSION_TTL, e.ip)];
    if m < 16 {
      CreatedSize(all, 0, m);
    } else {
      CreatedSize(all, m - 16, m);
      EvictionTakesTheFirst(s, kept, all, m - 16, m);
    }
  }

  // ----- The reaper is unobservable -----

  /** Unless every stored session is live, eviction takes an expired one. */
  lemma EvictsExpiredFirst(s: Store, t: Store, now: int)
    requires StoreInvariant(s) && Evicts(s, t)
    requires |s| < MAX_SESSIONS || Live(s, now) != s
    ensures Live(t, now) == Live(s, now)
  {
    if |s| == MAX_SESSIONS {
      var v :| Oldest(s, v) && t == s - {v};
      var dead :| dead in s && !IsLive(s[dead], now);
      assert s[v].createdAt <= s[dead].createdAt;
    }
  }

  lemma EvictionsAgree(s: Store, s': Store, t: Store, t': Store, times: set<int>, now: int)
    requires StoreInvariant(s) && StoreInvariant(t) && DistinctlyStored(s, times)
    requires Evicts(s, s') && Evicts(t, t') && Live(s, now) == Live(t, now)
    ensures Live(s', now) == Live(t', now)
  {
    if |s| == MAX_SESSIONS && Live(s, now) == s {
      FullAndLive(s, t, now);
    } else if |t| == MAX_SESSIONS && Live(t, now) == t {
      FullAndLive(t, s, now);
    } else {
      EvictsExpiredFirst(s, s', now);
      EvictsExpiredFirst(t, t', now);
    }
  }

  lemma FullAndLive(s: Store, t: Store, now: int)
    requires |s| == MAX_SESSIONS >= |t| && Live(s, now) == s == Live(t, now)
    ensures s == t
  {
    assert s.Keys <= t.Keys;
    SubmapSize(t, s);
    assert forall id :: id in t ==> id in Live(t, now) && Live(t, now)[id] == t[id];
  }

  lemma CreateKeepsLiveEqual(s: Store, s': Store, t: Store, t': Store, times: set<int>, e: Event)
    requires StoreInvariant(s) && StoreInvariant(t) && DistinctlyStored(s, times)
    requires e.Create? && Step(s, e, s') && Step(t, e, t')
    requires Live(s, e.at) == Live(t, e.at)
    ensures Live(s', e.at) == Live(t', e.at)
  {
    var x := Session(e.id, e.created, e.created + SESSION_TTL, e.ip);
    var k :| Evicts(s, k) && s' == k[e.id := x];
    var l :| Evicts(t, l) && t' == l[e.id := x];
    EvictionsAgree(s, k, t, l, times, e.at);
    LiveInsert(k, e.id, x, e.at);
    LiveInsert(l, e.id, x, e.at);
  }

  /** What a call other than Create does to the live sessions; reaping does nothing. */
  function LiveAfter(live: Store, e: Event): Store {
    match e
    case Revoke(id, _) => live - {id}
    case RevokeAllExcept(keepID, _) => map id | id in live && id == keepID :: live[id]
    case _ => live
  }

  lemma LiveStep(s: Store, e: Event, t: Store)
    requires Step(s, e, t) && !e.Create?
    ensures Live(t, e.at) == LiveAfter(Live(s, e.at), e)
  {}

  lemma LiveInsert(s: Store, id: string, x: Session, now: int)
    ensures Live(s[id := x], now) == if IsLive(x, now) then Live(s, now)[id := x] else Live(s, now) - {id}
  {}

  lemma LiveLater(s: Store, t: Store, now: int, later: int)
    requires Live(s, now) == Live(t, now) && now <= later
    ensures Live(s, later) == Live(t, later)
  {
    assert Live(s, later) == Live(Live(s, now), later);
    assert Live(t, later) == Live(Live(t, now), later);
  }

  lemma StepsKeepLiveEqual(s: Store, s': Store, e: Event, t: Store, t': Store, f: Event, times: set<int>)
    requires StoreInvariant(s) && StoreInvariant(t) && DistinctlyStored(s, times)
    requires Step(s, e, s') && Step(t, f, t') && SameEventUpToReaping(e, f)
    requires Live(s, e.at) == Live(t, e.at)
    ensures Live(s', e.at) == Live(t', e.at)
  {
    if e.Create? {
      CreateKeepsLiveEqual(s, s', t, t', times, e);
    } else {
      LiveStep(s, e, s');
      LiveStep(t, f, t');
    }
  }

  /** Two runs that differ in their reaping end with the same live sessions. */
  lemma {:induction false} LiveSessionsAgree(ss: seq<Store>, es: seq<Event>, ts: seq<Store>, fs: seq<Event>, now: int)
    requires IsRun(ss, es) && IsRun(ts, fs) && Ordered(es) && Follows(es, Idle(now))
    requires DistinctCreationTimes(es) && SameUpToReaping(es, fs)
    ensures |es| == |fs| && Live(ss[|es|], now) == Live(ts[|fs|], now)
    decreases |es|
  {
    if es == [] {
    } else {
      var n, e, f := |es| - 1, es[|es| - 1], fs[|fs| - 1];
      LiveSessionsAgree(ss[..|es|], es[..n], ts[..|fs|], fs[..|fs| - 1], e.at);
      RunInvariant(ss[..|es|], es[..n]);
      RunInvariant(ts[..|fs|], fs[..|fs| - 1]);
      RunIsDistinct(ss[..|es|], es[..n]);
      StepsKeepLiveEqual(ss[n], ss[|es|], e, ts[n], ts[|es|], f, CreationTimes(es[..n]));
      LiveLater(ss[|es|], ts[|es|], e.at, now);
    }
  }

  /** No Get or List after any run ever tells whether, or when, the reaper has run. */
  lemma ReaperIsUnobservable(ss: seq<Store>, es: seq<Event>, ts: seq<Store>, fs: seq<Event>, e: Event)
    requires IsRun(ss, es) && IsRun(ts, fs) && Ordered(es) && Follows(es, e)
    requires DistinctCreationTimes(es) && SameUpToReaping(es, fs) && (e.Get? || e.List?)
    ensures AnswerOf(ss[|es|], e) == AnswerOf(ts[|fs|], e)
  {
    LiveSessionsAgree(ss, es, ts, fs, e.at);
    if e.Get? {
      AnswerFromLive(ss[|es|], e.id, e.at);
      AnswerFromLive(ts[|fs|], e.id, e.at);
    }
  }

  lemma AnswerFromLive(s: Store, id: string, now: int)
    ensures var live := Live(s, now);
            AnswerOf(s, Get(id, now)) == Found(if id in live then Some(live[id]) else None)
  {}

  // ----- Where the reaper does show -----

  function Expired(s: Store, now: int): Store {
    map id | id in s && !IsLive(s[id], now) :: s[id]
  }

  /** The answers to e in s, and after a reaping at the instant at. */
  ghost predicate ReapingTells(s: Store, at: int, e: Event) {
    var before, after := AnswerOf(s, e), AnswerOf(Live(s, at), e);
    match e
    case Revoke(id, _) => before != after <==> id in s && !IsLive(s[id], at)
    case RevokeAllExcept(keepID, _) => before == Counted(after.n + |Expired(s, at) - {keepID}|)
    case Count(_) => before == Counted(after.n + |Expired(s, at)|)
    case _ => before == after
  }

  /**
   One more reaping after any run changes the answer of Revoke exactly for a session that is
   stored and expired, and lowers the counts of RevokeAllExcept and Count by exactly the expired
   sessions they would have counted. It changes no other answer.
   */
  lemma ReapingShows(ss: seq<Store>, es: seq<Event>, at: int, e: Event)
    requires IsRun(ss, es) && at <= e.at
    ensures IsRun(ss + [ss[|es|]], es + [Idle(at)]) && IsRun(ss + [Live(ss[|es|], at)], es + [Reap(at)])
    ensures ReapingTells(ss[|es|], at, e)
  {
    RunGoesOn(ss, es, Idle(at), ss[|es|]);
    RunGoesOn(ss, es, Reap(at), Live(ss[|es|], at));
    ReapingTellsAll(ss[|es|], at, e);
  }

  lemma RunGoesOn(ss: seq<Store>, es: seq<Event>, e: Event, t: Store)
    requires IsRun(ss, es) && Step(ss[|es|], e, t)
    ensures IsRun(ss + [t], es + [e])
  {
    assert (ss + [t])[..|es| + 1] == ss && (es + [e])[..|es|] == es;
  }

  lemma ReapingTellsAll(s: Store, at: int, e: Event)
    requires at <= e.at
    ensures ReapingTells(s, at, e)
  {
    match e
    case List(now) => ListIsTheSame(s, at, now);
    case Get(id, now) => GetIsTheSame(s, at, id, now);
    case RevokeAllExcept(keepID, _) => RevokeAllTells(s, at, e);
    case Count(_) => CountDropsByExpired(s, at);
    case _ =>
  }

  lemma RevokeAllTells(s: Store, at: int, e: Event)
    requires e.RevokeAllExcept?
    ensures ReapingTells(s, at, e)
  {
    CountDrops(s, at, {e.keepID});
  }

  lemma ListIsTheSame(s: Store, at: int, now: int)
    requires at <= now
    ensures Live(Live(s, at), now) == Live(s, now)
  {}

  lemma GetIsTheSame(s: Store, at: int, id: string, now: int)
    requires at <= now
    ensures AnswerOf(Live(s, at), Get(id, now)) == AnswerOf(s, Get(id, now))
  {}

  lemma CountDropsByExpired(s: Store, at: int)
    ensures |s| == |Live(s, at)| + |Expired(s, at)|
  {
    PartSizes(s, Live(s, at), Expired(s, at));
  }

  lemma CountDrops(s: Store, at: int, kept: set<string>)
    ensures |s - kept| == |Live(s, at) - kept| + |Expired(s, at) - kept|
  {
    PartSizes(s - kept, Live(s, at) - kept, Expired(s, at) - kept);
  }

  lemma PartSizes(s: Store, t: Store, x: Store)
    requires t.Keys + x.Keys == s.Keys && t.Keys !! x.Keys
    ensures |s| == |t| + |x|
  {
    assert |s.Keys| == |t.Keys| + |x.Keys|;
  }

  lemma KeptAndRevoked(s: Store, keepID: string)
    ensures |s| == |map id | id in s && id == keepID :: s[id]| + |s - {keepID}|
  {
    PartSizes(s, map id | id in s && id == keepID :: s[id], s - {keepID});
  }

  lemma RemovalSize(s: Store, id: string)
    requires id in s
    ensures |s - {id}| == |s| - 1
  {
    PartSizes(s, s - {id}, map[id := s[id]]);
  }

  /** However two runs were reaped, Revoke answers alike for every session that is live in either. */
  lemma RevokeDiffersOnlyOnExpired(ss: seq<Store>, es: seq<Event>, ts: seq<Store>, fs: seq<Event>, id: string, at: int)
    requires IsRun(ss, es) && IsRun(ts, fs) && Ordered(es) && Follows(es, Revoke(id, at))
    requires DistinctCreationTimes(es) && SameUpToReaping(es, fs)
    ensures AnswerOf(ss[|es|], Revoke(id, at)) != AnswerOf(ts[|fs|], Revoke(id, at)) ==>
              if id in ss[|es|] then !IsLive(ss[|es|][id], at) else id in ts[|fs|] && !IsLive(ts[|fs|][id], at)
  {
    LiveSessionsAgree(ss, es, ts, fs, at);
    assert id in Live(ss[|es|], at) <==> id in Live(ts[|fs|], at);
  }

  /** Two runs that differ only in reaping, and Revoke finds the expired session in one of them. */
  lemma RevokeSeesTheReaper(id: string)
    returns (ss: seq<Store>, es: seq<Event>, ts: seq<Store>, fs: seq<Event>)
    ensures IsRun(ss, es) && IsRun(ts, fs) && Ordered(es) && Follows(es, Revoke(id, SESSION_TTL + 1))
    ensures DistinctCreationTimes(es) && SameUpToReaping(es, fs)
    ensures id !in ss[|es|] && id in ts[|fs|]
  {
    var late := SESSION_TTL + 1;
    var one: Store := map[id := Session(id, 0, SESSION_TTL, "")];
    var made := Create(id, "", 0, 0);
    assert Evicts(map[], map[]);
    assert Step(map[], made, one);
    ss, es := Then([map[]], [], made, one);
    ts, fs := ss, es;
    assert Live(one, late) == map[];
    ss, es := Then(ss, es, Reap(late), map[]);
    ts, fs := Then(ts, fs, Idle(late), one);
    assert es[..1] == fs[..1] == [made];
    assert SameUpToReaping([made], [made]) by {
      assert [made][..0] == [];
    }
  }

  /** A run extended by one call. */
  lemma Then(ss: seq<Store>, es: seq<Event>, e: Event, t: Store) returns (ss': seq<Store>, es': seq<Event>)
    requires IsRun(ss, es) && Ordered(es) && Follows(es, e) && DistinctCreationTimes(es)
    requires e.Create? ==> e.created !in CreationTimes(es)
    requires Step(ss[|es|], e, t)
    ensures ss' == ss + [t] && es' == es + [e]
    ensures IsRun(ss', es') && Ordered(es') && DistinctCreationTimes(es')
  {
    ss', es' := ss + [t], es + [e];
    assert ss'[..|es'|] == ss && es'[..|es'| - 1] == es;
  }

  // ----- The code -----

  datatype Entry = Entry(id: string, idPrefix: string, ip: string, createdAt: int, expiresAt: int)

  function EntryOf(x: Session): Entry {
    Entry(x.id, if |x.id| > 8 then x.id[..8] else x.id, x.ip, x.createdAt, x.expiresAt)
  }

  /** A listed entry shows the first eight characters of the ID apart, and the session's data. */
  lemma EntriesInFull(x: Session)
    ensures var e := EntryOf(x);
            && e.id == x.id && e.ip == x.ip && e.createdAt == x.createdAt && e.expiresAt == x.expiresAt
            && e.idPrefix <= x.id && |e.idPrefix| == if |x.id| < 8 then |x.id| else 8
  {}

  class Sessions {
    var byID: Store

    /** IDs are 64 hex digits, and each session is stored under its own ID. */
    ghost predicate Valid()
      reads this
    {
      && |byID| <= 16
      && forall id :: id in byID ==>
           |id| >= 8 && byID[id].id == id && byID[id].expiresAt == byID[id].createdAt + 259_200_000_000_000
    }

    constructor ()
      ensures Valid() && byID == map[]
    {
      byID := map[];
    }

    /** newID is what the random source gave, if it worked; created was read before the lock. */
    method Create(newID: Option<string>, ip: string, created: int, ghost at: int) returns (sess: Option<Session>)
      requires Valid() && (newID.Some? ==> |newID.value| == 64)
      modifies this
      ensures Valid()
      ensures newID.None? ==> sess.None? && unchanged(this)
      ensures newID.Some? ==>
                && sess == Some(Session(newID.value, created, created + SESSION_TTL, ip))
                && Step(old(byID), Event.Create(newID.value, ip, created, at), byID)
    {
      if newID.None? {
        return None;
      }
      var x := Session(newID.value, created, created + SESSION_TTL, ip);
      EvictIfFull();
      byID := byID[newID.value := x];
      return Some(x);
    }

    method EvictIfFull()
      requires Valid()
      modifies this
      ensures Valid() && |byID| < MAX_SESSIONS && Evicts(old(byID), byID)
    {
      while |byID| >= MAX_SESSIONS
        invariant Valid()
        invariant if |byID| < MAX_SESSIONS then Evicts(old(byID), byID) else byID == old(byID)
        decreases |byID|
      {
        var oldestID := FindOldest();
        if oldestID != "" {
          byID := byID - {oldestID};
        } else {
          break;
        }
      }
    }

    /** The inner loop of the eviction, in the map's arbitrary order. */
    method FindOldest() returns (oldestID: string)
      requires Valid() && byID != map[]
      ensures Oldest(byID, oldestID)
    {
      var oldestTime, first := 0, true;
      oldestID := "";
      var rest := byID.Keys;
      while rest != {}
        invariant rest <= byID.Keys && (first ==> rest == byID.Keys)
        invariant !first ==> oldestID in byID && byID[oldestID].createdAt == oldestTime
        invariant forall id :: id in byID && id !in rest ==> oldestTime <= byID[id].createdAt
        decreases rest
      {
        var id :| id in rest;
        if first || byID[id].createdAt < oldestTime {
          oldestID, oldestTime, first := id, byID[id].createdAt, false;
        }
        rest := rest - {id};
      }
    }

    method Get(id: string, now: int) returns (sess: Option<Session>)
      requires Valid()
      modifies this
      ensures Valid()
      ensures Found(sess) == AnswerOf(old(byID), Event.Get(id, now))
      ensures sess.Some? <==> id in old(byID) && now <= old(byID)[id].createdAt + 259_200_000_000_000
      ensures sess.Some? ==> sess.value == old(byID)[id]
      ensures Step(old(byID), Event.Get(id, now), byID)
    {
      if id == "" {
        return None;
      }
      if id !in byID {
        return None;
      }
      var x := byID[id];
      if now > x.expiresAt {
        byID := byID - {id};
        return None;
      }
      return Some(x);
    }

    method Revoke(id: string, ghost at: int) returns (found: bool)
      requires Valid()
      modifies this
      ensures Valid() && Revoked(found) == AnswerOf(old(byID), Event.Revoke(id, at))
      ensures (found <==> id in old(byID)) && byID == old(byID) - {id}
      ensures Step(old(byID), Event.Revoke(id, at), byID)
    {
      if id !in byID {
        assert byID - {id} == byID;
        return false;
      }
      byID := byID - {id};
      return true;
    }

    method Count() returns (n: nat)
      requires Valid()
      ensures n == |byID.Keys| <= 16 && forall at :: Counted(n) == AnswerOf(byID, Event.Count(at))
    {
      n := |byID|;
    }

    method RevokeAllExcept(keepID: string, ghost at: int) returns (n: nat)
      requires Valid()
      modifies this
      ensures Valid() && Counted(n) == AnswerOf(old(byID), Event.RevokeAllExcept(keepID, at))
      ensures byID.Keys == old(byID).Keys * {keepID} && n == |old(byID)| - |byID|
      ensures Step(old(byID), Event.RevokeAllExcept(keepID, at), byID)
    {
      n := 0;
      var rest := byID.Keys;
      while rest != {}
        invariant rest <= old(byID).Keys
        invariant forall id :: id in byID <==> id in old(byID) && (id in rest || id == keepID)
        invariant forall id :: id in byID ==> byID[id] == old(byID)[id]
        invariant n + |byID| == |old(byID)|
        decreases rest
      {
        var id :| id in rest;
        rest := rest - {id};
        if id != keepID {
          RemovalSize(byID, id);
          byID := byID - {id};
          n := n + 1;
        }
      }
      assert byID == map id | id in old(byID) && id == keepID :: old(byID)[id];
      KeptAndRevoked(old(byID), keepID);
    }

    method List(now: int) returns (out: seq<Entry>)
      requires Valid()
      ensures forall x :: x in out <==> exists id :: id in Live(byID, now) && x == EntryOf(byID[id])
      ensures |out| == |Live(byID, now)|
    {
      out := [];
      var rest := byID.Keys;
      ghost var seen: Store := map[];
      while rest != {}
        invariant rest <= byID.Keys
        invariant seen == map id | id in Live(byID, now) && id !in rest :: byID[id]
        invariant |out| == |seen|
        invariant forall x :: x in out <==> exists id :: id in seen && x == EntryOf(byID[id])
        decreases rest
      {
        var id :| id in rest;
        rest := rest - {id};
        if now > byID[id].expiresAt {
          continue;
        }
        out := out + [EntryOf(byID[id])];
        seen := seen[id := byID[id]];
      }
      assert seen == Live(byID, now);
    }

    /** One tick of the reaper. */
    method Reap(now: int)
      requires Valid()
      modifies this
      ensures Valid() && Step(old(byID), Event.Reap(now), byID)
      ensures forall id :: id in old(byID) ==>
                (id in byID <==> now <= old(byID)[id].createdAt + 259_200_000_000_000)
    {
      var rest := byID.Keys;
      while rest != {}
        invariant Valid() && rest <= byID.Keys
        invariant forall id :: id in byID <==> id in old(byID) && (id in rest || IsLive(old(byID)[id], now))
        invariant forall id :: id in byID ==> byID[id] == old(byID)[id]
        decreases rest
      {
        var id :| id in rest;
        rest := rest - {id};
        if now > byID[id].expiresAt {
          byID := byID - {id};
        }
      }
    }
  }
}
