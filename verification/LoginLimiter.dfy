/**
 The login limiter (rflink/login_limit.go): per IP, a sliding window of failed attempts and a
 lockout. A login asks Allow first and reports Fail or Success later, so several attempts of
 one IP can be in flight between the two. Times are integer nanoseconds; every call reads the
 clock while it holds the mutex.
 */
module LoginLimiter {
  import opened Wrappers

  const MINUTE := 60_000_000_000
  const LOGIN_WINDOW := 5 * MINUTE
  const LOGIN_MAX_ATTEMPTS := 5
  const LOGIN_LOCKOUT := 15 * MINUTE

  function Key(ip: string): string {
    if ip == "" then "unknown" else ip
  }

  /** Different addresses are kept apart; only the empty one counts as another, "unknown". */
  lemma KeysAreAddresses(a: string, b: string)
    ensures Key("") == Key("unknown")
    ensures Key(a) == Key(b) <==> a == b || (Anonymous(a) && Anonymous(b))
  {}

  predicate Anonymous(ip: string) {
    ip == "" || ip == "unknown"
  }

  /** The two maps of the limiter. */
  datatype Store = Store(attempts: map<string, seq<int>>, locked: map<string, int>)

  /** What the limiter holds for one IP. */
  datatype View = View(attempts: seq<int>, lock: Option<int>)

  datatype Answer = Answer(ok: bool, retryAfter: int)

  function ViewOf(s: Store, ip: string): View {
    var k := Key(ip);
    View(if k in s.attempts then s.attempts[k] else [],
         if k in s.locked then Some(s.locked[k]) else None)
  }

  /** The attempts made after cut. */
  function Prune(attempts: seq<int>, cut: int): (kept: seq<int>)
    ensures |kept| <= |attempts|
  {
    if attempts == [] then []
    else Prune(attempts[..|attempts| - 1], cut) +
         if attempts[|attempts| - 1] > cut then [attempts[|attempts| - 1]] else []
  }

  function AllowView(v: View, now: int): (View, Answer) {
    if v.lock.Some? && now < v.lock.value then (v, Answer(false, v.lock.value - now)) else
    var kept := Prune(if v.lock.Some? then [] else v.attempts, now - LOGIN_WINDOW);
    if |kept| >= LOGIN_MAX_ATTEMPTS
    then (View(kept, Some(now + LOGIN_LOCKOUT)), Answer(false, LOGIN_LOCKOUT))
    else (View(kept, None), Answer(true, 0))
  }

  function FailView(v: View, now: int, lockNow: int): View {
    var attempts := v.attempts + [now];
    View(attempts, if |attempts| >= LOGIN_MAX_ATTEMPTS then Some(lockNow + LOGIN_LOCKOUT) else v.lock)
  }

  /** Drop is an allowed attempt that ends without an outcome (no GUI password is configured). */
  datatype Event =
    | Allow(ip: string, at: int)
    | Fail(ip: string, at: int, lockAt: int)
    | Success(ip: string)
    | Drop(ip: string)

  function StepView(v: View, e: Event): View {
    match e
    case Allow(_, at) => AllowView(v, at).0
    case Fail(_, at, lockAt) => FailView(v, at, lockAt)
    case Success(_) => View([], None)
    case Drop(_) => v
  }

  /** The store with the entry of one IP replaced. */
  ghost predicate Updates(s: Store, ip: string, v: View, t: Store) {
    && ViewOf(t, ip) == v
    && forall other :: Key(other) != Key(ip) ==> ViewOf(t, other) == ViewOf(s, other)
  }

  // ----- Runs -----

  /** The limiter's view of ip after a run of calls by any IPs. */
  function Exec(es: seq<Event>, ip: string): View {
    if es == [] then View([], None) else
    var before, e := Exec(es[..|es| - 1], ip), es[|es| - 1];
    if Key(e.ip) == Key(ip) then StepView(before, e) else before
  }

  function Clock(es: seq<Event>, start: int): int {
    if es == [] then start else
    match es[|es| - 1]
    case Allow(_, at) => at
    case Fail(_, _, lockAt) => lockAt
    case _ => Clock(es[..|es| - 1], start)
  }

  /** Clock readings never go back along the run. */
  ghost predicate Timed(es: seq<Event>, start: int) {
    es != [] ==>
      var e, now := es[|es| - 1], Clock(es[..|es| - 1], start);
      && Timed(es[..|es| - 1], start)
      && (e.Allow? ==> now <= e.at)
      && (e.Fail? ==> now <= e.at <= e.lockAt)
  }

  predicate Admitted(es: seq<Event>, ip: string, e: Event) {
    e.Allow? && Key(e.ip) == Key(ip) && AllowView(Exec(es, ip), e.at).1.ok
  }

  /** Attempts of ip that were allowed and have no outcome yet. */
  function InFlight(es: seq<Event>, ip: string): int {
    if es == [] then 0 else
    var e := es[|es| - 1];
    InFlight(es[..|es| - 1], ip) +
    if Key(e.ip) != Key(ip) then 0
    else if e.Allow? then (if Admitted(es[..|es| - 1], ip, e) then 1 else 0)
    else -1
  }

  /** Every outcome follows its own admission, and at most k attempts of ip are ever in flight. */
  ghost predicate AtMostInFlight(es: seq<Event>, ip: string, k: int) {
    && 0 <= InFlight(es, ip) <= k
    && (es != [] ==> AtMostInFlight(es[..|es| - 1], ip, k))
  }

  ghost predicate NoSuccess(es: seq<Event>, ip: string) {
    forall i :: 0 <= i < |es| && Key(es[i].ip) == Key(ip) ==> !es[i].Success?
  }

  /** Failures of ip recorded in the half-open window [from, from + LOGIN_WINDOW). */
  function FailuresIn(es: seq<Event>, ip: string, from: int): nat {
    if es == [] then 0 else
    var e := es[|es| - 1];
    FailuresIn(es[..|es| - 1], ip, from) +
    if e.Fail? && Key(e.ip) == Key(ip) && from <= e.at < from + LOGIN_WINDOW then 1 else 0
  }

  /** The two maps after each call of a run, starting empty. */
  ghost predicate IsRun(ss: seq<Store>, es: seq<Event>) {
    && |ss| == |es| + 1
    && ss[0] == Store(map[], map[])
    && forall i :: 0 <= i < |es| ==>
         Updates(ss[i], es[i].ip, StepView(ViewOf(ss[i], es[i].ip), es[i]), ss[i + 1])
  }

  /** What the limiter holds for ip follows from the calls of ip alone, whatever other IPs do. */
  lemma {:induction false} OtherIPsDoNotMatter(ss: seq<Store>, es: seq<Event>, ip: string)
    requires IsRun(ss, es)
    ensures ViewOf(ss[|es|], ip) == Exec(es, ip)
  {
    if es == [] {
    } else {
      OtherIPsDoNotMatter(ss[..|es|], es[..|es| - 1], ip);
      var s, e := ss[|es| - 1], es[|es| - 1];
      assert Updates(s, e.ip, StepView(ViewOf(s, e.ip), e), ss[|es|]);
      if Key(e.ip) == Key(ip) {
        assert ViewOf(s, e.ip) == ViewOf(s, ip) && ViewOf(ss[|es|], e.ip) == ViewOf(ss[|es|], ip);
      }
    }
  }

  /** However the calls of other addresses end, nothing is held against an address without calls. */
  lemma {:induction false} SilentAddressIsAllowed(es: seq<Event>, ip: string, at: int)
    requires !Anonymous(ip) && forall i :: 0 <= i < |es| ==> es[i].ip != ip
    ensures Exec(es, ip) == View([], None) && AllowView(Exec(es, ip), at).1 == Answer(true, 0)
  {
    if es == [] {
    } else {
      SilentAddressIsAllowed(es[..|es| - 1], ip, at);
      KeysAreAddresses(es[|es| - 1].ip, ip);
    }
  }

  /** Pruning keeps exactly the attempts after the cut, each as often as it was made. */
  lemma {:induction false} PruneIsFilter(attempts: seq<int>, cut: int, x: int)
    ensures multiset(Prune(attempts, cut))[x] == if x > cut then multiset(attempts)[x] else 0
  {
    if attempts == [] {
    } else {
      var pre, last := attempts[..|attempts| - 1], attempts[|attempts| - 1];
      PruneIsFilter(pre, cut, x);
      assert attempts == pre + [last];
    }
  }

  /** kept are the attempts of all after the cut, each as often. */
  ghost predicate KeptAfter(kept: seq<int>, all: seq<int>, cut: int) {
    forall x :: multiset(kept)[x] == if x > cut then multiset(all)[x] else 0
  }

  lemma PruneKeepsAfter(attempts: seq<int>, cut: int)
    ensures KeptAfter(Prune(attempts, cut), attempts, cut)
  {
    forall x ensures multiset(Prune(attempts, cut))[x] == if x > cut then multiset(attempts)[x] else 0 {
      PruneIsFilter(attempts, cut, x);
    }
  }

  /**
   Allow in full: a lock that runs refuses and changes nothing; one that has ended is forgotten with
   all attempts; without one the attempts of the last five minutes stay, and fewer than five pass.
   */
  lemma AllowInFull(v: View, now: int)
    ensures var (w, a) := AllowView(v, now);
            if v.lock.Some? && now < v.lock.value then w == v && a == Answer(false, v.lock.value - now)
            else if v.lock.Some? then w == View([], None) && a == Answer(true, 0)
            else
              && KeptAfter(w.attempts, v.attempts, now - 300_000_000_000)
              && a == (if |w.attempts| < 5 then Answer(true, 0) else Answer(false, 900_000_000_000))
              && w.lock == if a.ok then None else Some(now + 900_000_000_000)
  {
    PruneKeepsAfter(v.attempts, now - LOGIN_WINDOW);
  }

  // ----- Locked exactly when there are enough stored attempts -----

  ghost predicate LockInvariant(v: View, now: int) {
    && (v.lock.Some? <==> |v.attempts| >= LOGIN_MAX_ATTEMPTS)
    && (v.lock.Some? ==> v.lock.value <= now + LOGIN_LOCKOUT)
    && (forall i :: 0 <= i < |v.attempts| ==> v.attempts[i] <= now)
    && (v.lock.Some? ==> forall i :: 0 <= i < |v.attempts| ==> v.attempts[i] + LOGIN_LOCKOUT <= v.lock.value)
  }

  lemma {:induction false} PruneKeeps(attempts: seq<int>, cut: int)
    ensures forall i :: 0 <= i < |Prune(attempts, cut)| ==>
              cut < Prune(attempts, cut)[i] && Prune(attempts, cut)[i] in attempts
  {
    if attempts == [] {
    } else {
      PruneKeeps(attempts[..|attempts| - 1], cut);
    }
  }

  lemma StepKeepsLock(v: View, e: Event, now: int, later: int)
    requires LockInvariant(v, now) && now <= later
    requires e.Allow? ==> later == e.at
    requires e.Fail? ==> now <= e.at <= e.lockAt == later
    ensures LockInvariant(StepView(v, e), later)
  {
    if e.Allow? {
      PruneKeeps(v.attempts, e.at - LOGIN_WINDOW);
      PruneKeeps([], e.at - LOGIN_WINDOW);
    }
  }

  lemma {:induction false} LockedIffEnoughAttempts(es: seq<Event>, ip: string, start: int)
    requires Timed(es, start)
    ensures LockInvariant(Exec(es, ip), Clock(es, start))
  {
    if es == [] {
    } else {
      var e, v := es[|es| - 1], Exec(es[..|es| - 1], ip);
      LockedIffEnoughAttempts(es[..|es| - 1], ip, start);
      StepKeepsLock(v, e, Clock(es[..|es| - 1], start), Clock(es, start));
    }
  }

  /** So Allow refuses only through a running lock, never through the count it takes itself. */
  lemma RefusesOnlyThroughTheLock(es: seq<Event>, ip: string, start: int, at: int)
    requires Timed(es, start) && Clock(es, start) <= at
    ensures LockInvariant(Exec(es, ip), Clock(es, start))
    ensures var v := Exec(es, ip);
            var a := AllowView(v, at).1;
            && (a.ok <==> !(|v.attempts| >= LOGIN_MAX_ATTEMPTS && at < v.lock.value))
            && (!a.ok ==> a.retryAfter == v.lock.value - at && 0 < a.retryAfter <= LOGIN_LOCKOUT)
            && (a.ok ==> a.retryAfter == 0 && AllowView(v, at).0.lock.None?)
  {
    LockedIffEnoughAttempts(es, ip, start);
  }

  // ----- A lock only moves later -----

  lemma {:induction false} LockOnlyMovesLater(es: seq<Event>, n: nat, ip: string, start: int, until: int)
    requires n <= |es| && Timed(es, start) && NoSuccess(es[n..], ip)
    requires Exec(es[..n], ip).lock == Some(until)
    requires Clock(es, start) < until
    ensures Exec(es, ip).lock.Some? && until <= Exec(es, ip).lock.value
    decreases |es|
  {
    if n == |es| {
      assert es[..n] == es;
    } else {
      var pre, e := es[..|es| - 1], es[|es| - 1];
      assert pre[..n] == es[..n] && NoSuccess(pre[n..], ip) by {
        assert forall i :: 0 <= i < |pre[n..]| ==> pre[n..][i] == es[n..][i];
      }
      assert e == es[n..][|es| - 1 - n];
      LockOnlyMovesLater(pre, n, ip, start, until);
      LockedIffEnoughAttempts(pre, ip, start);
    }
  }

  /** Until a lock ends, and without a success, every Allow is refused with the exact time left. */
  lemma LockedOutUntilItEnds(es: seq<Event>, n: nat, ip: string, start: int, until: int, at: int)
    requires n <= |es| && Timed(es, start) && NoSuccess(es[n..], ip)
    requires Exec(es[..n], ip).lock == Some(until)
    requires Clock(es, start) <= at < until
    ensures var v := Exec(es, ip);
            && v.lock.Some? && until <= v.lock.value
            && AllowView(v, at) == (v, Answer(false, v.lock.value - at))
  {
    LockOnlyMovesLater(es, n, ip, start, until);
  }

  // ----- How many failures a window can hold -----

  function CountFrom(attempts: seq<int>, from: int): (n: nat)
    ensures n <= |attempts|
  {
    if attempts == [] then 0
    else CountFrom(attempts[..|attempts| - 1], from) + if attempts[|attempts| - 1] >= from then 1 else 0
  }

  lemma {:induction false} PruneKeepsTheWindow(attempts: seq<int>, cut: int, from: int)
    requires cut < from
    ensures CountFrom(Prune(attempts, cut), from) == CountFrom(attempts, from)
  {
    if attempts == [] {
    } else {
      var kept := Prune(attempts[..|attempts| - 1], cut);
      PruneKeepsTheWindow(attempts[..|attempts| - 1], cut, from);
      if attempts[|attempts| - 1] > cut {
        assert (kept + [attempts[|attempts| - 1]])[..|kept|] == kept;
      } else {
        assert Prune(attempts, cut) == kept;
      }
    }
  }

  lemma {:induction false} NoneFrom(attempts: seq<int>, from: int)
    requires forall i :: 0 <= i < |attempts| ==> attempts[i] < from
    ensures CountFrom(attempts, from) == 0
  {
    if attempts == [] {
    } else {
      NoneFrom(attempts[..|attempts| - 1], from);
    }
  }

  lemma {:induction false} NoEarlyFailures(es: seq<Event>, ip: string, start: int, from: int)
    requires Timed(es, start) && Clock(es, start) < from
    ensures FailuresIn(es, ip, from) == 0
  {
    if es == [] {
    } else {
      NoEarlyFailures(es[..|es| - 1], ip, start, from);
    }
  }

  /** No success of ip from call n on, and the window opens after the calls before n, if any. */
  ghost predicate QuietSince(es: seq<Event>, n: nat, ip: string, start: int, from: int)
    requires n <= |es|
  {
    NoSuccess(es[n..], ip) && (n == 0 || Clock(es[..n], start) < from)
  }

  /** One call of ip keeps the count of stored attempts from the window's opening exact. */
  lemma StepKeepsTheCount(v: View, e: Event, now: int, from: int)
    requires LockInvariant(v, now) && !e.Success? && (e.Allow? ==> e.at < from + LOGIN_WINDOW)
    ensures CountFrom(StepView(v, e).attempts, from) ==
            CountFrom(v.attempts, from) + if e.Fail? && from <= e.at then 1 else 0
  {
    match e
    case Allow(_, at) =>
      if v.lock.None? {
        PruneKeepsTheWindow(v.attempts, at - LOGIN_WINDOW, from);
      } else if at >= v.lock.value {
        NoneFrom(v.attempts, from);
      }
    case Fail(_, at, _) =>
      assert (v.attempts + [at])[..|v.attempts|] == v.attempts;
    case Drop(_) =>
  }

  lemma QuietPrefix(es: seq<Event>, n: nat, ip: string, start: int, from: int)
    requires n < |es| && QuietSince(es, n, ip, start, from)
    ensures QuietSince(es[..|es| - 1], n, ip, start, from)
    ensures Key(es[|es| - 1].ip) == Key(ip) ==> !es[|es| - 1].Success?
  {
    var pre := es[..|es| - 1];
    assert pre[..n] == es[..n];
    assert forall i :: 0 <= i < |pre[n..]| ==> pre[n..][i] == es[n..][i];
    assert es[|es| - 1] == es[n..][|es| - 1 - n];
  }

  /** While the window is open, every failure in it is still stored. */
  lemma {:induction false} WindowIsStored(es: seq<Event>, n: nat, ip: string, start: int, from: int)
    requires n <= |es| && Timed(es, start) && QuietSince(es, n, ip, start, from)
    requires Clock(es, start) < from + LOGIN_WINDOW
    ensures FailuresIn(es, ip, from) == CountFrom(Exec(es, ip).attempts, from)
    decreases |es|
  {
    if n == |es| {
      assert es[..n] == es;
      if n > 0 {
        NoEarlyFailures(es, ip, start, from);
        LockedIffEnoughAttempts(es, ip, start);
        NoneFrom(Exec(es, ip).attempts, from);
      }
    } else {
      var pre, e := es[..|es| - 1], es[|es| - 1];
      QuietPrefix(es, n, ip, start, from);
      WindowIsStored(pre, n, ip, start, from);
      LockedIffEnoughAttempts(pre, ip, start);
      if Key(e.ip) == Key(ip) {
        StepKeepsTheCount(Exec(pre, ip), e, Clock(pre, start), from);
      }
    }
  }

  lemma {:induction false} FailuresPlusInFlight(es: seq<Event>, n: nat, ip: string, start: int, from: int, k: int)
    requires n <= |es| && Timed(es, start) && QuietSince(es, n, ip, start, from) && AtMostInFlight(es, ip, k)
    ensures FailuresIn(es, ip, from) <= LOGIN_MAX_ATTEMPTS - 1 + k
    ensures Clock(es, start) < from + LOGIN_WINDOW ==>
              FailuresIn(es, ip, from) + InFlight(es, ip) <= LOGIN_MAX_ATTEMPTS - 1 + k
    decreases |es|
  {
    if n == |es| {
      assert es[..n] == es;
      if n > 0 {
        NoEarlyFailures(es, ip, start, from);
      }
    } else {
      var pre, e := es[..|es| - 1], es[|es| - 1];
      QuietPrefix(es, n, ip, start, from);
      FailuresPlusInFlight(pre, n, ip, start, from, k);
      if Clock(es, start) < from + LOGIN_WINDOW && Admitted(pre, ip, e) {
        WindowIsStored(es, n, ip, start, from);
      }
    }
  }

  /**
   With at most k attempts of ip in flight and no success since some call before the window, any
   half-open five-minute window holds at most 4 + k failures of ip, whatever other IPs do and
   whatever ip did before.
   */
  lemma FailureBound(es: seq<Event>, n: nat, ip: string, start: int, from: int, k: int)
    requires n <= |es| && Timed(es, start) && AtMostInFlight(es, ip, k)
    requires NoSuccess(es[n..], ip) && (n == 0 || Clock(es[..n], start) < from)
    ensures FailuresIn(es, ip, from) <= LOGIN_MAX_ATTEMPTS - 1 + k
  {
    FailuresPlusInFlight(es, n, ip, start, from, k);
  }

  /** The documented bound of five holds when logins of one IP do not overlap. */
  lemma SequentialFailureBound(es: seq<Event>, n: nat, ip: string, start: int, from: int)
    requires n <= |es| && Timed(es, start) && AtMostInFlight(es, ip, 1)
    requires NoSuccess(es[n..], ip) && (n == 0 || Clock(es[..n], start) < from)
    ensures FailuresIn(es, ip, from) <= 5
  {
    FailureBound(es, n, ip, start, from, 1);
  }

  // ----- The bound is reached for every k -----

  /** One more call by ip at time 0, with what it adds to the counts. */
  lemma Call(es: seq<Event>, ip: string, e: Event, k: int) returns (r: seq<Event>)
    requires Timed(es, 0) && Clock(es, 0) == 0 && NoSuccess(es, ip) && AtMostInFlight(es, ip, k)
    requires e == Allow(ip, 0) || e == Fail(ip, 0, 0)
    requires e.Allow? ==> |Exec(es, ip).attempts| < LOGIN_MAX_ATTEMPTS && InFlight(es, ip) < k
    requires e.Fail? ==> InFlight(es, ip) > 0
    ensures r == es + [e] && Timed(r, 0) && Clock(r, 0) == 0 && NoSuccess(r, ip) && AtMostInFlight(r, ip, k)
    ensures InFlight(r, ip) == InFlight(es, ip) + if e.Allow? then 1 else -1
    ensures FailuresIn(r, ip, 0) == FailuresIn(es, ip, 0) + if e.Fail? then 1 else 0
    ensures Exec(r, ip) == StepView(Exec(es, ip), e)
    ensures e.Allow? ==> |Exec(r, ip).attempts| <= |Exec(es, ip).attempts|
  {
    r := es + [e];
    assert r[..|r| - 1] == es;
    LockedIffEnoughAttempts(es, ip, 0);
  }

  lemma BoundIsReached(ip: string, k: nat) returns (es: seq<Event>)
    requires k >= 1
    ensures Timed(es, 0) && NoSuccess(es, ip) && AtMostInFlight(es, ip, k)
    ensures FailuresIn(es, ip, 0) == LOGIN_MAX_ATTEMPTS - 1 + k
  {
    es := [];
    var i := 0;
    while i < LOGIN_MAX_ATTEMPTS - 1
      invariant 0 <= i <= LOGIN_MAX_ATTEMPTS - 1
      invariant Timed(es, 0) && Clock(es, 0) == 0 && NoSuccess(es, ip) && AtMostInFlight(es, ip, k)
      invariant InFlight(es, ip) == 0 && FailuresIn(es, ip, 0) == i && |Exec(es, ip).attempts| <= i
    {
      es := Call(es, ip, Allow(ip, 0), k);
      es := Call(es, ip, Fail(ip, 0, 0), k);
      i := i + 1;
    }
    i := 0;
    while i < k
      invariant 0 <= i <= k
      invariant Timed(es, 0) && Clock(es, 0) == 0 && NoSuccess(es, ip) && AtMostInFlight(es, ip, k)
      invariant InFlight(es, ip) == i && FailuresIn(es, ip, 0) == LOGIN_MAX_ATTEMPTS - 1
      invariant |Exec(es, ip).attempts| < LOGIN_MAX_ATTEMPTS
    {
      es := Call(es, ip, Allow(ip, 0), k);
      i := i + 1;
    }
    while i > 0
      invariant 0 <= i <= k
      invariant Timed(es, 0) && Clock(es, 0) == 0 && NoSuccess(es, ip) && AtMostInFlight(es, ip, k)
      invariant InFlight(es, ip) == i && FailuresIn(es, ip, 0) == LOGIN_MAX_ATTEMPTS - 1 + k - i
    {
      es := Call(es, ip, Fail(ip, 0, 0), k);
      i := i - 1;
    }
  }

  // ----- The code -----

  /** Everything held for an address other than addr is as before. */
  ghost predicate OthersKept(s: Store, addr: string, t: Store) {
    forall other :: other != "" && other != addr && !(addr == "" && other == "unknown") ==>
      && (other in t.attempts <==> other in s.attempts)
      && (other in t.attempts ==> t.attempts[other] == s.attempts[other])
      && (other in t.locked <==> other in s.locked)
      && (other in t.locked ==> t.locked[other] == s.locked[other])
  }

  /** So a call that changes the view of its own address and keeps the others is a step of a run. */
  lemma KeptIsUpdated(s: Store, addr: string, v: View, t: Store)
    requires ViewOf(t, addr) == v && OthersKept(s, addr, t)
    ensures Updates(s, addr, v, t)
  {}

  class Limiter {
    var attempts: map<string, seq<int>>
    var locked: map<string, int>

    constructor ()
      ensures forall ip :: ViewOf(Contents(), ip) == Exec([], ip)
    {
      attempts, locked := map[], map[];
    }

    ghost function Contents(): Store
      reads this
    {
      Store(attempts, locked)
    }

    function Stored(addr: string): seq<int>
      reads this
    {
      if addr in attempts then attempts[addr] else []
    }

    method Allow(addr: string, now: int) returns (ok: bool, retryAfter: int)
      modifies this
      ensures Answer(ok, retryAfter) == AllowView(ViewOf(old(Contents()), addr), now).1
      ensures ViewOf(Contents(), addr) == AllowView(ViewOf(old(Contents()), addr), now).0
      ensures OthersKept(old(Contents()), addr, Contents())
    {
      var ip := Key(addr);
      if ip in locked {
        var until := locked[ip];
        if now < until {
          return false, until - now;
        }
        locked := locked - {ip};
        attempts := attempts - {ip};
      }
      var cut := now - LOGIN_WINDOW;
      var arr := if ip in attempts then attempts[ip] else [];
      arr := KeepAfter(arr, cut);
      attempts := attempts[ip := arr];
      if |arr| >= LOGIN_MAX_ATTEMPTS {
        locked := locked[ip := now + LOGIN_LOCKOUT];
        return false, LOGIN_LOCKOUT;
      }
      return true, 0;
    }

    /** The loop of allow, which compacts the slice in place. */
    method KeepAfter(all: seq<int>, cut: int) returns (arr: seq<int>)
      ensures arr == Prune(all, cut)
    {
      arr := all;
      var n := 0;
      for i := 0 to |arr|
        invariant 0 <= n <= i && |arr| == |all|
        invariant arr[..n] == Prune(all[..i], cut)
        invariant arr[i..] == all[i..]
      {
        var t := arr[i];
        assert t == arr[i..][0] == all[i..][0];
        assert all[..i + 1][..i] == all[..i];
        if t > cut {
          ghost var before := arr;
          arr := arr[n := t];
          n := n + 1;
          assert arr[..n] == before[..n - 1] + [t];
          assert arr[i + 1..] == before[i + 1..] == before[i..][1..] == all[i..][1..];
        } else {
          assert arr[i + 1..] == arr[i..][1..] == all[i..][1..];
        }
      }
      assert all[..|all|] == all;
      arr := arr[..n];
    }

    /** The clock is read twice: for the attempt and for the lock. */
    method Fail(addr: string, now: int, lockNow: int)
      modifies this
      ensures ViewOf(Contents(), addr) == FailView(ViewOf(old(Contents()), addr), now, lockNow)
      ensures OthersKept(old(Contents()), addr, Contents())
      // From the fifth attempt on, fifteen minutes.
      ensures addr != "" ==>
                && addr in attempts && attempts[addr] == old(Stored(addr)) + [now]
                && (|attempts[addr]| >= 5 ==> addr in locked && locked[addr] == lockNow + 900_000_000_000)
                && (|attempts[addr]| < 5 ==> locked == old(locked))
    {
      var ip := Key(addr);
      attempts := attempts[ip := (if ip in attempts then attempts[ip] else []) + [now]];
      if |attempts[ip]| >= LOGIN_MAX_ATTEMPTS {
        locked := locked[ip := lockNow + LOGIN_LOCKOUT];
      }
    }

    method Success(addr: string)
      modifies this
      ensures ViewOf(Contents(), addr) == View([], None)
      ensures OthersKept(old(Contents()), addr, Contents())
      ensures addr != "" ==> addr !in attempts && addr !in locked
    {
      var ip := Key(addr);
      attempts := attempts - {ip};
      locked := locked - {ip};
    }
  }
}
