/**
 The command path of the application (rflink/app.go): normalize, check the whitelist, take a
 token, write to the serial port. The serial port is an oracle.
 */
module CommandBridge {
  import opened Wrappers
  import opened Commands
  import opened Text
  import TB = TokenBucket

  datatype SerialAnswer = Wrote | NotConnected | WriteFailed

  datatype Status = Sent | Rejected | RateLimited | SerialDown | Error

  datatype CmdResult = CmdResult(command: string, status: Status, remaining: real, perSec: int)

  /** What becomes of the payload before it reaches the bucket. */
  function Screened(maxLen: int, whitelist: seq<string>, payload: string): Option<string> {
    match NormalizeCommand(maxLen, payload)
    case Ok(cmd) => if Allowed(whitelist, cmd) then Some(cmd) else None
    case Err(_) => None
  }

  /** The command as the answer names it: in normal form if it has one. */
  function Named(maxLen: int, payload: string): string {
    match NormalizeCommand(maxLen, payload)
    case Ok(cmd) => cmd
    case Err(_) => payload
  }

  /** What passes the screen is a fixed point of normalization that the whitelist allows. */
  lemma ScreenedIsNormal(maxLen: int, whitelist: seq<string>, payload: string)
    requires Screened(maxLen, whitelist, payload).Some?
    ensures var cmd := Screened(maxLen, whitelist, payload).value;
            && NormalizeCommand(maxLen, payload) == Ok(cmd) && NormalizeCommand(maxLen, cmd) == Ok(cmd)
            && Allowed(whitelist, cmd)
  {
    NormalizeIsIdempotent(maxLen, payload);
  }

  /** The text of a payload with a final semicolon. */
  predicate IsText(payload: string, full: string) {
    var t := TrimSpace(payload);
    full == if t != "" && t[|t| - 1] == ';' then t else t + ";"
  }

  /** The text renders good fields within the cap. */
  ghost predicate IsCommand(maxLen: int, full: string) {
    |full| <= (if maxLen > 0 then maxLen else 256) && exists fs :: GoodFields(fs) && full == Render(fs)
  }

  /** The whitelist is empty or has a prefix of the text. */
  ghost predicate IsListed(whitelist: seq<string>, full: string) {
    |whitelist| == 0 || exists i :: 0 <= i < |whitelist| && whitelist[i] <= full
  }

  lemma NormalIff(maxLen: int, payload: string, full: string)
    requires IsText(payload, full)
    ensures NormalizeCommand(maxLen, payload).Ok? <==> IsCommand(maxLen, full)
    ensures NormalizeCommand(maxLen, payload).Ok? ==> NormalizeCommand(maxLen, payload) == Ok(full)
  {
    AcceptedPayloads(maxLen, payload);
    assert full == Terminated(TrimSpace(payload));
  }

  lemma AllowedIff(whitelist: seq<string>, full: string)
    requires TrimSpace(full) == full
    ensures Allowed(whitelist, full) <==> IsListed(whitelist, full)
  {
    assert forall i :: 0 <= i < |whitelist| ==> (HasPrefix(TrimSpace(full), whitelist[i]) <==> whitelist[i] <= full);
  }

  /** A payload passes the screen exactly if its text is a listed command, and then as that text. */
  lemma PassesIff(maxLen: int, whitelist: seq<string>, payload: string, full: string)
    requires IsText(payload, full)
    ensures Screened(maxLen, whitelist, payload) ==
            if IsCommand(maxLen, full) && IsListed(whitelist, full) then Some(full) else None
  {
    NormalIff(maxLen, payload, full);
    if NormalizeCommand(maxLen, payload).Ok? {
      OutputsAreTrimmed(maxLen, payload);
      AllowedIff(whitelist, full);
    }
  }

  lemma OutputsAreTrimmed(maxLen: int, payload: string)
    requires NormalizeCommand(maxLen, payload).Ok?
    ensures TrimSpace(NormalizeCommand(maxLen, payload).value) == NormalizeCommand(maxLen, payload).value
  {
    AcceptedPayloads(maxLen, payload);
    var cmd := TrimSpace(payload);
    if cmd == "" {
      OutputsAreRenderings(maxLen, payload);
    } else {
      TerminatedIsTrimmed(cmd);
    }
    TrimmedStays(Terminated(cmd));
  }

  // ----- Interleaved calls -----

  /**
   The steps of the calls in flight, each with the moment it is taken. Calls come from MQTT, HTTP
   and webhook polls at once, so the steps of different calls interleave: Ask is allowCommand for
   a screened command, Put the write to the serial port, which holds no lock of the bucket, and
   Report the status read that goes into the answer. ReadStatus is anybody else's status read.
   */
  datatype Event =
    | Ask(id: nat, at: real)
    | Put(id: nat, at: real, serial: SerialAnswer)
    | Report(id: nat, at: real)
    | ReadStatus(at: real)

  /** granted are the calls between grant and write, reporting those about to read the status. */
  datatype State = State(bucket: TB.Bucket, granted: set<nat>, reporting: set<nat>, clock: real)

  function Initial(limit: int, start: real): State {
    State(TB.Bucket(limit as real, start), {}, {}, start)
  }

  predicate Enabled(s: State, e: Event) {
    && s.clock <= e.at
    && match e
       case Ask(id, _) => id !in s.granted && id !in s.reporting
       case Put(id, _, _) => id in s.granted
       case Report(id, _) => id in s.reporting
       case ReadStatus(_) => true
  }

  /** The operation of the step on the bucket, if any. */
  function OpOf(e: Event): (op: seq<TB.Op>)
    ensures |op| <= 1
  {
    match e
    case Ask(_, at) => [TB.Command(at)]
    case Put(_, _, _) => []
    case Report(_, at) => [TB.Status(at)]
    case ReadStatus(at) => [TB.Status(at)]
  }

  predicate Grants(limit: int, s: State, e: Event) {
    e.Ask? && TB.Grants(limit, s.bucket, TB.Command(e.at))
  }

  function BucketAfter(limit: int, b: TB.Bucket, e: Event): TB.Bucket {
    if OpOf(e) == [] then b else TB.Apply(limit, b, OpOf(e)[0])
  }

  function Next(limit: int, s: State, e: Event): State {
    var bucket := BucketAfter(limit, s.bucket, e);
    match e
    case Ask(id, at) =>
      if Grants(limit, s, e) then State(bucket, s.granted + {id}, s.reporting, at)
      else State(bucket, s.granted, s.reporting + {id}, at)
    case Put(id, at, serial) =>
      State(bucket, s.granted - {id}, if serial == Wrote then s.reporting + {id} else s.reporting, at)
    case Report(id, at) => State(bucket, s.granted, s.reporting - {id}, at)
    case ReadStatus(at) => State(bucket, s.granted, s.reporting, at)
  }

  /** The state after the first n steps, starting from s. */
  function StateAt(limit: int, s: State, es: seq<Event>, n: nat): State
    requires n <= |es|
  {
    if n == 0 then s else Next(limit, StateAt(limit, s, es, n - 1), es[n - 1])
  }

  /** Each of the first n steps was possible when it was taken. */
  predicate Legal(limit: int, s: State, es: seq<Event>, n: nat)
    requires n <= |es|
  {
    n == 0 || (Legal(limit, s, es, n - 1) && Enabled(StateAt(limit, s, es, n - 1), es[n - 1]))
  }

  /** The steps lo .. hi-1 that were granted a token. */
  function GrantsIn(limit: int, s: State, es: seq<Event>, lo: nat, hi: nat): nat
    requires lo <= hi <= |es|
  {
    if lo == hi then 0 else
    GrantsIn(limit, s, es, lo, hi - 1) + if Grants(limit, StateAt(limit, s, es, hi - 1), es[hi - 1]) then 1 else 0
  }

  /** The writes that were tried among the steps lo .. hi-1. */
  function Tries(es: seq<Event>, lo: nat, hi: nat): nat
    requires lo <= hi <= |es|
  {
    if lo == hi then 0 else Tries(es, lo, hi - 1) + if es[hi - 1].Put? then 1 else 0
  }

  /** The lines that went out. */
  function Lines(es: seq<Event>, lo: nat, hi: nat): (n: nat)
    requires lo <= hi <= |es|
    ensures n <= Tries(es, lo, hi)
  {
    if lo == hi then 0 else
    Lines(es, lo, hi - 1) + if es[hi - 1].Put? && es[hi - 1].serial == Wrote then 1 else 0
  }

  function Ops(es: seq<Event>, n: nat): seq<TB.Op>
    requires n <= |es|
  {
    if n == 0 then [] else Ops(es, n - 1) + OpOf(es[n - 1])
  }

  /** However the calls interleave, the bucket goes through the operations of their steps in order. */
  lemma {:induction false} BucketFollowsTheSteps(limit: int, start: real, es: seq<Event>, n: nat)
    requires n <= |es|
    ensures StateAt(limit, Initial(limit, start), es, n).bucket == TB.Exec(limit, start, Ops(es, n), |Ops(es, n)|)
  {
    if n == 0 {
    } else {
      var s, ops, e := StateAt(limit, Initial(limit, start), es, n - 1), Ops(es, n - 1), es[n - 1];
      BucketFollowsTheSteps(limit, start, es, n - 1);
      LastOp(limit, start, ops, e);
      NextBucket(limit, s, e);
      assert StateAt(limit, Initial(limit, start), es, n) == Next(limit, s, e) && Ops(es, n) == ops + OpOf(e);
    }
  }

  lemma NextBucket(limit: int, s: State, e: Event)
    ensures Next(limit, s, e).bucket == BucketAfter(limit, s.bucket, e)
  {}

  lemma LastOp(limit: int, start: real, ops: seq<TB.Op>, e: Event)
    ensures TB.Exec(limit, start, ops + OpOf(e), |ops + OpOf(e)|)
            == BucketAfter(limit, TB.Exec(limit, start, ops, |ops|), e)
  {
    TB.PrefixDecides(limit, start, ops, OpOf(e), |ops|);
    if e.Put? {
      assert ops + OpOf(e) == ops;
    }
  }

  // ----- Tokens and lines -----

  /** Every token granted is in flight until its call tries to write, and no call writes without one. */
  lemma {:induction false} TokensAreConserved(limit: int, s: State, es: seq<Event>, lo: nat, hi: nat)
    requires lo <= hi <= |es| && Legal(limit, s, es, hi)
    ensures |StateAt(limit, s, es, lo).granted| + GrantsIn(limit, s, es, lo, hi)
            == |StateAt(limit, s, es, hi).granted| + Tries(es, lo, hi)
  {
    if lo == hi {
    } else {
      TokensAreConserved(limit, s, es, lo, hi - 1);
      StepConserves(limit, StateAt(limit, s, es, hi - 1), es[hi - 1]);
    }
  }

  lemma StepConserves(limit: int, s: State, e: Event)
    requires Enabled(s, e)
    ensures |s.granted| + (if Grants(limit, s, e) then 1 else 0)
            == |Next(limit, s, e).granted| + if e.Put? then 1 else 0
  {}

  lemma {:induction false} GrantsAreCounted(limit: int, start: real, es: seq<Event>, lo: nat, hi: nat)
    requires lo <= hi <= |es|
    ensures |Ops(es, lo)| <= |Ops(es, hi)|
    ensures GrantsIn(limit, Initial(limit, start), es, lo, hi)
            == TB.GrantCount(limit, start, Ops(es, hi), |Ops(es, lo)|, |Ops(es, hi)|)
  {
    if lo == hi {
    } else {
      GrantsAreCounted(limit, start, es, lo, hi - 1);
      StepIsGrantedAsItsOp(limit, start, es, lo, hi - 1);
      var ops, more := Ops(es, hi - 1), OpOf(es[hi - 1]);
      assert Ops(es, hi) == ops + more;
      LastGrantCounts(limit, start, ops, more, |Ops(es, lo)|);
    }
  }

  lemma StepIsGrantedAsItsOp(limit: int, start: real, es: seq<Event>, lo: nat, n: nat)
    requires lo <= n < |es|
    ensures GrantsIn(limit, Initial(limit, start), es, lo, n + 1) == GrantsIn(limit, Initial(limit, start), es, lo, n)
            + if LastIsGranted(limit, start, Ops(es, n), OpOf(es[n])) then 1 else 0
  {
    BucketFollowsTheSteps(limit, start, es, n);
  }

  predicate LastIsGranted(limit: int, start: real, ops: seq<TB.Op>, more: seq<TB.Op>) {
    more != [] && TB.Grants(limit, TB.Exec(limit, start, ops, |ops|), more[0])
  }

  lemma LastGrantCounts(limit: int, start: real, ops: seq<TB.Op>, more: seq<TB.Op>, lo: nat)
    requires lo <= |ops| && |more| <= 1
    ensures TB.GrantCount(limit, start, ops + more, lo, |ops + more|)
            == TB.GrantCount(limit, start, ops, lo, |ops|) + if LastIsGranted(limit, start, ops, more) then 1 else 0
  {
    if more == [] {
      assert ops + more == ops;
    } else {
      TB.PrefixCounts(limit, start, ops, more, lo, |ops|);
      TB.PrefixDecides(limit, start, ops, more, |ops|);
    }
  }

  // ----- Their moments -----

  lemma TimedStep(start: real, ops: seq<TB.Op>, op: TB.Op)
    requires TB.Timed(start, ops) && TB.Instant(start, ops, |ops|) <= op.at
    ensures TB.Timed(start, ops + [op])
  {
    var more := ops + [op];
    forall i | 0 <= i <= |more|
      ensures TB.Instant(start, more, if i == 0 then 0 else i - 1) <= TB.Instant(start, more, i)
    {
      if i <= |ops| {
        assert TB.Instant(start, ops, if i == 0 then 0 else i - 1) <= TB.Instant(start, ops, i);
      }
    }
  }

  lemma {:induction false} StepsAreTimed(limit: int, start: real, es: seq<Event>, n: nat)
    requires n <= |es| && Legal(limit, Initial(limit, start), es, n)
    ensures TB.Timed(start, Ops(es, n))
    ensures TB.Instant(start, Ops(es, n), |Ops(es, n)|) <= StateAt(limit, Initial(limit, start), es, n).clock
  {
    if n == 0 {
    } else {
      StepsAreTimed(limit, start, es, n - 1);
      if es[n - 1].Put? {
        assert Ops(es, n) == Ops(es, n - 1);
      } else {
        TimedStep(start, Ops(es, n - 1), OpOf(es[n - 1])[0]);
      }
    }
  }

  lemma {:induction false} ClockNeverGoesBack(limit: int, s: State, es: seq<Event>, lo: nat, hi: nat)
    requires lo < hi <= |es| && Legal(limit, s, es, hi)
    ensures es[lo].at <= es[hi - 1].at
  {
    if lo + 1 == hi {
    } else {
      ClockNeverGoesBack(limit, s, es, lo, hi - 1);
    }
  }

  lemma {:induction false} OpsGrow(es: seq<Event>, lo: nat, hi: nat)
    requires lo <= hi <= |es|
    ensures |Ops(es, lo)| <= |Ops(es, hi)|
  {
    if lo == hi {
    } else {
      OpsGrow(es, lo, hi - 1);
    }
  }

  /** An operation of the steps lo .. hi-1 lies between them. */
  lemma {:induction false} OpLiesWithin(limit: int, s: State, es: seq<Event>, lo: nat, hi: nat, i: nat)
    requires lo < hi <= |es| && Legal(limit, s, es, hi) && |Ops(es, lo)| <= i < |Ops(es, hi)|
    ensures es[lo].at <= Ops(es, hi)[i].at <= es[hi - 1].at
  {
    ClockNeverGoesBack(limit, s, es, lo, hi);
    if i >= |Ops(es, hi - 1)| {
    } else {
      OpLiesWithin(limit, s, es, lo, hi - 1, i);
      ClockNeverGoesBack(limit, s, es, hi - 2, hi);
    }
  }

  // ----- The window -----

  /**
   However calls interleave and the serial port answers, the lines of the steps lo..hi, together
   with the tokens still in flight after them, are at most limit + limit * T plus the tokens in
   flight before them, T being the time from step lo to step hi.
   */
  lemma LinesInAWindow(limit: int, start: real, es: seq<Event>, lo: nat, hi: nat)
    requires limit > 0 && lo <= hi < |es| && Legal(limit, Initial(limit, start), es, hi + 1)
    ensures var s := Initial(limit, start);
            (Lines(es, lo, hi + 1) + |StateAt(limit, s, es, hi + 1).granted|) as real
            <= limit as real + TB.Drip(limit, es[hi].at - es[lo].at) + |StateAt(limit, s, es, lo).granted| as real
  {
    TokensAreConserved(limit, Initial(limit, start), es, lo, hi + 1);
    GrantsInAWindow(limit, start, es, lo, hi);
  }

  lemma GrantsInAWindow(limit: int, start: real, es: seq<Event>, lo: nat, hi: nat)
    requires limit > 0 && lo <= hi < |es| && Legal(limit, Initial(limit, start), es, hi + 1)
    ensures GrantsIn(limit, Initial(limit, start), es, lo, hi + 1) as real
            <= limit as real + TB.Drip(limit, es[hi].at - es[lo].at)
  {
    GrantsAreCounted(limit, start, es, lo, hi + 1);
    GrantsBetween(limit, start, es, lo, hi);
  }

  lemma GrantsBetween(limit: int, start: real, es: seq<Event>, lo: nat, hi: nat)
    requires limit > 0 && lo <= hi < |es| && Legal(limit, Initial(limit, start), es, hi + 1)
    ensures |Ops(es, lo)| <= |Ops(es, hi + 1)|
    ensures TB.GrantCount(limit, start, Ops(es, hi + 1), |Ops(es, lo)|, |Ops(es, hi + 1)|) as real
            <= limit as real + TB.Drip(limit, es[hi].at - es[lo].at)
  {
    OpsGrow(es, lo, hi + 1);
    ClockNeverGoesBack(limit, Initial(limit, start), es, lo, hi + 1);
    TB.DripNonNegative(limit, es[hi].at - es[lo].at);
    if |Ops(es, lo)| < |Ops(es, hi + 1)| {
      OpsLieWithin(limit, start, es, lo, hi);
      GrantsUpTo(limit, start, es, hi + 1, |Ops(es, lo)|, TB.Drip(limit, es[hi].at - es[lo].at));
    }
  }

  lemma OpsLieWithin(limit: int, start: real, es: seq<Event>, lo: nat, hi: nat)
    requires lo <= hi < |es| && Legal(limit, Initial(limit, start), es, hi + 1) && |Ops(es, lo)| < |Ops(es, hi + 1)|
    ensures var ops := Ops(es, hi + 1);
            TB.Drip(limit, ops[|ops| - 1].at - ops[|Ops(es, lo)|].at) <= TB.Drip(limit, es[hi].at - es[lo].at)
  {
    var ops, m := Ops(es, hi + 1), |Ops(es, lo)|;
    OpLiesWithin(limit, Initial(limit, start), es, lo, hi + 1, m);
    OpLiesWithin(limit, Initial(limit, start), es, lo, hi + 1, |ops| - 1);
    TB.DripMonotone(limit, ops[|ops| - 1].at - ops[m].at, es[hi].at - es[lo].at);
  }

  lemma GrantsUpTo(limit: int, start: real, es: seq<Event>, n: nat, m: nat, drip: real)
    requires limit > 0 && n <= |es| && Legal(limit, Initial(limit, start), es, n) && m < |Ops(es, n)|
    requires TB.Drip(limit, Ops(es, n)[|Ops(es, n)| - 1].at - Ops(es, n)[m].at) <= drip
    ensures TB.GrantCount(limit, start, Ops(es, n), m, |Ops(es, n)|) as real <= limit as real + drip
  {
    StepsAreTimed(limit, start, es, n);
    TB.WindowDrip(limit, start, Ops(es, n), m, |Ops(es, n)| - 1);
  }

  /** Before each of the first n + 1 steps at most k calls are between grant and write. */
  predicate InFlightAtMost(limit: int, s: State, es: seq<Event>, n: nat, k: nat)
    requires n <= |es|
  {
    |StateAt(limit, s, es, n).granted| <= k && (n == 0 || InFlightAtMost(limit, s, es, n - 1, k))
  }

  lemma {:induction false} InFlightBefore(limit: int, s: State, es: seq<Event>, n: nat, k: nat, m: nat)
    requires m <= n <= |es| && InFlightAtMost(limit, s, es, n, k)
    ensures |StateAt(limit, s, es, m).granted| <= k
  {
    if m == n {
    } else {
      InFlightBefore(limit, s, es, n - 1, k, m);
    }
  }

  /**
   With at most k calls between grant and write, a window of writes of length T sees at most
   limit + limit * T + k lines; k == 1 is the gateway that handles one command at a time.
   */
  lemma WriteWindow(limit: int, start: real, es: seq<Event>, lo: nat, hi: nat, k: nat)
    requires limit > 0 && lo <= hi < |es| && Legal(limit, Initial(limit, start), es, |es|)
    requires InFlightAtMost(limit, Initial(limit, start), es, |es|, k)
    ensures Lines(es, lo, hi + 1) as real <= limit as real + TB.Drip(limit, es[hi].at - es[lo].at) + k as real
  {
    LegalBefore(limit, Initial(limit, start), es, hi + 1, |es|);
    LinesInAWindow(limit, start, es, lo, hi);
    InFlightBefore(limit, Initial(limit, start), es, |es|, k, lo);
  }

  /** A window that no token was in flight into keeps the bound of the bucket, counted from its first step. */
  lemma WriteWindowFromRest(limit: int, start: real, es: seq<Event>, lo: nat, hi: nat)
    requires limit > 0 && lo <= hi < |es| && Legal(limit, Initial(limit, start), es, |es|)
    requires StateAt(limit, Initial(limit, start), es, lo).granted == {}
    ensures Lines(es, lo, hi + 1) as real <= limit as real + TB.Drip(limit, es[hi].at - es[lo].at)
  {
    LegalBefore(limit, Initial(limit, start), es, hi + 1, |es|);
    LinesInAWindow(limit, start, es, lo, hi);
  }

  lemma {:induction false} LegalBefore(limit: int, s: State, es: seq<Event>, m: nat, n: nat)
    requires m <= n <= |es| && Legal(limit, s, es, n)
    ensures Legal(limit, s, es, m)
  {
    if m == n {
    } else {
      LegalBefore(limit, s, es, m, n - 1);
    }
  }

  // ----- The bound is reached -----

  /** n calls ask for a token, one a second. */
  function Asked(n: nat): seq<Event> {
    if n == 0 then [] else Asked(n - 1) + [Ask(n - 1, n as real)]
  }

  /** k calls have stalled before their writes; in second k + 1 the first n of them write. */
  function Stalled(k: nat, n: nat): seq<Event> {
    if n == 0 then Asked(k) else Stalled(k, n - 1) + [Put(n - 1, (k + 1) as real, Wrote)]
  }

  /** All of them write, and n more calls ask and write within the same second. */
  function Burst(k: nat, n: nat): seq<Event> {
    if n == 0 then Stalled(k, k)
    else Burst(k, n - 1) + [Ask(k + n - 1, (k + 1) as real)] + [Put(k + n - 1, (k + 1) as real, Wrote)]
  }

  /** The calls a .. b-1. */
  function Span(a: nat, b: nat): (r: set<nat>)
    ensures forall i :: i in r <==> a <= i < b
    ensures |r| == if a <= b then b - a else 0
  {
    if b <= a then {} else Span(a, b - 1) + {b - 1}
  }

  function End(limit: int, es: seq<Event>): State {
    StateAt(limit, Initial(limit, 0.0), es, |es|)
  }

  /** A legal run from time 0 with at most k calls between grant and write. */
  ghost predicate Run(limit: int, k: nat, es: seq<Event>) {
    Legal(limit, Initial(limit, 0.0), es, |es|) && InFlightAtMost(limit, Initial(limit, 0.0), es, |es|, k)
  }

  lemma {:induction false} PrefixDecides(limit: int, s: State, es: seq<Event>, more: seq<Event>, n: nat, k: nat)
    requires n <= |es|
    ensures StateAt(limit, s, es + more, n) == StateAt(limit, s, es, n)
    ensures Legal(limit, s, es + more, n) == Legal(limit, s, es, n)
    ensures InFlightAtMost(limit, s, es + more, n, k) == InFlightAtMost(limit, s, es, n, k)
  {
    if n == 0 {
    } else {
      PrefixDecides(limit, s, es, more, n - 1, k);
    }
  }

  lemma {:induction false} PrefixLines(es: seq<Event>, more: seq<Event>, lo: nat, hi: nat)
    requires lo <= hi <= |es|
    ensures Lines(es + more, lo, hi) == Lines(es, lo, hi)
  {
    if lo == hi {
    } else {
      PrefixLines(es, more, lo, hi - 1);
    }
  }

  /** One more step of a run. */
  lemma Then(limit: int, k: nat, es: seq<Event>, e: Event)
    requires Run(limit, k, es) && Enabled(End(limit, es), e)
    requires |Next(limit, End(limit, es), e).granted| <= k
    ensures Run(limit, k, es + [e]) && End(limit, es + [e]) == Next(limit, End(limit, es), e)
  {
    PrefixDecides(limit, Initial(limit, 0.0), es, [e], |es|, k);
  }

  /** Calls below from have written, those from there to to are in flight. */
  predicate Stands(s: State, from: nat, to: nat) {
    s.granted == Span(from, to) && s.reporting == Span(0, from)
  }

  lemma AskStep(limit: int, s: State, from: nat, to: nat, at: real)
    requires Stands(s, from, to) && from <= to && s.clock <= at && TB.Grants(limit, s.bucket, TB.Command(at))
    ensures Enabled(s, Ask(to, at))
    ensures var t := Next(limit, s, Ask(to, at));
            t == State(TB.Apply(limit, s.bucket, TB.Command(at)), Span(from, to + 1), Span(0, from), at)
  {
    assert Span(from, to + 1) == Span(from, to) + {to};
  }

  lemma PutStep(limit: int, s: State, from: nat, to: nat, at: real)
    requires Stands(s, from, to) && from < to && s.clock <= at
    ensures Enabled(s, Put(from, at, Wrote))
    ensures Next(limit, s, Put(from, at, Wrote)) == State(s.bucket, Span(from + 1, to), Span(0, from + 1), at)
  {
    SpanWithoutFirst(from, to);
  }

  lemma SpanWithoutFirst(from: nat, to: nat)
    requires from < to
    ensures Span(from + 1, to) == Span(from, to) - {from}
  {}

  /** A second after the last grant the bucket is full. */
  predicate FullAt(limit: int, b: TB.Bucket, at: real) {
    b.last + 1.0 == at && b.tokens >= (limit - 1) as real
  }

  lemma FullBucketGrants(limit: int, b: TB.Bucket, at: real)
    requires limit > 0 && FullAt(limit, b, at)
    ensures TB.Grants(limit, b, TB.Command(at))
    ensures TB.Apply(limit, b, TB.Command(at)) == TB.Bucket((limit - 1) as real, at)
  {
    TB.DripIsProduct(limit, 1.0);
  }

  lemma {:induction false} AskedStands(limit: int, k: nat, n: nat)
    requires limit > 0 && n <= k
    ensures |Asked(n)| == n && Run(limit, k, Asked(n))
    ensures var s := End(limit, Asked(n));
            Stands(s, 0, n) && s.clock == n as real && FullAt(limit, s.bucket, (n + 1) as real)
  {
    if n == 0 {
    } else {
      AskedStands(limit, k, n - 1);
      var es := Asked(n - 1);
      FullBucketGrants(limit, End(limit, es).bucket, n as real);
      AskStep(limit, End(limit, es), 0, n - 1, n as real);
      Then(limit, k, es, Ask(n - 1, n as real));
    }
  }

  /** When the calls that have stalled write. */
  predicate Waiting(limit: int, s: State, n: nat, k: nat) {
    && Stands(s, n, k) && s.clock <= (k + 1) as real && FullAt(limit, s.bucket, (k + 1) as real)
    && (n > 0 ==> s.clock == (k + 1) as real)
  }

  lemma {:induction false} StalledStands(limit: int, k: nat, n: nat)
    requires limit > 0 && n <= k
    ensures Run(limit, k, Stalled(k, n)) && Waiting(limit, End(limit, Stalled(k, n)), n, k)
  {
    if n == 0 {
      AskedStands(limit, k, k);
    } else {
      StalledStands(limit, k, n - 1);
      OneStalledLine(limit, k, n, Stalled(k, n - 1));
    }
  }

  lemma OneStalledLine(limit: int, k: nat, n: nat, es: seq<Event>)
    requires 0 < n <= k && Run(limit, k, es) && Waiting(limit, End(limit, es), n - 1, k)
    ensures var fs := es + [Put(n - 1, (k + 1) as real, Wrote)];
            Run(limit, k, fs) && Waiting(limit, End(limit, fs), n, k)
  {
    PutStep(limit, End(limit, es), n - 1, k, (k + 1) as real);
    Then(limit, k, es, Put(n - 1, (k + 1) as real, Wrote));
  }

  lemma {:induction false} StalledLines(k: nat, n: nat)
    ensures |Asked(k)| == k && |Stalled(k, n)| == k + n && Lines(Stalled(k, n), k, k + n) == n
    ensures n > 0 ==> Stalled(k, n)[k].at == (k + 1) as real
  {
    if n == 0 {
      AskedLength(k);
    } else {
      StalledLines(k, n - 1);
      PrefixLines(Stalled(k, n - 1), [Put(n - 1, (k + 1) as real, Wrote)], k, k + n - 1);
    }
  }

  lemma {:induction false} AskedLength(n: nat)
    ensures |Asked(n)| == n
  {
    if n == 0 {
    } else {
      AskedLength(n - 1);
    }
  }

  /** What the bucket holds after n of the last calls. */
  predicate LeftAfter(limit: int, b: TB.Bucket, n: nat, at: real) {
    if n == 0 then FullAt(limit, b, at) else b == TB.Bucket((limit - n) as real, at)
  }

  lemma NextGrant(limit: int, b: TB.Bucket, n: nat, at: real)
    requires 0 < n <= limit && LeftAfter(limit, b, n - 1, at)
    ensures TB.Grants(limit, b, TB.Command(at)) && LeftAfter(limit, TB.Apply(limit, b, TB.Command(at)), n, at)
  {
    if n == 1 {
      FullBucketGrants(limit, b, at);
    } else {
      TB.DripZero(limit);
    }
  }

  predicate Bursting(limit: int, s: State, k: nat, n: nat) {
    Stands(s, k + n, k + n) && s.clock == (k + 1) as real && LeftAfter(limit, s.bucket, n, (k + 1) as real)
  }

  lemma {:induction false} BurstStands(limit: int, k: nat, n: nat)
    requires limit > 0 && k > 0 && n <= limit
    ensures Run(limit, k, Burst(k, n)) && Bursting(limit, End(limit, Burst(k, n)), k, n)
  {
    if n == 0 {
      StalledStands(limit, k, k);
    } else {
      BurstStands(limit, k, n - 1);
      OneMoreLine(limit, k, n, Burst(k, n - 1));
    }
  }

  lemma OneMoreLine(limit: int, k: nat, n: nat, es: seq<Event>)
    requires 0 < n <= limit && 0 < k && Run(limit, k, es) && Bursting(limit, End(limit, es), k, n - 1)
    ensures var id, at := k + n - 1, (k + 1) as real;
            var fs := es + [Ask(id, at)] + [Put(id, at, Wrote)];
            Run(limit, k, fs) && Bursting(limit, End(limit, fs), k, n)
  {
    var id, at := k + n - 1, (k + 1) as real;
    NextGrant(limit, End(limit, es).bucket, n, at);
    AskStep(limit, End(limit, es), id, id, at);
    Then(limit, k, es, Ask(id, at));
    PutStep(limit, End(limit, es + [Ask(id, at)]), id, id + 1, at);
    Then(limit, k, es + [Ask(id, at)], Put(id, at, Wrote));
  }

  lemma {:induction false} BurstLines(k: nat, n: nat)
    requires k > 0
    ensures |Burst(k, n)| == 2 * (k + n) && Lines(Burst(k, n), k, 2 * (k + n)) == k + n
    ensures Burst(k, n)[k].at == (k + 1) as real
  {
    if n == 0 {
      StalledLines(k, k);
    } else {
      BurstLines(k, n - 1);
      var es, id, at := Burst(k, n - 1), k + n - 1, (k + 1) as real;
      PrefixLines(es, [Ask(id, at)], k, |es|);
      PrefixLines(es + [Ask(id, at)], [Put(id, at, Wrote)], k, |es| + 1);
    }
  }

  lemma BurstEnds(k: nat, n: nat)
    requires n > 0
    ensures Burst(k, n) != [] && Burst(k, n)[|Burst(k, n)| - 1].at == (k + 1) as real
  {}

  /** For every limit and every k some run puts out limit + k lines at one moment. */
  lemma BoundIsReached(limit: int, k: nat)
    requires limit > 0 && k > 0
    ensures var es, s := Burst(k, limit), Initial(limit, 0.0);
            && Legal(limit, s, es, |es|) && InFlightAtMost(limit, s, es, |es|, k)
            && k < |es| && es[k].at == es[|es| - 1].at && Lines(es, k, |es|) == limit + k
  {
    BurstStands(limit, k, limit);
    BurstLines(k, limit);
    BurstEnds(k, limit);
  }

  // ----- One call by itself -----

  /** The clock readings of a call: for the token, at the write, and for the status it reports. */
  datatype Moments = Moments(asked: real, written: real, reported: real)

  /** The steps of call id on a bucket b; a rejected payload takes none. */
  function CallSteps(limit: int, b: TB.Bucket, id: nat, screened: Option<string>, t: Moments, serial: SerialAnswer)
    : seq<Event>
  {
    if screened.None? then []
    else if !TB.Grants(limit, b, TB.Command(t.asked)) then [Ask(id, t.asked), Report(id, t.reported)]
    else if serial == Wrote then [Ask(id, t.asked), Put(id, t.written, serial), Report(id, t.reported)]
    else [Ask(id, t.asked), Put(id, t.written, serial)]
  }

  /** Call id is not in flight in s, and t comes after the last step. */
  predicate MayStart(s: State, id: nat, t: Moments) {
    id !in s.granted && id !in s.reporting && s.clock <= t.asked <= t.written <= t.reported
  }

  /** The steps es are possible in s and leave only the bucket changed, to b. */
  predicate PassThrough(limit: int, s: State, es: seq<Event>, b: TB.Bucket) {
    && Legal(limit, s, es, |es|)
    && StateAt(limit, s, es, |es|) == State(b, s.granted, s.reporting, if es == [] then s.clock else es[|es| - 1].at)
  }

  function AfterAsk(limit: int, b: TB.Bucket, t: Moments): TB.Bucket {
    TB.Apply(limit, b, TB.Command(t.asked))
  }

  function AfterReport(limit: int, b: TB.Bucket, t: Moments): TB.Bucket {
    TB.Apply(limit, AfterAsk(limit, b, t), TB.Status(t.reported))
  }

  lemma CallPassesThrough(limit: int, s: State, id: nat, cmd: string, t: Moments, serial: SerialAnswer)
    requires MayStart(s, id, t)
    ensures var granted := TB.Grants(limit, s.bucket, TB.Command(t.asked));
            PassThrough(limit, s, CallSteps(limit, s.bucket, id, Some(cmd), t, serial),
                        if granted && serial != Wrote then AfterAsk(limit, s.bucket, t)
                        else AfterReport(limit, s.bucket, t))
  {
    var es := CallSteps(limit, s.bucket, id, Some(cmd), t, serial);
    var s1 := Next(limit, s, es[0]);
    var s2 := Next(limit, s1, es[1]);
    assert StateAt(limit, s, es, 0) == s && StateAt(limit, s, es, 1) == s1 && StateAt(limit, s, es, 2) == s2;
    assert Enabled(s, es[0]) && Enabled(s1, es[1]) && (|es| == 3 ==> Enabled(s2, es[2]));
    assert Legal(limit, s, es, 1) && Legal(limit, s, es, 2);
    assert s.granted + {id} - {id} == s.granted && s.reporting + {id} - {id} == s.reporting;
  }

  // ----- The code -----

  class Bridge {
    const maxLen: int
    const whitelist: seq<string>
    const limiter: TB.Limiter
    var commandsRejected: nat
    var commandsLimited: nat

    constructor (maxLen: int, whitelist: seq<string>, limiter: TB.Limiter)
      ensures this.maxLen == maxLen && this.whitelist == whitelist && this.limiter == limiter
      ensures commandsRejected == 0 && commandsLimited == 0
    {
      this.maxLen, this.whitelist, this.limiter := maxLen, whitelist, limiter;
      commandsRejected, commandsLimited := 0, 0;
    }

    /**
     written is the line that reached the serial port, if any; t are the clock readings. The call
     is call id of the machine and runs without interruption in its state s.
     */
    method ExecuteCommand(payload: string, t: Moments, serial: SerialAnswer, ghost id: nat, ghost s: State)
      returns (res: CmdResult, written: Option<string>)
      requires MayStart(s, id, t) && s.bucket == limiter.Contents()
      modifies this, limiter
      ensures limiter.limit > 0 ==>
                var steps := CallSteps(limiter.limit, s.bucket, id, Screened(maxLen, whitelist, payload), t, serial);
                PassThrough(limiter.limit, s, steps, limiter.Contents())
      ensures res.status == Rejected <==> Screened(maxLen, whitelist, payload).None?
      ensures forall full :: IsText(payload, full) ==>
                && (res.status != Rejected <==> IsCommand(maxLen, full) && IsListed(whitelist, full))
                && res.command == (if IsCommand(maxLen, full) then full else payload)
                && written == if res.status == Sent then Some(full) else None
      ensures res.status != Rejected ==>
                Answers(limiter.limit, old(limiter.Contents()), limiter.Contents(), t, serial, res)
      // Past the bucket the serial port decides, and a line or a refusal tells what is left in the bucket.
      ensures res.status != Rejected && res.status != RateLimited ==>
                (res.status == Sent <==> serial.Wrote?) && (res.status == SerialDown <==> serial.NotConnected?)
      ensures limiter.limit > 0 && (res.status == Sent || res.status == RateLimited) ==>
                res.remaining == limiter.Contents().tokens && res.perSec == limiter.limit
      // Only the screened command is ever written.
      ensures written == if res.status == Sent then Screened(maxLen, whitelist, payload) else None
      ensures res.command == Named(maxLen, payload)
      ensures res.status == Rejected ==> res.remaining == 0.0 && res.perSec == 0
      ensures commandsRejected == old(commandsRejected) + if res.status == Rejected then 1 else 0
      ensures commandsLimited == old(commandsLimited) + if res.status == RateLimited then 1 else 0
    {
      written := None;
      forall full | IsText(payload, full)
        ensures Screened(maxLen, whitelist, payload).Some? <==> IsCommand(maxLen, full) && IsListed(whitelist, full)
        ensures Named(maxLen, payload) == if IsCommand(maxLen, full) then full else payload
        ensures Screened(maxLen, whitelist, payload).Some? ==> Screened(maxLen, whitelist, payload) == Some(full)
      {
        PassesIff(maxLen, whitelist, payload, full);
        NormalIff(maxLen, payload, full);
      }
      var cmd, ok := Screen(payload);
      if !ok {
        commandsRejected := commandsRejected + 1;
        return CmdResult(cmd, Rejected, 0.0, 0), written;
      }
      res := PayAndWrite(cmd, t, serial, id, s);
      if res.status == RateLimited {
        commandsLimited := commandsLimited + 1;
      } else if res.status == Sent {
        written := Some(cmd);
      }
    }

    /** The checks before the bucket; cmd is the normal form when there is one. */
    method Screen(payload: string) returns (cmd: string, ok: bool)
      ensures Screened(maxLen, whitelist, payload) == if ok then Some(cmd) else None
      ensures cmd == Named(maxLen, payload)
    {
      var normal := NormalizeCommand(maxLen, payload);
      if normal.Err? {
        return payload, false;
      }
      cmd := normal.value;
      ok := CommandAllowed(whitelist, cmd);
    }

    /** The bucket, the serial port, and the status that goes into the answer. */
    method PayAndWrite(cmd: string, t: Moments, serial: SerialAnswer, ghost id: nat, ghost s: State)
      returns (res: CmdResult)
      requires MayStart(s, id, t) && s.bucket == limiter.Contents()
      modifies limiter
      ensures res.command == cmd && res.status != Rejected
      ensures limiter.limit > 0 ==>
                var steps := CallSteps(limiter.limit, s.bucket, id, Some(cmd), t, serial);
                PassThrough(limiter.limit, s, steps, limiter.Contents())
      ensures Answers(limiter.limit, old(limiter.Contents()), limiter.Contents(), t, serial, res)
    {
      CallPassesThrough(limiter.limit, s, id, cmd, t, serial);
      var granted := limiter.AllowCommand(t.asked);
      if !granted {
        var lim, rem, _ := limiter.CommandRateStatus(t.reported);
        return CmdResult(cmd, RateLimited, rem, lim);
      }
      match serial {
        case NotConnected => return CmdResult(cmd, SerialDown, 0.0, 0);
        case WriteFailed => return CmdResult(cmd, Error, 0.0, 0);
        case Wrote =>
          var lim, rem, _ := limiter.CommandRateStatus(t.reported);
          return CmdResult(cmd, Sent, rem, lim);
      }
    }
  }

  /** What a screened command is answered: by the bucket before it, the serial port, and the bucket after it. */
  predicate Answers(limit: int, before: TB.Bucket, after: TB.Bucket, t: Moments, serial: SerialAnswer, res: CmdResult) {
    var granted := limit <= 0 || TB.Grants(limit, before, TB.Command(t.asked));
    && res.status == (if !granted then RateLimited
                      else match serial case Wrote => Sent case NotConnected => SerialDown case WriteFailed => Error)
    && (if limit > 0 && (res.status == Sent || res.status == RateLimited)
        then res.remaining == after.tokens && res.perSec == limit && after.last == t.reported
        else res.remaining == 0.0 && res.perSec == 0)
  }
}
