/**
 The serial PING watchdog (rflink/publisher.go, rflink/app.go).

 Two goroutines share pingSentAt, lastPongAt, pingFails and rflinkUnresp: the ping loop
 (check outstanding, write, mark) and the publish loop (PONG handling and timeout checks).
 Every lock section and every atomic access is one event of an interleaved machine, so a run
 is an arbitrary legal list of events. The class at the end is the code of each goroutine
 taken alone, tied to the same events.
 */
module PingWatchdog {
  import opened Wrappers

  const SECOND := 1_000_000_000

  /** The three settings the watchdog reads; non-positive values fall back to defaults. */
  datatype PingOptions = PingOptions(intervalSec: int, timeoutSec: int, failThreshold: int) {
    function Timeout(): (d: int)
      ensures d > 0
      ensures d == if timeoutSec > 0 then timeoutSec * SECOND else 5_000_000_000
    {
      (if timeoutSec <= 0 then 5 else timeoutSec) * SECOND
    }

    function Threshold(): (n: int)
      ensures n >= 1
      ensures n == if failThreshold > 0 then failThreshold else 3
    {
      if failThreshold <= 0 then 3 else failThreshold
    }
  }

  // ----- The interleaved machine -----

  datatype LoopPc = AtTimer | MaySend | Written

  datatype PublishPc =
    | Waiting
    | Loaded(sent: int)
    | Expired(sent: int)
    | Cleared
    | Counted(n: nat)
    | PongCleared
    | PongZeroed

  datatype State = State(
    sentAt: Option<int>,
    lastPong: Option<int>,
    fails: nat,
    unresponsive: bool,
    loop: LoopPc,
    publish: PublishPc,
    clock: int)

  datatype Event =
    // ping loop: sendPing
    | PingCheck(connected: bool)
    | PingWrite(ok: bool)
    | PingMark(at: int)
    // publish loop: checkPingTimeout
    | CheckLoad
    | CheckAge(at: int)
    | CheckClear
    | CheckCount
    | CheckFlag
    // publish loop: NotePong
    | PongClear(at: int)
    | PongZero
    | PongFlag

  function Init(start: int): State {
    State(None, None, 0, false, AtTimer, Waiting, start)
  }

  predicate Enabled(s: State, e: Event) {
    match e
    case PingCheck(_) => s.loop.AtTimer?
    case PingWrite(_) => s.loop.MaySend?
    case PingMark(at) => s.loop.Written? && s.clock <= at
    case CheckLoad => s.publish.Waiting?
    case CheckAge(at) => s.publish.Loaded? && s.clock <= at
    case CheckClear => s.publish.Expired?
    case CheckCount => s.publish.Cleared?
    case CheckFlag => s.publish.Counted?
    case PongClear(at) => s.publish.Waiting? && s.clock <= at
    case PongZero => s.publish.PongCleared?
    case PongFlag => s.publish.PongZeroed?
  }

  function Next(o: PingOptions, s: State, e: Event): State
    requires Enabled(s, e)
  {
    match e
    case PingCheck(connected) =>
      if connected && s.sentAt.None? then s.(loop := MaySend) else s
    case PingWrite(ok) => s.(loop := if ok then Written else AtTimer)
    case PingMark(at) => s.(sentAt := Some(at), loop := AtTimer, clock := at)
    case CheckLoad => if s.sentAt.None? then s else s.(publish := Loaded(s.sentAt.value))
    case CheckAge(at) =>
      if at - s.publish.sent < o.Timeout()
      then s.(publish := Waiting, clock := at)
      else s.(publish := Expired(s.publish.sent), clock := at)
    case CheckClear => s.(sentAt := None, publish := Cleared)
    case CheckCount => s.(fails := s.fails + 1, publish := Counted(s.fails + 1))
    case CheckFlag =>
      s.(unresponsive := s.unresponsive || s.publish.n >= o.Threshold(), publish := Waiting)
    case PongClear(at) =>
      s.(sentAt := None, lastPong := Some(at), publish := PongCleared, clock := at)
    case PongZero => s.(fails := 0, publish := PongZeroed)
    case PongFlag => s.(unresponsive := false, publish := Waiting)
  }

  /** The state after the events es, or None when es is not a possible interleaving. */
  function Exec(o: PingOptions, start: int, es: seq<Event>): Option<State> {
    if es == [] then Some(Init(start)) else
    var before := Exec(o, start, es[..|es| - 1]);
    if before.Some? && Enabled(before.value, es[|es| - 1])
    then Some(Next(o, before.value, es[|es| - 1]))
    else None
  }

  // ----- What a run did, read off its events -----

  function Marks(es: seq<Event>): nat {
    if es == [] then 0 else
    Marks(es[..|es| - 1]) + if es[|es| - 1].PingMark? then 1 else 0
  }

  function Timeouts(es: seq<Event>): nat {
    if es == [] then 0 else
    Timeouts(es[..|es| - 1]) + if es[|es| - 1].CheckClear? then 1 else 0
  }

  /** PONGs that were handled while a ping was marked as outstanding. */
  function Credits(o: PingOptions, start: int, es: seq<Event>): nat {
    if es == [] then 0 else
    var before := Exec(o, start, es[..|es| - 1]);
    Credits(o, start, es[..|es| - 1]) +
    if es[|es| - 1].PongClear? && before.Some? && before.value.sentAt.Some? then 1 else 0
  }

  function TimeoutsSincePong(es: seq<Event>): nat {
    if es == [] then 0
    else if es[|es| - 1].PongClear? then 0
    else TimeoutsSincePong(es[..|es| - 1]) + if es[|es| - 1].CheckClear? then 1 else 0
  }

  /** The later of the start and the last PONG. */
  function LastAlive(start: int, es: seq<Event>): int {
    if es == [] then start
    else if es[|es| - 1].PongClear? then es[|es| - 1].at
    else LastAlive(start, es[..|es| - 1])
  }

  /** The clock value of the last MarkPingSent. */
  function LastMark(es: seq<Event>): Option<int> {
    if es == [] then None
    else if es[|es| - 1].PingMark? then Some(es[|es| - 1].at)
    else LastMark(es[..|es| - 1])
  }

  function MarksSinceLoad(es: seq<Event>): nat {
    if es == [] || es[|es| - 1].CheckLoad? then 0
    else MarksSinceLoad(es[..|es| - 1]) + if es[|es| - 1].PingMark? then 1 else 0
  }

  // ----- Invariant of every interleaving -----

  ghost predicate Ownership(s: State, es: seq<Event>) {
    // Only the ping loop sets pingSentAt, and only after it saw it empty.
    && (!s.loop.AtTimer? ==> s.sentAt.None?)
    && (s.sentAt.Some? ==> LastMark(es) == s.sentAt)
    // Only the publish loop clears it, so a loaded value stays in place.
    && (s.publish.Loaded? || s.publish.Expired? ==>
          s.sentAt == Some(s.publish.sent) && MarksSinceLoad(es) == 0)
  }

  ghost predicate FailCount(o: PingOptions, s: State, es: seq<Event>) {
    match s.publish
    case Cleared =>
      s.fails + 1 == TimeoutsSincePong(es) && (s.unresponsive <==> s.fails >= o.Threshold())
    case Counted(n) =>
      s.fails == n == TimeoutsSincePong(es) && n > 0 && (s.unresponsive <==> n - 1 >= o.Threshold())
    case PongCleared => TimeoutsSincePong(es) == 0
    case PongZeroed => s.fails == 0 == TimeoutsSincePong(es)
    case _ =>
      s.fails == TimeoutsSincePong(es) && (s.unresponsive <==> s.fails >= o.Threshold())
  }

  ghost predicate Timing(o: PingOptions, start: int, s: State, es: seq<Event>) {
    var spent := TimeoutsSincePong(es) * o.Timeout();
    && LastAlive(start, es) + spent <= s.clock
    && (s.sentAt.Some? ==> LastAlive(start, es) + spent <= s.sentAt.value)
    && (s.publish.Expired? ==> s.publish.sent + o.Timeout() <= s.clock)
  }

  lemma {:induction false} OwnershipHolds(o: PingOptions, start: int, es: seq<Event>)
    requires Exec(o, start, es).Some?
    ensures Ownership(Exec(o, start, es).value, es)
  {
    if es == [] {
    } else {
      OwnershipHolds(o, start, es[..|es| - 1]);
    }
  }

  lemma {:induction false} FailCountHolds(o: PingOptions, start: int, es: seq<Event>)
    requires Exec(o, start, es).Some?
    ensures FailCount(o, Exec(o, start, es).value, es)
  {
    if es == [] {
    } else {
      FailCountHolds(o, start, es[..|es| - 1]);
    }
  }

  lemma {:induction false} TimingHolds(o: PingOptions, start: int, es: seq<Event>)
    requires Exec(o, start, es).Some?
    ensures Timing(o, start, Exec(o, start, es).value, es)
  {
    if es == [] {
    } else {
      var pre := es[..|es| - 1];
      TimingHolds(o, start, pre);
      OwnershipHolds(o, start, pre);
      var k := TimeoutsSincePong(pre);
      assert (k + 1) * o.Timeout() == k * o.Timeout() + o.Timeout();
    }
  }

  // ----- Main results -----

  /**
   The timeout check reads pingSentAt in one lock section and clears it in another, yet the
   value it erases is the one it timed, and no ping was marked in between.
   */
  lemma ClearTakesTheTimedPing(o: PingOptions, start: int, es: seq<Event>)
    requires Exec(o, start, es).Some?
    requires Enabled(Exec(o, start, es).value, CheckClear)
    ensures var s := Exec(o, start, es).value;
            && s.sentAt == Some(s.publish.sent) == LastMark(es)
            && MarksSinceLoad(es) == 0
            && s.publish.sent + o.Timeout() <= s.clock
  {
    OwnershipHolds(o, start, es);
    TimingHolds(o, start, es);
  }

  /**
   In every interleaving, a check that has loaded the moment of a ping times exactly the ping that
   is outstanding, and goes on to clear it exactly if the timeout has passed by its clock reading;
   else it ends and leaves everything as it was.
   */
  lemma CheckClearsIff(o: PingOptions, start: int, es: seq<Event>, at: int)
    requires Exec(o, start, es).Some? && Enabled(Exec(o, start, es).value, CheckAge(at))
    ensures var s := Exec(o, start, es).value;
            var t := Next(o, s, CheckAge(at));
            && s.sentAt == Some(s.publish.sent) == LastMark(es)
            && (Enabled(t, CheckClear) <==> at >= s.publish.sent + o.Timeout())
            && (at < s.publish.sent + o.Timeout() ==> t == s.(publish := Waiting, clock := at))
  {
    OwnershipHolds(o, start, es);
  }

  /** And a check takes the clock reading exactly if a ping is outstanding. */
  lemma CheckLoadsIff(o: PingOptions, s: State)
    requires Enabled(s, CheckLoad)
    ensures s.sentAt.Some? ==> Next(o, s, CheckLoad) == s.(publish := Loaded(s.sentAt.value))
    ensures s.sentAt.None? ==> Next(o, s, CheckLoad) == s
  {}

  /** MarkPingSent never overwrites an outstanding ping. */
  lemma MarkFindsNoPing(o: PingOptions, start: int, es: seq<Event>, at: int)
    requires Exec(o, start, es).Some?
    requires Enabled(Exec(o, start, es).value, PingMark(at))
    ensures Exec(o, start, es).value.sentAt.None?
  {
    OwnershipHolds(o, start, es);
  }

  /** Every marked ping is resolved exactly once: by a PONG, by a timeout, or it is outstanding. */
  lemma {:induction false} PingLedger(o: PingOptions, start: int, es: seq<Event>)
    requires Exec(o, start, es).Some?
    ensures Marks(es) == Credits(o, start, es) + Timeouts(es)
                         + if Exec(o, start, es).value.sentAt.Some? then 1 else 0
  {
    if es == [] {
    } else {
      PingLedger(o, start, es[..|es| - 1]);
      OwnershipHolds(o, start, es[..|es| - 1]);
    }
  }

  /**
   Whenever the publish loop is between two steps, pingFails is the number of timeouts since
   the last PONG and the gateway is flagged exactly when that reaches the threshold.
   */
  lemma SettledVerdict(o: PingOptions, start: int, es: seq<Event>)
    requires Exec(o, start, es).Some? && Exec(o, start, es).value.publish.Waiting?
    ensures var s := Exec(o, start, es).value;
            && s.fails == TimeoutsSincePong(es)
            && (s.unresponsive <==> TimeoutsSincePong(es) >= o.Threshold())
  {
    FailCountHolds(o, start, es);
  }

  /** The flag is never raised earlier than threshold * timeout after start or last PONG. */
  lemma NeverFlaggedEarly(o: PingOptions, start: int, es: seq<Event>, e: Event)
    requires Exec(o, start, es).Some? && Enabled(Exec(o, start, es).value, e)
    requires var s := Exec(o, start, es).value;
             !s.unresponsive && Next(o, s, e).unresponsive
    ensures LastAlive(start, es) + o.Threshold() * o.Timeout() <= Exec(o, start, es).value.clock
  {
    FailCountHolds(o, start, es);
    TimingHolds(o, start, es);
    MulMonotone(o.Threshold(), TimeoutsSincePong(es), o.Timeout());
  }

  /** A PONG is credited exactly when some marked ping is still neither credited nor timed out. */
  lemma PongCreditedIff(o: PingOptions, start: int, es: seq<Event>, at: int)
    requires Exec(o, start, es).Some? && Enabled(Exec(o, start, es).value, PongClear(at))
    ensures Credits(o, start, es + [PongClear(at)]) == Credits(o, start, es) + 1
            <==> Marks(es) > Credits(o, start, es) + Timeouts(es)
  {
    PingLedger(o, start, es);
    assert (es + [PongClear(at)])[..|es|] == es;
  }

  lemma MulMonotone(a: int, b: int, c: int)
    requires a <= b && 0 <= c
    ensures a * c <= b * c
  {
    assert 0 <= (b - a) * c;
  }

  /**
   A PONG handled after the write but before MarkPingSent is not credited: here the only ping
   written is answered at once, and still runs into a timeout.
   */
  lemma EarlyPongIsNotCredited(o: PingOptions) returns (es: seq<Event>)
    ensures |es| == 11 && es[..6] == [PingCheck(true), PingWrite(true), PongClear(1), PongZero, PongFlag, PingMark(2)]
    ensures Marks(es) == 1 && Credits(o, 0, es) == 0
    ensures Exec(o, 0, es).Some?
    ensures var s := Exec(o, 0, es).value; s.fails == 1 && s.sentAt.None? && s.lastPong == Some(1)
  {
    var late := 2 + o.Timeout();
    es := [];
    es := Append(o, es, PingCheck(true));
    es := Append(o, es, PingWrite(true));
    es := Append(o, es, PongClear(1));
    es := Append(o, es, PongZero);
    es := Append(o, es, PongFlag);
    es := Append(o, es, PingMark(2));
    es := Append(o, es, CheckLoad);
    es := Append(o, es, CheckAge(late));
    es := Append(o, es, CheckClear);
    es := Append(o, es, CheckCount);
    es := Append(o, es, CheckFlag);
  }

  /** One more event of a run that starts at time 0, with what it adds to the counts. */
  lemma Append(o: PingOptions, es: seq<Event>, e: Event) returns (r: seq<Event>)
    requires Exec(o, 0, es).Some? && Enabled(Exec(o, 0, es).value, e)
    ensures r == es + [e]
    ensures Exec(o, 0, r) == Some(Next(o, Exec(o, 0, es).value, e))
    ensures Marks(r) == Marks(es) + if e.PingMark? then 1 else 0
    ensures Credits(o, 0, r) == Credits(o, 0, es) + if e.PongClear? && Exec(o, 0, es).value.sentAt.Some? then 1 else 0
  {
    r := es + [e];
    assert r[..|r| - 1] == es;
  }

  // ----- The code -----

  /** One whole checkPingTimeout, as the events it performs. */
  function CheckAll(o: PingOptions, s: State, now: int): State
    requires s.publish.Waiting? && s.clock <= now
  {
    var loaded := Next(o, s, CheckLoad);
    if loaded.publish.Waiting? then loaded else
    var aged := Next(o, loaded, CheckAge(now));
    if aged.publish.Waiting? then aged else
    Next(o, Next(o, Next(o, aged, CheckClear), CheckCount), CheckFlag)
  }

  /** One whole NotePong. */
  function PongAll(o: PingOptions, s: State, now: int): State
    requires s.publish.Waiting? && s.clock <= now
  {
    Next(o, Next(o, Next(o, s, PongClear(now)), PongZero), PongFlag)
  }

  /** One whole sendPing; ok is what the serial write answered. */
  function SendAll(o: PingOptions, s: State, connected: bool, ok: bool, now: int): State
    requires s.loop.AtTimer? && s.clock <= now
  {
    var checked := Next(o, s, PingCheck(connected));
    if checked.loop.AtTimer? then checked else
    var written := Next(o, checked, PingWrite(ok));
    if written.loop.AtTimer? then written else Next(o, written, PingMark(now))
  }

  /** The watchdog fields of the publisher. */
  class PingFields {
    const opts: PingOptions
    var pingSentAt: Option<int>
    var lastPongAt: Option<int>
    var pingFails: nat
    var rflinkUnresp: bool

    constructor (opts: PingOptions, start: int)
      ensures this.opts == opts && At(start) == Init(start)
    {
      this.opts := opts;
      pingSentAt, lastPongAt, pingFails, rflinkUnresp := None, None, 0, false;
    }

    /** The machine state while both goroutines are between calls. */
    ghost function At(clock: int): State
      reads this
    {
      State(pingSentAt, lastPongAt, pingFails, rflinkUnresp, AtTimer, Waiting, clock)
    }

    method MarkPingSent(now: int)
      modifies this`pingSentAt
      ensures pingSentAt == Some(now)
    {
      pingSentAt := Some(now);
    }

    method PingOutstanding() returns (outstanding: bool)
      ensures outstanding <==> pingSentAt.Some?
    {
      outstanding := pingSentAt.Some?;
    }

    method NotePong(now: int)
      modifies this
      ensures forall t :: t <= now ==> At(now) == PongAll(opts, old(At(t)), now)
      ensures pingSentAt.None? && lastPongAt == Some(now) && pingFails == 0 && !rflinkUnresp
    {
      lastPongAt := Some(now);
      pingSentAt := None;
      pingFails := 0;
      if rflinkUnresp {
        rflinkUnresp := false;
      }
    }

    method CheckPingTimeout(now: int)
      modifies this
      ensures opts.intervalSec <= 0 ==> unchanged(this)
      ensures opts.intervalSec > 0 ==>
                forall t :: t <= now ==>
                  At(now) == CheckAll(opts, old(At(t)), now).(clock := now)
      // A ping that is outstanding for the timeout or longer is given up and counted.
      ensures opts.intervalSec > 0 && old(pingSentAt).Some? && now - old(pingSentAt).value >= opts.Timeout() ==>
                && pingSentAt.None? && pingFails == old(pingFails) + 1 && lastPongAt == old(lastPongAt)
                && rflinkUnresp == (old(rflinkUnresp) || pingFails >= opts.Threshold())
      ensures old(pingSentAt).None? || now - old(pingSentAt).value < opts.Timeout() ==> unchanged(this)
    {
      if opts.intervalSec <= 0 {
        return;
      }
      var sent := pingSentAt;
      if sent.None? {
        return;
      }
      if now - sent.value < opts.Timeout() {
        return;
      }
      pingSentAt := None;
      pingFails := pingFails + 1;
      var fails := pingFails;
      if fails >= opts.Threshold() {
        rflinkUnresp := true;
      }
    }

    /** writeOk is the answer of the serial port; sent says that the line was written. */
    method SendPing(connected: bool, writeOk: bool, now: int) returns (sent: bool)
      modifies this`pingSentAt
      ensures sent <==> connected && old(pingSentAt).None? && writeOk
      ensures pingSentAt == if sent then Some(now) else old(pingSentAt)
      ensures forall t :: t <= now ==>
                At(now) == SendAll(opts, old(At(t)), connected, writeOk, now).(clock := now)
    {
      if !connected {
        return false;
      }
      var outstanding := PingOutstanding();
      if outstanding {
        return false;
      }
      if !writeOk {
        return false;
      }
      MarkPingSent(now);
      sent := true;
    }
  }
}
