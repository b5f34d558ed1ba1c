/**
 The debouncer and the watchdog together (rflink/publisher.go). The publish loop takes one line
 after the other; a line that the debouncer lets through and that is a PONG reaches NotePong. The
 steps of the ping loop and the timeout checks come in between. isPong is the verdict of the
 gateway parser, Gateway.IsPong.
 */
module PongPath {
  import opened Wrappers
  import opened Gateway
  import S = SensorMessages
  import D = Debounce
  import W = PingWatchdog

  datatype Step =
    | Line(a: D.Arrival)
    | Other(e: W.Event)

  /** The lines of the run. */
  function Lines(js: seq<Step>): seq<D.Arrival> {
    if js == [] then [] else
    Lines(js[..|js| - 1]) + if js[|js| - 1].Line? then [js[|js| - 1].a] else []
  }

  /** The debouncer lets a line through after the lines ms; a window that is not positive turns it off. */
  predicate LetsThrough(window: int, ms: seq<D.Arrival>, a: D.Arrival) {
    window <= 0 || !D.Drops(window, D.Exec(window, ms, |ms|), a)
  }

  /** What the watchdog sees of the step after the lines ms. */
  function Seen(isPong: string -> bool, window: int, ms: seq<D.Arrival>, e: Step): seq<W.Event> {
    match e
    case Line(a) => if LetsThrough(window, ms, a) && isPong(a.msg) then [W.PongClear(a.at)] else []
    case Other(e) => [e]
  }

  /** What the watchdog sees of the run. */
  function Watchdog(isPong: string -> bool, window: int, js: seq<Step>): seq<W.Event> {
    if js == [] then [] else
    Watchdog(isPong, window, js[..|js| - 1]) + Seen(isPong, window, Lines(js[..|js| - 1]), js[|js| - 1])
  }

  /** The publish loop takes a line when it is idle, and time does not go back between lines. */
  predicate Enabled(s: W.State, ms: seq<D.Arrival>, e: Step) {
    match e
    case Line(a) => s.publish.Waiting? && s.clock <= a.at && (ms == [] || ms[|ms| - 1].at <= a.at)
    case Other(e) => !e.PongClear? && W.Enabled(s, e)
  }

  ghost predicate Legal(isPong: string -> bool, o: W.PingOptions, window: int, start: int, js: seq<Step>) {
    js == [] ||
    (var pre := js[..|js| - 1];
     && Legal(isPong, o, window, start, pre)
     && W.Exec(o, start, Watchdog(isPong, window, pre)).Some?
     && Enabled(W.Exec(o, start, Watchdog(isPong, window, pre)).value, Lines(pre), js[|js| - 1]))
  }

  lemma OneMore(o: W.PingOptions, start: int, es: seq<W.Event>, e: W.Event)
    requires W.Exec(o, start, es).Some? && W.Enabled(W.Exec(o, start, es).value, e)
    ensures W.Exec(o, start, es + [e]) == Some(W.Next(o, W.Exec(o, start, es).value, e))
  {
    assert (es + [e])[..|es|] == es;
  }

  lemma SeenIsPossible(isPong: string -> bool, o: W.PingOptions, window: int, start: int, es: seq<W.Event>,
                       ms: seq<D.Arrival>, e: Step)
    requires W.Exec(o, start, es).Some? && Enabled(W.Exec(o, start, es).value, ms, e)
    ensures W.Exec(o, start, es + Seen(isPong, window, ms, e)).Some?
  {
    var seen := Seen(isPong, window, ms, e);
    if seen == [] {
      assert es + seen == es;
    } else {
      OneMore(o, start, es, seen[0]);
    }
  }

  /** The watchdog's part of a legal run is an interleaving of its machine. */
  lemma {:induction false} WatchdogRuns(isPong: string -> bool, o: W.PingOptions, window: int, start: int,
                                        js: seq<Step>)
    requires Legal(isPong, o, window, start, js)
    ensures W.Exec(o, start, Watchdog(isPong, window, js)).Some?
  {
    if js == [] {
    } else {
      var pre := js[..|js| - 1];
      SeenIsPossible(isPong, o, window, start, Watchdog(isPong, window, pre), Lines(pre), js[|js| - 1]);
    }
  }

  lemma OrderedAppend(ms: seq<D.Arrival>, a: D.Arrival)
    requires D.Ordered(ms) && (ms == [] || ms[|ms| - 1].at <= a.at)
    ensures D.Ordered(ms + [a])
  {
    var more := ms + [a];
    forall i, j | 0 <= i < j < |more| ensures more[i].at <= more[j].at {
      assert i < |ms| - 1 ==> ms[i].at <= ms[|ms| - 1].at;
    }
  }

  lemma {:induction false} LinesAreOrdered(isPong: string -> bool, o: W.PingOptions, window: int, start: int,
                                           js: seq<Step>)
    requires Legal(isPong, o, window, start, js)
    ensures D.Ordered(Lines(js))
  {
    if js == [] {
    } else {
      var pre, e := js[..|js| - 1], js[|js| - 1];
      LinesAreOrdered(isPong, o, window, start, pre);
      if e.Line? {
        OrderedAppend(Lines(pre), e.a);
      } else {
        assert Lines(js) == Lines(pre);
      }
    }
  }

  // ----- When an answer reaches the watchdog -----

  /** The lines have the keys that the debouncer computes. */
  ghost predicate Keyed(ms: seq<D.Arrival>) {
    forall i :: 0 <= i < |ms| ==> ms[i].key == S.DedupKey(ms[i].msg)
  }

  /** Some answer to a PING was let through less than a window before. */
  ghost predicate JustAnswered(window: int, ms: seq<D.Arrival>, at: int) {
    exists j :: 0 <= j < |ms| && PongReply(ms[j].msg) && D.Accepted(window, ms, j) && at - ms[j].at < window
  }

  lemma {:induction false} LaterLinesChangeNothing(window: int, ms: seq<D.Arrival>, a: D.Arrival, n: nat)
    requires n <= |ms|
    ensures D.Exec(window, ms + [a], n) == D.Exec(window, ms, n)
  {
    if n == 0 {
    } else {
      LaterLinesChangeNothing(window, ms, a, n - 1);
    }
  }

  /** An answer is let through exactly if no answer was let through less than a window before. */
  lemma AnswerPassesIff(window: int, ms: seq<D.Arrival>, a: D.Arrival)
    requires window > 0 && D.Ordered(ms + [a]) && Keyed(ms + [a]) && PongReply(a.msg)
    ensures LetsThrough(window, ms, a) <==> !JustAnswered(window, ms, a.at)
  {
    var more := ms + [a];
    D.PruningIsInvisible(window, more, |ms|);
    LaterLinesChangeNothing(window, ms, a, |ms|);
    assert more[|ms|].key == S.DedupKey(a.msg);
    PongReplyKey(a.msg);
    forall j | 0 <= j < |ms|
      ensures D.Accepted(window, more, j) == D.Accepted(window, ms, j)
      ensures more[j].key == a.key <==> PongReply(ms[j].msg)
    {
      LaterLinesChangeNothing(window, ms, a, j);
      PongReplyKey(ms[j].msg);
    }
  }

  /**
   In every interleaving of the lines with the ping loop and the timeout checks, the answer to a
   PING is credited exactly if no answer was let through less than a window before and a marked
   ping is neither credited nor timed out yet.
   */
  lemma AnswerIsCreditedIff(isPong: string -> bool, o: W.PingOptions, window: int, start: int, js: seq<Step>,
                            a: D.Arrival)
    requires Legal(isPong, o, window, start, js + [Line(a)]) && Keyed(Lines(js) + [a])
    requires PongReply(a.msg) && isPong(a.msg)
    ensures var es, more := Watchdog(isPong, window, js), Watchdog(isPong, window, js + [Line(a)]);
            W.Credits(o, start, more) == W.Credits(o, start, es) + 1 <==>
            && (window <= 0 || !JustAnswered(window, Lines(js), a.at))
            && W.Marks(es) > W.Credits(o, start, es) + W.Timeouts(es)
  {
    var all, es := js + [Line(a)], Watchdog(isPong, window, js);
    assert all[..|all| - 1] == js;
    if window > 0 {
      LinesAreOrdered(isPong, o, window, start, js);
      OrderedAppend(Lines(js), a);
      AnswerPassesIff(window, Lines(js), a);
    }
    if LetsThrough(window, Lines(js), a) {
      W.PongCreditedIff(o, start, es, a.at);
    } else {
      assert Watchdog(isPong, window, all) == es;
    }
  }

  // ----- An answer that is dropped -----

  /** What the watchdog has come to and counted in a run from time 0. */
  datatype Tally = Tally(state: W.State, marks: nat, credits: nat, timeouts: nat)

  function TallyOf(o: W.PingOptions, es: seq<W.Event>): Tally
    requires W.Exec(o, 0, es).Some?
  {
    Tally(W.Exec(o, 0, es).value, W.Marks(es), W.Credits(o, 0, es), W.Timeouts(es))
  }

  function Counted(o: W.PingOptions, t: Tally, e: W.Event): Tally
    requires W.Enabled(t.state, e)
  {
    Tally(W.Next(o, t.state, e),
          t.marks + if e.PingMark? then 1 else 0,
          t.credits + if e.PongClear? && t.state.sentAt.Some? then 1 else 0,
          t.timeouts + if e.CheckClear? then 1 else 0)
  }

  lemma CountOne(o: W.PingOptions, es: seq<W.Event>, e: W.Event)
    requires W.Exec(o, 0, es).Some? && W.Enabled(W.Exec(o, 0, es).value, e)
    ensures W.Exec(o, 0, es + [e]).Some? && TallyOf(o, es + [e]) == Counted(o, TallyOf(o, es), e)
  {
    OneMore(o, 0, es, e);
    assert (es + [e])[..|es|] == es;
  }

  /** The run js is legal and brings the watchdog to t. */
  ghost predicate Reaches(isPong: string -> bool, o: W.PingOptions, window: int, js: seq<Step>, t: Tally) {
    && Legal(isPong, o, window, 0, js) && W.Exec(o, 0, Watchdog(isPong, window, js)).Some?
    && TallyOf(o, Watchdog(isPong, window, js)) == t
  }

  lemma OneMoreStep(isPong: string -> bool, window: int, js: seq<Step>, e: Step)
    ensures Lines(js + [e]) == Lines(js) + if e.Line? then [e.a] else []
    ensures Watchdog(isPong, window, js + [e]) == Watchdog(isPong, window, js) + Seen(isPong, window, Lines(js), e)
  {
    assert (js + [e])[..|js|] == js;
  }

  lemma StaysLegal(isPong: string -> bool, o: W.PingOptions, window: int, js: seq<Step>, t: Tally, e: Step)
    requires Reaches(isPong, o, window, js, t) && Enabled(t.state, Lines(js), e)
    ensures Legal(isPong, o, window, 0, js + [e])
  {
    assert (js + [e])[..|js|] == js;
  }

  /** A step that the watchdog sees as ev. */
  lemma Visible(isPong: string -> bool, o: W.PingOptions, window: int, js: seq<Step>, t: Tally, e: Step, ev: W.Event)
    returns (r: seq<Step>)
    requires Reaches(isPong, o, window, js, t) && Enabled(t.state, Lines(js), e) && W.Enabled(t.state, ev)
    requires Seen(isPong, window, Lines(js), e) == [ev]
    ensures Reaches(isPong, o, window, r, Counted(o, t, ev))
    ensures Lines(r) == Lines(js) + if e.Line? then [e.a] else []
  {
    r := js + [e];
    OneMoreStep(isPong, window, js, e);
    StaysLegal(isPong, o, window, js, t, e);
    CountOne(o, Watchdog(isPong, window, js), ev);
  }

  lemma Go(isPong: string -> bool, o: W.PingOptions, window: int, js: seq<Step>, t: Tally, e: W.Event)
    returns (r: seq<Step>, u: Tally)
    requires Reaches(isPong, o, window, js, t) && !e.PongClear? && W.Enabled(t.state, e)
    ensures u == Counted(o, t, e) && Reaches(isPong, o, window, r, u) && Lines(r) == Lines(js)
  {
    u := Counted(o, t, e);
    r := Visible(isPong, o, window, js, t, Other(e), e);
  }

  /** A PONG is let through. */
  lemma Hear(isPong: string -> bool, o: W.PingOptions, window: int, js: seq<Step>, t: Tally, a: D.Arrival)
    returns (r: seq<Step>, u: Tally)
    requires Reaches(isPong, o, window, js, t) && Enabled(t.state, Lines(js), Line(a))
    requires LetsThrough(window, Lines(js), a) && isPong(a.msg)
    ensures u == Counted(o, t, W.PongClear(a.at)) && Reaches(isPong, o, window, r, u) && Lines(r) == Lines(js) + [a]
  {
    u := Counted(o, t, W.PongClear(a.at));
    r := Visible(isPong, o, window, js, t, Line(a), W.PongClear(a.at));
  }

  /** A line is dropped. */
  lemma Miss(isPong: string -> bool, o: W.PingOptions, window: int, js: seq<Step>, t: Tally, a: D.Arrival)
    returns (r: seq<Step>)
    requires Reaches(isPong, o, window, js, t) && Enabled(t.state, Lines(js), Line(a))
    requires !LetsThrough(window, Lines(js), a)
    ensures Reaches(isPong, o, window, r, t) && Lines(r) == Lines(js) + [a]
  {
    r := js + [Line(a)];
    OneMoreStep(isPong, window, js, Line(a));
    StaysLegal(isPong, o, window, js, t, Line(a));
    assert Watchdog(isPong, window, r) == Watchdog(isPong, window, js);
  }

  /** Both goroutines are between calls and no ping is outstanding. */
  predicate Idle(s: W.State, at: int) {
    s.sentAt.None? && s.loop.AtTimer? && s.publish.Waiting? && s.clock == at
  }

  lemma Ping(isPong: string -> bool, o: W.PingOptions, window: int, js: seq<Step>, t: Tally, at: int)
    returns (r: seq<Step>, u: Tally)
    requires Reaches(isPong, o, window, js, t) && Idle(t.state, at)
    ensures Reaches(isPong, o, window, r, u) && Lines(r) == Lines(js)
    ensures u == t.(state := t.state.(sentAt := Some(at)), marks := t.marks + 1)
  {
    r, u := Go(isPong, o, window, js, t, W.PingCheck(true));
    r, u := Go(isPong, o, window, r, u, W.PingWrite(true));
    r, u := Go(isPong, o, window, r, u, W.PingMark(at));
  }

  /** The outstanding ping times out. */
  lemma TimeOut(isPong: string -> bool, o: W.PingOptions, window: int, js: seq<Step>, t: Tally, at: int)
    returns (r: seq<Step>, u: Tally)
    requires Reaches(isPong, o, window, js, t) && t.state.publish.Waiting? && t.state.sentAt.Some?
    requires t.state.clock <= at && t.state.sentAt.value + o.Timeout() <= at
    ensures Reaches(isPong, o, window, r, u) && Lines(r) == Lines(js)
    ensures u.marks == t.marks && u.credits == t.credits && u.timeouts == t.timeouts + 1
  {
    r, u := Go(isPong, o, window, js, t, W.CheckLoad);
    r, u := Go(isPong, o, window, r, u, W.CheckAge(at));
    r, u := Go(isPong, o, window, r, u, W.CheckClear);
  }

  /** The rest of NotePong. */
  lemma Noted(isPong: string -> bool, o: W.PingOptions, window: int, js: seq<Step>, t: Tally)
    returns (r: seq<Step>, u: Tally)
    requires Reaches(isPong, o, window, js, t) && t.state.publish.PongCleared?
    requires t.state.sentAt.None? && t.state.loop.AtTimer?
    ensures Reaches(isPong, o, window, r, u) && Lines(r) == Lines(js) && Idle(u.state, t.state.clock)
    ensures u.marks == t.marks && u.credits == t.credits && u.timeouts == t.timeouts
  {
    r, u := Go(isPong, o, window, js, t, W.PongZero);
    r, u := Go(isPong, o, window, r, u, W.PongFlag);
  }

  lemma StartPing(isPong: string -> bool, o: W.PingOptions, window: int) returns (r: seq<Step>, u: Tally)
    ensures Reaches(isPong, o, window, r, u) && Lines(r) == []
    ensures u.state.publish.Waiting? && u.state.loop.AtTimer? && u.state.sentAt == Some(0) && u.state.clock == 0
    ensures u.marks == 1 && u.credits == 0 && u.timeouts == 0
  {
    r, u := Ping(isPong, o, window, [], Tally(W.Init(0), 0, 0, 0), 0);
  }

  lemma Answered(isPong: string -> bool, o: W.PingOptions, window: int, js: seq<Step>, t: Tally, a: D.Arrival)
    returns (r: seq<Step>, u: Tally)
    requires Reaches(isPong, o, window, js, t) && Lines(js) == [] && LetsThrough(window, [], a) && isPong(a.msg)
    requires t.state.publish.Waiting? && t.state.loop.AtTimer? && t.state.sentAt.Some? && t.state.clock <= a.at
    ensures Reaches(isPong, o, window, r, u) && Lines(r) == [a]
    ensures u.state.publish.PongCleared? && u.state.loop.AtTimer? && u.state.sentAt.None? && u.state.clock == a.at
    ensures u.marks == t.marks && u.credits == t.credits + 1 && u.timeouts == t.timeouts
  {
    PongCounts(o, t, a.at);
    r, u := Hear(isPong, o, window, js, t, a);
  }

  lemma PongCounts(o: W.PingOptions, t: Tally, at: int)
    requires t.state.publish.Waiting? && t.state.loop.AtTimer? && t.state.sentAt.Some? && t.state.clock <= at
    ensures var u := Counted(o, t, W.PongClear(at));
            && u.state.publish.PongCleared? && u.state.loop.AtTimer? && u.state.sentAt.None? && u.state.clock == at
            && u.marks == t.marks && u.credits == t.credits + 1 && u.timeouts == t.timeouts
  {}

  /** A ping is sent at 0 and its answer heard at 1. */
  lemma FirstPing(isPong: string -> bool, o: W.PingOptions, window: int, a: D.Arrival) returns (r: seq<Step>, u: Tally)
    requires LetsThrough(window, [], a) && isPong(a.msg) && a.at == 1
    ensures Reaches(isPong, o, window, r, u) && Lines(r) == [a] && Idle(u.state, 1)
    ensures u.marks == 1 && u.credits == 1 && u.timeouts == 0
  {
    r, u := StartPing(isPong, o, window);
    r, u := Answered(isPong, o, window, r, u, a);
    r, u := Noted(isPong, o, window, r, u);
  }

  /** A second ping is sent, its answer dropped, and it times out. */
  lemma SecondPing(isPong: string -> bool, o: W.PingOptions, window: int, js: seq<Step>, a: D.Arrival, t: Tally,
                   b: D.Arrival)
    returns (r: seq<Step>, u: Tally)
    requires Reaches(isPong, o, window, js, t) && Lines(js) == [a] && Idle(t.state, 1)
    requires a.at == 1 && b.at == 1 && !LetsThrough(window, [a], b)
    ensures Reaches(isPong, o, window, r, u) && Lines(r) == [a] + [b]
    ensures u.marks == t.marks + 1 && u.credits == t.credits && u.timeouts == t.timeouts + 1
  {
    r, u := Ping(isPong, o, window, js, t, 1);
    r := Miss(isPong, o, window, r, u, b);
    r, u := TimeOut(isPong, o, window, r, u, 1 + o.Timeout());
  }

  lemma TwoAnswers(window: int, first: string, second: string)
    requires window > 0 && PongReply(first) && PongReply(second)
    ensures LetsThrough(window, [], D.Arrive(first, 1))
    ensures !LetsThrough(window, [D.Arrive(first, 1)], D.Arrive(second, 1))
  {
    PongReplyKey(first);
    PongReplyKey(second);
    assert D.Exec(window, [D.Arrive(first, 1)], 1) == map[PONG_KEY := 1];
  }

  /**
   Two pings are sent and both are answered; the second answer comes less than a window after the
   first and is dropped by the debouncer, and its ping times out.
   */
  lemma DroppedAnswerTimesOut(isPong: string -> bool, o: W.PingOptions, window: int, first: string, second: string)
    returns (js: seq<Step>)
    requires window > 0 && PongReply(first) && isPong(first) && PongReply(second) && isPong(second)
    ensures Legal(isPong, o, window, 0, js) && Lines(js) == [D.Arrive(first, 1)] + [D.Arrive(second, 1)]
    ensures var es := Watchdog(isPong, window, js);
            W.Marks(es) == 2 && W.Credits(o, 0, es) == 1 && W.Timeouts(es) == 1
  {
    TwoAnswers(window, first, second);
    var a, b := D.Arrive(first, 1), D.Arrive(second, 1);
    js := FirstThenSecond(isPong, o, window, a, b);
  }

  lemma FirstThenSecond(isPong: string -> bool, o: W.PingOptions, window: int, a: D.Arrival, b: D.Arrival)
    returns (js: seq<Step>)
    requires LetsThrough(window, [], a) && isPong(a.msg) && !LetsThrough(window, [a], b) && a.at == b.at == 1
    ensures Legal(isPong, o, window, 0, js) && Lines(js) == [a] + [b]
    ensures var es := Watchdog(isPong, window, js);
            W.Marks(es) == 2 && W.Credits(o, 0, es) == 1 && W.Timeouts(es) == 1
  {
    var t;
    js, t := FirstPing(isPong, o, window, a);
    js, t := SecondPing(isPong, o, window, js, a, t, b);
  }
}
