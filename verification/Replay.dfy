/**
 The life of a reading while the broker refuses (rflink/publisher.go). The publish loop handles one
 line after the other; flushes take the buffer and publish what they took at the same time. A run
 is any interleaving of the messages that the broker takes with the lock sections. Next to each
 reading the machine keeps what the code does not: how often it was put back, how long it was
 outside the buffer, the latest reception per key and the last message per topic.

 There is an MQTT client; without one the publish loop does nothing.
 */
module Replay {
  import opened Wrappers
  import opened SensorMessages
  import opened PendingBuffer
  import P = Publisher

  /** away is the time from reception to the first store, and from each taking to the store after it. */
  datatype Entry = Entry(sd: SensorData, storedAt: int, puts: nat, away: int)

  /** A reading that a flush has taken; sent are the fields of it that the broker has taken since. */
  datatype Held = Held(entry: Entry, takenAt: int, sent: set<string>)

  /** The record that the publish loop is publishing. */
  datatype Open = Open(record: SensorData, sent: set<string>)

  datatype Topic = Topic(key: string, field: string)

  type Entries = map<string, Entry>

  /**
   received is the reception of the last line. latest is, for each key, that of the latest reading
   whose publishing the loop has ended; shown, for each topic, that of the last message on it.
   */
  datatype State = State(
    buffer: Entries,
    hand: multiset<Held>,
    line: Option<Open>,
    received: int,
    clock: int,
    latest: map<string, int>,
    shown: map<Topic, int>)

  const START := State(map[], multiset{}, None, 0, 0, map[], map[])

  /**
   Receive is the publish loop parsing a line, Send a message of it that the broker takes, and
   Handle the end of its publishing. Take is the lock section of a flush; SendHeld and Replay are
   Send and Handle for a reading that it has in hand. The publishing of a record was accepted if
   the broker took all its messages; else it ended with the first one refused.
   */
  datatype Step =
    | Receive(line: string, at: int)
    | Send(field: string, at: int)
    | Handle(at: int)
    | Take(at: int)
    | SendHeld(held: Held, field: string, at: int)
    | Replay(held: Held, at: int)

  /** What the code holds. */
  function Plain(b: Entries): Buffer {
    map k | k in b :: Item(b[k].sd, b[k].storedAt)
  }

  /** The key under which a record is buffered, and the topic segment it is published under. */
  function KeyOf(o: P.PublishOptions, record: SensorData): string {
    P.Prepared(o, record).TopicID()
  }

  const SUM := "sumJson"

  /** The fields of a record, and the summary that comes last. */
  function Messages(o: P.PublishOptions, record: SensorData): set<string> {
    FieldsFor(P.Prepared(o, record), o.tempUnit).Keys + {SUM}
  }

  predicate MaySend(all: set<string>, sent: set<string>, field: string) {
    field in all && field !in sent && (field == SUM ==> sent == all - {SUM})
  }

  predicate Enabled(o: P.PublishOptions, s: State, e: Step) {
    && s.clock <= e.at
    && match e
       case Receive(line, at) => s.line.None? && Parsed(line, at).Ok?
       case Send(field, _) =>
         && s.line.Some? && !P.IsIgnored(o, s.line.value.record)
         && MaySend(Messages(o, s.line.value.record), s.line.value.sent, field)
       case Handle(_) => s.line.Some?
       case Take(_) => o.pendingTTL > 0
       case SendHeld(held, field, _) =>
         && held in s.hand && !P.IsIgnored(o, held.entry.sd)
         && MaySend(Messages(o, held.entry.sd), held.sent, field)
       case Replay(held, _) => held in s.hand
  }

  /** The section of the buffer at the end of publishing a record of which sent went out. */
  function EndSection(o: P.PublishOptions, record: SensorData, sent: set<string>, at: int): (r: seq<Event>)
    ensures |r| <= 1
  {
    P.SectionsIf(o, record, true, sent == Messages(o, record), at)
  }

  /** The section of the buffer that the step goes through, if any. */
  function Section(o: P.PublishOptions, s: State, e: Step): (r: seq<Event>)
    ensures |r| <= 1
  {
    match e
    case Handle(at) => if s.line.Some? then EndSection(o, s.line.value.record, s.line.value.sent, at) else []
    case Take(at) => [Flush(at)]
    case Replay(held, at) => EndSection(o, held.entry.sd, held.sent, at)
    case _ => []
  }

  /** A section on the kept readings; one that it stores has been put back and away as given. */
  function Enter(b: Entries, section: seq<Event>, puts: nat, away: int): Entries {
    if section == [] then b else
    match section[0]
    case Store(key, sd, at) => b[key := Entry(sd, at, puts, away)]
    case Clear(key) => b - {key}
    case Flush(_) => map[]
  }

  /** What a flush takes: the fresh readings, which differ as their keys do. */
  function Fetched(ttl: int, b: Entries, at: int): set<Held> {
    set k | k in b && Fresh(ttl, Item(b[k].sd, b[k].storedAt), at) :: Held(b[k], at, {})
  }

  /** The publish loop has ended the publishing of a record. */
  function EndLine(s: State, record: SensorData, section: seq<Event>, latest: map<string, int>, at: int): State {
    s.(buffer := Enter(s.buffer, section, 0, at - record.receivedAt), line := None, clock := at, latest := latest)
  }

  /** A flush has ended the publishing of a reading. */
  function EndHeld(s: State, held: Held, section: seq<Event>, at: int): State {
    s.(buffer := Enter(s.buffer, section, held.entry.puts + 1, held.entry.away + at - held.takenAt),
       hand := s.hand - multiset{held}, clock := at)
  }

  /** The latest receptions once the loop has ended the publishing of the record, if that is a reading. */
  function Newest(o: P.PublishOptions, latest: map<string, int>, record: SensorData): map<string, int> {
    if P.IsIgnored(o, record) || !P.HasReading(record) then latest else latest[KeyOf(o, record) := record.receivedAt]
  }

  /** The state after a possible step. */
  function Next(o: P.PublishOptions, s: State, e: Step): State
    requires Enabled(o, s, e)
  {
    match e
    case Receive(line, at) => s.(line := Some(Open(Parsed(line, at).value, {})), received := at, clock := at)
    case Send(field, at) =>
      var x := s.line.value;
      s.(line := Some(Open(x.record, x.sent + {field})), clock := at,
         shown := s.shown[Topic(KeyOf(o, x.record), field) := x.record.receivedAt])
    case Handle(at) => EndLine(s, s.line.value.record, Section(o, s, e), Newest(o, s.latest, s.line.value.record), at)
    case Take(at) =>
      s.(buffer := map[], hand := s.hand + multiset(Fetched(o.pendingTTL, s.buffer, at)), clock := at)
    case SendHeld(held, field, at) =>
      s.(hand := s.hand - multiset{held} + multiset{held.(sent := held.sent + {field})}, clock := at,
         shown := s.shown[Topic(KeyOf(o, held.entry.sd), field) := held.entry.sd.receivedAt])
    case Replay(held, at) => EndHeld(s, held, Section(o, s, e), at)
  }

  /** The state after the steps es, or None when es is not a possible interleaving. */
  function Exec(o: P.PublishOptions, es: seq<Step>): Option<State> {
    if es == [] then Some(START) else
    var before := Exec(o, es[..|es| - 1]);
    if before.Some? && Enabled(o, before.value, es[|es| - 1]) then Some(Next(o, before.value, es[|es| - 1])) else None
  }

  /** The sections of the whole run. */
  function Trace(o: P.PublishOptions, es: seq<Step>): seq<Event> {
    if es == [] then [] else
    var before := Exec(o, es[..|es| - 1]);
    Trace(o, es[..|es| - 1]) + if before.Some? then Section(o, before.value, es[|es| - 1]) else []
  }

  lemma EnterIsApply(b: Entries, section: seq<Event>, puts: nat, away: int)
    requires |section| <= 1
    ensures Plain(Enter(b, section, puts, away)) == RunFrom(Plain(b), section)
  {
    if section != [] {
      assert section == [section[0]] && section[..0] == [];
      assert RunFrom(Plain(b), section) == Apply(Plain(b), section[0]);
    }
  }

  lemma EndLineIsItsSection(s: State, record: SensorData, section: seq<Event>, latest: map<string, int>, at: int)
    requires |section| <= 1
    ensures Plain(EndLine(s, record, section, latest, at).buffer) == RunFrom(Plain(s.buffer), section)
  {
    EnterIsApply(s.buffer, section, 0, at - record.receivedAt);
  }

  lemma EndHeldIsItsSection(s: State, held: Held, section: seq<Event>, at: int)
    requires |section| <= 1
    ensures Plain(EndHeld(s, held, section, at).buffer) == RunFrom(Plain(s.buffer), section)
  {
    EnterIsApply(s.buffer, section, held.entry.puts + 1, held.entry.away + at - held.takenAt);
  }

  lemma StepIsItsSection(o: P.PublishOptions, s: State, e: Step)
    requires Enabled(o, s, e)
    ensures Plain(Next(o, s, e).buffer) == RunFrom(Plain(s.buffer), Section(o, s, e))
  {
    match e
    case Handle(at) =>
      var record := s.line.value.record;
      EndLineIsItsSection(s, record, Section(o, s, e), Newest(o, s.latest, record), at);
    case Replay(held, at) => EndHeldIsItsSection(s, held, Section(o, s, e), at);
    case Take(at) => EnterIsApply(s.buffer, [Flush(at)], 0, 0);
    case _ => EnterIsApply(s.buffer, [], 0, 0);
  }

  /**
   The machine holds what the code holds after the same sections, and its flushes take what the
   code's do, so the ledger of the pending buffer is that of the run.
   */
  lemma {:induction false} BufferFollowsTheSections(o: P.PublishOptions, es: seq<Step>)
    requires Exec(o, es).Some?
    ensures Plain(Exec(o, es).value.buffer) == RunFrom(map[], Trace(o, es))
  {
    if es == [] {
    } else {
      var s, e := Exec(o, es[..|es| - 1]).value, es[|es| - 1];
      BufferFollowsTheSections(o, es[..|es| - 1]);
      RunFromConcat(map[], Trace(o, es[..|es| - 1]), Section(o, s, e));
      StepIsItsSection(o, s, e);
    }
  }

  // ----- What every interleaving keeps -----

  /** n * ttl, as n additions that keep the proofs linear. */
  function Times(n: nat, ttl: int): int {
    if n == 0 then 0 else Times(n - 1, ttl) + ttl
  }

  lemma {:induction false} TimesIsProduct(n: nat, ttl: int)
    ensures Times(n, ttl) == n * ttl
  {
    if n == 0 {
    } else {
      TimesIsProduct(n - 1, ttl);
      assert n * ttl == (n - 1) * ttl + ttl;
    }
  }

  /** A kept reading was received by then and stored no later than the bound allows. */
  predicate Sound(ttl: int, x: Entry, received: int) {
    && ttl > 0 && P.HasReading(x.sd) && x.sd.receivedAt <= received
    && x.storedAt <= x.sd.receivedAt + x.away + Times(x.puts, ttl)
    && (x.puts == 0 ==> x.storedAt == x.sd.receivedAt + x.away)
  }

  predicate SoundInHand(ttl: int, h: Held, received: int) {
    Sound(ttl, h.entry, received) && h.takenAt <= h.entry.storedAt + ttl
  }

  ghost predicate AllSound(ttl: int, b: Entries, received: int) {
    forall k :: k in b ==> Sound(ttl, b[k], received)
  }

  ghost predicate AtMost<K>(m: map<K, int>, bound: int) {
    forall k :: k in m ==> m[k] <= bound
  }

  ghost predicate Invariant(ttl: int, s: State) {
    && s.received <= s.clock
    && (s.line.Some? ==> s.line.value.record.receivedAt == s.received)
    && AllSound(ttl, s.buffer, s.received)
    && (forall h :: h in s.hand ==> SoundInHand(ttl, h, s.received))
    && AtMost(s.latest, s.received)
    && AtMost(s.shown, s.received)
  }

  /** If the section stores, it stores the record up to its names and events. */
  predicate KeepsReading(ttl: int, section: seq<Event>, record: SensorData, at: int) {
    section != [] && section[0].Store? ==>
      ttl > 0 && section[0].at == at && section[0].sd.receivedAt == record.receivedAt && P.HasReading(section[0].sd)
  }

  lemma EndKeepsReading(o: P.PublishOptions, record: SensorData, sent: set<string>, at: int)
    ensures KeepsReading(o.pendingTTL, EndSection(o, record, sent, at), record, at)
  {}

  lemma ParsedWhenReceived(line: string, at: int)
    requires Parsed(line, at).Ok?
    ensures Parsed(line, at).value.receivedAt == at && Parsed(line, at).value.friendlyName == ""
  {
    RecordOfALine(line, at);
  }

  lemma ReceiveKeeps(o: P.PublishOptions, s: State, e: Step)
    requires Invariant(o.pendingTTL, s) && e.Receive? && Enabled(o, s, e)
    ensures Invariant(o.pendingTTL, Next(o, s, e))
  {
    ParsedWhenReceived(e.line, e.at);
  }

  lemma SendKeeps(o: P.PublishOptions, s: State, e: Step)
    requires Invariant(o.pendingTTL, s) && e.Send? && Enabled(o, s, e)
    ensures Invariant(o.pendingTTL, Next(o, s, e))
  {}

  lemma SendHeldKeeps(o: P.PublishOptions, s: State, e: Step)
    requires Invariant(o.pendingTTL, s) && e.SendHeld? && Enabled(o, s, e)
    ensures Invariant(o.pendingTTL, Next(o, s, e))
  {
    assert SoundInHand(o.pendingTTL, e.held, s.received);
  }

  lemma EndLineKeeps(ttl: int, s: State, section: seq<Event>, latest: map<string, int>, at: int)
    requires Invariant(ttl, s) && s.line.Some? && s.clock <= at
    requires KeepsReading(ttl, section, s.line.value.record, at) && AtMost(latest, s.received)
    ensures Invariant(ttl, EndLine(s, s.line.value.record, section, latest, at))
  {}

  lemma HandleKeeps(o: P.PublishOptions, s: State, e: Step)
    requires Invariant(o.pendingTTL, s) && e.Handle? && Enabled(o, s, e)
    ensures Invariant(o.pendingTTL, Next(o, s, e))
  {
    var x := s.line.value;
    EndKeepsReading(o, x.record, x.sent, e.at);
    EndLineKeeps(o.pendingTTL, s, EndSection(o, x.record, x.sent, e.at), Newest(o, s.latest, x.record), e.at);
  }

  lemma TakeKeeps(o: P.PublishOptions, s: State, e: Step)
    requires Invariant(o.pendingTTL, s) && e.Take? && Enabled(o, s, e)
    ensures Invariant(o.pendingTTL, Next(o, s, e))
  {
    var fetched := Fetched(o.pendingTTL, s.buffer, e.at);
    forall h | h in fetched ensures SoundInHand(o.pendingTTL, h, s.received) {
      var k :| k in s.buffer && h == Held(s.buffer[k], e.at, {})
               && Fresh(o.pendingTTL, Item(s.buffer[k].sd, s.buffer[k].storedAt), e.at);
    }
  }

  lemma PutBackIsSound(ttl: int, h: Held, received: int, sd: SensorData, at: int)
    requires SoundInHand(ttl, h, received) && sd.receivedAt == h.entry.sd.receivedAt && P.HasReading(sd)
    ensures Sound(ttl, Entry(sd, at, h.entry.puts + 1, h.entry.away + at - h.takenAt), received)
  {}

  lemma EndHeldKeeps(ttl: int, s: State, held: Held, section: seq<Event>, at: int)
    requires Invariant(ttl, s) && held in s.hand && s.clock <= at && KeepsReading(ttl, section, held.entry.sd, at)
    ensures Invariant(ttl, EndHeld(s, held, section, at))
  {
    if section != [] && section[0].Store? {
      PutBackIsSound(ttl, held, s.received, section[0].sd, at);
    }
  }

  lemma ReplayKeeps(o: P.PublishOptions, s: State, e: Step)
    requires Invariant(o.pendingTTL, s) && e.Replay? && Enabled(o, s, e)
    ensures Invariant(o.pendingTTL, Next(o, s, e))
  {
    EndKeepsReading(o, e.held.entry.sd, e.held.sent, e.at);
    EndHeldKeeps(o.pendingTTL, s, e.held, EndSection(o, e.held.entry.sd, e.held.sent, e.at), e.at);
  }

  lemma StepKeeps(o: P.PublishOptions, s: State, e: Step)
    requires Invariant(o.pendingTTL, s) && Enabled(o, s, e)
    ensures Invariant(o.pendingTTL, Next(o, s, e))
  {
    match e
    case Receive(_, _) => ReceiveKeeps(o, s, e);
    case Handle(_) => HandleKeeps(o, s, e);
    case Take(_) => TakeKeeps(o, s, e);
    case Replay(_, _) => ReplayKeeps(o, s, e);
    case Send(_, _) => SendKeeps(o, s, e);
    case SendHeld(_, _, _) => SendHeldKeeps(o, s, e);
  }

  lemma {:induction false} RunKeeps(o: P.PublishOptions, es: seq<Step>)
    requires Exec(o, es).Some?
    ensures Invariant(o.pendingTTL, Exec(o, es).value)
  {
    if es == [] {
    } else {
      RunKeeps(o, es[..|es| - 1]);
      StepKeeps(o, Exec(o, es[..|es| - 1]).value, es[|es| - 1]);
    }
  }

  // ----- How late a reading is taken -----

  /**
   The TTL does not count from reception: in every interleaving a reading that was put back puts
   times is taken at most (puts + 1) * TTL, plus its time outside the buffer, after reception. So
   apart from that time only a reading that was put back is taken later than TTL.
   */
  lemma TakenLateOnlyAfterPutBack(o: P.PublishOptions, es: seq<Step>, h: Held)
    requires Exec(o, es).Some? && h in Exec(o, es).value.hand
    ensures InTime(h, o.pendingTTL, Times(h.entry.puts + 1, o.pendingTTL))
  {
    RunKeeps(o, es);
    TakenInTime(o.pendingTTL, h, Exec(o, es).value.received);
  }

  /** Taken at most bound after reception, not counting the time outside, and after ttl only when put back. */
  predicate InTime(h: Held, ttl: int, bound: int) {
    var received := h.entry.sd.receivedAt + h.entry.away;
    h.takenAt <= received + bound && (h.takenAt > received + ttl ==> h.entry.puts > 0)
  }

  lemma TakenInTime(ttl: int, h: Held, received: int)
    requires SoundInHand(ttl, h, received)
    ensures InTime(h, ttl, Times(h.entry.puts + 1, ttl))
  {}

  // ----- What a kept reading publishes -----

  /** x carries the readings and extras of the record r and none of its events. */
  predicate ReadsAs(x: SensorData, r: SensorData) {
    && x.temperature == r.temperature && x.tempRaw == r.tempRaw && x.humidity == r.humidity && x.bat == r.bat
    && x.extra == r.extra && x.model == r.model && x.id == r.id && x.receivedAt == r.receivedAt
    && x.cmd == "" && x.switch == ""
  }

  /** The records of the serial lines that the run has received. */
  function Records(es: seq<Step>): set<SensorData> {
    if es == [] then {} else
    Records(es[..|es| - 1]) + RecordOfStep(es[|es| - 1])
  }

  function RecordOfStep(e: Step): set<SensorData> {
    if e.Receive? && Parsed(e.line, e.at).Ok? then {Parsed(e.line, e.at).value} else {}
  }

  lemma {:induction false} RecordsAreReceived(es: seq<Step>, r: SensorData)
    ensures r in Records(es) <==> exists i :: 0 <= i < |es| && r in RecordOfStep(es[i])
  {
    if es == [] {
    } else {
      RecordsAreReceived(es[..|es| - 1], r);
      assert forall i :: 0 <= i < |es| - 1 ==> es[..|es| - 1][i] == es[i];
    }
  }

  /** x carries the readings of one of the records. */
  ghost predicate FromLine(rs: set<SensorData>, x: SensorData) {
    exists r :: r in rs && ReadsAs(x, r)
  }

  ghost predicate BufferFromLines(rs: set<SensorData>, b: Entries) {
    forall k :: k in b ==> FromLine(rs, b[k].sd)
  }

  ghost predicate HandFromLines(rs: set<SensorData>, hand: multiset<Held>) {
    forall h :: h in hand ==> FromLine(rs, h.entry.sd)
  }

  ghost predicate AllFromLines(rs: set<SensorData>, s: State) {
    && (s.line.Some? ==> s.line.value.record in rs)
    && BufferFromLines(rs, s.buffer) && HandFromLines(rs, s.hand)
  }

  lemma MoreLines(rs: set<SensorData>, more: set<SensorData>, s: State)
    requires AllFromLines(rs, s) && rs <= more
    ensures AllFromLines(more, s)
  {}

  /** If the end of a publish stores anything, it stores the record's readings. */
  predicate StoresReadings(section: seq<Event>, record: SensorData) {
    section != [] && section[0].Store? ==> ReadsAs(section[0].sd, record)
  }

  lemma EndStoresReadings(o: P.PublishOptions, record: SensorData, sent: set<string>, at: int)
    ensures StoresReadings(EndSection(o, record, sent, at), record)
  {
    StripKeepsReadings(P.Prepared(o, record), o.tempUnit);
  }

  lemma ReadsOn(x: SensorData, y: SensorData, r: SensorData)
    requires ReadsAs(x, y) && ReadsAs(y, r)
    ensures ReadsAs(x, r)
  {}

  lemma EnterFromLines(rs: set<SensorData>, b: Entries, section: seq<Event>, record: SensorData, puts: nat, away: int)
    requires BufferFromLines(rs, b) && StoresReadings(section, record) && (record in rs || FromLine(rs, record))
    ensures BufferFromLines(rs, Enter(b, section, puts, away))
  {
    if section != [] && section[0].Store? {
      if record !in rs {
        var r :| r in rs && ReadsAs(record, r);
        ReadsOn(section[0].sd, record, r);
      }
      assert FromLine(rs, section[0].sd);
    }
  }

  lemma HandleFromLines(o: P.PublishOptions, rs: set<SensorData>, s: State, e: Step)
    requires Enabled(o, s, e) && e.Handle? && AllFromLines(rs, s)
    ensures AllFromLines(rs, Next(o, s, e))
  {
    var x := s.line.value;
    EndStoresReadings(o, x.record, x.sent, e.at);
    EnterFromLines(rs, s.buffer, Section(o, s, e), x.record, 0, e.at - x.record.receivedAt);
  }

  lemma ReplayFromLines(o: P.PublishOptions, rs: set<SensorData>, s: State, e: Step)
    requires Enabled(o, s, e) && e.Replay? && AllFromLines(rs, s)
    ensures AllFromLines(rs, Next(o, s, e))
  {
    var h := e.held;
    EndStoresReadings(o, h.entry.sd, h.sent, e.at);
    EnterFromLines(rs, s.buffer, Section(o, s, e), h.entry.sd, h.entry.puts + 1, h.entry.away + e.at - h.takenAt);
  }

  lemma TakeFromLines(o: P.PublishOptions, rs: set<SensorData>, s: State, e: Step)
    requires Enabled(o, s, e) && e.Take? && AllFromLines(rs, s)
    ensures AllFromLines(rs, Next(o, s, e))
  {}

  lemma OtherFromLines(o: P.PublishOptions, rs: set<SensorData>, s: State, e: Step)
    requires Enabled(o, s, e) && !e.Handle? && !e.Replay? && !e.Take? && AllFromLines(rs, s) && RecordOfStep(e) <= rs
    ensures AllFromLines(rs, Next(o, s, e))
  {}

  lemma StepFromLines(o: P.PublishOptions, rs: set<SensorData>, s: State, e: Step)
    requires Enabled(o, s, e) && AllFromLines(rs, s) && RecordOfStep(e) <= rs
    ensures AllFromLines(rs, Next(o, s, e))
  {
    if e.Handle? {
      HandleFromLines(o, rs, s, e);
    } else if e.Replay? {
      ReplayFromLines(o, rs, s, e);
    } else if e.Take? {
      TakeFromLines(o, rs, s, e);
    } else {
      OtherFromLines(o, rs, s, e);
    }
  }

  /**
   In every interleaving each reading that is buffered or in hand carries exactly the readings and
   extras of the serial line that was received at its reception, however often it was put back.
   */
  lemma {:induction false} EveryReadingIsItsLine(o: P.PublishOptions, es: seq<Step>)
    requires Exec(o, es).Some?
    ensures AllFromLines(Records(es), Exec(o, es).value)
  {
    if es == [] {
    } else {
      var pre, e := es[..|es| - 1], es[|es| - 1];
      EveryReadingIsItsLine(o, pre);
      MoreLines(Records(pre), Records(es), Exec(o, pre).value);
      StepFromLines(o, Records(es), Exec(o, pre).value, e);
    }
  }

  /** And this is what its replay publishes. */
  lemma ReplayPublishesTheLine(o: P.PublishOptions, x: SensorData, r: SensorData)
    requires ReadsAs(x, r)
    ensures FieldsFor(P.Prepared(o, x), o.tempUnit) == Readings(r, o.tempUnit) + ExtraFields(r.extra)
  {
    var sd := P.Prepared(o, x);
    assert Events(sd) == map[];
    assert Readings(sd, o.tempUnit) == Readings(r, o.tempUnit);
    assert Readings(sd, o.tempUnit) + map[] == Readings(sd, o.tempUnit);
  }

  // ----- When the buffer holds an older reading than the latest -----

  /** Under the key is a reading older than the latest one that the publish loop has ended. */
  predicate Stale(s: State, key: string) {
    key in s.buffer && key in s.latest && s.buffer[key].sd.receivedAt < s.latest[key]
  }

  /** The section stores or clears the key, or empties the buffer. */
  predicate Touches(section: seq<Event>, key: string) {
    section != [] && (section[0].Flush? || section[0].key == key)
  }

  /** A refused replay ends whose reading is older than the latest reception of its key. */
  predicate PutsBackOlder(o: P.PublishOptions, s: State, e: Step, key: string) {
    && e.Replay? && !P.IsIgnored(o, e.held.entry.sd) && e.held.sent != Messages(o, e.held.entry.sd)
    && key == KeyOf(o, e.held.entry.sd) && key in s.latest && e.held.entry.sd.receivedAt < s.latest[key]
  }

  /** What the section does for a record with this key and reception: clear, store or nothing. */
  predicate EndsAs(section: seq<Event>, clears: bool, stores: bool, key: string, received: int, at: int) {
    if clears then section == [Clear(key)]
    else if stores then
      && |section| == 1 && section[0].Store? && section[0].key == key && section[0].at == at
      && section[0].sd.receivedAt == received
    else section == []
  }

  /** An accepted record clears its key, a refused one is stored if it has a reading. */
  lemma EndShape(o: P.PublishOptions, record: SensorData, sent: set<string>, at: int)
    ensures var sends, accepted := !P.IsIgnored(o, record), sent == Messages(o, record);
            EndsAs(EndSection(o, record, sent, at), sends && accepted,
                   sends && !accepted && o.pendingTTL > 0 && P.HasReading(record),
                   KeyOf(o, record), record.receivedAt, at)
  {}

  lemma LineEndIsFresh(ttl: int, s: State, record: SensorData, section: seq<Event>, clears: bool, stores: bool,
                       latest: map<string, int>, own: string, at: int, key: string)
    requires AllSound(ttl, s.buffer, s.received)
    requires EndsAs(section, clears, stores, own, record.receivedAt, at)
    requires latest == s.latest || (latest == s.latest[own := record.receivedAt] && (clears || stores || ttl <= 0))
    requires stores ==> latest == s.latest[own := record.receivedAt]
    ensures Stale(EndLine(s, record, section, latest, at), key) <==> Stale(s, key) && !Touches(section, key)
  {
    assert key in s.buffer ==> Sound(ttl, s.buffer[key], s.received);
  }

  lemma HandleIsFresh(o: P.PublishOptions, s: State, e: Step, key: string)
    requires Invariant(o.pendingTTL, s) && e.Handle? && Enabled(o, s, e)
    ensures Stale(Next(o, s, e), key) <==> Stale(s, key) && !Touches(Section(o, s, e), key)
  {
    var x := s.line.value;
    var section, sends, accepted := Section(o, s, e), !P.IsIgnored(o, x.record), x.sent == Messages(o, x.record);
    var stores := sends && !accepted && o.pendingTTL > 0 && P.HasReading(x.record);
    var latest, own := Newest(o, s.latest, x.record), KeyOf(o, x.record);
    EndShape(o, x.record, x.sent, e.at);
    LineEndIsFresh(o.pendingTTL, s, x.record, section, sends && accepted, stores, latest, own, e.at, key);
  }

  lemma HeldEndIsStaleIff(s: State, held: Held, section: seq<Event>, clears: bool, stores: bool,
                          own: string, at: int, key: string)
    requires EndsAs(section, clears, stores, own, held.entry.sd.receivedAt, at) && !(clears && stores)
    ensures Stale(EndHeld(s, held, section, at), key) <==>
            || (stores && key == own && key in s.latest && held.entry.sd.receivedAt < s.latest[key])
            || (Stale(s, key) && !Touches(section, key))
  {}

  lemma ReplayIsStaleIff(o: P.PublishOptions, s: State, e: Step, key: string)
    requires Invariant(o.pendingTTL, s) && e.Replay? && Enabled(o, s, e)
    ensures Stale(Next(o, s, e), key) <==>
            PutsBackOlder(o, s, e, key) || (Stale(s, key) && !Touches(Section(o, s, e), key))
  {
    var record := e.held.entry.sd;
    var sends, accepted := !P.IsIgnored(o, record), e.held.sent == Messages(o, record);
    assert SoundInHand(o.pendingTTL, e.held, s.received);
    EndShape(o, record, e.held.sent, e.at);
    HeldEndIsStaleIff(s, e.held, Section(o, s, e), sends && accepted, sends && !accepted, KeyOf(o, record), e.at, key);
  }

  /** One step: only a refused replay of an overtaken reading makes a key stale, and a key stays so until touched. */
  lemma StaleStep(o: P.PublishOptions, s: State, e: Step, key: string)
    requires Invariant(o.pendingTTL, s) && Enabled(o, s, e)
    ensures Stale(Next(o, s, e), key) <==>
            PutsBackOlder(o, s, e, key) || (Stale(s, key) && !Touches(Section(o, s, e), key))
  {
    if e.Handle? {
      HandleIsFresh(o, s, e, key);
    } else if e.Replay? {
      ReplayIsStaleIff(o, s, e, key);
    }
  }

  /** The last section of the run that touched the key was the end of a refused replay of an overtaken reading. */
  predicate LastPutBackOlder(o: P.PublishOptions, es: seq<Step>, key: string) {
    es != [] && Exec(o, es[..|es| - 1]).Some? &&
    var s, e := Exec(o, es[..|es| - 1]).value, es[|es| - 1];
    PutsBackOlder(o, s, e, key) || (!Touches(Section(o, s, e), key) && LastPutBackOlder(o, es[..|es| - 1], key))
  }

  /**
   After every interleaving the buffer holds, under a key, an older reading than the latest one that
   the publish loop has ended, exactly if the last section to touch the key ended a refused replay
   whose reading was older than the latest reception of its key at that moment. Whether the newer
   one was still in the buffer does not matter.
   */
  lemma {:induction false} BufferIsStaleIff(o: P.PublishOptions, es: seq<Step>, key: string)
    requires Exec(o, es).Some?
    ensures Stale(Exec(o, es).value, key) <==> LastPutBackOlder(o, es, key)
  {
    if es == [] {
    } else {
      var pre := es[..|es| - 1];
      BufferIsStaleIff(o, pre, key);
      RunKeeps(o, pre);
      StaleStep(o, Exec(o, pre).value, es[|es| - 1], key);
    }
  }

  // ----- When a message overtakes a newer one -----

  /** The step puts an older record on the topic than the last one there. */
  predicate Overtaken(s: State, t: State, topic: Topic) {
    topic in s.shown && topic in t.shown && t.shown[topic] < s.shown[topic]
  }

  /**
   In every interleaving, a step puts on a topic a message of an older record than the last one
   exactly if it is a message of a reading in hand that was received before the record last shown
   there. That holds of accepted and of refused replays; lines from the serial port never do so.
   */
  lemma OlderMessageIff(o: P.PublishOptions, es: seq<Step>, e: Step, topic: Topic)
    requires Exec(o, es).Some? && Enabled(o, Exec(o, es).value, e)
    ensures var s := Exec(o, es).value;
            Overtaken(s, Next(o, s, e), topic) <==>
            && e.SendHeld? && topic == Topic(KeyOf(o, e.held.entry.sd), e.field)
            && topic in s.shown && e.held.entry.sd.receivedAt < s.shown[topic]
  {
    RunKeeps(o, es);
    var s := Exec(o, es).value;
    if e.Send? && topic in s.shown {
      assert s.shown[topic] <= s.received == s.line.value.record.receivedAt;
    }
  }

  // ----- When a newer reading is lost -----

  /** The step ends the publishing of a record and makes the buffer forget a newer reading under key. */
  predicate ForgetsNewer(s: State, t: State, received: int, key: string) {
    && key in s.buffer && received < s.buffer[key].sd.receivedAt
    && (key !in t.buffer || t.buffer[key] != s.buffer[key])
  }

  /**
   In every interleaving, the end of a replay makes the buffer forget a newer reading than its own
   exactly if its key is in the buffer with a later reception: a refused replay overwrites the newer
   reading, an accepted one clears it unpublished.
   */
  lemma ReplayForgetsNewerIff(o: P.PublishOptions, es: seq<Step>, held: Held, at: int, key: string)
    requires Exec(o, es).Some? && Enabled(o, Exec(o, es).value, Replay(held, at))
    ensures var s, record := Exec(o, es).value, held.entry.sd;
            ForgetsNewer(s, Next(o, s, Replay(held, at)), record.receivedAt, key) <==>
            && !P.IsIgnored(o, record) && key == KeyOf(o, record)
            && key in s.buffer && record.receivedAt < s.buffer[key].sd.receivedAt
  {
    RunKeeps(o, es);
    var s, record := Exec(o, es).value, held.entry.sd;
    assert SoundInHand(o.pendingTTL, held, s.received);
    EndShape(o, record, held.sent, at);
    EndHeldForgets(s, held, EndSection(o, record, held.sent, at), !P.IsIgnored(o, record),
                   held.sent == Messages(o, record), KeyOf(o, record), at, key);
  }

  lemma EndHeldForgets(s: State, held: Held, section: seq<Event>, sends: bool, accepted: bool,
                       own: string, at: int, key: string)
    requires EndsAs(section, sends && accepted, sends && !accepted, own, held.entry.sd.receivedAt, at)
    ensures ForgetsNewer(s, EndHeld(s, held, section, at), held.entry.sd.receivedAt, key) <==>
            sends && key == own && key in s.buffer && held.entry.sd.receivedAt < s.buffer[key].sd.receivedAt
  {}

  /** The end of a line never does. */
  lemma LinesForgetNothingNewer(o: P.PublishOptions, es: seq<Step>, at: int, key: string)
    requires Exec(o, es).Some? && Enabled(o, Exec(o, es).value, Handle(at))
    ensures var s := Exec(o, es).value;
            !ForgetsNewer(s, Next(o, s, Handle(at)), s.line.value.record.receivedAt, key)
  {
    RunKeeps(o, es);
    var s := Exec(o, es).value;
    if key in s.buffer {
      assert Sound(o.pendingTTL, s.buffer[key], s.received);
    }
  }

  // ----- Runs in which it happens -----

  /** The record as it is buffered. */
  function Kept(o: P.PublishOptions, record: SensorData): SensorData {
    P.Prepared(o, record).StripEventFields()
  }

  /** A refused publish of the record stores it as kept. */
  ghost predicate StoredAs(o: P.PublishOptions, record: SensorData, kept: SensorData) {
    && o.pendingTTL > 0 && !P.IsIgnored(o, record) && P.HasReading(record)
    && kept == Kept(o, record) && KeyOf(o, record) == kept.TopicID()
  }

  /** When no name is mapped or ignored, every reading is stored so, and stored again as it is. */
  lemma ReadingsAreStored(o: P.PublishOptions, record: SensorData)
    requires o.pendingTTL > 0 && o.hwidMap == map[] && o.ignored == {} && P.HasReading(record)
    ensures StoredAs(o, record, Kept(o, record)) && StoredAs(o, Kept(o, record), Kept(o, record))
  {
    var kept := Kept(o, record);
    assert kept.friendlyName != "";
    assert P.Prepared(o, kept) == kept && kept.StripEventFields() == kept;
  }

  function EndEvent(kept: SensorData, accepted: bool, at: int): Event {
    if accepted then Clear(kept.TopicID()) else Store(kept.TopicID(), kept, at)
  }

  lemma EndOf(o: P.PublishOptions, record: SensorData, kept: SensorData, sent: set<string>, at: int)
    requires StoredAs(o, record, kept)
    ensures EndSection(o, record, sent, at) == [EndEvent(kept, sent == Messages(o, record), at)]
    ensures kept.receivedAt == record.receivedAt
  {}

  lemma Then(o: P.PublishOptions, es: seq<Step>, e: Step) returns (fs: seq<Step>)
    requires Exec(o, es).Some? && Enabled(o, Exec(o, es).value, e)
    ensures fs == es + [e] && Exec(o, fs) == Some(Next(o, Exec(o, es).value, e))
  {
    fs := es + [e];
    assert fs[..|es|] == es;
  }

  /** One reading in the buffer, received at 0 and put back puts times, the last time at the moment at. */
  predicate IsBuffered(s: State, kept: SensorData, puts: nat, at: int) {
    && s.buffer == map[kept.TopicID() := Entry(kept, at, puts, 0)] && s.hand == multiset{} && s.line.None?
    && s.clock == at
  }

  /** That reading, taken at the moment later. */
  predicate IsTaken(s: State, kept: SensorData, puts: nat, at: int, later: int) {
    && s.buffer == map[] && s.hand == multiset{Held(Entry(kept, at, puts, 0), later, {})} && s.line.None?
    && s.clock == later
  }

  /** A line is received and its publishing refused at once. */
  lemma RefuseLine(o: P.PublishOptions, es: seq<Step>, line: string, kept: SensorData, at: int) returns (fs: seq<Step>)
    requires Exec(o, es).Some? && Exec(o, es).value.line.None? && Exec(o, es).value.clock <= at
    requires Exec(o, es).value.buffer == map[]
    requires Parsed(line, at).Ok? && StoredAs(o, Parsed(line, at).value, kept)
    ensures fs == es + [Receive(line, at)] + [Handle(at)] && Exec(o, fs).Some?
    ensures var s, t := Exec(o, es).value, Exec(o, fs).value;
            && t.buffer == map[kept.TopicID() := Entry(kept, at, 0, 0)] && t.hand == s.hand && t.line.None?
            && t.clock == at && t.latest == s.latest[kept.TopicID() := at] && t.shown == s.shown
  {
    var record := Parsed(line, at).value;
    ParsedWhenReceived(line, at);
    EndOf(o, record, kept, {}, at);
    fs := Then(o, es, Receive(line, at));
    fs := Then(o, fs, Handle(at));
  }

  lemma TakeIt(o: P.PublishOptions, es: seq<Step>, kept: SensorData, puts: nat, at: int, later: int)
    returns (fs: seq<Step>)
    requires o.pendingTTL > 0 && at <= later <= at + o.pendingTTL
    requires Exec(o, es).Some? && IsBuffered(Exec(o, es).value, kept, puts, at)
    ensures fs == es + [Take(later)] && Exec(o, fs).Some? && IsTaken(Exec(o, fs).value, kept, puts, at, later)
    ensures Exec(o, fs).value.latest == Exec(o, es).value.latest && Exec(o, fs).value.shown == Exec(o, es).value.shown
  {
    var b := Exec(o, es).value.buffer;
    assert kept.TopicID() in b;
    assert Fetched(o.pendingTTL, b, later) == {Held(Entry(kept, at, puts, 0), later, {})};
    fs := Then(o, es, Take(later));
  }

  lemma PutBackOne(s: State, kept: SensorData, puts: nat, at: int, later: int)
    requires IsTaken(s, kept, puts, at, later)
    ensures var held := Held(Entry(kept, at, puts, 0), later, {});
            IsBuffered(EndHeld(s, held, [Store(kept.TopicID(), kept, later)], later), kept, puts + 1, later)
  {}

  lemma RefuseIt(o: P.PublishOptions, es: seq<Step>, kept: SensorData, puts: nat, at: int, later: int)
    returns (fs: seq<Step>)
    requires StoredAs(o, kept, kept) && Exec(o, es).Some? && IsTaken(Exec(o, es).value, kept, puts, at, later)
    ensures Exec(o, fs).Some? && IsBuffered(Exec(o, fs).value, kept, puts + 1, later)
  {
    EndOf(o, kept, kept, {}, later);
    PutBackOne(Exec(o, es).value, kept, puts, at, later);
    fs := Then(o, es, Replay(Held(Entry(kept, at, puts, 0), later, {}), later));
  }

  lemma {:induction false} RefusedEveryTTL(o: P.PublishOptions, line: string, kept: SensorData, n: nat)
    returns (es: seq<Step>)
    requires Parsed(line, 0).Ok? && StoredAs(o, Parsed(line, 0).value, kept) && StoredAs(o, kept, kept)
    ensures Exec(o, es).Some? && IsBuffered(Exec(o, es).value, kept, n, Times(n, o.pendingTTL))
  {
    if n == 0 {
      es := RefuseLine(o, [], line, kept, 0);
    } else {
      es := RefusedEveryTTL(o, line, kept, n - 1);
      es := TakeIt(o, es, kept, n - 1, Times(n - 1, o.pendingTTL), Times(n, o.pendingTTL));
      es := RefuseIt(o, es, kept, n - 1, Times(n - 1, o.pendingTTL), Times(n, o.pendingTTL));
    }
  }

  /**
   The bound is reached for every n and every line with a reading: received at 0 and refused n times
   when it is replayed, it is taken (n + 1) * TTL later.
   */
  lemma RefusedReplaysOutliveTTL(o: P.PublishOptions, line: string, n: nat) returns (es: seq<Step>, h: Held)
    requires o.pendingTTL > 0 && o.hwidMap == map[] && o.ignored == {}
    requires Parsed(line, 0).Ok? && P.HasReading(Parsed(line, 0).value)
    ensures Exec(o, es).Some? && h in Exec(o, es).value.hand
    ensures h.entry.sd.receivedAt == 0 && h.entry.puts == n && h.entry.away == 0
    ensures h.takenAt == Times(n + 1, o.pendingTTL)
  {
    var kept := Kept(o, Parsed(line, 0).value);
    ReadingsAreStored(o, Parsed(line, 0).value);
    ParsedWhenReceived(line, 0);
    es := RefusedEveryTTL(o, line, kept, n);
    es := TakeIt(o, es, kept, n, Times(n, o.pendingTTL), Times(n + 1, o.pendingTTL));
    h := Held(Entry(kept, Times(n, o.pendingTTL), n, 0), Times(n + 1, o.pendingTTL), {});
  }

  /** All but what the topics show is the same. */
  predicate SameBut(s: State, t: State) {
    t.buffer == s.buffer && t.received == s.received && t.clock == s.clock && t.latest == s.latest
  }

  /** The broker takes one more message of the line. */
  lemma SendOne(o: P.PublishOptions, es: seq<Step>, record: SensorData, all: set<string>, sent: set<string>,
                field: string)
    returns (fs: seq<Step>)
    requires Exec(o, es).Some? && Exec(o, es).value.line == Some(Open(record, sent)) && !P.IsIgnored(o, record)
    requires all == Messages(o, record) && MaySend(all, sent, field)
    ensures Exec(o, fs).Some? && SameBut(Exec(o, es).value, Exec(o, fs).value)
    ensures Exec(o, fs).value.hand == Exec(o, es).value.hand
    ensures Exec(o, fs).value.line == Some(Open(record, sent + {field}))
    ensures Exec(o, fs).value.shown == Exec(o, es).value.shown[Topic(KeyOf(o, record), field) := record.receivedAt]
  {
    fs := Then(o, es, Send(field, Exec(o, es).value.clock));
  }

  lemma SendAnother(o: P.PublishOptions, es: seq<Step>, record: SensorData, all: set<string>, fields: set<string>,
                    field: string)
    returns (fs: seq<Step>)
    requires Exec(o, es).Some? && Exec(o, es).value.line == Some(Open(record, fields - {field}))
    requires !P.IsIgnored(o, record) && all == Messages(o, record) && field in fields && fields <= all - {SUM}
    ensures Exec(o, fs).Some? && SameBut(Exec(o, es).value, Exec(o, fs).value)
    ensures Exec(o, fs).value.hand == Exec(o, es).value.hand
    ensures Exec(o, fs).value.line == Some(Open(record, fields))
  {
    assert fields - {field} + {field} == fields;
    fs := SendOne(o, es, record, all, fields - {field}, field);
  }

  /** The broker takes these fields of the line. */
  lemma {:induction false} SendFields(o: P.PublishOptions, es: seq<Step>, record: SensorData, all: set<string>,
                                      fields: set<string>)
    returns (fs: seq<Step>)
    requires Exec(o, es).Some? && Exec(o, es).value.line == Some(Open(record, {})) && !P.IsIgnored(o, record)
    requires all == Messages(o, record) && fields <= all - {SUM}
    ensures Exec(o, fs).Some? && SameBut(Exec(o, es).value, Exec(o, fs).value)
    ensures Exec(o, fs).value.hand == Exec(o, es).value.hand
    ensures Exec(o, fs).value.line == Some(Open(record, fields))
  {
    if fields == {} {
      fs := es;
    } else {
      var field :| field in fields;
      fs := SendFields(o, es, record, all, fields - {field});
      fs := SendAnother(o, fs, record, all, fields, field);
    }
  }

  /** It takes all messages of the line. */
  lemma SendAll(o: P.PublishOptions, es: seq<Step>, record: SensorData) returns (fs: seq<Step>)
    requires Exec(o, es).Some? && Exec(o, es).value.line == Some(Open(record, {})) && !P.IsIgnored(o, record)
    ensures Exec(o, fs).Some? && SameBut(Exec(o, es).value, Exec(o, fs).value)
    ensures Exec(o, fs).value.hand == Exec(o, es).value.hand
    ensures Exec(o, fs).value.line == Some(Open(record, Messages(o, record)))
    ensures var shown := Exec(o, fs).value.shown;
            var sum := Topic(KeyOf(o, record), SUM); sum in shown && shown[sum] == record.receivedAt
  {
    var all := Messages(o, record);
    fs := SendFields(o, es, record, all, all - {SUM});
    fs := SendOne(o, fs, record, all, all - {SUM}, SUM);
    assert all - {SUM} + {SUM} == all;
  }

  lemma SendOneHeld(o: P.PublishOptions, es: seq<Step>, held: Held, field: string) returns (fs: seq<Step>)
    requires Exec(o, es).Some? && Exec(o, es).value.hand == multiset{held} && !P.IsIgnored(o, held.entry.sd)
    requires MaySend(Messages(o, held.entry.sd), held.sent, field)
    ensures Exec(o, fs).Some? && SameBut(Exec(o, es).value, Exec(o, fs).value)
    ensures Exec(o, fs).value.line == Exec(o, es).value.line
    ensures Exec(o, fs).value.hand == multiset{held.(sent := held.sent + {field})}
    ensures Exec(o, fs).value.shown ==
            Exec(o, es).value.shown[Topic(KeyOf(o, held.entry.sd), field) := held.entry.sd.receivedAt]
  {
    fs := Then(o, es, SendHeld(held, field, Exec(o, es).value.clock));
  }

  lemma {:induction false} SendFieldsHeld(o: P.PublishOptions, es: seq<Step>, entry: Entry, takenAt: int,
                                          fields: set<string>)
    returns (fs: seq<Step>)
    requires Exec(o, es).Some? && Exec(o, es).value.hand == multiset{Held(entry, takenAt, {})}
    requires !P.IsIgnored(o, entry.sd) && fields <= Messages(o, entry.sd) - {SUM}
    ensures Exec(o, fs).Some? && SameBut(Exec(o, es).value, Exec(o, fs).value)
    ensures Exec(o, fs).value.line == Exec(o, es).value.line
    ensures Exec(o, fs).value.hand == multiset{Held(entry, takenAt, fields)}
  {
    if fields == {} {
      fs := es;
    } else {
      var field :| field in fields;
      fs := SendFieldsHeld(o, es, entry, takenAt, fields - {field});
      fs := SendOneHeld(o, fs, Held(entry, takenAt, fields - {field}), field);
      assert fields - {field} + {field} == fields;
    }
  }

  /** The same for the only reading in hand. */
  lemma SendAllHeld(o: P.PublishOptions, es: seq<Step>, entry: Entry, takenAt: int) returns (fs: seq<Step>)
    requires Exec(o, es).Some? && Exec(o, es).value.hand == multiset{Held(entry, takenAt, {})}
    requires !P.IsIgnored(o, entry.sd)
    ensures Exec(o, fs).Some? && SameBut(Exec(o, es).value, Exec(o, fs).value)
    ensures Exec(o, fs).value.line == Exec(o, es).value.line
    ensures Exec(o, fs).value.hand == multiset{Held(entry, takenAt, Messages(o, entry.sd))}
    ensures var shown := Exec(o, fs).value.shown;
            var sum := Topic(KeyOf(o, entry.sd), SUM); sum in shown && shown[sum] == entry.sd.receivedAt
  {
    var all := Messages(o, entry.sd);
    fs := SendFieldsHeld(o, es, entry, takenAt, all - {SUM});
    fs := SendOneHeld(o, fs, Held(entry, takenAt, all - {SUM}), SUM);
    assert all - {SUM} + {SUM} == all;
  }

  /** A line is received and published. */
  lemma AcceptLine(o: P.PublishOptions, es: seq<Step>, line: string, kept: SensorData, at: int) returns (fs: seq<Step>)
    requires Exec(o, es).Some? && Exec(o, es).value.line.None? && Exec(o, es).value.clock <= at
    requires Exec(o, es).value.buffer == map[]
    requires Parsed(line, at).Ok? && StoredAs(o, Parsed(line, at).value, kept)
    ensures Exec(o, fs).Some?
    ensures var s, t := Exec(o, es).value, Exec(o, fs).value;
            && t.buffer == map[] && t.hand == s.hand && t.line.None?
            && t.clock == at && t.latest == s.latest[kept.TopicID() := at]
            && Topic(kept.TopicID(), SUM) in t.shown && t.shown[Topic(kept.TopicID(), SUM)] == at
  {
    var record := Parsed(line, at).value;
    ParsedWhenReceived(line, at);
    EndOf(o, record, kept, Messages(o, record), at);
    fs := Then(o, es, Receive(line, at));
    fs := SendAll(o, fs, record);
    fs := Then(o, fs, Handle(at));
  }

  /** The older reading in hand, and the latest reception is that of the newer one. */
  predicate IsOvertaken(s: State, older: SensorData) {
    && s.hand == multiset{Held(Entry(older, 0, 0, 0), 1, {})} && s.line.None? && s.clock == 2
    && s.latest == map[older.TopicID() := 2]
  }

  lemma OlderInHand(o: P.PublishOptions, line: string, older: SensorData) returns (es: seq<Step>)
    requires Parsed(line, 0).Ok? && StoredAs(o, Parsed(line, 0).value, older)
    ensures Exec(o, es).Some? && IsTaken(Exec(o, es).value, older, 0, 0, 1)
    ensures Exec(o, es).value.latest == map[older.TopicID() := 0]
  {
    es := RefuseLine(o, [], line, older, 0);
    es := TakeIt(o, es, older, 0, 0, 1);
  }

  lemma Advance(key: string)
    ensures map[key := 0][key := 2] == map[key := 2]
  {}

  lemma NewerAccepted(o: P.PublishOptions, es: seq<Step>, older: SensorData, line: string, newer: SensorData)
    returns (fs: seq<Step>)
    requires Exec(o, es).Some? && IsTaken(Exec(o, es).value, older, 0, 0, 1)
    requires Exec(o, es).value.latest == map[older.TopicID() := 0]
    requires Parsed(line, 2).Ok? && StoredAs(o, Parsed(line, 2).value, newer) && newer.TopicID() == older.TopicID()
    ensures Exec(o, fs).Some? && IsOvertaken(Exec(o, fs).value, older) && Exec(o, fs).value.buffer == map[]
    ensures var shown := Exec(o, fs).value.shown;
            var sum := Topic(older.TopicID(), SUM); sum in shown && shown[sum] == 2
  {
    Advance(older.TopicID());
    fs := AcceptLine(o, es, line, newer, 2);
  }

  lemma NewerRefused(o: P.PublishOptions, es: seq<Step>, older: SensorData, line: string, newer: SensorData)
    returns (fs: seq<Step>)
    requires Exec(o, es).Some? && IsTaken(Exec(o, es).value, older, 0, 0, 1)
    requires Exec(o, es).value.latest == map[older.TopicID() := 0]
    requires Parsed(line, 2).Ok? && StoredAs(o, Parsed(line, 2).value, newer) && newer.TopicID() == older.TopicID()
    ensures Exec(o, fs).Some? && IsOvertaken(Exec(o, fs).value, older)
    ensures Exec(o, fs).value.buffer.Keys == {older.TopicID()}
  {
    Advance(older.TopicID());
    fs := RefuseLine(o, es, line, newer, 2);
  }

  lemma NewerComes(o: P.PublishOptions, es: seq<Step>, older: SensorData, line: string, newer: SensorData,
                   accepted: bool)
    returns (fs: seq<Step>)
    requires Exec(o, es).Some? && IsTaken(Exec(o, es).value, older, 0, 0, 1)
    requires Exec(o, es).value.latest == map[older.TopicID() := 0]
    requires Parsed(line, 2).Ok? && StoredAs(o, Parsed(line, 2).value, newer) && newer.TopicID() == older.TopicID()
    ensures Exec(o, fs).Some? && IsOvertaken(Exec(o, fs).value, older)
    ensures Exec(o, fs).value.buffer.Keys <= {older.TopicID()}
    ensures accepted ==> var sum := Topic(older.TopicID(), SUM);
                         sum in Exec(o, fs).value.shown && Exec(o, fs).value.shown[sum] == 2
  {
    if accepted {
      fs := NewerAccepted(o, es, older, line, newer);
    } else {
      fs := NewerRefused(o, es, older, line, newer);
    }
  }

  lemma PutOver(s: State, older: SensorData)
    requires IsOvertaken(s, older) && s.buffer.Keys <= {older.TopicID()}
    ensures var t := EndHeld(s, Held(Entry(older, 0, 0, 0), 1, {}), [Store(older.TopicID(), older, 3)], 3);
            t.buffer == map[older.TopicID() := Entry(older, 3, 1, 2)]
  {}

  lemma LateRefusal(o: P.PublishOptions, es: seq<Step>, older: SensorData) returns (fs: seq<Step>)
    requires Exec(o, es).Some? && IsOvertaken(Exec(o, es).value, older) && StoredAs(o, older, older)
    requires Exec(o, es).value.buffer.Keys <= {older.TopicID()}
    ensures Exec(o, fs).Some? && Exec(o, fs).value.buffer == map[older.TopicID() := Entry(older, 3, 1, 2)]
    ensures Exec(o, fs).value.latest == Exec(o, es).value.latest && Exec(o, fs).value.shown == Exec(o, es).value.shown
  {
    EndOf(o, older, older, {}, 3);
    PutOver(Exec(o, es).value, older);
    fs := Then(o, es, Replay(Held(Entry(older, 0, 0, 0), 1, {}), 3));
  }

  lemma LateAcceptance(o: P.PublishOptions, es: seq<Step>, older: SensorData) returns (fs: seq<Step>)
    requires Exec(o, es).Some? && IsOvertaken(Exec(o, es).value, older) && StoredAs(o, older, older)
    requires Exec(o, es).value.buffer.Keys <= {older.TopicID()}
    ensures Exec(o, fs).Some? && Exec(o, fs).value.buffer == map[]
    ensures Exec(o, fs).value.latest == Exec(o, es).value.latest
    ensures var shown := Exec(o, fs).value.shown;
            var sum := Topic(older.TopicID(), SUM); sum in shown && shown[sum] == older.receivedAt
  {
    var entry := Entry(older, 0, 0, 0);
    EndOf(o, older, older, Messages(o, older), 3);
    fs := SendAllHeld(o, es, entry, 1);
    fs := Then(o, fs, Replay(Held(entry, 1, Messages(o, older)), 3));
  }

  /**
   A line is received at 0, refused and taken by a flush; while it is in hand a newer line of the same
   key is received at 2 and accepted or refused, and then the replay is refused or accepted. If it is
   refused, the buffer holds the reading of 0, although the latest is that of 2 and may already be
   published. If it is accepted, the reading of 0 is the last message, and nothing is in the buffer.
   */
  lemma OlderReplayWins(o: P.PublishOptions, first: string, second: string, newerAccepted: bool, olderAccepted: bool)
    returns (es: seq<Step>, key: string)
    requires o.pendingTTL > 0 && o.hwidMap == map[] && o.ignored == {}
    requires Parsed(first, 0).Ok? && P.HasReading(Parsed(first, 0).value)
    requires Parsed(second, 2).Ok? && P.HasReading(Parsed(second, 2).value)
    requires KeyOf(o, Parsed(first, 0).value) == KeyOf(o, Parsed(second, 2).value)
    ensures key == KeyOf(o, Parsed(first, 0).value) && Exec(o, es).Some?
    ensures var s, sum := Exec(o, es).value, Topic(key, SUM);
            && s.latest == map[key := 2]
            && (if olderAccepted then s.buffer == map[] else s.buffer.Keys == {key} && s.buffer[key].sd.receivedAt == 0)
            && (olderAccepted ==> sum in s.shown && s.shown[sum] == 0)
            && (newerAccepted && !olderAccepted ==> sum in s.shown && s.shown[sum] == 2)
  {
    var older, newer := Kept(o, Parsed(first, 0).value), Kept(o, Parsed(second, 2).value);
    ReadingsAreStored(o, Parsed(first, 0).value);
    ReadingsAreStored(o, Parsed(second, 2).value);
    ParsedWhenReceived(first, 0);
    key := older.TopicID();
    es := OlderInHand(o, first, older);
    es := NewerComes(o, es, older, second, newer, newerAccepted);
    es := LateEnd(o, es, older, olderAccepted);
  }

  lemma LateEnd(o: P.PublishOptions, es: seq<Step>, older: SensorData, accepted: bool) returns (fs: seq<Step>)
    requires Exec(o, es).Some? && IsOvertaken(Exec(o, es).value, older) && StoredAs(o, older, older)
    requires Exec(o, es).value.buffer.Keys <= {older.TopicID()}
    ensures Exec(o, fs).Some? && Exec(o, fs).value.latest == Exec(o, es).value.latest
    ensures Exec(o, fs).value.buffer == if accepted then map[] else map[older.TopicID() := Entry(older, 3, 1, 2)]
    ensures var shown, sum := Exec(o, fs).value.shown, Topic(older.TopicID(), SUM);
            if accepted then sum in shown && shown[sum] == older.receivedAt else shown == Exec(o, es).value.shown
  {
    if accepted {
      fs := LateAcceptance(o, es, older);
    } else {
      fs := LateRefusal(o, es, older);
    }
  }
}
