/**
 Publishing sensor records and replaying the pending buffer (rflink/publisher.go). The MQTT
 broker is an oracle that answers each publish; home-assistant discovery, hooks and the debug
 buffers are left out.
 */
module Publisher {
  import opened Wrappers
  import opened Text
  import opened SensorMessages
  import opened PendingBuffer
  import Options

  datatype PublishOptions = PublishOptions(
    pendingTTL: int,
    tempUnit: string,
    retain: bool,
    hwidMap: map<string, string>,
    friendlyNames: map<string, string>,
    ignored: set<string>)

  datatype Message =
    | Field(topicID: string, field: string, body: Payload, retain: bool)
    | SumJSON(topicID: string, sd: SensorData, retain: bool)

  datatype Outcome = Skipped | Failed | Published

  /** The record as published: canonical HWID, and a name. */
  function Prepared(o: PublishOptions, sd: SensorData): SensorData {
    Named(o, sd.(hwid := Options.CanonicalHWID(o.hwidMap, sd.id, sd.hwid)))
  }

  function Named(o: PublishOptions, sd: SensorData): SensorData {
    if sd.friendlyName != "" then sd else
    var name := Options.FriendlyNameFor(o.friendlyNames, sd.TopicID());
    sd.(friendlyName := if name != "" then name else "goRFLink_" + sd.model + " " + sd.id)
  }

  predicate IsIgnored(o: PublishOptions, sd: SensorData) {
    var hwid := Options.CanonicalHWID(o.hwidMap, sd.id, sd.hwid);
    Options.SensorIgnored(o.ignored, sd.model, hwid) || Options.SensorIgnored(o.ignored, sd.model, sd.id)
  }

  /** Events are never retained by the broker. */
  predicate Retained(o: PublishOptions, field: string) {
    o.retain && !(field == "cmd" || field == "switch" || HasPrefix(field, "sw_"))
  }

  function FieldMessage(o: PublishOptions, sd: SensorData, f: string): Message
    requires f in FieldsFor(sd, o.tempUnit)
  {
    Field(sd.TopicID(), f, FieldsFor(sd, o.tempUnit)[f], Retained(o, f))
  }

  /** All messages of one record. */
  ghost predicate Announces(o: PublishOptions, sd: SensorData, m: Message) {
    || m == SumJSON(sd.TopicID(), sd, o.retain)
    || exists f :: f in FieldsFor(sd, o.tempUnit) && m == FieldMessage(o, sd, f)
  }

  predicate HasReading(sd: SensorData) {
    sd.temperature.Some? || sd.humidity.Some? || sd.bat != "" || sd.extra != map[]
  }

  /** What storePending does to the buffer: nothing without TTL or without a reading to keep. */
  function StoreEvents(o: PublishOptions, sd: SensorData, now: int): seq<Event> {
    var safe := sd.StripEventFields();
    if o.pendingTTL > 0 && HasReading(safe) then [Store(safe.TopicID(), safe, now)] else []
  }

  // ----- What is published, in full -----

  /**
   A message goes out under the topic segment of its record with the record's own value; cmd, switch
   and the sw_ channels are never retained, everything else is as configured.
   */
  lemma MessagesInFull(o: PublishOptions, sd: SensorData, m: Message)
    requires Announces(o, sd, m)
    ensures match m
            case Field(topicID, f, body, retain) =>
              && topicID == sd.TopicID() && f in FieldsFor(sd, o.tempUnit) && body == FieldsFor(sd, o.tempUnit)[f]
              && (retain <==> o.retain && f != "cmd" && f != "switch" && !("sw_" <= f))
            case SumJSON(topicID, x, retain) => topicID == sd.TopicID() && x == sd && retain == o.retain
  {}

  /** There is a reading to keep exactly if the record without its events publishes a field or has an extra one. */
  lemma ReadingsToKeep(sd: SensorData)
    ensures HasReading(sd) <==> FieldsFor(sd.StripEventFields(), "C") != map[] || sd.extra != map[]
    ensures HasReading(sd.StripEventFields()) == HasReading(sd)
  {
    StripKeepsReadings(sd, "C");
    var fields := FieldsFor(sd.StripEventFields(), "C");
    assert ToUpper("C") == "C";
    if sd.temperature.Some? {
      assert "temp" in Readings(sd, "C") && "temp" in fields;
    }
    if sd.humidity.Some? {
      assert "hum" in fields;
    }
    if sd.bat != "" {
      assert "bat" in fields;
    }
    if !HasReading(sd) {
      assert Readings(sd, "C") == map[] && ExtraFields(sd.extra) == map[];
    }
  }

  /** The first of some values that is there. */
  function FirstOf(a: Option<string>, b: Option<string>, c: string): string {
    if a.Some? then a.value else if b.Some? then b.value else c
  }

  /** The last well-formed entry for a name in a colon list, whatever the case of either. */
  function Entry(raw: string, name: string): Option<string> {
    Options.LastEntry(Split(TrimSpace(raw), ','), ToUpper(name))
  }

  /**
   Preparing a record changes its HWID and name only: the HWID to what the configured list says of it,
   or else of the raw ID; a missing name to what the list of names says of the topic segment, or else
   to a default.
   */
  lemma PreparedInFull(o: PublishOptions, hwids: string, names: string, record: SensorData)
    requires o.hwidMap == Options.ColonMap(hwids) && o.friendlyNames == Options.ColonMap(names)
    ensures var p := Prepared(o, record);
            && p.hwid == FirstOf(Entry(hwids, record.hwid), Entry(hwids, record.id), record.hwid)
            && p.friendlyName == (if record.friendlyName != "" then record.friendlyName else
                                  FirstOf(Entry(names, p.TopicID()), None,
                                          "goRFLink_" + record.model + " " + record.id))
            && p.(hwid := record.hwid, friendlyName := record.friendlyName) == record
  {
    var hwid := Options.CanonicalHWID(o.hwidMap, record.id, record.hwid);
    var topic := record.(hwid := hwid).TopicID();
    EntryInMap(hwids, record.hwid);
    EntryInMap(hwids, record.id);
    EntryInMap(names, topic);
    assert Prepared(o, record).TopicID() == topic;
  }

  lemma EntryInMap(raw: string, name: string)
    ensures var m := Options.ColonMap(raw);
            && Entry(raw, name) == (if ToUpper(name) in m then Some(m[ToUpper(name)]) else None)
            && (Entry(raw, name).Some? ==> Entry(raw, name).value != "")
  {
    Options.LastEntryWins(Split(TrimSpace(raw), ','), ToUpper(name));
    Options.EntriesAreNotBlank(Split(TrimSpace(raw), ','), ToUpper(name));
  }

  /** The list has a part that is the name, up to case and outer space. */
  predicate Mentions(raw: string, name: string) {
    var k := ToUpper(TrimSpace(name));
    k != "" && Options.Lists(Split(raw, ','), k)
  }

  /** A record is ignored exactly if the list mentions its published HWID, its raw ID or its model. */
  lemma IgnoredInFull(o: PublishOptions, raw: string, record: SensorData)
    requires o.ignored == Options.IgnoreSet(raw)
    ensures IsIgnored(o, record) <==>
            Mentions(raw, Prepared(o, record).hwid) || Mentions(raw, record.id) || Mentions(raw, record.model)
  {
    Options.IgnoredNames(raw, ToUpper(TrimSpace(Prepared(o, record).hwid)));
    Options.IgnoredNames(raw, ToUpper(TrimSpace(record.id)));
    Options.IgnoredNames(raw, ToUpper(TrimSpace(record.model)));
  }

  // ----- The outcome -----

  ghost predicate AllDelivered(o: PublishOptions, sd: SensorData, delivers: string -> bool) {
    (forall f :: f in FieldsFor(sd, o.tempUnit) ==> delivers(f)) && delivers("sumJson")
  }

  /** Every message of the record is among those sent. */
  ghost predicate Complete(o: PublishOptions, sd: SensorData, sent: seq<Message>) {
    && SumJSON(sd.TopicID(), sd, o.retain) in sent
    && forall f :: f in FieldsFor(sd, o.tempUnit) ==> FieldMessage(o, sd, f) in sent
  }

  /** What PublishSensor reports, given the broker's answers. */
  ghost function Verdict(o: PublishOptions, record: SensorData, client: bool, delivers: string -> bool): Outcome {
    if !client then Failed
    else if IsIgnored(o, record) then Skipped
    else if AllDelivered(o, Prepared(o, record), delivers) then Published
    else Failed
  }

  /** The lock section of the pending buffer that a publish goes through, if any. */
  function SectionsIf(o: PublishOptions, record: SensorData, client: bool, accepted: bool, now: int): (r: seq<Event>)
    ensures |r| <= 1
  {
    if !client || IsIgnored(o, record) then []
    else if accepted then [Clear(Prepared(o, record).TopicID())]
    else StoreEvents(o, Prepared(o, record), now)
  }

  ghost function Sections(o: PublishOptions, record: SensorData, client: bool, delivers: string -> bool, now: int)
    : seq<Event>
  {
    SectionsIf(o, record, client, AllDelivered(o, Prepared(o, record), delivers), now)
  }

  /** A message that repeats no past event. */
  predicate EventFree(m: Message) {
    match m
    case Field(_, f, _, _) => f != "cmd" && f != "switch"
    case SumJSON(_, sd, _) => sd.cmd == "" && sd.switch == ""
  }

  lemma ReplayedMessagesAreEventFree(o: PublishOptions, sd: SensorData, m: Message)
    requires Replayable(sd) && Announces(o, sd, m)
    ensures EventFree(m)
    ensures m.Field? && HasPrefix(m.field, "sw_") ==> m.field in sd.extra && m.body == Text(sd.extra[m.field])
  {
    ReplayPublishesNoEvent(sd, o.tempUnit);
  }

  /** The lock section of publishing the n-th taken item. */
  ghost function ItemSections(o: PublishOptions, items: seq<Item>, client: bool,
                              delivers: (nat, string) -> bool, now: int, n: nat): seq<Event>
    requires n < |items|
  {
    Sections(o, items[n].sd, client, f => delivers(n, f), now)
  }

  /** The lock sections of publishing the first n taken items one after the other. */
  ghost function ReplaySections(o: PublishOptions, items: seq<Item>, client: bool,
                                delivers: (nat, string) -> bool, clock: nat -> int, n: nat): seq<Event>
    requires n <= |items|
  {
    if n == 0 then [] else
    ReplaySections(o, items, client, delivers, clock, n - 1)
    + ItemSections(o, items, client, delivers, clock(n - 1), n - 1)
  }

  lemma ReplayStep(b: Buffer, o: PublishOptions, items: seq<Item>, client: bool,
                   delivers: (nat, string) -> bool, clock: nat -> int, n: nat)
    requires n < |items|
    ensures RunFrom(b, ReplaySections(o, items, client, delivers, clock, n + 1)) ==
            RunFrom(RunFrom(b, ReplaySections(o, items, client, delivers, clock, n)),
                    ItemSections(o, items, client, delivers, clock(n), n))
  {
    RunFromConcat(b, ReplaySections(o, items, client, delivers, clock, n),
                  ItemSections(o, items, client, delivers, clock(n), n));
  }

  ghost function ReplayVerdict(o: PublishOptions, items: seq<Item>, client: bool,
                               delivers: (nat, string) -> bool, i: nat): Outcome
    requires i < |items|
  {
    Verdict(o, items[i].sd, client, f => delivers(i, f))
  }

  /** The messages sent for item i: no past event among them, and all of them if it was published. */
  ghost predicate Replayed(o: PublishOptions, items: seq<Item>, client: bool,
                           delivers: (nat, string) -> bool, i: nat, sent: seq<Message>)
    requires i < |items|
  {
    && (forall m :: m in sent ==> EventFree(m) && Announces(o, Prepared(o, items[i].sd), m))
    && (ReplayVerdict(o, items, client, delivers, i) == Published ==> Complete(o, Prepared(o, items[i].sd), sent))
  }

  ghost predicate AllReplayed(o: PublishOptions, items: seq<Item>, client: bool,
                              delivers: (nat, string) -> bool, sent: seq<seq<Message>>)
    requires |sent| <= |items|
  {
    sent == [] ||
    (var n := |sent| - 1;
     AllReplayed(o, items, client, delivers, sent[..n]) && Replayed(o, items, client, delivers, n, sent[n]))
  }

  lemma OneMoreReplayed(o: PublishOptions, items: seq<Item>, client: bool, delivers: (nat, string) -> bool,
                        sent: seq<seq<Message>>, out: seq<Message>)
    requires |sent| < |items| && AllReplayed(o, items, client, delivers, sent)
    requires Replayed(o, items, client, delivers, |sent|, out)
    ensures AllReplayed(o, items, client, delivers, sent + [out])
  {
    assert (sent + [out])[..|sent|] == sent;
  }

  /** How many of the first n items did not fail. */
  ghost function ReplayedCount(o: PublishOptions, items: seq<Item>, client: bool,
                               delivers: (nat, string) -> bool, n: nat): nat
    requires n <= |items|
  {
    if n == 0 then 0 else
    ReplayedCount(o, items, client, delivers, n - 1)
    + if ReplayVerdict(o, items, client, delivers, n - 1) == Failed then 0 else 1
  }

  // ----- The code -----

  class Publisher {
    const o: PublishOptions
    var pending: Buffer
    var published: nat
    var publishFailed: nat
    var pendingFlushed: nat
    var pendingDropped: nat

    /** Everything buffered can be replayed without repeating an event. */
    ghost predicate Valid()
      reads this
    {
      forall k :: k in pending ==> Replayable(pending[k].sd) && k == pending[k].sd.TopicID()
    }

    constructor (o: PublishOptions)
      ensures Valid() && this.o == o && pending == map[]
    {
      this.o := o;
      pending := map[];
      published, publishFailed, pendingFlushed, pendingDropped := 0, 0, 0, 0;
    }

    method StorePending(sd: SensorData, now: int)
      requires Valid() && NoKnownKeys(sd)
      modifies this`pending
      ensures Valid() && pending == RunFrom(old(pending), StoreEvents(o, sd, now))
      // A reading is kept whole, without the events; a record without one leaves the buffer alone.
      ensures o.pendingTTL > 0
              && (sd.temperature.Some? || sd.humidity.Some? || sd.bat != "" || sd.extra != map[]) ==>
                && sd.TopicID() in pending && pending == old(pending)[sd.TopicID() := pending[sd.TopicID()]]
                && pending[sd.TopicID()] == Item(sd.(cmd := "", switch := ""), now)
      ensures o.pendingTTL <= 0 || (sd.temperature.None? && sd.humidity.None? && sd.bat == "" && sd.extra == map[]) ==>
                pending == old(pending)
    {
      if o.pendingTTL <= 0 {
        return;
      }
      var safe := sd.StripEventFields();
      if safe.temperature.None? && safe.humidity.None? && safe.bat == "" && |safe.extra| == 0 {
        return;
      }
      assert HasReading(safe);
      pending := pending[safe.TopicID() := Item(safe, now)];
      assert RunFrom(old(pending), [Store(safe.TopicID(), safe, now)]) == pending;
    }

    method ClearPending(key: string)
      requires Valid()
      modifies this`pending
      ensures Valid() && pending == RunFrom(old(pending), [Clear(key)])
    {
      pending := pending - {key};
    }

    /** The field loop of PublishSensor, in the map's arbitrary order; it stops at the first refusal. */
    method PublishFields(sd: SensorData, delivers: string -> bool) returns (ok: bool, sent: seq<Message>)
      ensures ok <==> forall f :: f in FieldsFor(sd, o.tempUnit) ==> delivers(f)
      ensures forall m :: m in sent ==> exists f :: f in FieldsFor(sd, o.tempUnit) && m == FieldMessage(o, sd, f)
      ensures ok ==> forall f :: f in FieldsFor(sd, o.tempUnit) ==> FieldMessage(o, sd, f) in sent
    {
      sent := [];
      var fields := FieldsForPublish(sd, o.tempUnit);
      var rest := fields.Keys;
      while rest != {}
        invariant rest <= fields.Keys
        invariant forall m :: m in sent ==> exists f :: f in fields && m == FieldMessage(o, sd, f)
        invariant forall f :: f in fields && f !in rest ==> delivers(f) && FieldMessage(o, sd, f) in sent
        decreases rest
      {
        var f :| f in rest;
        rest := rest - {f};
        if !delivers(f) {
          return false, sent;
        }
        sent := sent + [FieldMessage(o, sd, f)];
      }
      return true, sent;
    }

    /** The fields and then the summary, up to the first refusal. */
    method PublishAll(sd: SensorData, delivers: string -> bool) returns (ok: bool, sent: seq<Message>)
      ensures ok <==> AllDelivered(o, sd, delivers)
      ensures forall m :: m in sent ==> Announces(o, sd, m)
      ensures ok ==> Complete(o, sd, sent)
      ensures !ok ==> forall m :: m in sent ==> m.Field?
    {
      ok, sent := PublishFields(sd, delivers);
      if ok {
        ok := delivers("sumJson");
        if ok {
          sent := sent + [SumJSON(sd.TopicID(), sd, o.retain)];
        }
      }
    }

    /**
     delivers tells which publishes the broker accepts; client says whether there is one at all.
     The first refusal stops the record and buffers it.
     */
    method PublishSensor(record: SensorData, client: bool, delivers: string -> bool, now: int)
      returns (outcome: Outcome, sent: seq<Message>)
      requires Valid() && NoKnownKeys(record)
      modifies this`pending, this`published, this`publishFailed
      ensures Valid()
      ensures outcome == Verdict(o, record, client, delivers)
      ensures outcome == Skipped <==> client && IsIgnored(o, record)
      ensures outcome == Published <==>
              && client && !IsIgnored(o, record)
              && (forall f :: f in FieldsFor(Prepared(o, record), o.tempUnit) ==> delivers(f)) && delivers("sumJson")
      ensures pending == RunFrom(old(pending), Sections(o, record, client, delivers, now))
      ensures forall m :: m in sent ==> Announces(o, Prepared(o, record), m)
      ensures outcome == Skipped || !client ==> sent == []
      ensures outcome == Published ==> Complete(o, Prepared(o, record), sent)
      ensures outcome == Failed ==> forall m :: m in sent ==> m.Field?
      ensures published == old(published) + if outcome == Published then 1 else 0
      ensures publishFailed == old(publishFailed) + if client && outcome == Failed then 1 else 0
    {
      sent := [];
      if !client {
        return Failed, sent;
      }
      var sd := record.(hwid := Options.CanonicalHWID(o.hwidMap, record.id, record.hwid));
      if Options.SensorIgnored(o.ignored, sd.model, sd.hwid) || Options.SensorIgnored(o.ignored, sd.model, sd.id) {
        return Skipped, sent;
      }
      sd := Named(o, sd);
      var ok;
      ok, sent := PublishAll(sd, delivers);
      if !ok {
        StorePending(sd, now);
        publishFailed := publishFailed + 1;
        return Failed, sent;
      }
      published := published + 1;
      ClearPending(sd.TopicID());
      return Published, sent;
    }

    /** The lock section of flushPending. */
    method TakePending(now: int) returns (items: seq<Item>)
      modifies this`pending, this`pendingDropped
      ensures pending == map[]
      ensures Lists(items, Taken(o.pendingTTL, old(pending), now))
      ensures pendingDropped == old(pendingDropped) + |Dropped(o.pendingTTL, old(pending), now)|
    {
      var dropped;
      pending, items, dropped := Sweep(o.pendingTTL, pending, now);
      pendingDropped := pendingDropped + dropped;
    }

    /**
     One whole flush with no other call in between. delivers and clock answer for the i-th item
     taken; items are those, in the order they are published, and sent holds the messages of each.
     */
    method FlushPending(client: bool, delivers: (nat, string) -> bool, now: int, clock: nat -> int)
      returns (sent: seq<seq<Message>>, ghost items: seq<Item>)
      requires Valid()
      modifies this
      ensures Valid()
      ensures o.pendingTTL <= 0 ==> sent == [] && unchanged(this)
      ensures o.pendingTTL > 0 ==>
                && Lists(items, Taken(o.pendingTTL, old(pending), now))
                && pending == RunFrom(old(pending),
                                      [Flush(now)] + ReplaySections(o, items, client, delivers, clock, |items|))
                && pendingDropped == old(pendingDropped) + |Dropped(o.pendingTTL, old(pending), now)|
                && pendingFlushed == old(pendingFlushed) + ReplayedCount(o, items, client, delivers, |items|)
                && |sent| == |items|
                && AllReplayed(o, items, client, delivers, sent)
    {
      sent, items := [], [];
      if o.pendingTTL <= 0 {
        return;
      }
      var taken := TakePending(now);
      items := taken;
      ListsMembers(items, Taken(o.pendingTTL, old(pending), now));
      RunFromConcat(old(pending), [Flush(now)], ReplaySections(o, items, client, delivers, clock, |items|));
      sent := ReplayItems(taken, client, delivers, clock);
    }

    /** The loop of flushPending after its lock section. */
    method ReplayItems(items: seq<Item>, client: bool, delivers: (nat, string) -> bool, clock: nat -> int)
      returns (sent: seq<seq<Message>>)
      requires Valid() && forall i :: 0 <= i < |items| ==> Replayable(items[i].sd)
      modifies this`pending, this`published, this`publishFailed, this`pendingFlushed
      ensures Valid() && |sent| == |items|
      ensures pending == RunFrom(old(pending), ReplaySections(o, items, client, delivers, clock, |items|))
      ensures pendingFlushed == old(pendingFlushed) + ReplayedCount(o, items, client, delivers, |items|)
      ensures AllReplayed(o, items, client, delivers, sent)
    {
      sent := [];
      for n := 0 to |items|
        invariant Valid() && |sent| == n
        invariant pending == RunFrom(old(pending), ReplaySections(o, items, client, delivers, clock, n))
        invariant pendingFlushed == old(pendingFlushed) + ReplayedCount(o, items, client, delivers, n)
        invariant AllReplayed(o, items, client, delivers, sent)
      {
        var outcome, out := ReplayItem(items, n, client, delivers, clock(n));
        ReplayStep(old(pending), o, items, client, delivers, clock, n);
        OneMoreReplayed(o, items, client, delivers, sent, out);
        sent := sent + [out];
        if outcome == Failed {
          continue;
        }
        pendingFlushed := pendingFlushed + 1;
      }
    }

    method ReplayItem(items: seq<Item>, n: nat, client: bool, delivers: (nat, string) -> bool, now: int)
      returns (outcome: Outcome, sent: seq<Message>)
      requires Valid() && n < |items| && Replayable(items[n].sd)
      modifies this`pending, this`published, this`publishFailed
      ensures Valid() && outcome == ReplayVerdict(o, items, client, delivers, n)
      ensures pending == RunFrom(old(pending), ItemSections(o, items, client, delivers, now, n))
      ensures Replayed(o, items, client, delivers, n, sent)
    {
      var sd := items[n].sd;
      outcome, sent := PublishSensor(sd, client, f => delivers(n, f), now);
      forall m | m in sent ensures EventFree(m) {
        ReplayedMessagesAreEventFree(o, Prepared(o, sd), m);
      }
    }

    /** The sensor branch of handleSerialMessage, for a line that is no gateway reply. */
    method HandleSensorLine(msg: string, stamp: int, client: bool, delivers: string -> bool, now: int)
      returns (sent: seq<Message>)
      requires Valid()
      modifies this
      ensures Valid()
      ensures Parsed(msg, stamp).Err? ==> sent == [] && unchanged(this)
      ensures Parsed(msg, stamp).Ok? ==>
                var sd := Parsed(msg, stamp).value;
                && pending == RunFrom(old(pending), Sections(o, sd, client, delivers, now))
                && forall m :: m in sent ==> Announces(o, Prepared(o, sd), m)
    {
      sent := [];
      var r := SensorDataFromMessage(msg, stamp);
      if r.Err? {
        return;
      }
      StrippedIsReplayable(msg, stamp);
      var outcome, out := PublishSensor(r.value, client, delivers, now);
      sent := out;
    }
  }
}
