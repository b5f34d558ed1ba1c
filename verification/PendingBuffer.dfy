/**
 The pending buffer (rflink/publisher.go): the latest reading per sensor while MQTT is down.
 Stores, clears and the taking part of a flush are separate lock sections that read the clock
 inside; runs are arbitrary interleavings of them. Times are integer nanoseconds.
 */
module PendingBuffer {
  import opened SensorMessages

  datatype Item = Item(sd: SensorData, storedAt: int)

  type Buffer = map<string, Item>

  // ----- Lock sections -----

  datatype Event =
    | Store(key: string, sd: SensorData, at: int)
    | Clear(key: string)
    | Flush(at: int)

  predicate Fresh(ttl: int, item: Item, now: int) {
    now - item.storedAt <= ttl
  }

  function Taken(ttl: int, b: Buffer, now: int): Buffer {
    map k | k in b && Fresh(ttl, b[k], now) :: b[k]
  }

  function Dropped(ttl: int, b: Buffer, now: int): Buffer {
    map k | k in b && !Fresh(ttl, b[k], now) :: b[k]
  }

  function Apply(b: Buffer, e: Event): Buffer {
    match e
    case Store(key, sd, at) => b[key := Item(sd, at)]
    case Clear(key) => b - {key}
    case Flush(_) => map[]
  }

  /** The buffer after the events es, starting from b. */
  function RunFrom(b: Buffer, es: seq<Event>): Buffer {
    if es == [] then b else Apply(RunFrom(b, es[..|es| - 1]), es[|es| - 1])
  }

  lemma {:induction false} RunFromConcat(b: Buffer, es: seq<Event>, fs: seq<Event>)
    ensures RunFrom(b, es + fs) == RunFrom(RunFrom(b, es), fs)
    decreases |fs|
  {
    if fs == [] {
      assert es + fs == es;
    } else {
      assert (es + fs)[..|es + fs| - 1] == es + fs[..|fs| - 1];
      RunFromConcat(b, es, fs[..|fs| - 1]);
    }
  }

  // ----- Conservation -----

  datatype Ledger = Ledger(stores: nat, superseded: nat, cleared: nat, expired: nat, taken: nat)

  /** Counts what each section of the run did to the buffer it found. */
  function Account(ttl: int, es: seq<Event>): Ledger {
    if es == [] then Ledger(0, 0, 0, 0, 0) else
    var l, b := Account(ttl, es[..|es| - 1]), RunFrom(map[], es[..|es| - 1]);
    match es[|es| - 1]
    case Store(key, _, _) =>
      l.(stores := l.stores + 1, superseded := l.superseded + if key in b then 1 else 0)
    case Clear(key) => l.(cleared := l.cleared + if key in b then 1 else 0)
    case Flush(at) =>
      l.(taken := l.taken + |Taken(ttl, b, at)|, expired := l.expired + |Dropped(ttl, b, at)|)
  }

  /** Every store is still buffered, was superseded, was cleared, expired, or was taken. */
  lemma {:induction false} StoresAreConserved(ttl: int, es: seq<Event>)
    ensures var l := Account(ttl, es);
            l.stores == |RunFrom(map[], es)| + l.superseded + l.cleared + l.expired + l.taken
  {
    if es == [] {
    } else {
      var b, e := RunFrom(map[], es[..|es| - 1]), es[|es| - 1];
      StoresAreConserved(ttl, es[..|es| - 1]);
      match e
      case Flush(at) => FlushSplits(ttl, b, at);
      case Clear(key) => RemoveSize(b, key);
      case Store(key, sd, at) => UpdateSize(b, key, Item(sd, at));
    }
  }

  lemma FlushSplits(ttl: int, b: Buffer, now: int)
    ensures |b| == |Taken(ttl, b, now)| + |Dropped(ttl, b, now)|
  {
    var t, d := Taken(ttl, b, now), Dropped(ttl, b, now);
    assert b.Keys == t.Keys + d.Keys;
    assert |b.Keys| == |t.Keys| + |d.Keys|;
  }

  lemma RemoveSize(b: Buffer, key: string)
    ensures |b| == |b - {key}| + if key in b then 1 else 0
  {
    if key in b {
      assert b.Keys == (b - {key}).Keys + {key};
    } else {
      assert b - {key} == b;
    }
  }

  lemma UpdateSize(b: Buffer, key: string, item: Item)
    ensures |b[key := item]| == |b| + if key in b then 0 else 1
  {
    assert b[key := item].Keys == b.Keys + {key};
  }

  // ----- The fate of each store -----

  datatype Fate = Buffered | Superseded | Cleared | Expired | WasTaken

  /** What became of the store es[i] by the end of es: the first later section to touch its key decides. */
  function FateOf(ttl: int, es: seq<Event>, i: nat): Fate
    requires i < |es| && es[i].Store?
    decreases |es|
  {
    if i == |es| - 1 then Buffered else
    var before := FateOf(ttl, es[..|es| - 1], i);
    if before != Buffered then before else
    match es[|es| - 1]
    case Store(key, _, _) => if key == es[i].key then Superseded else Buffered
    case Clear(key) => if key == es[i].key then Cleared else Buffered
    case Flush(at) => if at - es[i].at > ttl then Expired else WasTaken
  }

  ghost predicate Holds(ttl: int, es: seq<Event>, key: string, item: Item, i: int) {
    0 <= i < |es| && es[i] == Store(key, item.sd, item.storedAt) && FateOf(ttl, es, i) == Buffered
  }

  /** The buffer holds exactly the stores that nothing has touched since, each under its key. */
  lemma {:induction false} BufferHoldsUntouchedStores(ttl: int, es: seq<Event>)
    ensures forall k :: k in RunFrom(map[], es) ==> exists i :: Holds(ttl, es, k, RunFrom(map[], es)[k], i)
    ensures forall i :: 0 <= i < |es| && es[i].Store? && FateOf(ttl, es, i) == Buffered ==>
              es[i].key in RunFrom(map[], es) && RunFrom(map[], es)[es[i].key] == Item(es[i].sd, es[i].at)
  {
    if es == [] {
    } else {
      var pre, e := es[..|es| - 1], es[|es| - 1];
      var b, b' := RunFrom(map[], pre), RunFrom(map[], es);
      BufferHoldsUntouchedStores(ttl, pre);
      forall k | k in b' ensures exists i :: Holds(ttl, es, k, b'[k], i) {
        if e.Store? && e.key == k {
          assert Holds(ttl, es, k, b'[k], |es| - 1);
        } else {
          var i :| Holds(ttl, pre, k, b[k], i);
          assert Holds(ttl, es, k, b'[k], i);
        }
      }
    }
  }

  /** Only the latest store of a key can still be in the buffer. */
  lemma {:induction false} OnlyTheLatestStays(ttl: int, es: seq<Event>, i: nat, j: nat)
    requires i < j < |es| && es[i].Store? && es[j].Store? && es[i].key == es[j].key
    ensures FateOf(ttl, es, i) != Buffered
    decreases |es|
  {
    if j == |es| - 1 {
    } else {
      OnlyTheLatestStays(ttl, es[..|es| - 1], i, j);
    }
  }

  /**
   A flush takes exactly the untouched stores that are at most TTL old, and drops the older
   ones; no store is ever taken twice, because the fate of a taken store is settled.
   */
  lemma FlushTakesFreshStoresOnce(ttl: int, es: seq<Event>, at: int, i: nat)
    requires i < |es| && es[i].Store?
    ensures FateOf(ttl, es, i) == Buffered ==>
              && es[i].key in RunFrom(map[], es)
              && (es[i].key in Taken(ttl, RunFrom(map[], es), at) <==> at <= es[i].at + ttl)
              && FateOf(ttl, es + [Flush(at)], i) == if at <= es[i].at + ttl then WasTaken else Expired
    ensures FateOf(ttl, es, i) != Buffered ==> FateOf(ttl, es + [Flush(at)], i) == FateOf(ttl, es, i)
    ensures forall k :: k in Taken(ttl, RunFrom(map[], es), at) ==>
              exists j :: Holds(ttl, es, k, RunFrom(map[], es)[k], j) && at <= es[j].at + ttl
  {
    BufferHoldsUntouchedStores(ttl, es);
    assert (es + [Flush(at)])[..|es|] == es;
    forall k | k in Taken(ttl, RunFrom(map[], es), at)
      ensures exists j :: Holds(ttl, es, k, RunFrom(map[], es)[k], j) && at <= es[j].at + ttl
    {
      var j :| Holds(ttl, es, k, RunFrom(map[], es)[k], j);
    }
  }

  // ----- The ledger counts fates -----

  /** The stores of es that met this fate. */
  ghost function Who(ttl: int, es: seq<Event>, fate: Fate): set<int> {
    set i | 0 <= i < |es| && es[i].Store? && FateOf(ttl, es, i) == fate
  }

  /** The index of the store that the buffer holds under each key. */
  function Origin(es: seq<Event>): map<string, int> {
    if es == [] then map[] else
    var before := Origin(es[..|es| - 1]);
    match es[|es| - 1]
    case Store(key, _, _) => before[key := |es| - 1]
    case Clear(key) => before - {key}
    case Flush(_) => map[]
  }

  /** Origin tells of each buffered store, and of nothing else. */
  lemma {:induction false} OriginIs(ttl: int, es: seq<Event>)
    ensures Origin(es).Keys == RunFrom(map[], es).Keys
    ensures forall k :: k in Origin(es) ==> Holds(ttl, es, k, RunFrom(map[], es)[k], Origin(es)[k])
    ensures forall i :: 0 <= i < |es| && es[i].Store? && FateOf(ttl, es, i) == Buffered ==>
              es[i].key in Origin(es) && Origin(es)[es[i].key] == i
  {
    if es == [] {
    } else {
      OriginIs(ttl, es[..|es| - 1]);
    }
  }

  /** The keys whose store e moves from the buffer b to this fate. */
  function Leaving(ttl: int, b: Buffer, e: Event, fate: Fate): set<string> {
    match e
    case Store(key, _, _) => if fate == Superseded then b.Keys * {key} else {}
    case Clear(key) => if fate == Cleared then b.Keys * {key} else {}
    case Flush(at) =>
      if fate == WasTaken then Taken(ttl, b, at).Keys
      else if fate == Expired then Dropped(ttl, b, at).Keys
      else {}
  }

  function Image(origin: map<string, int>, keys: set<string>): set<int> {
    set k | k in keys && k in origin :: origin[k]
  }

  lemma {:induction false} ImageSize(origin: map<string, int>, keys: set<string>)
    requires keys <= origin.Keys
    requires forall k, l :: k in keys && l in keys && origin[k] == origin[l] ==> k == l
    ensures |Image(origin, keys)| == |keys|
  {
    if keys == {} {
    } else {
      var k :| k in keys;
      ImageSize(origin, keys - {k});
      assert Image(origin, keys) == Image(origin, keys - {k}) + {origin[k]};
    }
  }

  /** As many stores leave the buffer as keys. */
  lemma LeavingSize(ttl: int, es: seq<Event>, keys: set<string>)
    requires keys <= RunFrom(map[], es).Keys
    ensures |Image(Origin(es), keys)| == |keys|
  {
    OriginIs(ttl, es);
    ImageSize(Origin(es), keys);
  }

  /** One more section: the stores with a settled fate keep it, those of the leaving keys join them. */
  lemma FatesMove(ttl: int, es: seq<Event>, fate: Fate)
    requires es != [] && fate != Buffered
    ensures var pre, e := es[..|es| - 1], es[|es| - 1];
            var joining := Image(Origin(pre), Leaving(ttl, RunFrom(map[], pre), e, fate));
            Who(ttl, es, fate) == Who(ttl, pre, fate) + joining && Who(ttl, pre, fate) !! joining
  {
    var pre, e := es[..|es| - 1], es[|es| - 1];
    OriginIs(ttl, pre);
    var b := RunFrom(map[], pre);
    var joining := Image(Origin(pre), Leaving(ttl, b, e, fate));
    forall i ensures i in Who(ttl, es, fate) <==> i in Who(ttl, pre, fate) || i in joining {
      if 0 <= i < |pre| && es[i].Store? {
        FateMoves(ttl, es, fate, i);
      }
    }
  }

  lemma FateMoves(ttl: int, es: seq<Event>, fate: Fate, i: nat)
    requires i + 1 < |es| && es[i].Store? && fate != Buffered
    ensures var pre, e := es[..|es| - 1], es[|es| - 1];
            FateOf(ttl, es, i) == fate <==>
            || FateOf(ttl, pre, i) == fate
            || i in Image(Origin(pre), Leaving(ttl, RunFrom(map[], pre), e, fate))
  {
    OriginIs(ttl, es[..|es| - 1]);
  }

  lemma LedgerStep(ttl: int, es: seq<Event>)
    requires es != []
    ensures var pre, l, m := es[..|es| - 1], Account(ttl, es[..|es| - 1]), Account(ttl, es);
            var b, e := RunFrom(map[], pre), es[|es| - 1];
            && m.superseded == l.superseded + |Leaving(ttl, b, e, Superseded)|
            && m.cleared == l.cleared + |Leaving(ttl, b, e, Cleared)|
            && m.expired == l.expired + |Leaving(ttl, b, e, Expired)|
            && m.taken == l.taken + |Leaving(ttl, b, e, WasTaken)|
  {
    var b, e := RunFrom(map[], es[..|es| - 1]), es[|es| - 1];
    if !e.Flush? {
      assert b.Keys * {e.key} == if e.key in b then {e.key} else {};
    }
  }

  function Count(l: Ledger, fate: Fate): nat
    requires fate != Buffered
  {
    match fate
    case Superseded => l.superseded
    case Cleared => l.cleared
    case Expired => l.expired
    case WasTaken => l.taken
  }

  /** Each count of the ledger is the number of stores that met that fate. */
  lemma {:induction false} LedgerCountsFates(ttl: int, es: seq<Event>, fate: Fate)
    requires fate != Buffered
    ensures Count(Account(ttl, es), fate) == |Who(ttl, es, fate)|
  {
    if es == [] {
      assert Who(ttl, es, fate) == {};
    } else {
      var pre := es[..|es| - 1];
      LedgerCountsFates(ttl, pre, fate);
      FatesMove(ttl, es, fate);
      LedgerStep(ttl, es);
      LeavingSize(ttl, pre, Leaving(ttl, RunFrom(map[], pre), es[|es| - 1], fate));
    }
  }

  /** And the buffer is as large as the number of stores that nothing has touched. */
  lemma BufferCountsUntouchedStores(ttl: int, es: seq<Event>)
    ensures |RunFrom(map[], es)| == |Who(ttl, es, Buffered)|
  {
    OriginIs(ttl, es);
    LeavingSize(ttl, es, RunFrom(map[], es).Keys);
    assert Image(Origin(es), RunFrom(map[], es).Keys) == Who(ttl, es, Buffered);
  }

  // ----- The code of the flush's lock section -----

  /** items are the entries of b, each once, in some order. */
  ghost predicate Lists(items: seq<Item>, b: Buffer) {
    if items == [] then b == map[]
    else exists k :: k in b && b[k] == items[|items| - 1] && Lists(items[..|items| - 1], b - {k})
  }

  lemma {:induction false} ListsMembers(items: seq<Item>, b: Buffer)
    requires Lists(items, b)
    ensures forall i :: 0 <= i < |items| ==> exists k :: k in b && b[k] == items[i]
  {
    if items == [] {
    } else {
      var pre := items[..|items| - 1];
      var k :| k in b && b[k] == items[|items| - 1] && Lists(pre, b - {k});
      ListsMembers(pre, b - {k});
      forall i | 0 <= i < |items| ensures exists l :: l in b && b[l] == items[i] {
        if i < |pre| {
          var l :| l in b - {k} && (b - {k})[l] == pre[i];
          assert l in b && b[l] == items[i];
        }
      }
    }
  }

  lemma ListsStep(items: seq<Item>, b: Buffer, key: string, item: Item)
    requires Lists(items, b) && key !in b
    ensures Lists(items + [item], b[key := item])
  {
    var b', items' := b[key := item], items + [item];
    assert items'[..|items'| - 1] == items && b' - {key} == b;
    assert key in b' && b'[key] == items'[|items'| - 1];
  }

  /** One more entry seen by the sweep of a flush: items were taken and n dropped so far. */
  lemma SweepStep(ttl: int, b: Buffer, now: int, key: string, item: Item, items: seq<Item>, n: nat)
    requires key !in b && Lists(items, Taken(ttl, b, now)) && n == |Dropped(ttl, b, now)|
    ensures var b' := b[key := item];
            && Lists(if Fresh(ttl, item, now) then items + [item] else items, Taken(ttl, b', now))
            && |Dropped(ttl, b', now)| == if Fresh(ttl, item, now) then n else n + 1
  {
    var b' := b[key := item];
    if Fresh(ttl, item, now) {
      assert Taken(ttl, b', now) == Taken(ttl, b, now)[key := item] && Dropped(ttl, b', now) == Dropped(ttl, b, now);
      ListsStep(items, Taken(ttl, b, now), key, item);
    } else {
      assert Taken(ttl, b', now) == Taken(ttl, b, now) && Dropped(ttl, b', now) == Dropped(ttl, b, now)[key := item];
    }
  }

  /** All entries of pending but those in rest have been swept. */
  ghost predicate Swept(ttl: int, pending: Buffer, now: int, rest: set<string>, items: seq<Item>, dropped: nat) {
    && Lists(items, Taken(ttl, pending - rest, now))
    && dropped == |Dropped(ttl, pending - rest, now)|
  }

  lemma SweptStep(ttl: int, pending: Buffer, now: int, rest: set<string>, key: string, items: seq<Item>, dropped: nat)
    requires Swept(ttl, pending, now, rest, items, dropped) && key in rest && key in pending
    ensures var keep := Fresh(ttl, pending[key], now);
            Swept(ttl, pending, now, rest - {key}, if keep then items + [pending[key]] else items,
                  if keep then dropped else dropped + 1)
  {
    assert pending - (rest - {key}) == (pending - rest)[key := pending[key]];
    SweepStep(ttl, pending - rest, now, key, pending[key], items, dropped);
  }

  lemma SweptAll(ttl: int, pending: Buffer, now: int, items: seq<Item>, dropped: nat)
    requires Swept(ttl, pending, now, {}, items, dropped)
    ensures Lists(items, Taken(ttl, pending, now)) && dropped == |Dropped(ttl, pending, now)|
  {
    assert pending - {} == pending;
  }

  lemma SweptNothing(ttl: int, pending: Buffer, now: int)
    ensures Swept(ttl, pending, now, pending.Keys, [], 0)
  {
    assert pending - pending.Keys == map[];
  }

  /** Takes every entry out of the map, in its arbitrary order: the fresh ones to items. */
  method Sweep(ttl: int, pending: Buffer, now: int) returns (left: Buffer, items: seq<Item>, dropped: nat)
    ensures left == Apply(pending, Flush(now))
    ensures Lists(items, Taken(ttl, pending, now))
    ensures dropped == |Dropped(ttl, pending, now)|
  {
    left, items, dropped := pending, [], 0;
    var rest := pending.Keys;
    SweptNothing(ttl, pending, now);
    while rest != {}
      invariant rest == left.Keys && rest <= pending.Keys
      invariant forall k :: k in left ==> left[k] == pending[k]
      invariant Swept(ttl, pending, now, rest, items, dropped)
      decreases rest
    {
      var key :| key in rest;
      var item := left[key];
      SweptStep(ttl, pending, now, rest, key, items, dropped);
      rest := rest - {key};
      if now - item.storedAt > ttl {
        left := left - {key};
        dropped := dropped + 1;
      } else {
        items := items + [item];
        left := left - {key};
      }
    }
    SweptAll(ttl, pending, now, items, dropped);
  }
}
