/**
 The runtime overlay (rflink/runtime_config.go): a file whose present keys override the
 environment, saved with three rotating backups, restored from them, and hot-reloaded.

 The directory is a map from 0 (the current file) and 1..3 (the backups) to contents. Time
 stamps are parameters; failures of the file system are oracles.
 */
module RuntimeOverlay {
  import opened Wrappers
  import opened Text
  import Options

  const RUNTIME_BACKUP_COUNT := 3
  const RUNTIME_FILE_VERSION := 1

  datatype APIToken = APIToken(name: string, hash: string)

  datatype Webhook = Webhook(name: string, url: string)

  /** An absent key is None; a list can also be present and empty. */
  datatype RuntimeFile = RuntimeFile(
    version: int,
    updatedAt: string,
    friendlyNames: Option<string>,
    ignoreList: Option<string>,
    hwidMap: Option<string>,
    apiTokens: Option<seq<APIToken>>,
    haDiscovery: Option<bool>,
    haPrefix: Option<string>,
    haButtons: Option<string>,
    haSwitches: Option<string>,
    webhooks: Option<seq<Webhook>>)

  const EMPTY_FILE := RuntimeFile(RUNTIME_FILE_VERSION, "", None, None, None, None, None, None, None, None, None)

  datatype Key =
    | FriendlyNames | IgnoreList | HWIDMap | APITokens | HADiscovery
    | HADiscoveryPrefix | HAButtons | HASwitches | Webhooks

  predicate Has(f: RuntimeFile, k: Key) {
    match k
    case FriendlyNames => f.friendlyNames.Some?
    case IgnoreList => f.ignoreList.Some?
    case HWIDMap => f.hwidMap.Some?
    case APITokens => f.apiTokens.Some?
    case HADiscovery => f.haDiscovery.Some?
    case HADiscoveryPrefix => f.haPrefix.Some?
    case HAButtons => f.haButtons.Some?
    case HASwitches => f.haSwitches.Some?
    case Webhooks => f.webhooks.Some?
  }

  /** For each key, whether the runtime layer owns it; otherwise the environment does. */
  datatype Sources = Sources(
    friendlyNames: bool,
    ignoreList: bool,
    hwidMap: bool,
    apiTokens: bool,
    haDiscovery: bool,
    haPrefix: bool,
    haButtons: bool,
    haSwitches: bool,
    webhooks: bool)

  const ALL_ENV := Sources(false, false, false, false, false, false, false, false, false)

  /** The runtime layer owns the keys that the file has. */
  function Owned(f: RuntimeFile): Sources {
    Sources(f.friendlyNames.Some?, f.ignoreList.Some?, f.hwidMap.Some?, f.apiTokens.Some?, f.haDiscovery.Some?,
            f.haPrefix.Some?, f.haButtons.Some?, f.haSwitches.Some?, f.webhooks.Some?)
  }

  // ----- JSON -----

  /** Doc(f) is text that parses to f. */
  datatype Content = Doc(file: RuntimeFile) | BlankText | Garbage

  /** omitempty drops a list that is present but empty. */
  function OmitEmpty(f: RuntimeFile): RuntimeFile {
    f.(apiTokens := if f.apiTokens == Some([]) then None else f.apiTokens,
       webhooks := if f.webhooks == Some([]) then None else f.webhooks)
  }

  function Marshal(f: RuntimeFile): Content {
    Doc(OmitEmpty(f))
  }

  predicate NoEmptyLists(f: RuntimeFile) {
    f.apiTokens != Some([]) && f.webhooks != Some([])
  }

  // ----- The directory -----

  type Disk = map<nat, Content>

  /** A backup copy may fail at one slot, leaving there what it will. */
  datatype CopyFault = NoFault | FailsAt(slot: nat, left: Option<Content>)

  /** What the file system answers to one persist. */
  datatype IO = IO(dirOk: bool, copies: CopyFault, writeOk: bool)

  function Put(d: Disk, slot: nat, c: Option<Content>): Disk {
    if c.Some? then d[slot := c.value] else d - {slot}
  }

  /** Slots i, i-1, ..., 1 in turn receive their predecessor when it exists. */
  function Rotate(d: Disk, i: nat, fault: CopyFault): Disk
    decreases i
  {
    if i == 0 then d
    else if i - 1 !in d then Rotate(d, i - 1, fault)
    else if fault.FailsAt? && fault.slot == i then Put(d, i, fault.left)
    else Rotate(d[i := d[i - 1]], i - 1, fault)
  }

  function Persist(d: Disk, f: RuntimeFile, io: IO): (Disk, bool) {
    if !io.dirOk then (d, false) else
    var rotated := Rotate(d, RUNTIME_BACKUP_COUNT, io.copies);
    if io.writeOk then (rotated[0 := Marshal(f)], true) else (rotated, false)
  }

  // ----- The options that the overlay drives -----

  /** The environment layer, as read once at start. */
  datatype Env = Env(
    friendlyNames: string,
    ignoreList: string,
    hwidMap: string,
    apiTokens: seq<APIToken>,
    haDiscovery: bool,
    haPrefix: string,
    haButtons: string,
    haSwitches: string,
    webhooks: seq<Webhook>)

  /** The button and switch entities are parsed from the two lists whenever those are assigned. */
  datatype Live = Live(
    names: map<string, string>,
    ignored: set<string>,
    hwids: map<string, string>,
    tokens: seq<APIToken>,
    haDiscovery: bool,
    haPrefix: string,
    haButtons: string,
    haSwitches: string,
    hooks: seq<Webhook>)

  function Or<T>(a: Option<T>, b: T): T {
    if a.Some? then a.value else b
  }

  /** apiTokensFromRuntime: entries without a name or a hash are skipped. */
  function Usable(list: seq<APIToken>): seq<APIToken> {
    if list == [] then [] else
    Usable(list[..|list| - 1]) +
    if list[|list| - 1].hash != "" && list[|list| - 1].name != "" then [list[|list| - 1]] else []
  }

  const DEFAULT_PREFIX := "homeassistant"

  function Prefix(raw: string): string {
    if TrimSpace(raw) == "" then DEFAULT_PREFIX else TrimSpace(raw)
  }

  /** The options before any overlay is applied. */
  function Start(env: Env): Live {
    Live(Options.ColonMap(env.friendlyNames), Options.IgnoreSet(env.ignoreList), Options.ColonMap(env.hwidMap),
         env.apiTokens, env.haDiscovery, env.haPrefix, env.haButtons, env.haSwitches, env.webhooks)
  }

  /** The prefix is never blank while discovery is on. */
  function AppliedPrefix(o: Live, f: RuntimeFile): string {
    var prefix := if f.haPrefix.Some? then Prefix(f.haPrefix.value) else o.haPrefix;
    if Or(f.haDiscovery, o.haDiscovery) && TrimSpace(prefix) == "" then DEFAULT_PREFIX else prefix
  }

  /** applyLocked: five keys are recomputed from env every time, the HA keys are overwritten in place. */
  function Applied(env: Env, o: Live, f: RuntimeFile): Live {
    Live(Options.ColonMap(Or(f.friendlyNames, env.friendlyNames)),
         Options.IgnoreSet(Or(f.ignoreList, env.ignoreList)),
         Options.ColonMap(Or(f.hwidMap, env.hwidMap)),
         if f.apiTokens.Some? then Usable(f.apiTokens.value) else env.apiTokens,
         Or(f.haDiscovery, o.haDiscovery),
         AppliedPrefix(o, f),
         Or(f.haButtons, o.haButtons),
         Or(f.haSwitches, o.haSwitches),
         Or(f.webhooks, env.webhooks))
  }

  // ----- Steps -----

  /** reading is what the reload under way has read, if there is one; None inside means no file. */
  datatype State = State(disk: Disk, file: RuntimeFile, sources: Sources, live: Live, reading: Option<Option<Content>>)

  function WithApplied(env: Env, s: State, disk: Disk, f: RuntimeFile): State {
    State(disk, f, Owned(f), Applied(env, s.live, f), s.reading)
  }

  function Later<T>(a: Option<T>, b: Option<T>): Option<T> {
    if a.Some? then a else b
  }

  /** The file after a patch: present keys replace, the others stay. */
  function Merged(f: RuntimeFile, patch: RuntimeFile, now: string): RuntimeFile {
    RuntimeFile(RUNTIME_FILE_VERSION, now,
                Later(patch.friendlyNames, f.friendlyNames),
                Later(patch.ignoreList, f.ignoreList),
                Later(patch.hwidMap, f.hwidMap),
                Later(patch.apiTokens, f.apiTokens),
                Later(patch.haDiscovery, f.haDiscovery),
                if patch.haPrefix.Some? then Some(Prefix(patch.haPrefix.value)) else f.haPrefix,
                Later(patch.haButtons, f.haButtons),
                Later(patch.haSwitches, f.haSwitches),
                Later(patch.webhooks, f.webhooks))
  }

  const ALL_KEYS := [FriendlyNames, IgnoreList, HWIDMap, APITokens, HADiscovery,
                     HADiscoveryPrefix, HAButtons, HASwitches, Webhooks]

  /** The keys among ks that the patch brings and the file does not have yet, in order. */
  function FirstTime(ks: seq<Key>, f: RuntimeFile, patch: RuntimeFile): seq<Key> {
    if ks == [] then [] else
    FirstTime(ks[..|ks| - 1], f, patch) +
    if Has(patch, ks[|ks| - 1]) && !Has(f, ks[|ks| - 1]) then [ks[|ks| - 1]] else []
  }

  /**
   A reload reads the file without holding the mutex and applies it under the mutex, so anything
   may happen between Read and Apply. Edit is somebody else replacing or removing the file.
   */
  datatype Event =
    | Save(patch: RuntimeFile, now: string, io: IO)
    | Restore(slot: int, io: IO)
    | Read
    | Apply
    | Edit(content: Option<Content>)

  datatype RestoreError = InvalidSlot | NoBackup | Unreadable | NotPersisted

  function RestoreProblem(s: State, slot: int): Option<RestoreError> {
    if slot < 1 || slot > RUNTIME_BACKUP_COUNT then Some(InvalidSlot)
    else if slot !in s.disk then Some(NoBackup)
    else if !s.disk[slot].Doc? then Some(Unreadable)
    else None
  }

  /** What a slot holds, if anything; slot 0 is the current file. */
  function At(d: Disk, slot: nat): Option<Content> {
    if slot in d then Some(d[slot]) else None
  }

  /** What a reload makes of the text, if it can be parsed. */
  function Loaded(c: Content): Option<RuntimeFile> {
    match c
    case Garbage => None
    case BlankText => Some(EMPTY_FILE)
    case Doc(f) => Some(if f.version == 0 then f.(version := RUNTIME_FILE_VERSION) else f)
  }

  /** The second half of a reload; without a file the overlay is reset but not applied. */
  function ApplyText(env: Env, s: State, text: Option<Content>): State {
    match text
    case None => s.(file := EMPTY_FILE, sources := ALL_ENV)
    case Some(c) => if Loaded(c).Some? then WithApplied(env, s, s.disk, Loaded(c).value) else s
  }

  function Next(env: Env, s: State, e: Event): State {
    match e
    case Save(patch, now, io) =>
      var f := Merged(s.file, patch, now);
      var (d, ok) := Persist(s.disk, f, io);
      if ok then WithApplied(env, s, d, f) else s.(disk := d)
    case Restore(slot, io) =>
      if RestoreProblem(s, slot).Some? then s else
      var f := s.disk[slot].file;
      var (d, ok) := Persist(s.disk, f, io);
      if ok then WithApplied(env, s, d, f) else s.(disk := d)
    case Read => s.(reading := Some(At(s.disk, 0)))
    case Apply => if s.reading.Some? then ApplyText(env, s.(reading := None), s.reading.value) else s
    case Edit(content) => s.(disk := Put(s.disk, 0, content))
  }

  /** A reload that nothing comes in between. */
  function Reloaded(env: Env, s: State): State {
    Next(env, Next(env, s, Read), Apply)
  }

  function Exec(env: Env, s: State, es: seq<Event>): State {
    if es == [] then s else Next(env, Exec(env, s, es[..|es| - 1]), es[|es| - 1])
  }

  /** A fresh manager on a directory, before its first load. */
  function Fresh(env: Env, d: Disk): State {
    State(d, EMPTY_FILE, ALL_ENV, Start(env), None)
  }

  // ----- Backups -----

  /** Slot i holds the i-th last of the contents cs, slot 0 being the current file. */
  ghost predicate Keeps(d: Disk, cs: seq<Content>) {
    forall i: nat :: i <= RUNTIME_BACKUP_COUNT && i < |cs| ==> i in d && d[i] == cs[|cs| - 1 - i]
  }

  /** There is nothing else in the directory. */
  ghost predicate NoMore(d: Disk, cs: seq<Content>) {
    forall i :: i in d ==> i <= RUNTIME_BACKUP_COUNT && i < |cs|
  }

  lemma RotateShifts(d: Disk, cs: seq<Content>)
    requires Keeps(d, cs)
    ensures var r := Rotate(d, RUNTIME_BACKUP_COUNT, NoFault);
            && Keeps(r, if cs == [] then cs else cs + [cs[|cs| - 1]])
            && (forall c :: Keeps(r[0 := c], cs + [c]))
            && (NoMore(d, cs) ==>
                  forall i :: i in r ==> i <= RUNTIME_BACKUP_COUNT && i <= |cs| && (i == 0 ==> cs != []))
  {
    var r := Rotate(d, 3, NoFault);
    assert |cs| > 0 ==> 0 in d;
    assert |cs| > 1 ==> 1 in d;
    assert |cs| > 2 ==> 2 in d;
    var d3 := if 2 in d then d[3 := d[2]] else d;
    var d2 := if 1 in d3 then d3[2 := d3[1]] else d3;
    var d1 := if 0 in d2 then d2[1 := d2[0]] else d2;
    assert r == d1 by {
      assert r == Rotate(d3, 2, NoFault) == Rotate(d2, 1, NoFault) == Rotate(d1, 0, NoFault);
    }
  }

  /** No copy of a persist fails and nobody else edits the file. */
  predicate CleanIO(e: Event) {
    match e
    case Save(_, _, io) => io.copies.NoFault?
    case Restore(_, io) => io.copies.NoFault?
    case Read => true
    case Apply => true
    case Edit(_) => false
  }

  /** The answers of the file system to the persists of the run, in order. */
  function Persists(env: Env, s: State, es: seq<Event>): seq<IO> {
    if es == [] then [] else
    Persists(env, s, es[..|es| - 1]) + PersistOf(Exec(env, s, es[..|es| - 1]), es[|es| - 1])
  }

  function PersistOf(s: State, e: Event): seq<IO> {
    match e
    case Save(_, _, io) => [io]
    case Restore(slot, io) => if RestoreProblem(s, slot).Some? then [] else [io]
    case _ => []
  }

  /** The file that a save or restore writes. */
  function Target(s: State, e: Event): RuntimeFile
    requires PersistOf(s, e) != []
  {
    if e.Save? then Merged(s.file, e.patch, e.now) else s.disk[e.slot].file
  }

  /** The versions that were written, in order. */
  function Saved(env: Env, s: State, es: seq<Event>): seq<Content> {
    if es == [] then [] else
    var before, e := Exec(env, s, es[..|es| - 1]), es[|es| - 1];
    Saved(env, s, es[..|es| - 1]) + SavedBy(before, e)
  }

  function SavedBy(before: State, e: Event): seq<Content> {
    if PersistOf(before, e) != [] && e.io.dirOk && e.io.writeOk then [Marshal(Target(before, e))] else []
  }

  /**
   The number of the version in each place that the backups were rotated through, the current
   file last. A persist that rotates but cannot write leaves the current version there twice.
   */
  function Numbers(ios: seq<IO>): (ns: seq<nat>)
    ensures |ns| > 0 <==> WriteCount(ios) > 0
    ensures ns != [] ==> ns[|ns| - 1] + 1 == WriteCount(ios)
    ensures Below(ns, WriteCount(ios))
  {
    if ios == [] then [] else
    var ns, io := Numbers(ios[..|ios| - 1]), ios[|ios| - 1];
    if !io.dirOk then ns
    else if io.writeOk then ns + [WriteCount(ios[..|ios| - 1])]
    else if ns == [] then ns
    else ns + [ns[|ns| - 1]]
  }

  predicate Below(ns: seq<nat>, bound: nat) {
    forall j :: 0 <= j < |ns| ==> ns[j] < bound
  }

  function WriteCount(ios: seq<IO>): nat {
    if ios == [] then 0 else
    WriteCount(ios[..|ios| - 1]) + if ios[|ios| - 1].dirOk && ios[|ios| - 1].writeOk then 1 else 0
  }

  /** How many persists have written since the last one that rotated and could not write. */
  function WritesSinceFailure(ios: seq<IO>): nat {
    if ios == [] then 0 else
    var io := ios[|ios| - 1];
    if !io.dirOk then WritesSinceFailure(ios[..|ios| - 1])
    else if io.writeOk then WritesSinceFailure(ios[..|ios| - 1]) + 1
    else 0
  }

  /** The contents behind the numbers. */
  function Places(saved: seq<Content>, ns: seq<nat>): (cs: seq<Content>)
    requires Below(ns, |saved|)
    ensures |cs| == |ns|
  {
    if ns == [] then [] else
    Places(saved, ns[..|ns| - 1]) + [saved[ns[|ns| - 1]]]
  }

  lemma {:induction false} PlaceAt(saved: seq<Content>, ns: seq<nat>, j: nat)
    requires j < |ns| && Below(ns, |saved|)
    ensures ns[j] < |saved| && Places(saved, ns)[j] == saved[ns[j]]
  {
    if j == |ns| - 1 {
    } else {
      PlaceAt(saved, ns[..|ns| - 1], j);
    }
  }

  lemma {:induction false} MoreSaved(saved: seq<Content>, more: seq<Content>, ns: seq<nat>)
    requires Below(ns, |saved|)
    ensures Places(saved + more, ns) == Places(saved, ns)
  {
    if ns == [] {
    } else {
      MoreSaved(saved, more, ns[..|ns| - 1]);
    }
  }

  lemma {:induction false} SavedCount(env: Env, s: State, es: seq<Event>)
    ensures |Saved(env, s, es)| == WriteCount(Persists(env, s, es))
  {
    if es == [] {
    } else {
      SavedCount(env, s, es[..|es| - 1]);
      var ios, io := Persists(env, s, es[..|es| - 1]), PersistOf(Exec(env, s, es[..|es| - 1]), es[|es| - 1]);
      if io == [] {
        assert ios + io == ios;
      } else {
        assert (ios + io)[..|ios|] == ios;
      }
    }
  }

  /** The contents that the places of the run hold. */
  function Rotated(env: Env, s: State, es: seq<Event>): seq<Content> {
    SavedCount(env, s, es);
    Places(Saved(env, s, es), Numbers(Persists(env, s, es)))
  }

  /** What one persist adds to them. */
  function Pushed(cs: seq<Content>, f: RuntimeFile, io: IO): seq<Content> {
    if !io.dirOk then cs
    else if io.writeOk then cs + [Marshal(f)]
    else if cs == [] then cs
    else cs + [cs[|cs| - 1]]
  }

  lemma PlacesPush(saved: seq<Content>, ios: seq<IO>, f: RuntimeFile, io: IO)
    requires |saved| == WriteCount(ios)
    ensures var more := if io.dirOk && io.writeOk then [Marshal(f)] else [];
            && |saved + more| == WriteCount(ios + [io])
            && Places(saved + more, Numbers(ios + [io])) == Pushed(Places(saved, Numbers(ios)), f, io)
  {
    var ns := Numbers(ios);
    assert (ios + [io])[..|ios|] == ios;
    if io.dirOk && io.writeOk {
      MoreSaved(saved, [Marshal(f)], ns);
      assert (ns + [|saved|])[..|ns|] == ns;
    } else if io.dirOk && ns != [] {
      assert (ns + [ns[|ns| - 1]])[..|ns|] == ns;
    }
    assert saved + [] == saved;
  }

  lemma RotatedStep(env: Env, s: State, es: seq<Event>)
    requires es != []
    ensures var before, e := Exec(env, s, es[..|es| - 1]), es[|es| - 1];
            Rotated(env, s, es) ==
            if PersistOf(before, e) == [] then Rotated(env, s, es[..|es| - 1])
            else Pushed(Rotated(env, s, es[..|es| - 1]), Target(before, e), e.io)
  {
    var pre := es[..|es| - 1];
    var before, e := Exec(env, s, pre), es[|es| - 1];
    SavedCount(env, s, pre);
    if PersistOf(before, e) == [] {
      assert Persists(env, s, es) == Persists(env, s, pre) && Saved(env, s, es) == Saved(env, s, pre);
    } else {
      PlacesPush(Saved(env, s, pre), Persists(env, s, pre), Target(before, e), e.io);
    }
  }

  lemma PersistKeeps(d: Disk, cs: seq<Content>, f: RuntimeFile, io: IO)
    requires Keeps(d, cs) && io.copies.NoFault?
    ensures Keeps(Persist(d, f, io).0, Pushed(cs, f, io))
    ensures NoMore(d, cs) ==> NoMore(Persist(d, f, io).0, Pushed(cs, f, io))
  {
    RotateShifts(d, cs);
  }

  lemma StepDisk(env: Env, s: State, e: Event)
    requires CleanIO(e)
    ensures Next(env, s, e).disk == if PersistOf(s, e) == [] then s.disk else Persist(s.disk, Target(s, e), e.io).0
  {}

  /**
   From any state, whatever failed or was edited before: after a run of saves, restores and reloads
   whose backup copies work, slot i holds what the i-th last place of the run holds.
   */
  lemma {:induction false} RecentVersionsAreKept(env: Env, s: State, es: seq<Event>)
    requires forall i :: 0 <= i < |es| ==> CleanIO(es[i])
    ensures Keeps(Exec(env, s, es).disk, Rotated(env, s, es))
    ensures s.disk == map[] ==> NoMore(Exec(env, s, es).disk, Rotated(env, s, es))
  {
    if es == [] {
    } else {
      var pre, e := es[..|es| - 1], es[|es| - 1];
      RecentVersionsAreKept(env, s, pre);
      var before := Exec(env, s, pre);
      assert CleanIO(e);
      StepDisk(env, before, e);
      RotatedStep(env, s, es);
      if PersistOf(before, e) != [] {
        PersistKeeps(before.disk, Rotated(env, s, pre), Target(before, e), e.io);
      }
    }
  }

  /** The i-th last element. */
  function Back(ns: seq<nat>, i: nat): nat
    requires i < |ns|
  {
    ns[|ns| - 1 - i]
  }

  /** Slot i holds the version that the i-th last place has, if the run has reached it. */
  ghost predicate SlotIs(d: Disk, saved: seq<Content>, ns: seq<nat>, i: nat) {
    i <= RUNTIME_BACKUP_COUNT && i < |ns| ==> i in d && Back(ns, i) < |saved| && d[i] == saved[Back(ns, i)]
  }

  /**
   On any directory, after a run whose backup copies work: the current file is the last version
   written, and each slot that was reached holds the version with the slot's number. On an empty
   directory the other slots are empty.
   */
  lemma BackupsHoldTheLastVersions(env: Env, s: State, es: seq<Event>, i: nat)
    requires forall j :: 0 <= j < |es| ==> CleanIO(es[j])
    ensures var d, saved, ns := Exec(env, s, es).disk, Saved(env, s, es), Numbers(Persists(env, s, es));
            && SlotIs(d, saved, ns, i) && (saved != [] ==> ns != [] && Back(ns, 0) == |saved| - 1)
            && (s.disk == map[] && i in d ==> i <= RUNTIME_BACKUP_COUNT && i < |ns|)
  {
    RecentVersionsAreKept(env, s, es);
    NumberedPlaces(env, s, es, i);
  }

  lemma NumberedPlaces(env: Env, s: State, es: seq<Event>, i: nat)
    ensures var saved, ns, cs := Saved(env, s, es), Numbers(Persists(env, s, es)), Rotated(env, s, es);
            |cs| == |ns| && (i < |ns| ==> Back(ns, i) < |saved| && cs[|cs| - 1 - i] == saved[Back(ns, i)])
            && (ns != [] <==> saved != []) && (ns != [] ==> Back(ns, 0) == |saved| - 1)
  {
    SavedCount(env, s, es);
    var saved, ns := Saved(env, s, es), Numbers(Persists(env, s, es));
    if i < |ns| {
      PlaceAt(saved, ns, |ns| - 1 - i);
    }
  }

  /** The last m + 1 places hold the last m + 1 versions. */
  ghost predicate Recent(ns: seq<nat>, m: nat) {
    m < |ns| && forall i :: 0 <= i <= m ==> Back(ns, i) == Back(ns, 0) - i
  }

  lemma RecentAppend(ns: seq<nat>, n: nat, m: nat)
    requires ns != [] && n == Back(ns, 0) + 1 && m > 0
    ensures Recent(ns + [n], m) <==> Recent(ns, m - 1)
  {
    var more := ns + [n];
    if Recent(more, m) {
      forall i | 0 <= i <= m - 1 ensures Back(ns, i) == Back(ns, 0) - i {
        assert Back(more, i + 1) == Back(ns, i);
      }
    }
    if Recent(ns, m - 1) {
      forall i | 0 <= i <= m ensures Back(more, i) == n - i {
        assert i > 0 ==> Back(more, i) == Back(ns, i - 1);
      }
    }
  }

  lemma NotRecentTwice(ns: seq<nat>, m: nat)
    requires ns != [] && m > 0
    ensures !Recent(ns + [Back(ns, 0)], m)
  {
    assert Back(ns + [Back(ns, 0)], 1) == Back(ns + [Back(ns, 0)], 0);
  }

  lemma {:induction false} RecentIff(ios: seq<IO>, m: nat)
    requires m < WriteCount(ios)
    ensures Recent(Numbers(ios), m) <==> WritesSinceFailure(ios) >= m
  {
    var pre, io := ios[..|ios| - 1], ios[|ios| - 1];
    var ns := Numbers(pre);
    if !io.dirOk {
      RecentIff(pre, m);
    } else if m > 0 && io.writeOk {
      RecentIff(pre, m - 1);
      RecentAppend(ns, WriteCount(pre), m);
    } else if m > 0 {
      NotRecentTwice(ns, m);
    }
  }

  /** How many backups of the last version there can be at most. */
  function BackupsOf(ios: seq<IO>): nat {
    var n := WriteCount(ios);
    if n == 0 then 0 else if n - 1 < RUNTIME_BACKUP_COUNT then n - 1 else RUNTIME_BACKUP_COUNT
  }

  /**
   The last three versions before the current one (all of them, if there are fewer) are in the
   backup slots, in order, exactly if as many persists have written since the last one that
   rotated the backups and could not write.
   */
  lemma LastBackupsAreKeptIff(ios: seq<IO>)
    requires WriteCount(ios) > 0
    ensures BackupsOf(ios) < |Numbers(ios)|
    ensures (forall i :: 0 <= i <= BackupsOf(ios) ==> Back(Numbers(ios), i) == WriteCount(ios) - 1 - i) <==>
            WritesSinceFailure(ios) >= BackupsOf(ios)
  {
    RecentIff(ios, BackupsOf(ios));
    EnoughPlaces(ios);
    assert Back(Numbers(ios), 0) == WriteCount(ios) - 1;
  }

  lemma {:induction false} EnoughPlaces(ios: seq<IO>)
    ensures |Numbers(ios)| >= WriteCount(ios)
  {
    if ios == [] {
    } else {
      EnoughPlaces(ios[..|ios| - 1]);
    }
  }

  /** Slot i holds the version i before the last. */
  predicate HoldsVersion(d: Disk, saved: seq<Content>, i: nat) {
    i < |saved| && At(d, i) == Some(saved[|saved| - 1 - i])
  }

  ghost predicate AllDiffer(saved: seq<Content>) {
    forall a, b :: 0 <= a < b < |saved| ==> saved[a] != saved[b]
  }

  lemma SlotHoldsIff(d: Disk, saved: seq<Content>, ios: seq<IO>, i: nat)
    requires AllDiffer(saved) && |saved| == WriteCount(ios) > 0
    requires SlotIs(d, saved, Numbers(ios), i) && i <= BackupsOf(ios) < |Numbers(ios)|
    ensures HoldsVersion(d, saved, i) <==> Back(Numbers(ios), i) == |saved| - 1 - i
  {}

  /** The current file and its backups are the last versions, in order. */
  ghost predicate HoldsLastVersions(d: Disk, saved: seq<Content>, backups: nat) {
    forall i :: 0 <= i <= backups ==> HoldsVersion(d, saved, i)
  }

  lemma SlotsHoldIff(d: Disk, saved: seq<Content>, ios: seq<IO>)
    requires AllDiffer(saved) && |saved| == WriteCount(ios) > 0 && AllSlots(d, saved, Numbers(ios))
    ensures HoldsLastVersions(d, saved, BackupsOf(ios)) <==> WritesSinceFailure(ios) >= BackupsOf(ios)
  {
    LastBackupsAreKeptIff(ios);
    forall i | 0 <= i <= BackupsOf(ios)
      ensures HoldsVersion(d, saved, i) <==> Back(Numbers(ios), i) == |saved| - 1 - i
    {
      SlotHoldsIff(d, saved, ios, i);
    }
  }

  ghost predicate AllSlots(d: Disk, saved: seq<Content>, ns: seq<nat>) {
    forall i: nat :: SlotIs(d, saved, ns, i)
  }

  lemma AllSlotsHold(env: Env, s: State, es: seq<Event>)
    requires forall j :: 0 <= j < |es| ==> CleanIO(es[j])
    ensures AllSlots(Exec(env, s, es).disk, Saved(env, s, es), Numbers(Persists(env, s, es)))
  {
    forall i: nat ensures SlotIs(Exec(env, s, es).disk, Saved(env, s, es), Numbers(Persists(env, s, es)), i) {
      BackupsHoldTheLastVersions(env, s, es, i);
    }
  }

  /**
   So on any directory, when the versions of the run all differ: the slots hold the last versions
   in order exactly under that condition.
   */
  lemma LastVersionsAreOnDiskIff(env: Env, s: State, es: seq<Event>)
    requires forall j :: 0 <= j < |es| ==> CleanIO(es[j])
    requires AllDiffer(Saved(env, s, es)) && Saved(env, s, es) != []
    ensures var ios := Persists(env, s, es);
            HoldsLastVersions(Exec(env, s, es).disk, Saved(env, s, es), BackupsOf(ios)) <==>
            WritesSinceFailure(ios) >= BackupsOf(ios)
  {
    SavedCount(env, s, es);
    AllSlotsHold(env, s, es);
    SlotsHoldIff(Exec(env, s, es).disk, Saved(env, s, es), Persists(env, s, es));
  }

  // ----- Whatever fails -----

  /** How many slots, from the current file on, surely hold the last versions after one more step. */
  function SureAfter(sure: nat, s: State, e: Event): nat {
    if e.Edit? then 0
    else if PersistOf(s, e) == [] || !e.io.dirOk then sure
    else if !e.io.writeOk then (if sure == 0 then 0 else 1)
    else if e.io.copies.NoFault? then sure + 1
    else 1
  }

  function Sure(env: Env, s: State, es: seq<Event>): nat {
    if es == [] then 0 else SureAfter(Sure(env, s, es[..|es| - 1]), Exec(env, s, es[..|es| - 1]), es[|es| - 1])
  }

  /** The first sure slots hold the last of the versions, as many as there are slots. */
  ghost predicate Holds(d: Disk, saved: seq<Content>, sure: nat) {
    sure <= |saved| && forall i: nat :: i < sure && i <= RUNTIME_BACKUP_COUNT ==> HoldsVersion(d, saved, i)
  }

  lemma PersistHolds(d: Disk, saved: seq<Content>, sure: nat, f: RuntimeFile, io: IO)
    requires Holds(d, saved, sure) && io.dirOk
    ensures var r := Persist(d, f, io).0;
            if !io.writeOk then Holds(r, saved, if sure == 0 then 0 else 1)
            else if io.copies.NoFault? then Holds(r, saved + [Marshal(f)], sure + 1)
            else Holds(r, saved + [Marshal(f)], 1)
  {
    RotateKeepsCurrent(d, RUNTIME_BACKUP_COUNT, io.copies);
    if !io.writeOk && sure > 0 {
      assert HoldsVersion(d, saved, 0);
    } else if io.writeOk && io.copies.NoFault? {
      CleanPersistHolds(d, saved, sure, f);
    }
  }

  lemma CleanPersistHolds(d: Disk, saved: seq<Content>, sure: nat, f: RuntimeFile)
    requires Holds(d, saved, sure)
    ensures Holds(Rotate(d, RUNTIME_BACKUP_COUNT, NoFault)[0 := Marshal(f)], saved + [Marshal(f)], sure + 1)
  {
    var cs, c := saved[|saved| - sure..], Marshal(f);
    forall i: nat | i <= RUNTIME_BACKUP_COUNT && i < |cs| ensures i in d && d[i] == cs[|cs| - 1 - i] {
      assert HoldsVersion(d, saved, i);
    }
    RotateShifts(d, cs);
    var r := Rotate(d, RUNTIME_BACKUP_COUNT, NoFault)[0 := c];
    assert Keeps(r, cs + [c]);
    forall i: nat | i < sure + 1 && i <= RUNTIME_BACKUP_COUNT ensures HoldsVersion(r, saved + [c], i) {
      assert (cs + [c])[sure - i] == (saved + [c])[|saved| - i];
    }
  }

  /** One step keeps the versions that are sure after it. */
  lemma StepHolds(env: Env, before: State, e: Event, saved: seq<Content>, sure: nat)
    requires Holds(before.disk, saved, sure)
    ensures Holds(Next(env, before, e).disk, saved + SavedBy(before, e), SureAfter(sure, before, e))
  {
    assert saved + [] == saved;
    if PersistOf(before, e) != [] {
      PersistDisk(env, before, e);
      if e.io.dirOk {
        PersistHolds(before.disk, saved, sure, Target(before, e), e.io);
      }
    }
  }

  /**
   From any state, whatever fails and whoever edits the file: the current file and its backups are
   the last versions as far as persists have worked completely since the last fault or edit.
   */
  lemma {:induction false} SureVersionsAreKept(env: Env, s: State, es: seq<Event>)
    ensures Holds(Exec(env, s, es).disk, Saved(env, s, es), Sure(env, s, es))
  {
    if es == [] {
    } else {
      var pre := es[..|es| - 1];
      SureVersionsAreKept(env, s, pre);
      StepHolds(env, Exec(env, s, pre), es[|es| - 1], Saved(env, s, pre), Sure(env, s, pre));
    }
  }

  lemma PersistDisk(env: Env, s: State, e: Event)
    requires PersistOf(s, e) != []
    ensures Next(env, s, e).disk == Persist(s.disk, Target(s, e), e.io).0
  {}

  const WORKS := IO(true, NoFault, true)
  const JAMS := IO(true, NoFault, false)

  /** Three saves that rotate and cannot write: every slot holds the current version, and all others are lost. */
  lemma FailedSavesLoseBackups(env: Env, s: State, patch: RuntimeFile, now: string, i: nat)
    requires 0 in s.disk && i <= RUNTIME_BACKUP_COUNT
    ensures var e := Save(patch, now, JAMS);
            var t := Exec(env, s, [e, e, e]);
            t == s.(disk := t.disk) && i in t.disk && t.disk[i] == s.disk[0]
  {
    var e, c := Save(patch, now, JAMS), s.disk[0];
    var s1 := Next(env, s, e);
    var s2 := Next(env, s1, e);
    ThreeSteps(env, s, e, e, e);
    var f := Merged(s.file, patch, now);
    PersistKeeps(s.disk, [c], f, JAMS);
    PersistKeeps(s1.disk, [c, c], f, JAMS);
    PersistKeeps(s2.disk, [c, c, c], f, JAMS);
    assert Pushed([c, c, c], f, JAMS)[3 - i] == c;
  }

  /**
   Restoring any slot and then slot 1 brings back the overlay of the current file as it was, and
   the recomputed options with it. A HA key comes back only if that overlay has it: otherwise it
   keeps the value of the slot, or if that has none its own.
   */
  lemma RestoreThenUndo(env: Env, s: State, slot: int)
    requires 0 in s.disk && s.disk[0].Doc? && RestoreProblem(s, slot).None?
    ensures var t := Next(env, Next(env, s, Restore(slot, WORKS)), Restore(1, WORKS));
            var f, g := s.disk[0].file, s.disk[slot].file;
            && t.file == f && 0 in t.disk && t.disk[0] == Marshal(f)
            && Effective(env, t)
            && t.live.haDiscovery == Or(f.haDiscovery, Or(g.haDiscovery, s.live.haDiscovery))
            && t.live.haButtons == Or(f.haButtons, Or(g.haButtons, s.live.haButtons))
            && t.live.haSwitches == Or(f.haSwitches, Or(g.haSwitches, s.live.haSwitches))
            && t.live.haPrefix == AppliedPrefix(Applied(env, s.live, g), f)
  {
    RotateMovesCurrent(s.disk);
  }

  /** If the current file is the manager's own, it comes back, and the overlay in memory exactly if no list is empty. */
  lemma RestoreThenUndoOwnFile(env: Env, s: State, slot: int)
    requires 0 in s.disk && s.disk[0] == Marshal(s.file) && RestoreProblem(s, slot).None?
    ensures var t := Next(env, Next(env, s, Restore(slot, WORKS)), Restore(1, WORKS));
            0 in t.disk && t.disk[0] == s.disk[0] && (t.file == s.file <==> NoEmptyLists(s.file))
  {
    RotateMovesCurrent(s.disk);
  }

  lemma RotateMovesCurrent(d: Disk)
    requires 0 in d
    ensures var r := Rotate(d, RUNTIME_BACKUP_COUNT, NoFault); 1 in r && r[1] == d[0] && 0 in r && r[0] == d[0]
  {
    var d3 := if 2 in d then d[3 := d[2]] else d;
    var d2 := if 1 in d3 then d3[2 := d3[1]] else d3;
    assert Rotate(d, 3, NoFault) == Rotate(d3, 2, NoFault) == Rotate(d2, 1, NoFault)
        == Rotate(d2[1 := d2[0]], 0, NoFault);
  }

  // ----- What the options depend on -----

  /** The options that every apply recomputes. */
  datatype EnvBacked = EnvBacked(
    names: map<string, string>,
    ignored: set<string>,
    hwids: map<string, string>,
    tokens: seq<APIToken>,
    hooks: seq<Webhook>)

  /** What env and an overlay make of them. */
  function Overlaid(env: Env, f: RuntimeFile): EnvBacked {
    EnvBacked(Options.ColonMap(Or(f.friendlyNames, env.friendlyNames)),
              Options.IgnoreSet(Or(f.ignoreList, env.ignoreList)),
              Options.ColonMap(Or(f.hwidMap, env.hwidMap)),
              if f.apiTokens.Some? then Usable(f.apiTokens.value) else env.apiTokens,
              Or(f.webhooks, env.webhooks))
  }

  function InForce(o: Live): EnvBacked {
    EnvBacked(o.names, o.ignored, o.hwids, o.tokens, o.hooks)
  }

  /** The recomputed options and the sources are those of env and the overlay in memory. */
  predicate Effective(env: Env, s: State) {
    s.sources == Owned(s.file) && InForce(s.live) == Overlaid(env, s.file)
  }

  lemma AppliedIsOverlaid(env: Env, o: Live, f: RuntimeFile)
    ensures InForce(Applied(env, o, f)) == Overlaid(env, f)
  {}

  lemma StartIsOverlaid(env: Env)
    ensures InForce(Start(env)) == Overlaid(env, EMPTY_FILE) && ALL_ENV == Owned(EMPTY_FILE)
  {}

  /** Whether the step applies an overlay to the options. */
  predicate Applies(s: State, e: Event) {
    match e
    case Save(_, _, io) => io.dirOk && io.writeOk
    case Restore(slot, io) => RestoreProblem(s, slot).None? && io.dirOk && io.writeOk
    case Read => false
    case Apply => s.reading.Some? && s.reading.value.Some? && Loaded(s.reading.value.value).Some?
    case Edit(_) => false
  }

  /** The step applies a reading for which there was no file. */
  predicate MissesTheFile(s: State, e: Event) {
    e.Apply? && s.reading == Some(None)
  }

  /** The overlays that the run applied, in order. */
  function AppliedFiles(env: Env, s: State, es: seq<Event>): seq<RuntimeFile> {
    if es == [] then [] else
    var fs := AppliedFiles(env, s, es[..|es| - 1]);
    if Applies(Exec(env, s, es[..|es| - 1]), es[|es| - 1]) then fs + [Exec(env, s, es).file] else fs
  }

  function LastApplied(fs: seq<RuntimeFile>): RuntimeFile {
    if fs == [] then EMPTY_FILE else fs[|fs| - 1]
  }

  /** Some reload has found no file since the run last applied an overlay. */
  predicate MissedSince(env: Env, s: State, es: seq<Event>) {
    es != [] &&
    var before, e := Exec(env, s, es[..|es| - 1]), es[|es| - 1];
    MissesTheFile(before, e) || (!Applies(before, e) && MissedSince(env, s, es[..|es| - 1]))
  }

  /** A step applies the file it ends with, loses the overlay, or leaves overlay, sources and options alone. */
  lemma StepShape(env: Env, s: State, e: Event)
    ensures var t := Next(env, s, e);
            if Applies(s, e) then t.live == Applied(env, s.live, t.file) && t.sources == Owned(t.file)
            else if MissesTheFile(s, e) then t.live == s.live && t.file == EMPTY_FILE && t.sources == ALL_ENV
            else t.live == s.live && t.file == s.file && t.sources == s.sources
  {}

  /**
   After any history on any directory, names, ignore list, HWID map, tokens and webhooks are those
   of env and the overlay that was applied last. The sources are those of the overlay in memory,
   and this one is the overlay applied last unless a reload has found no file since.
   */
  lemma {:induction false} OptionsAreThoseOfTheLastApplied(env: Env, d: Disk, es: seq<Event>)
    ensures var s, last := Exec(env, Fresh(env, d), es), LastApplied(AppliedFiles(env, Fresh(env, d), es));
            && InForce(s.live) == Overlaid(env, last)
            && s.sources == Owned(s.file)
            && s.file == if MissedSince(env, Fresh(env, d), es) then EMPTY_FILE else last
  {
    StartIsOverlaid(env);
    if es == [] {
    } else {
      var before, e := Exec(env, Fresh(env, d), es[..|es| - 1]), es[|es| - 1];
      OptionsAreThoseOfTheLastApplied(env, d, es[..|es| - 1]);
      StepShape(env, before, e);
      AppliedIsOverlaid(env, before.live, Next(env, before, e).file);
    }
  }

  /**
   So they follow env and the overlay in memory exactly if no reload has found the file missing
   since an overlay was last applied, or if that overlay added nothing to env.
   */
  lemma OptionsFollowTheOverlayIff(env: Env, d: Disk, es: seq<Event>)
    ensures var s, fs := Exec(env, Fresh(env, d), es), AppliedFiles(env, Fresh(env, d), es);
            Effective(env, s) <==>
            !MissedSince(env, Fresh(env, d), es) || Overlaid(env, LastApplied(fs)) == Overlaid(env, EMPTY_FILE)
  {
    OptionsAreThoseOfTheLastApplied(env, d, es);
  }

  /**
   A reload that finds the file missing, whatever came before it, leaves them right exactly if the
   overlay applied last added nothing to env.
   */
  lemma MissingFileLeavesOptions(env: Env, d: Disk, es: seq<Event>)
    requires Exec(env, Fresh(env, d), es).reading == Some(None)
    ensures Effective(env, Next(env, Exec(env, Fresh(env, d), es), Apply)) <==>
            Overlaid(env, LastApplied(AppliedFiles(env, Fresh(env, d), es))) == Overlaid(env, EMPTY_FILE)
  {
    OptionsAreThoseOfTheLastApplied(env, d, es);
    StepShape(env, Exec(env, Fresh(env, d), es), Apply);
    StartIsOverlaid(env);
  }

  /** Names are saved, the file disappears, and a reload finds it missing: the names stay in force without owner. */
  lemma LostNamesStay(env: Env, s: State, names: string) returns (es: seq<Event>)
    requires s.file == EMPTY_FILE
    ensures es == [Save(EMPTY_FILE.(friendlyNames := Some(names)), "t1", WORKS)] + [Edit(None)] + [Read] + [Apply]
    ensures var t := Exec(env, s, es);
            t.file == EMPTY_FILE && t.sources == ALL_ENV && t.live.names == Options.ColonMap(names)
  {
    es := Then(env, s, [], Save(EMPTY_FILE.(friendlyNames := Some(names)), "t1", WORKS));
    NamesAreSaved(env, s, names);
    FileVanishes(env, Exec(env, s, es));
    es := Then(env, s, es, Edit(None));
    es := Then(env, s, es, Read);
    es := Then(env, s, es, Apply);
  }

  lemma NamesAreSaved(env: Env, s: State, names: string)
    requires s.file == EMPTY_FILE
    ensures var save := Save(EMPTY_FILE.(friendlyNames := Some(names)), "t1", WORKS);
            Next(env, s, save).live.names == Options.ColonMap(names)
  {
    var f := EMPTY_FILE.(friendlyNames := Some(names));
    SaveStep(env, s, Save(f, "t1", WORKS), f.(updatedAt := "t1"));
  }

  lemma FileVanishes(env: Env, s: State)
    ensures var t := Next(env, Next(env, Next(env, s, Edit(None)), Read), Apply);
            t.file == EMPTY_FILE && t.sources == ALL_ENV && t.live == s.live
  {}

  /** A run extended by one step. */
  lemma Then(env: Env, s: State, es: seq<Event>, e: Event) returns (fs: seq<Event>)
    ensures fs == es + [e] && Exec(env, s, fs) == Next(env, Exec(env, s, es), e)
  {
    fs := es + [e];
    assert fs[..|es|] == es;
  }

  // ----- The home-assistant keys -----

  /** The value of a key in the last overlay of fs that has it. */
  function LastPresent<T>(fs: seq<RuntimeFile>, key: RuntimeFile -> Option<T>): Option<T> {
    if fs == [] then None else Later(key(fs[|fs| - 1]), LastPresent(fs[..|fs| - 1], key))
  }

  /** Discovery was on after one of the applies. */
  predicate EverOn(env: Env, fs: seq<RuntimeFile>) {
    fs != [] &&
    (EverOn(env, fs[..|fs| - 1]) || Or(LastPresent(fs, (f: RuntimeFile) => f.haDiscovery), env.haDiscovery))
  }

  /** A blank prefix of env gives way to the default once discovery is on. */
  ghost predicate Remembered(env: Env, o: Live, fs: seq<RuntimeFile>) {
    && o.haDiscovery == Or(LastPresent(fs, (f: RuntimeFile) => f.haDiscovery), env.haDiscovery)
    && o.haButtons == Or(LastPresent(fs, (f: RuntimeFile) => f.haButtons), env.haButtons)
    && o.haSwitches == Or(LastPresent(fs, (f: RuntimeFile) => f.haSwitches), env.haSwitches)
    && o.haPrefix ==
       match LastPresent(fs, (f: RuntimeFile) => f.haPrefix)
       case Some(p) => Prefix(p)
       case None => if TrimSpace(env.haPrefix) == "" && EverOn(env, fs) then DEFAULT_PREFIX else env.haPrefix
  }

  lemma PrefixIsNotBlank(raw: string)
    ensures TrimSpace(Prefix(raw)) != "" && TrimSpace(DEFAULT_PREFIX) != ""
  {
    TrimmedStays(DEFAULT_PREFIX);
    TrimmedStays(TrimSpace(raw));
  }

  lemma LastPresentAppend<T>(fs: seq<RuntimeFile>, f: RuntimeFile, key: RuntimeFile -> Option<T>)
    ensures LastPresent(fs + [f], key) == Later(key(f), LastPresent(fs, key))
  {
    assert (fs + [f])[..|fs|] == fs;
  }

  lemma RememberedStep(env: Env, o: Live, fs: seq<RuntimeFile>, f: RuntimeFile)
    requires Remembered(env, o, fs)
    ensures Remembered(env, Applied(env, o, f), fs + [f])
  {
    LastPresentAppend(fs, f, (f: RuntimeFile) => f.haDiscovery);
    LastPresentAppend(fs, f, (f: RuntimeFile) => f.haButtons);
    LastPresentAppend(fs, f, (f: RuntimeFile) => f.haSwitches);
    LastPresentAppend(fs, f, (f: RuntimeFile) => f.haPrefix);
    PrefixIsNotBlank(if f.haPrefix.Some? then f.haPrefix.value else "");
    var before := LastPresent(fs, (f: RuntimeFile) => f.haPrefix);
    PrefixIsNotBlank(if before.Some? then before.value else "");
    assert (fs + [f])[..|fs|] == fs;
  }

  /** The HA keys remember the last overlay that had them, even when it is gone. */
  lemma {:induction false} HAKeysRememberTheLastOverlay(env: Env, d: Disk, es: seq<Event>)
    ensures Remembered(env, Exec(env, Fresh(env, d), es).live, AppliedFiles(env, Fresh(env, d), es))
  {
    if es == [] {
    } else {
      var pre := es[..|es| - 1];
      HAKeysRememberTheLastOverlay(env, d, pre);
      StepShape(env, Exec(env, Fresh(env, d), pre), es[|es| - 1]);
      RememberedStep(env, Exec(env, Fresh(env, d), pre).live, AppliedFiles(env, Fresh(env, d), pre),
                     Exec(env, Fresh(env, d), es).file);
    }
  }

  /**
   So they are no function of env and overlay: restoring a backup that lacks ha_buttons gives
   the overlay of the backup with the buttons of the overlay it replaced.
   */
  lemma RestoreDoesNotReleaseButtons(env: Env, buttons: string) returns (es: seq<Event>)
    ensures es == [Save(EMPTY_FILE, "t1", WORKS), Save(EMPTY_FILE.(haButtons := Some(buttons)), "t2", WORKS),
                   Restore(1, WORKS)]
    ensures var s := Exec(env, Fresh(env, map[]), es);
            s.file == EMPTY_FILE.(updatedAt := "t1") && !s.sources.haButtons && s.live.haButtons == buttons
  {
    var e1 := Save(EMPTY_FILE, "t1", WORKS);
    var e2 := Save(EMPTY_FILE.(haButtons := Some(buttons)), "t2", WORKS);
    es := [e1, e2, Restore(1, WORKS)];
    var f1 := EMPTY_FILE.(updatedAt := "t1");
    var f2 := f1.(haButtons := Some(buttons), updatedAt := "t2");
    RotateEmpty();
    var s1 := WithApplied(env, Fresh(env, map[]), map[0 := Marshal(f1)], f1);
    ThreeSteps(env, Fresh(env, map[]), e1, e2, Restore(1, WORKS));
    SaveStep(env, Fresh(env, map[]), e1, f1);
    RotateMovesCurrent(s1.disk);
    SaveStep(env, s1, e2, f2);
    var s2 := Next(env, s1, e2);
    RestoreStep(env, s2, 1, f1);
  }

  lemma ThreeSteps(env: Env, s: State, a: Event, b: Event, c: Event)
    ensures Exec(env, s, [a, b, c]) == Next(env, Next(env, Next(env, s, a), b), c)
  {
    assert [a, b, c][..2] == [a, b] && [a, b][..1] == [a] && [a][..0] == [];
    assert Exec(env, s, [a]) == Next(env, s, a);
    assert Exec(env, s, [a, b]) == Next(env, Exec(env, s, [a]), b);
  }

  lemma SaveStep(env: Env, s: State, e: Event, f: RuntimeFile)
    requires e.Save? && e.io == WORKS && f == Merged(s.file, e.patch, e.now)
    ensures Next(env, s, e) == WithApplied(env, s, Rotate(s.disk, 3, NoFault)[0 := Marshal(f)], f)
  {}

  lemma RestoreStep(env: Env, s: State, slot: nat, f: RuntimeFile)
    requires 1 <= slot <= 3 && slot in s.disk && s.disk[slot] == Doc(f)
    ensures Next(env, s, Restore(slot, WORKS)) == WithApplied(env, s, Rotate(s.disk, 3, NoFault)[0 := Marshal(f)], f)
  {}

  lemma RotateEmpty()
    ensures Rotate(map[], RUNTIME_BACKUP_COUNT, NoFault) == map[]
  {
    var d: Disk := map[];
    assert Rotate(d, 3, NoFault) == Rotate(d, 2, NoFault) == Rotate(d, 1, NoFault) == Rotate(d, 0, NoFault);
  }

  /** Once any overlay has been applied, discovery is never on with a blank prefix. */
  lemma {:induction false} DiscoveryHasAPrefix(env: Env, d: Disk, es: seq<Event>)
    requires AppliedFiles(env, Fresh(env, d), es) != []
    ensures var o := Exec(env, Fresh(env, d), es).live; o.haDiscovery ==> TrimSpace(o.haPrefix) != ""
  {
    var pre := es[..|es| - 1];
    StepShape(env, Exec(env, Fresh(env, d), pre), es[|es| - 1]);
    if Applies(Exec(env, Fresh(env, d), pre), es[|es| - 1]) {
      PrefixIsNotBlank("");
    } else {
      DiscoveryHasAPrefix(env, d, pre);
    }
  }

  // ----- What a save sets -----

  datatype Value =
    | OfText(text: string)
    | OfFlag(flag: bool)
    | OfTokens(tokens: seq<APIToken>)
    | OfHooks(hooks: seq<Webhook>)

  /** The value of a key in an overlay, if it has one. */
  function Get(f: RuntimeFile, k: Key): Option<Value> {
    match k
    case FriendlyNames => if f.friendlyNames.Some? then Some(OfText(f.friendlyNames.value)) else None
    case IgnoreList => if f.ignoreList.Some? then Some(OfText(f.ignoreList.value)) else None
    case HWIDMap => if f.hwidMap.Some? then Some(OfText(f.hwidMap.value)) else None
    case APITokens => if f.apiTokens.Some? then Some(OfTokens(f.apiTokens.value)) else None
    case HADiscovery => if f.haDiscovery.Some? then Some(OfFlag(f.haDiscovery.value)) else None
    case HADiscoveryPrefix => if f.haPrefix.Some? then Some(OfText(f.haPrefix.value)) else None
    case HAButtons => if f.haButtons.Some? then Some(OfText(f.haButtons.value)) else None
    case HASwitches => if f.haSwitches.Some? then Some(OfText(f.haSwitches.value)) else None
    case Webhooks => if f.webhooks.Some? then Some(OfHooks(f.webhooks.value)) else None
  }

  /** A given value as it is kept: the prefix without outer space, or the default if it is blank. */
  function Normal(k: Key, v: Value): Value {
    if k == HADiscoveryPrefix && v.OfText?
    then OfText(if TrimSpace(v.text) == "" then "homeassistant" else TrimSpace(v.text))
    else v
  }

  predicate IsEmptyList(v: Value) {
    v == OfTokens([]) || v == OfHooks([])
  }

  /** The option that a key drives shows the value. */
  ghost predicate Shows(o: Live, k: Key, v: Value) {
    match k
    case FriendlyNames => v.OfText? && o.names == Options.ColonMap(v.text)
    case IgnoreList => v.OfText? && o.ignored == Options.IgnoreSet(v.text)
    case HWIDMap => v.OfText? && o.hwids == Options.ColonMap(v.text)
    case APITokens => v.OfTokens? && o.tokens == Usable(v.tokens)
    case HADiscovery => v == OfFlag(o.haDiscovery)
    case HADiscoveryPrefix => v == OfText(o.haPrefix)
    case HAButtons => v == OfText(o.haButtons)
    case HASwitches => v == OfText(o.haSwitches)
    case Webhooks => v == OfHooks(o.hooks)
  }

  /**
   After a save that was written, every key that the patch has carries the patch's value in the
   overlay, in the file up to an empty list, and in the options; every other key keeps the value
   that it had in the overlay.
   */
  lemma SaveSetsEachKey(env: Env, s: State, patch: RuntimeFile, now: string, io: IO, k: Key)
    requires io.dirOk && io.writeOk
    ensures var t := Next(env, s, Save(patch, now, io));
            && Get(t.file, k) == (if Get(patch, k).Some? then Some(Normal(k, Get(patch, k).value)) else Get(s.file, k))
            && At(t.disk, 0).Some? && At(t.disk, 0).value.Doc?
            && (var v := Get(t.file, k);
                Get(At(t.disk, 0).value.file, k) == if v.Some? && IsEmptyList(v.value) then None else v)
            && t.file.version == 1 && t.file.updatedAt == now
  {
    var t := Next(env, s, Save(patch, now, io));
    MergedGets(s.file, patch, now, k);
    MarshalledGets(t.file, k);
  }

  lemma MergedGets(f: RuntimeFile, patch: RuntimeFile, now: string, k: Key)
    ensures Get(Merged(f, patch, now), k) ==
            if Get(patch, k).Some? then Some(Normal(k, Get(patch, k).value)) else Get(f, k)
  {}

  lemma MarshalledGets(f: RuntimeFile, k: Key)
    ensures var v := Get(f, k); Get(OmitEmpty(f), k) == if v.Some? && IsEmptyList(v.value) then None else v
  {}

  /** The options show every key of the overlay once it has been applied. */
  lemma AppliedShows(env: Env, o: Live, f: RuntimeFile, k: Key)
    requires Get(f, k).Some?
    ensures Shows(Applied(env, o, f), k, Normal(k, Get(f, k).value))
  {
    if k == HADiscoveryPrefix {
      AppliedShowsPrefix(env, o, f);
    }
  }

  lemma AppliedShowsPrefix(env: Env, o: Live, f: RuntimeFile)
    requires f.haPrefix.Some?
    ensures OfText(Applied(env, o, f).haPrefix) == Normal(HADiscoveryPrefix, OfText(f.haPrefix.value))
  {
    PrefixIsNotBlank(f.haPrefix.value);
  }

  /** So after a written save each key of the patch shows in the options with the patch's value. */
  lemma SaveShowsEachKey(env: Env, s: State, patch: RuntimeFile, now: string, io: IO, k: Key)
    requires io.dirOk && io.writeOk && Get(patch, k).Some?
    ensures Shows(Next(env, s, Save(patch, now, io)).live, k, Normal(k, Get(patch, k).value))
  {
    var f := Merged(s.file, patch, now);
    MergedGets(s.file, patch, now, k);
    AppliedShows(env, s.live, f, k);
    NormalTwice(k, Get(patch, k).value);
  }

  lemma NormalTwice(k: Key, v: Value)
    ensures Normal(k, Normal(k, v)) == Normal(k, v)
  {
    if v.OfText? {
      TrimmedStays(TrimSpace(v.text));
      TrimmedStays("homeassistant");
    }
  }

  /** The value that the last written save of the run gave to the key, if any did. */
  function LastGiven(es: seq<Event>, k: Key): Option<Value> {
    if es == [] then None else
    var e := es[|es| - 1];
    if e.Save? && e.io.dirOk && e.io.writeOk && Get(e.patch, k).Some?
    then Some(Normal(k, Get(e.patch, k).value))
    else LastGiven(es[..|es| - 1], k)
  }

  /** Over any run of saves, written or not, each key holds the last value that a written one gave it. */
  lemma {:induction false} EachKeyHoldsTheLastValue(env: Env, s: State, es: seq<Event>, k: Key)
    requires forall i :: 0 <= i < |es| ==> es[i].Save?
    ensures Get(Exec(env, s, es).file, k) == Later(LastGiven(es, k), Get(s.file, k))
  {
    if es == [] {
    } else {
      var pre, e := es[..|es| - 1], es[|es| - 1];
      EachKeyHoldsTheLastValue(env, s, pre, k);
      if e.io.dirOk && e.io.writeOk {
        SaveSetsEachKey(env, Exec(env, s, pre), e.patch, e.now, e.io, k);
      }
    }
  }

  /** A save that is not written leaves overlay, sources and options alone. */
  lemma FailedSaveChangesNothing(env: Env, s: State, patch: RuntimeFile, now: string, io: IO)
    requires !io.dirOk || !io.writeOk
    ensures var t := Next(env, s, Save(patch, now, io)); t == s.(disk := t.disk) && At(t.disk, 0) == At(s.disk, 0)
  {
    RotateKeepsCurrent(s.disk, RUNTIME_BACKUP_COUNT, io.copies);
  }

  function SourceOf(src: Sources, k: Key): bool {
    match k
    case FriendlyNames => src.friendlyNames
    case IgnoreList => src.ignoreList
    case HWIDMap => src.hwidMap
    case APITokens => src.apiTokens
    case HADiscovery => src.haDiscovery
    case HADiscoveryPrefix => src.haPrefix
    case HAButtons => src.haButtons
    case HASwitches => src.haSwitches
    case Webhooks => src.webhooks
  }

  /** In every run a key is owned by the runtime layer exactly if the overlay in memory has it. */
  lemma SourcesTellTheOwner(env: Env, d: Disk, es: seq<Event>, k: Key)
    ensures var s := Exec(env, Fresh(env, d), es); SourceOf(s.sources, k) <==> Get(s.file, k).Some?
  {
    OptionsAreThoseOfTheLastApplied(env, d, es);
  }

  /** The options show what the environment says of a key that is recomputed on every apply. */
  predicate ShowsEnv(env: Env, o: Live, k: Key)
    requires IsRecomputed(k)
  {
    match k
    case FriendlyNames => o.names == Options.ColonMap(env.friendlyNames)
    case IgnoreList => o.ignored == Options.IgnoreSet(env.ignoreList)
    case HWIDMap => o.hwids == Options.ColonMap(env.hwidMap)
    case APITokens => o.tokens == env.apiTokens
    case Webhooks => o.hooks == env.webhooks
  }

  predicate IsRecomputed(k: Key) {
    k == FriendlyNames || k == IgnoreList || k == HWIDMap || k == APITokens || k == Webhooks
  }

  /** In every run such a key shows the overlay applied last if that has the key, and else the environment. */
  lemma OverlayElseEnv(env: Env, d: Disk, es: seq<Event>, k: Key)
    requires IsRecomputed(k)
    ensures var s, last := Exec(env, Fresh(env, d), es), LastApplied(AppliedFiles(env, Fresh(env, d), es));
            if Get(last, k).Some? then Shows(s.live, k, Get(last, k).value) else ShowsEnv(env, s.live, k)
  {
    OptionsAreThoseOfTheLastApplied(env, d, es);
    var s, last := Exec(env, Fresh(env, d), es), LastApplied(AppliedFiles(env, Fresh(env, d), es));
    assert InForce(s.live) == Overlaid(env, last);
  }

  /** The usable tokens of a list are those with a name and a hash, one after the other. */
  lemma UsableTokens(a: seq<APIToken>, t: APIToken)
    ensures Usable([]) == []
    ensures Usable(a + [t]) == Usable(a) + if t.name == "" || t.hash == "" then [] else [t]
  {
    assert (a + [t])[..|a|] == a;
  }

  /** What a reload makes of each kind of text; blank text is an empty overlay, and a file may lack its version. */
  lemma ReloadInFull(env: Env, s: State)
    ensures var t := Reloaded(env, s);
            t.disk == s.disk && t.reading.None? &&
            match At(s.disk, 0)
            case None => t.file == EMPTY_FILE && t.live == s.live && t.sources == ALL_ENV
            case Some(Garbage) => t.file == s.file && t.live == s.live && t.sources == s.sources
            case Some(BlankText) => t.file == EMPTY_FILE && Effective(env, t)
            case Some(Doc(f)) => t.file == f.(version := if f.version == 0 then 1 else f.version) && Effective(env, t)
  {}

  // ----- Ownership under saves -----

  /** What the saves of a run report as first-time keys. */
  function Reported(env: Env, s: State, es: seq<Event>): seq<Key> {
    if es == [] then [] else
    var before, e := Exec(env, s, es[..|es| - 1]), es[|es| - 1];
    Reported(env, s, es[..|es| - 1]) +
    if e.Save? && e.io.dirOk && e.io.writeOk then FirstTime(ALL_KEYS, before.file, e.patch) else []
  }

  predicate Distinct(ks: seq<Key>) {
    forall i, j :: 0 <= i < j < |ks| ==> ks[i] != ks[j]
  }

  lemma {:induction false} FirstTimeIs(ks: seq<Key>, f: RuntimeFile, patch: RuntimeFile)
    requires Distinct(ks)
    ensures Distinct(FirstTime(ks, f, patch))
    ensures forall k :: k in FirstTime(ks, f, patch) <==> k in ks && Has(patch, k) && !Has(f, k)
  {
    if ks == [] {
    } else {
      var pre, last := ks[..|ks| - 1], ks[|ks| - 1];
      FirstTimeIs(pre, f, patch);
      assert ks == pre + [last];
      assert last !in pre;
    }
  }

  lemma EveryKey()
    ensures Distinct(ALL_KEYS) && forall k: Key :: k in ALL_KEYS
  {
    forall k: Key ensures k in ALL_KEYS {
      match k
      case FriendlyNames => assert ALL_KEYS[0] == k;
      case IgnoreList => assert ALL_KEYS[1] == k;
      case HWIDMap => assert ALL_KEYS[2] == k;
      case APITokens => assert ALL_KEYS[3] == k;
      case HADiscovery => assert ALL_KEYS[4] == k;
      case HADiscoveryPrefix => assert ALL_KEYS[5] == k;
      case HAButtons => assert ALL_KEYS[6] == k;
      case HASwitches => assert ALL_KEYS[7] == k;
      case Webhooks => assert ALL_KEYS[8] == k;
    }
  }

  lemma MergedHas(f: RuntimeFile, patch: RuntimeFile, now: string, k: Key)
    ensures Has(Merged(f, patch, now), k) <==> Has(f, k) || Has(patch, k)
  {}

  lemma DistinctConcat(a: seq<Key>, b: seq<Key>)
    requires Distinct(a) && Distinct(b) && forall k :: k in b ==> k !in a
    ensures Distinct(a + b)
  {
    forall i, j | 0 <= i < j < |a + b| ensures (a + b)[i] != (a + b)[j] {
      if i < |a| <= j {
        assert b[j - |a|] in b && a[i] in a;
      }
    }
  }

  /**
   Under saves alone no key is ever released, and the keys that become owned are reported as
   first-time exactly once each: no report repeats a key, and together they name exactly them.
   */
  lemma {:induction false} EachKeyIsReportedOnce(env: Env, s: State, es: seq<Event>)
    requires forall i :: 0 <= i < |es| ==> es[i].Save?
    ensures Distinct(Reported(env, s, es))
    ensures forall k :: k in Reported(env, s, es) ==> !Has(s.file, k)
    ensures forall k :: Has(Exec(env, s, es).file, k) <==> Has(s.file, k) || k in Reported(env, s, es)
  {
    if es == [] {
    } else {
      var pre, e := es[..|es| - 1], es[|es| - 1];
      EachKeyIsReportedOnce(env, s, pre);
      var before := Exec(env, s, pre);
      if e.io.dirOk && e.io.writeOk {
        var added := FirstTime(ALL_KEYS, before.file, e.patch);
        EveryKey();
        FirstTimeIs(ALL_KEYS, before.file, e.patch);
        DistinctConcat(Reported(env, s, pre), added);
        forall k ensures Has(Exec(env, s, es).file, k) <==> Has(before.file, k) || k in added {
          MergedHas(before.file, e.patch, e.now, k);
        }
      }
    }
  }

  // ----- Hot reload of the manager's own save -----

  lemma ApplyTwice(env: Env, o: Live, f: RuntimeFile)
    ensures Applied(env, Applied(env, o, f), f) == Applied(env, o, f)
  {
    TrimmedStays(DEFAULT_PREFIX);
  }

  lemma ReloadOfOwnFile(env: Env, t: State, o: Live)
    requires 0 in t.disk && t.disk[0] == Marshal(t.file)
    requires t.sources == Owned(t.file) && t.live == Applied(env, o, t.file)
    ensures Reloaded(env, t) == t.(reading := None) <==> NoEmptyLists(t.file) && t.file.version != 0
  {
    ApplyTwice(env, o, t.file);
    if NoEmptyLists(t.file) {
      assert OmitEmpty(t.file) == t.file;
    }
  }

  /**
   Reloading what a save has just written changes nothing at all, exactly when the saved
   overlay has no list that is present but empty.
   */
  lemma ReloadAfterSave(env: Env, s: State, patch: RuntimeFile, now: string, io: IO)
    requires io.dirOk && io.writeOk
    ensures var t := Next(env, s, Save(patch, now, io));
            Reloaded(env, t) == t.(reading := None) <==> NoEmptyLists(t.file)
  {
    ReloadOfOwnFile(env, Next(env, s, Save(patch, now, io)), s.live);
  }

  /** After a restore the file must also carry a version number. */
  lemma ReloadAfterRestore(env: Env, s: State, slot: int, io: IO)
    requires io.dirOk && io.writeOk && RestoreProblem(s, slot).None?
    ensures var t := Next(env, s, Restore(slot, io));
            Reloaded(env, t) == t.(reading := None) <==> NoEmptyLists(t.file) && t.file.version != 0
  {
    ReloadOfOwnFile(env, Next(env, s, Restore(slot, io)), s.live);
  }

  // ----- A save during a reload -----

  /** The overlay in memory after a reload that has read the text. */
  function FileAfter(f: RuntimeFile, text: Option<Content>): RuntimeFile {
    match text
    case None => EMPTY_FILE
    case Some(c) => Or(Loaded(c), f)
  }

  lemma {:induction false} SavesKeepTheReading(env: Env, s: State, es: seq<Event>)
    requires forall i :: 0 <= i < |es| ==> es[i].Save?
    ensures Exec(env, s, es).reading == s.reading
  {
    if es == [] {
    } else {
      SavesKeepTheReading(env, s, es[..|es| - 1]);
    }
  }

  /**
   Saves that come between the two halves of a reload are undone in memory: the overlay is what the
   reload has read (nothing changes if that cannot be parsed). It loses exactly the keys that it had
   before or that these saves reported as first-time, and that are not in what was read.
   */
  lemma SavesDuringReloadAreUndone(env: Env, s: State, es: seq<Event>, k: Key)
    requires forall i :: 0 <= i < |es| ==> es[i].Save?
    ensures var before := Exec(env, Next(env, s, Read), es);
            var t := Next(env, before, Apply);
            && t.file == FileAfter(before.file, At(s.disk, 0)) && t.disk == before.disk
            && (Has(before.file, k) && !Has(t.file, k) <==>
                (Has(s.file, k) || k in Reported(env, Next(env, s, Read), es))
                && !Has(FileAfter(before.file, At(s.disk, 0)), k))
  {
    var r := Next(env, s, Read);
    SavesKeepTheReading(env, r, es);
    EachKeyIsReportedOnce(env, r, es);
  }

  /** If the file was the overlay in memory, the keys lost are exactly those reported meanwhile. */
  lemma OnlyReportedKeysAreLost(env: Env, s: State, es: seq<Event>, k: Key)
    requires forall i :: 0 <= i < |es| ==> es[i].Save?
    requires 0 in s.disk && Loaded(s.disk[0]) == Some(s.file)
    ensures var before := Exec(env, Next(env, s, Read), es);
            Has(before.file, k) && !Has(Next(env, before, Apply).file, k) <==>
            k in Reported(env, Next(env, s, Read), es)
  {
    SavesDuringReloadAreUndone(env, s, es, k);
    EachKeyIsReportedOnce(env, Next(env, s, Read), es);
  }

  /** The next save then writes a file that has a lost key only if its own patch brings it. */
  lemma NextSaveDropsThem(env: Env, s: State, es: seq<Event>, k: Key, patch: RuntimeFile, now: string)
    requires forall i :: 0 <= i < |es| ==> es[i].Save?
    requires var before := Exec(env, Next(env, s, Read), es); !Has(Next(env, before, Apply).file, k)
    ensures var t := Next(env, Exec(env, Next(env, s, Read), es), Apply);
            var u := Next(env, t, Save(patch, now, WORKS));
            At(u.disk, 0) == Some(Marshal(u.file)) && (Has(u.file, k) <==> Has(patch, k))
  {
    MergedHas(Next(env, Exec(env, Next(env, s, Read), es), Apply).file, patch, now, k);
  }

  lemma {:induction false} RotateKeepsCurrent(d: Disk, i: nat, fault: CopyFault)
    ensures 0 in Rotate(d, i, fault) <==> 0 in d
    ensures 0 in d ==> Rotate(d, i, fault)[0] == d[0]
    decreases i
  {
    if i == 0 {
    } else if i - 1 !in d {
      RotateKeepsCurrent(d, i - 1, fault);
    } else if fault.FailsAt? && fault.slot == i {
    } else {
      RotateKeepsCurrent(d[i := d[i - 1]], i - 1, fault);
    }
  }

  predicate AnyWritten(es: seq<Event>) {
    exists i :: 0 <= i < |es| && es[i].Save? && es[i].io.dirOk && es[i].io.writeOk
  }

  /** After some saves the file is the overlay in memory if any of them was written; else both are as before. */
  lemma {:induction false} SavesKeepTheFileCurrent(env: Env, s: State, es: seq<Event>)
    requires forall i :: 0 <= i < |es| ==> es[i].Save?
    ensures var t := Exec(env, s, es);
            if AnyWritten(es) then At(t.disk, 0) == Some(Marshal(t.file))
            else t.file == s.file && At(t.disk, 0) == At(s.disk, 0)
  {
    if es == [] {
    } else {
      var pre, e := es[..|es| - 1], es[|es| - 1];
      SavesKeepTheFileCurrent(env, s, pre);
      RotateKeepsCurrent(Exec(env, s, pre).disk, RUNTIME_BACKUP_COUNT, e.io.copies);
      assert AnyWritten(es) <==> AnyWritten(pre) || (e.io.dirOk && e.io.writeOk) by {
        if AnyWritten(pre) {
          var i :| 0 <= i < |pre| && pre[i].Save? && pre[i].io.dirOk && pre[i].io.writeOk;
          assert es[i] == pre[i];
        }
        if e.io.dirOk && e.io.writeOk {
          assert es[|es| - 1] == e;
        }
      }
    }
  }

  /** If a reload comes before the next save, it brings back what the file can hold of a save that was written. */
  lemma NextReloadHeals(env: Env, s: State, es: seq<Event>)
    requires AnyWritten(es) && forall i :: 0 <= i < |es| ==> es[i].Save?
    ensures var before := Exec(env, Next(env, s, Read), es);
            var t := Next(env, before, Apply);
            Some(Reloaded(env, t).file) == Loaded(Marshal(before.file))
  {
    SavesDuringReloadAreUndone(env, s, es, FriendlyNames);
    SavesKeepTheFileCurrent(env, Next(env, s, Read), es);
  }

  /** Buttons are saved while a reload is under way, and the next save writes a file without them. */
  function ButtonsInBetween(names: string, buttons: string): seq<Event> {
    [Save(EMPTY_FILE.(friendlyNames := Some(names)), "t1", WORKS)] + [Read]
    + [Save(EMPTY_FILE.(haButtons := Some(buttons)), "t2", WORKS)] + [Apply] + [Save(EMPTY_FILE, "t3", WORKS)]
  }

  lemma SavedButtonsAreLost(env: Env, names: string, buttons: string)
    ensures var es := ButtonsInBetween(names, buttons);
            var s := Exec(env, Fresh(env, map[]), es);
            && HAButtons in Reported(env, Fresh(env, map[]), es)
            && At(s.disk, 0) == Some(Doc(EMPTY_FILE.(friendlyNames := Some(names), updatedAt := "t3")))
  {
    var f1 := EMPTY_FILE.(friendlyNames := Some(names), updatedAt := "t1");
    var es := ReloadUnderWay(env, names);
    var save := Save(EMPTY_FILE.(haButtons := Some(buttons)), "t2", WORKS);
    SecondSave(env, Exec(env, Fresh(env, map[]), es), save);
    ReadingWins(env, Exec(env, Fresh(env, map[]), es), save, f1);
    es := ThenReports(env, Fresh(env, map[]), es, save);
    es := ThenReports(env, Fresh(env, map[]), es, Apply);
    ThirdSave(env, Exec(env, Fresh(env, map[]), es), f1);
    es := ThenReports(env, Fresh(env, map[]), es, Save(EMPTY_FILE, "t3", WORKS));
  }

  lemma ReloadUnderWay(env: Env, names: string) returns (es: seq<Event>)
    ensures es == [Save(EMPTY_FILE.(friendlyNames := Some(names)), "t1", WORKS)] + [Read]
    ensures var s, f := Exec(env, Fresh(env, map[]), es), EMPTY_FILE.(friendlyNames := Some(names), updatedAt := "t1");
            s.file == f && s.reading == Some(Some(Doc(f)))
  {
    var save := Save(EMPTY_FILE.(friendlyNames := Some(names)), "t1", WORKS);
    var f := EMPTY_FILE.(friendlyNames := Some(names), updatedAt := "t1");
    es := Then(env, Fresh(env, map[]), [], save);
    SaveStep(env, Fresh(env, map[]), save, f);
    es := Then(env, Fresh(env, map[]), es, Read);
  }

  lemma ReadingWins(env: Env, s: State, e: Event, f: RuntimeFile)
    requires e.Save? && s.reading == Some(Some(Doc(f))) && f.version != 0
    ensures Next(env, Next(env, s, e), Apply).file == f
  {}

  lemma ThirdSave(env: Env, s: State, f: RuntimeFile)
    requires s.file == f && f.version == RUNTIME_FILE_VERSION && NoEmptyLists(f)
    ensures At(Next(env, s, Save(EMPTY_FILE, "t3", WORKS)).disk, 0) == Some(Doc(f.(updatedAt := "t3")))
  {
    SaveStep(env, s, Save(EMPTY_FILE, "t3", WORKS), f.(updatedAt := "t3"));
  }

  lemma SecondSave(env: Env, s: State, e: Event)
    requires e.Save? && e.io == WORKS && e.patch.haButtons.Some? && s.file.haButtons.None?
    ensures Next(env, s, e).reading == s.reading && HAButtons in FirstTime(ALL_KEYS, s.file, e.patch)
  {
    EveryKey();
    FirstTimeIs(ALL_KEYS, s.file, e.patch);
  }

  lemma ThenReports(env: Env, s: State, es: seq<Event>, e: Event) returns (fs: seq<Event>)
    ensures fs == es + [e] && Exec(env, s, fs) == Next(env, Exec(env, s, es), e)
    ensures forall k :: k in Reported(env, s, es) ==> k in Reported(env, s, fs)
    ensures e.Save? && e.io == WORKS ==>
              forall k :: k in FirstTime(ALL_KEYS, Exec(env, s, es).file, e.patch) ==> k in Reported(env, s, fs)
  {
    fs := Then(env, s, es, e);
    assert fs[..|es|] == es;
  }

  // ----- The code -----

  class RuntimeManager {
    const env: Env
    var disk: Disk
    var file: RuntimeFile
    var sources: Sources
    var live: Live
    // The data of the reload under way, a local variable of the only goroutine that reloads.
    var reading: Option<Option<Content>>

    ghost function Contents(): State
      reads this
    {
      State(disk, file, sources, live, reading)
    }

    /** The directory may already hold files; the caller loads them with LoadAndApply. */
    constructor (env: Env, disk: Disk)
      ensures this.env == env && Contents() == Fresh(env, disk)
    {
      this.env := env;
      this.disk := disk;
      file, sources, live, reading := EMPTY_FILE, ALL_ENV, Start(env), None;
    }

    method ApplyLocked()
      modifies this`live, this`sources
      ensures live == Applied(env, old(live), file) && sources == Owned(file)
    {
      var src := ApplyEnvBackedKeys();
      sources := ApplyHAKeys(src);
    }

    /** The keys that are recomputed from the environment every time; the others count as env so far. */
    method ApplyEnvBackedKeys() returns (src: Sources)
      modifies this`live
      ensures live == old(live).(names := Options.ColonMap(Or(file.friendlyNames, env.friendlyNames)),
                                 ignored := Options.IgnoreSet(Or(file.ignoreList, env.ignoreList)),
                                 hwids := Options.ColonMap(Or(file.hwidMap, env.hwidMap)),
                                 tokens := if file.apiTokens.Some? then Usable(file.apiTokens.value) else env.apiTokens,
                                 hooks := Or(file.webhooks, env.webhooks))
      ensures src == Owned(file).(haDiscovery := false, haPrefix := false, haButtons := false, haSwitches := false)
    {
      src := ALL_ENV;
      var names := Options.ParseColonMap(env.friendlyNames);
      var ignored := Options.ParseIgnoreList(env.ignoreList);
      var hwids := Options.ParseColonMap(env.hwidMap);
      var tokens, hooks := env.apiTokens, env.webhooks;
      if file.friendlyNames.Some? {
        names := Options.ParseColonMap(file.friendlyNames.value);
        src := src.(friendlyNames := true);
      }
      if file.ignoreList.Some? {
        ignored := Options.ParseIgnoreList(file.ignoreList.value);
        src := src.(ignoreList := true);
      }
      if file.hwidMap.Some? {
        hwids := Options.ParseColonMap(file.hwidMap.value);
        src := src.(hwidMap := true);
      }
      if file.apiTokens.Some? {
        tokens := APITokensFromRuntime(file.apiTokens.value);
        src := src.(apiTokens := true);
      }
      if file.webhooks.Some? {
        hooks := file.webhooks.value;
        src := src.(webhooks := true);
      }
      live := live.(names := names, ignored := ignored, hwids := hwids, tokens := tokens, hooks := hooks);
    }

    /** The keys that are overwritten in place when the overlay has them. */
    method ApplyHAKeys(before: Sources) returns (src: Sources)
      modifies this`live
      ensures live == old(live).(haDiscovery := Or(file.haDiscovery, old(live).haDiscovery),
                                 haPrefix := AppliedPrefix(old(live), file),
                                 haButtons := Or(file.haButtons, old(live).haButtons),
                                 haSwitches := Or(file.haSwitches, old(live).haSwitches))
      ensures src == before.(haDiscovery := before.haDiscovery || file.haDiscovery.Some?,
                             haPrefix := before.haPrefix || file.haPrefix.Some?,
                             haButtons := before.haButtons || file.haButtons.Some?,
                             haSwitches := before.haSwitches || file.haSwitches.Some?)
    {
      var o := live;
      var discovery, prefix, buttons, switches := o.haDiscovery, o.haPrefix, o.haButtons, o.haSwitches;
      var d, p, b, w := before.haDiscovery, before.haPrefix, before.haButtons, before.haSwitches;
      if file.haDiscovery.Some? {
        discovery, d := file.haDiscovery.value, true;
      }
      if file.haPrefix.Some? {
        prefix, p := TrimSpace(file.haPrefix.value), true;
        if prefix == "" {
          prefix := DEFAULT_PREFIX;
        }
      }
      if file.haButtons.Some? {
        buttons, b := file.haButtons.value, true;
      }
      if file.haSwitches.Some? {
        switches, w := file.haSwitches.value, true;
      }
      if discovery && TrimSpace(prefix) == "" {
        prefix := DEFAULT_PREFIX;
      }
      live := live.(haDiscovery := discovery, haPrefix := prefix, haButtons := buttons, haSwitches := switches);
      src := before.(haDiscovery := d, haPrefix := p, haButtons := b, haSwitches := w);
    }

    method RotateBackupsLocked(fault: CopyFault)
      modifies this`disk
      ensures disk == Rotate(old(disk), RUNTIME_BACKUP_COUNT, fault)
    {
      var i := RUNTIME_BACKUP_COUNT;
      while i >= 1
        invariant 0 <= i <= RUNTIME_BACKUP_COUNT
        invariant Rotate(old(disk), RUNTIME_BACKUP_COUNT, fault) == Rotate(disk, i, fault)
        decreases i
      {
        var src, dst := i - 1, i;
        if src !in disk {
          i := i - 1;
          continue;
        }
        var content := disk[src];
        ghost var before := disk;
        disk := disk - {dst};
        if fault.FailsAt? && fault.slot == dst {
          disk := Put(disk, dst, fault.left);
          assert disk == Put(before, dst, fault.left);
          return;
        }
        disk := disk[dst := content];
        assert disk == before[dst := before[src]];
        i := i - 1;
      }
    }

    method PersistLocked(f: RuntimeFile, io: IO) returns (ok: bool)
      modifies this`disk
      ensures (disk, ok) == Persist(old(disk), f, io)
    {
      if !io.dirOk {
        return false;
      }
      RotateBackupsLocked(io.copies);
      if !io.writeOk {
        return false;
      }
      disk := disk[0 := Marshal(f)];
      return true;
    }

    /** first is None when the overlay could not be persisted. */
    method SaveOverlay(patch: RuntimeFile, now: string, io: IO) returns (first: Option<seq<Key>>)
      modifies this
      ensures Contents() == Next(env, old(Contents()), Save(patch, now, io))
      ensures first == if io.dirOk && io.writeOk then Some(FirstTime(ALL_KEYS, old(file), patch)) else None
      ensures first.None? ==> file == old(file) && sources == old(sources) && live == old(live)
      ensures first.Some? ==>
                forall k :: Get(file, k) == if Get(patch, k).Some? then Some(Normal(k, Get(patch, k).value))
                                            else Get(old(file), k)
      ensures first.Some? ==>
                forall k :: Get(patch, k).Some? ==> Shows(live, k, Normal(k, Get(patch, k).value))
    {
      ghost var before := Contents();
      forall k ensures io.dirOk && io.writeOk && Get(patch, k).Some? ==>
                         Shows(Next(env, before, Save(patch, now, io)).live, k, Normal(k, Get(patch, k).value))
      {
        if io.dirOk && io.writeOk && Get(patch, k).Some? {
          SaveShowsEachKey(env, before, patch, now, io, k);
        }
      }
      forall k ensures Get(Merged(file, patch, now), k) ==
                       if Get(patch, k).Some? then Some(Normal(k, Get(patch, k).value)) else Get(file, k)
      {
        MergedGets(file, patch, now, k);
      }
      var f, keys := MergePatch(file, patch, now);
      var ok := PersistLocked(f, io);
      if !ok {
        return None;
      }
      file := f;
      ApplyLocked();
      return Some(keys);
    }

    method RestoreBackup(slot: int, io: IO) returns (err: Option<RestoreError>)
      modifies this
      ensures Contents() == Next(env, old(Contents()), Restore(slot, io))
      ensures err == (if RestoreProblem(old(Contents()), slot).Some? then RestoreProblem(old(Contents()), slot)
                      else if io.dirOk && io.writeOk then None else Some(NotPersisted))
      ensures err == Some(InvalidSlot) <==> !(1 <= slot <= 3)
      ensures err == Some(NoBackup) <==> 1 <= slot <= 3 && slot !in old(disk)
      ensures err == Some(Unreadable) <==> 1 <= slot <= 3 && slot in old(disk) && !old(disk)[slot].Doc?
      ensures err.None? ==>
                old(disk)[slot] == Doc(file) && At(disk, 0) == Some(Marshal(file)) && Effective(env, Contents())
      ensures err.Some? ==> file == old(file) && sources == old(sources) && live == old(live)
    {
      if slot < 1 || slot > RUNTIME_BACKUP_COUNT {
        return Some(InvalidSlot);
      }
      if slot !in disk {
        return Some(NoBackup);
      }
      var data := disk[slot];
      if !data.Doc? {
        return Some(Unreadable);
      }
      var f := data.file;
      var ok := PersistLocked(f, io);
      if !ok {
        return Some(NotPersisted);
      }
      file := f;
      ApplyLocked();
      return None;
    }

    /** The read of loadAndApply, without the mutex. */
    method ReadFile()
      modifies this`reading
      ensures Contents() == Next(env, old(Contents()), Read)
    {
      if 0 in disk {
        reading := Some(Some(disk[0]));
      } else {
        reading := Some(None);
      }
    }

    /** The rest of loadAndApply; ok is false when the text cannot be parsed. */
    method ApplyFile() returns (ok: bool)
      requires reading.Some?
      modifies this
      ensures Contents() == Next(env, old(Contents()), Apply)
      ensures ok <==> old(reading) != Some(Some(Garbage))
    {
      var data := reading.value;
      reading := None;
      if data.None? {
        file := EMPTY_FILE;
        sources := ALL_ENV;
        return true;
      }
      var f;
      match data.value {
        case BlankText => f := EMPTY_FILE;
        case Garbage => return false;
        case Doc(g) => f := g;
      }
      if f.version == 0 {
        f := f.(version := RUNTIME_FILE_VERSION);
      }
      file := f;
      ApplyLocked();
      return true;
    }

    method LoadAndApply() returns (ok: bool)
      modifies this
      ensures Contents() == Reloaded(env, old(Contents()))
      ensures ok <==> At(disk, 0) != Some(Garbage)
    {
      ReadFile();
      ok := ApplyFile();
    }
  }

  method APITokensFromRuntime(list: seq<APIToken>) returns (out: seq<APIToken>)
    ensures out == Usable(list)
  {
    out := [];
    for i := 0 to |list|
      invariant out == Usable(list[..i])
    {
      assert list[..i + 1][..i] == list[..i];
      if list[i].hash == "" || list[i].name == "" {
        continue;
      }
      out := out + [list[i]];
    }
    assert list[..|list|] == list;
  }

  /** What a key adds to the first-time keys. */
  function FirstOne(k: Key, f: RuntimeFile, patch: RuntimeFile): seq<Key> {
    if Has(patch, k) && !Has(f, k) then [k] else []
  }

  lemma FirstTimeAppend(ks: seq<Key>, k: Key, f: RuntimeFile, patch: RuntimeFile)
    ensures FirstTime(ks + [k], f, patch) == FirstTime(ks, f, patch) + FirstOne(k, f, patch)
  {
    assert (ks + [k])[..|ks|] == ks;
  }

  lemma KeyByKey(f: RuntimeFile, patch: RuntimeFile)
    ensures FirstTime(ALL_KEYS, f, patch) ==
            [] + FirstOne(FriendlyNames, f, patch) + FirstOne(IgnoreList, f, patch) + FirstOne(HWIDMap, f, patch)
            + FirstOne(APITokens, f, patch) + FirstOne(HADiscovery, f, patch) + FirstOne(HADiscoveryPrefix, f, patch)
            + FirstOne(HAButtons, f, patch) + FirstOne(HASwitches, f, patch) + FirstOne(Webhooks, f, patch)
  {
    var ks := [];
    FirstTimeAppend(ks, FriendlyNames, f, patch);
    ks := ks + [FriendlyNames];
    FirstTimeAppend(ks, IgnoreList, f, patch);
    ks := ks + [IgnoreList];
    FirstTimeAppend(ks, HWIDMap, f, patch);
    ks := ks + [HWIDMap];
    FirstTimeAppend(ks, APITokens, f, patch);
    ks := ks + [APITokens];
    FirstTimeAppend(ks, HADiscovery, f, patch);
    ks := ks + [HADiscovery];
    FirstTimeAppend(ks, HADiscoveryPrefix, f, patch);
    ks := ks + [HADiscoveryPrefix];
    FirstTimeAppend(ks, HAButtons, f, patch);
    ks := ks + [HAButtons];
    FirstTimeAppend(ks, HASwitches, f, patch);
    ks := ks + [HASwitches];
    FirstTimeAppend(ks, Webhooks, f, patch);
    assert ALL_KEYS == ks + [Webhooks];
  }

  /** The block of SaveOverlay for one key: mark it if the file does not have it yet, and take the patch's value. */
  method PatchKey<T>(marked: seq<Key>, key: Key, given: Option<T>, held: Option<T>)
    returns (value: Option<T>, keys: seq<Key>)
    ensures value == Later(given, held)
    ensures keys == marked + if given.Some? && !held.Some? then [key] else []
  {
    value, keys := held, marked;
    if given.Some? {
      if !held.Some? {
        keys := keys + [key];
      }
      value := given;
    }
  }

  /** The patching part of SaveOverlay, key by key. */
  method MergePatch(file: RuntimeFile, patch: RuntimeFile, now: string) returns (f: RuntimeFile, keys: seq<Key>)
    ensures f == Merged(file, patch, now) && keys == FirstTime(ALL_KEYS, file, patch)
  {
    var friendlyNames, ignoreList, hwidMap, apiTokens, haDiscovery, haPrefix, haButtons, haSwitches, webhooks;
    friendlyNames, ignoreList, hwidMap, apiTokens, keys := MergeEnvKeys(file, patch);
    haDiscovery, haPrefix, haButtons, haSwitches, keys := MergeHAKeys(file, patch, keys);
    webhooks, keys := PatchKey(keys, Webhooks, patch.webhooks, file.webhooks);
    KeyByKey(file, patch);
    f := RuntimeFile(RUNTIME_FILE_VERSION, now, friendlyNames, ignoreList, hwidMap, apiTokens, haDiscovery,
                     haPrefix, haButtons, haSwitches, webhooks);
  }

  method MergeEnvKeys(file: RuntimeFile, patch: RuntimeFile)
    returns (friendlyNames: Option<string>, ignoreList: Option<string>, hwidMap: Option<string>,
             apiTokens: Option<seq<APIToken>>, keys: seq<Key>)
    ensures friendlyNames == Later(patch.friendlyNames, file.friendlyNames)
    ensures ignoreList == Later(patch.ignoreList, file.ignoreList)
    ensures hwidMap == Later(patch.hwidMap, file.hwidMap)
    ensures apiTokens == Later(patch.apiTokens, file.apiTokens)
    ensures keys == [] + FirstOne(FriendlyNames, file, patch) + FirstOne(IgnoreList, file, patch)
                    + FirstOne(HWIDMap, file, patch) + FirstOne(APITokens, file, patch)
  {
    keys := [];
    friendlyNames, keys := PatchKey(keys, FriendlyNames, patch.friendlyNames, file.friendlyNames);
    ignoreList, keys := PatchKey(keys, IgnoreList, patch.ignoreList, file.ignoreList);
    hwidMap, keys := PatchKey(keys, HWIDMap, patch.hwidMap, file.hwidMap);
    apiTokens, keys := PatchKey(keys, APITokens, patch.apiTokens, file.apiTokens);
  }

  method MergeHAKeys(file: RuntimeFile, patch: RuntimeFile, marked: seq<Key>)
    returns (haDiscovery: Option<bool>, haPrefix: Option<string>, haButtons: Option<string>,
             haSwitches: Option<string>, keys: seq<Key>)
    ensures haDiscovery == Later(patch.haDiscovery, file.haDiscovery)
    ensures haPrefix == if patch.haPrefix.Some? then Some(Prefix(patch.haPrefix.value)) else file.haPrefix
    ensures haButtons == Later(patch.haButtons, file.haButtons)
    ensures haSwitches == Later(patch.haSwitches, file.haSwitches)
    ensures keys == marked + FirstOne(HADiscovery, file, patch) + FirstOne(HADiscoveryPrefix, file, patch)
                    + FirstOne(HAButtons, file, patch) + FirstOne(HASwitches, file, patch)
  {
    keys := marked;
    haDiscovery, keys := PatchKey(keys, HADiscovery, patch.haDiscovery, file.haDiscovery);
    var prefix := patch.haPrefix;
    if prefix.Some? {
      var v := TrimSpace(prefix.value);
      if v == "" {
        v := DEFAULT_PREFIX;
      }
      prefix := Some(v);
    }
    haPrefix, keys := PatchKey(keys, HADiscoveryPrefix, prefix, file.haPrefix);
    haButtons, keys := PatchKey(keys, HAButtons, patch.haButtons, file.haButtons);
    haSwitches, keys := PatchKey(keys, HASwitches, patch.haSwitches, file.haSwitches);
  }
}
