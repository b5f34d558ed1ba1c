/**
 The option strings and lookups that publishing uses (rflink/options.go): colon maps, the
 ignore list, canonical HWIDs and friendly names.
 */
module Options {
  import opened Wrappers
  import opened Text

  /** One CSV part "KEY:value"; parts without both halves are skipped. */
  function AddColonEntry(m: map<string, string>, raw: string): map<string, string> {
    var kv := SplitN(TrimSpace(raw), ':', 2);
    if |kv| != 2 then m else
    var key, val := TrimSpace(kv[0]), TrimSpace(kv[1]);
    if key != "" && val != "" then m[ToUpper(key) := val] else m
  }

  function AddColonEntries(m: map<string, string>, parts: seq<string>): map<string, string>
    decreases |parts|
  {
    if parts == [] then m else AddColonEntries(AddColonEntry(m, parts[0]), parts[1..])
  }

  /** What "KEY1:Value One,KEY2:Value2" means: upper-case keys, later entries win. */
  function ColonMap(raw: string): map<string, string> {
    AddColonEntries(map[], Split(TrimSpace(raw), ','))
  }

  function AddIgnored(m: set<string>, parts: seq<string>): set<string>
    decreases |parts|
  {
    if parts == [] then m else
    var part := ToUpper(TrimSpace(parts[0]));
    AddIgnored(if part != "" then m + {part} else m, parts[1..])
  }

  function IgnoreSet(raw: string): set<string> {
    AddIgnored({}, Split(raw, ','))
  }

  method ParseColonMap(raw: string) returns (m: map<string, string>)
    ensures m == ColonMap(raw)
  {
    m := map[];
    var list := TrimSpace(raw);
    if list == "" {
      assert Split(list, ',') == [""] && [""][1..] == [];
      assert AddColonEntry(map[], "") == map[];
      return;
    }
    var parts := Split(list, ',');
    for i := 0 to |parts|
      invariant AddColonEntries(map[], parts) == AddColonEntries(m, parts[i..])
    {
      assert parts[i..][1..] == parts[i + 1..];
      var part := TrimSpace(parts[i]);
      if part == "" {
        continue;
      }
      var kv := SplitN(part, ':', 2);
      if |kv| != 2 {
        continue;
      }
      var key, val := TrimSpace(kv[0]), TrimSpace(kv[1]);
      if key != "" && val != "" {
        m := m[ToUpper(key) := val];
      }
    }
  }

  method ParseIgnoreList(raw: string) returns (m: set<string>)
    ensures m == IgnoreSet(raw)
  {
    m := {};
    var parts := Split(raw, ',');
    for i := 0 to |parts|
      invariant AddIgnored({}, parts) == AddIgnored(m, parts[i..])
    {
      assert parts[i..][1..] == parts[i + 1..];
      var part := ToUpper(TrimSpace(parts[i]));
      if part != "" {
        m := m + {part};
      }
    }
  }

  /** The last entry of parts for the upper-case key k, if any. */
  function LastEntry(parts: seq<string>, k: string): Option<string>
    decreases |parts|
  {
    if parts == [] then None else
    var kv := SplitN(TrimSpace(parts[|parts| - 1]), ':', 2);
    if |kv| == 2 && TrimSpace(kv[0]) != "" && TrimSpace(kv[1]) != "" && ToUpper(TrimSpace(kv[0])) == k
    then Some(TrimSpace(kv[1]))
    else LastEntry(parts[..|parts| - 1], k)
  }

  lemma {:induction false} AddColonEntriesLast(m: map<string, string>, parts: seq<string>)
    requires parts != []
    ensures AddColonEntries(m, parts) == AddColonEntry(AddColonEntries(m, parts[..|parts| - 1]), parts[|parts| - 1])
    decreases |parts|
  {
    if |parts| > 1 {
      var pre := parts[..|parts| - 1];
      AddColonEntriesLast(AddColonEntry(m, parts[0]), parts[1..]);
      assert parts[1..][..|parts| - 2] == pre[1..];
      assert pre[0] == parts[0];
    }
  }

  /** A key of the map holds the last well-formed entry for it, and only those keys are there. */
  lemma {:induction false} LastEntryWins(parts: seq<string>, k: string)
    ensures var m := AddColonEntries(map[], parts);
            LastEntry(parts, k) == if k in m then Some(m[k]) else None
    decreases |parts|
  {
    if parts == [] {
    } else {
      LastEntryWins(parts[..|parts| - 1], k);
      AddColonEntriesLast(map[], parts);
    }
  }

  lemma {:induction false} EntriesAreNotBlank(parts: seq<string>, k: string)
    ensures LastEntry(parts, k).Some? ==> LastEntry(parts, k).value != ""
    decreases |parts|
  {
    if parts == [] {
    } else {
      EntriesAreNotBlank(parts[..|parts| - 1], k);
    }
  }

  predicate Lists(parts: seq<string>, k: string) {
    exists i :: 0 <= i < |parts| && ToUpper(TrimSpace(parts[i])) == k
  }

  lemma {:induction false} AddIgnoredIs(m: set<string>, parts: seq<string>, k: string)
    ensures k in AddIgnored(m, parts) <==>
            k in m || (k != "" && Lists(parts, k))
    decreases |parts|
  {
    if parts == [] {
    } else {
      var part := ToUpper(TrimSpace(parts[0]));
      AddIgnoredIs(if part != "" then m + {part} else m, parts[1..], k);
      if i :| 0 <= i < |parts| && ToUpper(TrimSpace(parts[i])) == k {
        assert i > 0 ==> parts[1..][i - 1] == parts[i];
      }
      if i :| 0 <= i < |parts[1..]| && ToUpper(TrimSpace(parts[1..][i])) == k {
        assert parts[i + 1] == parts[1..][i];
      }
    }
  }

  /** A name is ignored exactly if it is some part of the list, up to case and outer space, and not blank. */
  lemma IgnoredNames(raw: string, k: string)
    ensures k in IgnoreSet(raw) <==>
            k != "" && Lists(Split(raw, ','), k)
  {
    AddIgnoredIs({}, Split(raw, ','), k);
  }

  /** Exact default HWID first, then the raw ID, else the default. */
  function CanonicalHWID(hwidMap: map<string, string>, id: string, defaultHWID: string): string {
    if ToUpper(defaultHWID) in hwidMap then hwidMap[ToUpper(defaultHWID)]
    else if ToUpper(id) in hwidMap then hwidMap[ToUpper(id)]
    else defaultHWID
  }

  function FriendlyNameFor(names: map<string, string>, hwid: string): string {
    if ToUpper(hwid) in names then names[ToUpper(hwid)] else ""
  }

  predicate SensorIgnored(ignored: set<string>, model: string, hwid: string) {
    ToUpper(TrimSpace(hwid)) in ignored || ToUpper(TrimSpace(model)) in ignored
  }
}
