/**
 The RFLink command grammar (rflink/options.go, rflink/validate.go): normalization, validation,
 the whitelist, and the home-assistant button and switch lists. Text is ASCII, so the byte
 limits of the source are limits on the number of characters.
 */
module Commands {
  import opened Wrappers
  import opened Text

  datatype CommandError =
    | EmptyCommand | TooLong | NoFinalSemicolon | ControlCharacter | NonPrintable
    | TooFewFields | BadNode | EmptyField | FieldTooLong

  const DEFAULT_MAX_LEN := 256
  const MAX_FIELD_LEN := 96

  // ----- Validation -----

  predicate PrintableChar(c: char) {
    ' ' <= c <= '\U{7f}'
  }

  predicate Printable(s: string) {
    forall k :: 0 <= k < |s| ==> PrintableChar(s[k])
  }

  predicate IsDigit(c: char) {
    '0' <= c <= '9'
  }

  /** One or two digits. */
  predicate IsNode(s: string) {
    1 <= |s| <= 2 && forall k :: 0 <= k < |s| ==> IsDigit(s[k])
  }

  /** The first complaint about the fields, position by position. */
  function FieldsError(parts: seq<string>): Option<CommandError> {
    if parts == [] then None
    else if parts[0] == "" then Some(EmptyField)
    else if |parts[0]| > MAX_FIELD_LEN then Some(FieldTooLong)
    else FieldsError(parts[1..])
  }

  /** The first complaint about a command, in the order of the checks. */
  function Complaint(raw: string): Option<CommandError> {
    var cmd := TrimSpace(raw);
    if cmd == "" then Some(EmptyCommand)
    else if !HasSuffix(cmd, ";") then Some(NoFinalSemicolon)
    else if '\0' in cmd || '\r' in cmd || '\n' in cmd then Some(ControlCharacter)
    else if !Printable(cmd) then Some(NonPrintable)
    else
      var parts := Split(cmd[..|cmd| - 1], ';');
      if |parts| < 2 then Some(TooFewFields)
      else if !IsNode(parts[0]) then Some(BadNode)
      else FieldsError(parts)
  }

  method ValidateRFLinkCommand(raw: string) returns (err: Option<CommandError>)
    ensures err == Complaint(raw)
  {
    var cmd := TrimSpace(raw);
    if cmd == "" {
      return Some(EmptyCommand);
    }
    if !HasSuffix(cmd, ";") {
      return Some(NoFinalSemicolon);
    }
    if '\0' in cmd || '\r' in cmd || '\n' in cmd {
      return Some(ControlCharacter);
    }
    for k := 0 to |cmd|
      invariant Printable(cmd[..k])
    {
      if cmd[k] > '\U{7f}' || cmd[k] < ' ' {
        return Some(NonPrintable);
      }
    }
    assert cmd[..|cmd|] == cmd;
    var parts := Split(cmd[..|cmd| - 1], ';');
    if |parts| < 2 {
      return Some(TooFewFields);
    }
    if !IsNode(parts[0]) {
      return Some(BadNode);
    }
    for i := 0 to |parts|
      invariant FieldsError(parts) == FieldsError(parts[i..])
    {
      assert parts[i..][1..] == parts[i + 1..];
      if parts[i] == "" {
        return Some(EmptyField);
      }
      if |parts[i]| > MAX_FIELD_LEN {
        return Some(FieldTooLong);
      }
    }
    return None;
  }

  // ----- Which complaint -----

  /** What is wrong with a trimmed command, check by check; the fields are those before the last semicolon. */
  ghost predicate IsWrong(cmd: string, fields: seq<string>, e: CommandError) {
    match e
    case EmptyCommand => cmd == ""
    case TooLong => false
    case NoFinalSemicolon => cmd == "" || cmd[|cmd| - 1] != ';'
    case ControlCharacter => exists k :: 0 <= k < |cmd| && (cmd[k] == '\0' || cmd[k] == '\r' || cmd[k] == '\n')
    case NonPrintable => exists k :: 0 <= k < |cmd| && (cmd[k] as int < 32 || cmd[k] as int > 127)
    case TooFewFields => |fields| < 2
    case BadNode => fields == [] || !OneOrTwoDigits(fields[0])
    case EmptyField => exists k :: IsFirstBad(fields, k) && fields[k] == ""
    case FieldTooLong => exists k :: IsFirstBad(fields, k) && |fields[k]| > 96
  }

  predicate OneOrTwoDigits(s: string) {
    1 <= |s| <= 2 && forall k :: 0 <= k < |s| ==> s[k] in "0123456789"
  }

  /** Field k is empty or too long, and no field before it is. */
  ghost predicate IsFirstBad(fields: seq<string>, k: int) {
    && 0 <= k < |fields| && (fields[k] == "" || |fields[k]| > 96)
    && forall j :: 0 <= j < k ==> 1 <= |fields[j]| <= 96
  }

  /** The place of a complaint in the order of the checks; the two about fields are one check. */
  function Rank(e: CommandError): nat {
    match e
    case EmptyCommand => 0
    case TooLong => 0
    case NoFinalSemicolon => 1
    case ControlCharacter => 2
    case NonPrintable => 3
    case TooFewFields => 4
    case BadNode => 5
    case EmptyField => 6
    case FieldTooLong => 6
  }

  lemma {:induction false} FieldsErrorIs(fields: seq<string>)
    ensures FieldsError(fields) == Some(EmptyField) <==> exists k :: IsFirstBad(fields, k) && fields[k] == ""
    ensures FieldsError(fields) == Some(FieldTooLong) <==> exists k :: IsFirstBad(fields, k) && |fields[k]| > 96
    ensures FieldsError(fields) in {None, Some(EmptyField), Some(FieldTooLong)}
  {
    if fields == [] {
    } else if fields[0] == "" || |fields[0]| > 96 {
      assert IsFirstBad(fields, 0);
      assert forall k :: IsFirstBad(fields, k) ==> k == 0;
    } else {
      FieldsErrorIs(fields[1..]);
      assert forall k :: IsFirstBad(fields[1..], k) ==> IsFirstBad(fields, k + 1);
      assert forall k :: IsFirstBad(fields, k) ==> IsFirstBad(fields[1..], k - 1);
    }
  }

  lemma DigitsAreListed(c: char)
    ensures IsDigit(c) <==> c in "0123456789"
  {
    var digits := "0123456789";
    if IsDigit(c) {
      assert digits[c as int - '0' as int] == c;
    }
  }

  lemma NodesAreDigits(s: string)
    ensures IsNode(s) <==> OneOrTwoDigits(s)
  {
    forall k | 0 <= k < |s| ensures IsDigit(s[k]) <==> s[k] in "0123456789" {
      DigitsAreListed(s[k]);
    }
  }

  lemma EarlyChecks(cmd: string, fields: seq<string>)
    requires cmd != ""
    ensures !HasSuffix(cmd, ";") <==> IsWrong(cmd, fields, NoFinalSemicolon)
    ensures '\0' in cmd || '\r' in cmd || '\n' in cmd <==> IsWrong(cmd, fields, ControlCharacter)
    ensures !Printable(cmd) <==> IsWrong(cmd, fields, NonPrintable)
  {
    assert cmd[|cmd| - 1..] == [cmd[|cmd| - 1]];
  }

  lemma FieldChecks(cmd: string, fields: seq<string>)
    ensures |fields| < 2 <==> IsWrong(cmd, fields, TooFewFields)
    ensures fields == [] || !IsNode(fields[0]) <==> IsWrong(cmd, fields, BadNode)
    ensures FieldsError(fields) == Some(EmptyField) <==> IsWrong(cmd, fields, EmptyField)
    ensures FieldsError(fields) == Some(FieldTooLong) <==> IsWrong(cmd, fields, FieldTooLong)
    ensures FieldsError(fields) in {None, Some(EmptyField), Some(FieldTooLong)}
  {
    FieldsErrorIs(fields);
    if fields != [] {
      NodesAreDigits(fields[0]);
    }
  }

  /** The fields before the last semicolon of a trimmed command. */
  function FieldsBefore(cmd: string): seq<string> {
    if cmd == "" then [] else Split(cmd[..|cmd| - 1], ';')
  }

  /** What is complained about is wrong, and when there is no complaint nothing is. */
  lemma ComplaintsAreRight(raw: string, e: CommandError)
    ensures Complaint(raw) == Some(e) ==> IsWrong(TrimSpace(raw), FieldsBefore(TrimSpace(raw)), e)
    ensures Complaint(raw).None? ==> !IsWrong(TrimSpace(raw), FieldsBefore(TrimSpace(raw)), e)
  {
    var cmd := TrimSpace(raw);
    var fields := FieldsBefore(cmd);
    if cmd != "" {
      EarlyChecks(cmd, fields);
      FieldChecks(cmd, fields);
    }
  }

  /** And it is the first in the order of the checks: whatever else is wrong comes later. */
  lemma ComplaintsComeInOrder(raw: string, e: CommandError)
    requires Complaint(raw).Some? && IsWrong(TrimSpace(raw), FieldsBefore(TrimSpace(raw)), e)
    ensures Rank(Complaint(raw).value) <= Rank(e)
  {
    var cmd := TrimSpace(raw);
    var fields := FieldsBefore(cmd);
    if cmd != "" {
      EarlyChecks(cmd, fields);
      FieldChecks(cmd, fields);
    }
  }

  // ----- The language of valid commands -----

  predicate GoodField(f: string) {
    1 <= |f| <= MAX_FIELD_LEN && Printable(f) && Free(f, ';')
  }

  predicate AllGood(fs: seq<string>) {
    fs == [] || (GoodField(fs[0]) && AllGood(fs[1..]))
  }

  /** A node and at least one more field. */
  predicate GoodFields(fs: seq<string>) {
    |fs| >= 2 && IsNode(fs[0]) && AllGood(fs)
  }

  /** NN;Name;...; */
  function Render(fs: seq<string>): string {
    Join(fs, ';') + ";"
  }

  function FieldsOf(cmd: string): seq<string>
    requires cmd != ""
  {
    Split(cmd[..|cmd| - 1], ';')
  }

  lemma {:induction false} GoodIsFree(fs: seq<string>)
    requires AllGood(fs)
    ensures AllFree(fs, ';') && FieldsError(fs).None?
  {
    if fs == [] {
    } else {
      GoodIsFree(fs[1..]);
    }
  }

  lemma {:induction false} GoodJoinPrints(fs: seq<string>)
    requires AllGood(fs)
    ensures Printable(Join(fs, ';'))
  {
    if |fs| > 1 {
      GoodJoinPrints(fs[1..]);
    }
  }

  lemma {:induction false} PrintableFreeIsGood(fs: seq<string>)
    requires FieldsError(fs).None? && AllFree(fs, ';') && Printable(Join(fs, ';'))
    ensures AllGood(fs)
  {
    if fs == [] {
    } else {
      var s := Join(fs, ';');
      if |fs| > 1 {
        assert s == fs[0] + [';'] + Join(fs[1..], ';');
        assert forall k :: 0 <= k < |fs[0]| ==> s[k] == fs[0][k];
        assert forall k :: 0 <= k < |Join(fs[1..], ';')| ==> s[|fs[0]| + 1 + k] == Join(fs[1..], ';')[k];
      }
      PrintableFreeIsGood(fs[1..]);
    }
  }

  lemma {:induction false} JoinStarts(fs: seq<string>)
    requires fs != [] && fs[0] != ""
    ensures Join(fs, ';') != "" && Join(fs, ';')[0] == fs[0][0]
  {}

  /** Rendering good fields gives a valid command from which the fields can be read back. */
  lemma RenderIsValid(fs: seq<string>)
    requires GoodFields(fs)
    ensures var cmd := Render(fs);
            Trimmed(cmd) && Complaint(cmd).None? && cmd != "" && FieldsOf(cmd) == fs
  {
    var body, cmd := Join(fs, ';'), Render(fs);
    GoodIsFree(fs);
    GoodJoinPrints(fs);
    JoinStarts(fs);
    SplitOfJoin(fs, ';');
    assert cmd[..|cmd| - 1] == body && cmd[|cmd| - 1] == ';' && cmd[0] == fs[0][0];
    assert IsDigit(cmd[0]);
    TrimmedStays(cmd);
    assert Printable(cmd);
  }

  /** A valid command without outer white space is the rendering of its own, good fields. */
  lemma ValidIsRendered(cmd: string)
    requires Complaint(cmd).None? && Trimmed(cmd)
    ensures cmd != "" && GoodFields(FieldsOf(cmd)) && cmd == Render(FieldsOf(cmd))
  {
    TrimmedStays(cmd);
    var body := cmd[..|cmd| - 1];
    JoinOfSplit(body, ';');
    SplitIsFree(body, ';');
    assert cmd == body + ";";
    assert Printable(body);
    PrintableFreeIsGood(Split(body, ';'));
  }

  // ----- Normalization -----

  /** strings.TrimRight(s, "\r\n"). */
  function TrimLineEnd(s: string): (t: string)
    ensures t <= s
  {
    if s != "" && (s[|s| - 1] == '\r' || s[|s| - 1] == '\n') then TrimLineEnd(s[..|s| - 1]) else s
  }

  function Terminated(cmd: string): string {
    if HasSuffix(cmd, ";") then cmd else cmd + ";"
  }

  function Cap(maxLen: int): (n: nat)
    ensures n > 0
  {
    if maxLen <= 0 then DEFAULT_MAX_LEN else maxLen
  }

  function NormalizeCommand(maxLen: int, payload: string): Result<string, CommandError> {
    var cmd := TrimSpace(TrimLineEnd(TrimSpace(payload)));
    if cmd == "" then Err(EmptyCommand) else
    var full := Terminated(cmd);
    if |full| > Cap(maxLen) then Err(TooLong) else
    match Complaint(full)
    case Some(e) => Err(e)
    case None => Ok(full)
  }

  /** The three trims are one: a trimmed string ends in neither CR nor LF. */
  lemma TrimsAreOne(payload: string)
    ensures TrimSpace(TrimLineEnd(TrimSpace(payload))) == TrimSpace(payload)
  {
    TrimmedStays(TrimSpace(payload));
  }

  lemma TerminatedIsTrimmed(cmd: string)
    requires Trimmed(cmd) && cmd != ""
    ensures Trimmed(Terminated(cmd))
  {}

  /**
   Accepted payloads are exactly those whose trimmed text, with a final ';' added when it is
   missing, is the rendering of good fields within the cap; the result is that rendering.
   */
  lemma AcceptedPayloads(maxLen: int, payload: string)
    ensures var full := Terminated(TrimSpace(payload));
            NormalizeCommand(maxLen, payload).Ok? <==>
            |full| <= Cap(maxLen) && exists fs :: GoodFields(fs) && full == Render(fs)
    ensures NormalizeCommand(maxLen, payload).Ok? ==>
              NormalizeCommand(maxLen, payload).value == Terminated(TrimSpace(payload))
  {
    var cmd := TrimSpace(payload);
    var full := Terminated(cmd);
    TrimsAreOne(payload);
    if cmd != "" {
      TerminatedIsTrimmed(cmd);
      if Complaint(full).None? {
        ValidIsRendered(full);
      }
    }
    forall fs | GoodFields(fs) && full == Render(fs)
      ensures cmd != "" && Complaint(full).None?
    {
      RenderIsValid(fs);
      JoinStarts(fs);
    }
  }

  /** Every rendering of good fields within the cap is accepted, and normalizes to itself. */
  lemma RenderingsAreFixedPoints(maxLen: int, fs: seq<string>)
    requires GoodFields(fs) && |Render(fs)| <= Cap(maxLen)
    ensures NormalizeCommand(maxLen, Render(fs)) == Ok(Render(fs)) && FieldsOf(Render(fs)) == fs
  {
    RenderIsValid(fs);
    TrimmedStays(Render(fs));
    TrimsAreOne(Render(fs));
  }

  /** And every accepted output is such a rendering: outputs and field lists are in bijection. */
  lemma OutputsAreRenderings(maxLen: int, payload: string)
    requires NormalizeCommand(maxLen, payload).Ok?
    ensures var cmd := NormalizeCommand(maxLen, payload).value;
            cmd != "" && |cmd| <= Cap(maxLen) && GoodFields(FieldsOf(cmd)) && cmd == Render(FieldsOf(cmd))
  {
    TrimsAreOne(payload);
    TerminatedIsTrimmed(TrimSpace(payload));
    ValidIsRendered(Terminated(TrimSpace(payload)));
  }

  lemma NormalizeIsIdempotent(maxLen: int, payload: string)
    requires NormalizeCommand(maxLen, payload).Ok?
    ensures var cmd := NormalizeCommand(maxLen, payload).value; NormalizeCommand(maxLen, cmd) == Ok(cmd)
  {
    OutputsAreRenderings(maxLen, payload);
    RenderingsAreFixedPoints(maxLen, FieldsOf(NormalizeCommand(maxLen, payload).value));
  }

  // ----- Whitelist -----

  predicate Allowed(whitelist: seq<string>, payload: string) {
    whitelist == [] || exists i :: 0 <= i < |whitelist| && HasPrefix(TrimSpace(payload), whitelist[i])
  }

  method CommandAllowed(whitelist: seq<string>, payload: string) returns (ok: bool)
    ensures ok == Allowed(whitelist, payload)
  {
    if |whitelist| == 0 {
      return true;
    }
    var trimmed := TrimSpace(payload);
    for i := 0 to |whitelist|
      invariant forall j :: 0 <= j < i ==> !HasPrefix(trimmed, whitelist[j])
    {
      if HasPrefix(trimmed, whitelist[i]) {
        return true;
      }
    }
    return false;
  }

  // ----- CSV lists of home-assistant actuators -----

  /** The trimmed parts that are not blank. */
  function NonBlank(parts: seq<string>): seq<string> {
    if parts == [] then [] else
    NonBlank(parts[..|parts| - 1]) +
    if TrimSpace(parts[|parts| - 1]) != "" then [TrimSpace(parts[|parts| - 1])] else []
  }

  lemma BlankList(list: string)
    requires list == ""
    ensures NonBlank(Split(list, ',')) == []
  {
    assert Split(list, ',') == [""] && TrimSpace("") == "";
    assert NonBlank([""]) == NonBlank([]) == [];
  }

  method SplitCSV(raw: string) returns (out: seq<string>)
    ensures out == NonBlank(Split(raw, ','))
  {
    out := [];
    var parts := Split(raw, ',');
    for i := 0 to |parts|
      invariant out == NonBlank(parts[..i])
    {
      assert parts[..i + 1][..i] == parts[..i];
      var p := TrimSpace(parts[i]);
      if p != "" {
        out := out + [p];
      }
    }
    assert parts[..|parts|] == parts;
  }

  datatype Button = Button(name: string, command: string)

  datatype Switch = Switch(name: string, commandOn: string, commandOff: string)

  datatype CSVError = BadEntry | EmptyPart | BadLabel | BadCommand(error: CommandError)

  predicate LabelStart(c: char) {
    'A' <= c <= 'Z' || 'a' <= c <= 'z' || IsDigit(c)
  }

  /** A label starts with a letter or digit and has at most 64 characters. */
  predicate IsLabel(s: string) {
    && 1 <= |s| <= 64
    && LabelStart(s[0])
    && forall k :: 0 <= k < |s| ==>
         LabelStart(s[k]) || s[k] == ' ' || s[k] == '_' || s[k] == '.' || s[k] == '/' || s[k] == '-'
  }

  /** What a part says, when it says anything: Label:command. */
  function ButtonOf(part: string): Option<Button> {
    var kv := SplitN(part, ':', 2);
    if |kv| != 2 then None else
    var name, cmd := TrimSpace(kv[0]), TrimSpace(kv[1]);
    if name == "" || cmd == "" then None else Some(Button(name, Terminated(cmd)))
  }

  function SwitchOf(part: string): Option<Switch> {
    var kv := SplitN(part, ':', 3);
    if |kv| != 3 then None else
    var name, on, off := TrimSpace(kv[0]), TrimSpace(kv[1]), TrimSpace(kv[2]);
    if name == "" || on == "" || off == "" then None else Some(Switch(name, Terminated(on), Terminated(off)))
  }

  /** The entries of the parts that say something. */
  function Known<T>(parts: seq<string>, of: string -> Option<T>): seq<T> {
    if parts == [] then [] else
    Known(parts[..|parts| - 1], of) +
    if of(parts[|parts| - 1]).Some? then [of(parts[|parts| - 1]).value] else []
  }

  lemma KnownAppend<T>(parts: seq<string>, part: string, of: string -> Option<T>)
    ensures Known(parts + [part], of) == Known(parts, of) + if of(part).Some? then [of(part).value] else []
  {
    assert (parts + [part])[..|parts|] == parts;
  }

  lemma NonBlankAppend(parts: seq<string>, part: string)
    ensures NonBlank(parts + [part]) == NonBlank(parts) + if TrimSpace(part) != "" then [TrimSpace(part)] else []
  {
    assert (parts + [part])[..|parts|] == parts;
  }

  /** One more part of a list. */
  lemma OneMorePart<T>(parts: seq<string>, i: nat, of: string -> Option<T>)
    requires i < |parts|
    ensures var before, part := Known(NonBlank(parts[..i]), of), TrimSpace(parts[i]);
            Known(NonBlank(parts[..i + 1]), of) ==
            before + if part != "" && of(part).Some? then [of(part).value] else []
  {
    var shown, part := NonBlank(parts[..i]), TrimSpace(parts[i]);
    assert parts[..i + 1] == parts[..i] + [parts[i]];
    NonBlankAppend(parts[..i], parts[i]);
    if part == "" {
      assert NonBlank(parts[..i + 1]) == shown;
    } else {
      assert NonBlank(parts[..i + 1]) == shown + [part];
      KnownAppend(shown, part, of);
    }
  }

  method ParseHAButtons(raw: string) returns (out: seq<Button>)
    ensures out == Known(NonBlank(Split(TrimSpace(raw), ',')), ButtonOf)
  {
    out := [];
    var list := TrimSpace(raw);
    if list == "" {
      BlankList(list);
      return;
    }
    var parts := Split(list, ',');
    for i := 0 to |parts|
      invariant out == Known(NonBlank(parts[..i]), ButtonOf)
    {
      OneMorePart(parts, i, ButtonOf);
      var part := TrimSpace(parts[i]);
      if part == "" {
        continue;
      }
      var button := ParseHAButton(part);
      if button.None? {
        continue;
      }
      out := out + [button.value];
    }
    assert parts[..|parts|] == parts;
  }

  /** The body of the loop for a part that is not blank. */
  method ParseHAButton(part: string) returns (button: Option<Button>)
    ensures button == ButtonOf(part)
  {
    var kv := SplitN(part, ':', 2);
    if |kv| != 2 {
      return None;
    }
    var name, cmd := TrimSpace(kv[0]), TrimSpace(kv[1]);
    if name == "" || cmd == "" {
      return None;
    }
    if !HasSuffix(cmd, ";") {
      cmd := cmd + ";";
    }
    return Some(Button(name, cmd));
  }

  method ParseHASwitches(raw: string) returns (out: seq<Switch>)
    ensures out == Known(NonBlank(Split(TrimSpace(raw), ',')), SwitchOf)
  {
    out := [];
    var list := TrimSpace(raw);
    if list == "" {
      BlankList(list);
      return;
    }
    var parts := Split(list, ',');
    for i := 0 to |parts|
      invariant out == Known(NonBlank(parts[..i]), SwitchOf)
    {
      OneMorePart(parts, i, SwitchOf);
      var part := TrimSpace(parts[i]);
      if part == "" {
        continue;
      }
      var entry := ParseHASwitch(part);
      if entry.None? {
        continue;
      }
      out := out + [entry.value];
    }
    assert parts[..|parts|] == parts;
  }

  method ParseHASwitch(part: string) returns (entry: Option<Switch>)
    ensures entry == SwitchOf(part)
  {
    var kv := SplitN(part, ':', 3);
    if |kv| != 3 {
      return None;
    }
    var name, on, off := TrimSpace(kv[0]), TrimSpace(kv[1]), TrimSpace(kv[2]);
    if name == "" || on == "" || off == "" {
      return None;
    }
    if !HasSuffix(on, ";") {
      on := on + ";";
    }
    if !HasSuffix(off, ";") {
      off := off + ";";
    }
    return Some(Switch(name, on, off));
  }

  // ----- What the entries say -----

  /** The command a list entry stands for: its text with a final semicolon. */
  function Meant(text: string): string {
    var t := TrimSpace(text);
    if t != "" && t[|t| - 1] == ';' then t else t + ";"
  }

  /** Why a payload is refused: it is blank, its text is too long, or the first complaint about the text. */
  lemma RefusalsInFull(maxLen: int, payload: string)
    ensures NormalizeCommand(maxLen, payload) ==
            if TrimSpace(payload) == "" then Err(EmptyCommand)
            else if |Meant(payload)| > (if maxLen > 0 then maxLen else 256) then Err(TooLong)
            else if Complaint(Meant(payload)).Some? then Err(Complaint(Meant(payload)).value)
            else Ok(Meant(payload))
  {
    TrimsAreOne(payload);
    MeantIsTerminated(payload);
  }

  /** Label:command, the label being what comes before the first colon. */
  lemma ButtonsInFull(name: string, command: string)
    requires Free(name, ':')
    ensures ButtonOf(name + [':'] + command) ==
            if TrimSpace(name) == "" || TrimSpace(command) == "" then None
            else Some(Button(TrimSpace(name), Meant(command)))
  {
    SplitInTwo(name, ':', command);
  }

  /** Label:on:off, in this order; only the last may contain a colon. */
  lemma SwitchesInFull(name: string, on: string, off: string)
    requires Free(name, ':') && Free(on, ':')
    ensures SwitchOf(name + [':'] + (on + [':'] + off)) ==
            if TrimSpace(name) == "" || TrimSpace(on) == "" || TrimSpace(off) == "" then None
            else Some(Switch(TrimSpace(name), Meant(on), Meant(off)))
  {
    SplitInThree(name, ':', on, off);
    MeantIsTerminated(on);
    MeantIsTerminated(off);
    SwitchOfPieces(name + [':'] + (on + [':'] + off), name, on, off);
  }

  lemma MeantIsTerminated(text: string)
    ensures TrimSpace(text) != "" ==> Terminated(TrimSpace(text)) == Meant(text)
  {}

  lemma SwitchOfPieces(part: string, name: string, on: string, off: string)
    requires SplitN(part, ':', 3) == [name, on, off]
    ensures SwitchOf(part) ==
            if TrimSpace(name) == "" || TrimSpace(on) == "" || TrimSpace(off) == "" then None
            else Some(Switch(TrimSpace(name), Terminated(TrimSpace(on)), Terminated(TrimSpace(off))))
  {}

  /** A part with too few colons says nothing and is a bad entry. */
  lemma OtherPartsSayNothing(part: string, rest: string)
    requires Free(part, ':') && Free(rest, ':')
    ensures ButtonOf(part).None? && ButtonError(part) == Some(BadEntry)
    ensures SwitchOf(part).None? && SwitchError(part) == Some(BadEntry)
    ensures SwitchOf(part + [':'] + rest).None? && SwitchError(part + [':'] + rest) == Some(BadEntry)
  {
    SplitWhole(part, ':', 2);
    SplitWhole(part, ':', 3);
    var two := part + [':'] + rest;
    FirstIs(two, ':', |part|);
    assert two[..|part|] == part && two[|part| + 1..] == rest;
    SplitWhole(rest, ':', 2);
  }

  const CAPITALS := "ABCDEFGHIJKLMNOPQRSTUVWXYZ"
  const SMALLS := "abcdefghijklmnopqrstuvwxyz"

  lemma Capitals(c: char)
    ensures 'A' <= c <= 'Z' <==> c in CAPITALS
  {
    if 'A' <= c <= 'Z' {
      assert CAPITALS[c as int - 'A' as int] == c;
    }
  }

  lemma Smalls(c: char)
    ensures 'a' <= c <= 'z' <==> c in SMALLS
  {
    if 'a' <= c <= 'z' {
      assert SMALLS[c as int - 'a' as int] == c;
    }
  }

  predicate Alphanumeric(c: char) {
    c in CAPITALS || c in SMALLS || c in "0123456789"
  }

  lemma LabelCharacters(c: char)
    ensures LabelStart(c) <==> Alphanumeric(c)
    ensures c in " _./-" <==> c == ' ' || c == '_' || c == '.' || c == '/' || c == '-'
  {
    Capitals(c);
    Smalls(c);
    DigitsAreListed(c);
    var marks := " _./-";
    assert marks[0] == ' ' && marks[1] == '_' && marks[2] == '.' && marks[3] == '/' && marks[4] == '-';
  }

  /** A label is 1 to 64 letters, digits, spaces and _./- and starts with a letter or digit. */
  lemma LabelsInFull(s: string)
    ensures IsLabel(s) <==>
            1 <= |s| <= 64 && Alphanumeric(s[0]) && forall k :: 0 <= k < |s| ==> Alphanumeric(s[k]) || s[k] in " _./-"
  {
    forall k | 0 <= k < |s|
      ensures LabelStart(s[k]) <==> Alphanumeric(s[k])
      ensures s[k] in " _./-" <==> s[k] == ' ' || s[k] == '_' || s[k] == '.' || s[k] == '/' || s[k] == '-'
    {
      LabelCharacters(s[k]);
    }
  }

  /** What is wrong with an entry: an empty half, then the label, then the command. */
  lemma ButtonErrorsInFull(name: string, command: string)
    requires Free(name, ':')
    ensures ButtonError(name + [':'] + command) ==
            if TrimSpace(name) == "" || TrimSpace(command) == "" then Some(EmptyPart)
            else if !IsLabel(TrimSpace(name)) then Some(BadLabel)
            else CommandProblem(Meant(command))
  {
    SplitInTwo(name, ':', command);
    ButtonsInFull(name, command);
  }

  function CommandProblem(cmd: string): Option<CSVError> {
    match Complaint(cmd)
    case Some(e) => Some(BadCommand(e))
    case None => None
  }

  /** The command for on is checked before the one for off. */
  lemma SwitchErrorsInFull(name: string, on: string, off: string)
    requires Free(name, ':') && Free(on, ':')
    ensures SwitchError(name + [':'] + (on + [':'] + off)) ==
            if TrimSpace(name) == "" || TrimSpace(on) == "" || TrimSpace(off) == "" then Some(EmptyPart)
            else if !IsLabel(TrimSpace(name)) then Some(BadLabel)
            else if CommandProblem(Meant(on)).Some? then CommandProblem(Meant(on))
            else CommandProblem(Meant(off))
  {
    SplitInThree(name, ':', on, off);
    SwitchesInFull(name, on, off);
  }

  /** The error of a list is that of the first part that has one. */
  lemma {:induction false} FirstErrorIs(parts: seq<string>, errorOf: string -> Option<CSVError>)
    ensures match FirstError(parts, errorOf)
            case None => forall i :: 0 <= i < |parts| ==> errorOf(parts[i]).None?
            case Some(e) => exists i :: 0 <= i < |parts| && errorOf(parts[i]) == Some(e)
                                        && forall j :: 0 <= j < i ==> errorOf(parts[j]).None?
  {
    if parts == [] {
    } else if errorOf(parts[0]).Some? {
    } else {
      FirstErrorIs(parts[1..], errorOf);
      if FirstError(parts, errorOf).Some? {
        var i :| 0 <= i < |parts[1..]| && errorOf(parts[1..][i]) == FirstError(parts, errorOf)
                 && forall j :: 0 <= j < i ==> errorOf(parts[1..][j]).None?;
        assert errorOf(parts[i + 1]) == FirstError(parts, errorOf);
        assert forall j :: 0 < j < i + 1 ==> parts[j] == parts[1..][j - 1];
      } else {
        assert forall j :: 0 < j < |parts| ==> parts[j] == parts[1..][j - 1];
      }
    }
  }

  function ButtonError(part: string): Option<CSVError> {
    var kv := SplitN(part, ':', 2);
    if |kv| != 2 then Some(BadEntry) else
    match ButtonOf(part)
    case None => Some(EmptyPart)
    case Some(b) =>
      if !IsLabel(b.name) then Some(BadLabel)
      else if Complaint(b.command).Some? then Some(BadCommand(Complaint(b.command).value))
      else None
  }

  function SwitchError(part: string): Option<CSVError> {
    var kv := SplitN(part, ':', 3);
    if |kv| != 3 then Some(BadEntry) else
    match SwitchOf(part)
    case None => Some(EmptyPart)
    case Some(s) =>
      if !IsLabel(s.name) then Some(BadLabel)
      else if Complaint(s.commandOn).Some? then Some(BadCommand(Complaint(s.commandOn).value))
      else if Complaint(s.commandOff).Some? then Some(BadCommand(Complaint(s.commandOff).value))
      else None
  }

  /** The error of the first part that has one. */
  function FirstError(parts: seq<string>, errorOf: string -> Option<CSVError>): Option<CSVError> {
    if parts == [] then None
    else if errorOf(parts[0]).Some? then errorOf(parts[0])
    else FirstError(parts[1..], errorOf)
  }

  lemma {:induction false} NoFirstError(parts: seq<string>, errorOf: string -> Option<CSVError>)
    requires FirstError(parts, errorOf).None?
    ensures forall i :: 0 <= i < |parts| ==> errorOf(parts[i]).None?
  {
    if parts == [] {
    } else {
      NoFirstError(parts[1..], errorOf);
    }
  }

  method CheckButton(part: string) returns (err: Option<CSVError>)
    ensures err == ButtonError(part)
  {
    var kv := SplitN(part, ':', 2);
    if |kv| != 2 {
      return Some(BadEntry);
    }
    var name, cmd := TrimSpace(kv[0]), TrimSpace(kv[1]);
    if name == "" || cmd == "" {
      return Some(EmptyPart);
    }
    if !IsLabel(name) {
      return Some(BadLabel);
    }
    if !HasSuffix(cmd, ";") {
      cmd := cmd + ";";
    }
    var bad := ValidateRFLinkCommand(cmd);
    return if bad.Some? then Some(BadCommand(bad.value)) else None;
  }

  method CheckSwitch(part: string) returns (err: Option<CSVError>)
    ensures err == SwitchError(part)
  {
    var kv := SplitN(part, ':', 3);
    if |kv| != 3 {
      return Some(BadEntry);
    }
    var name, on, off := TrimSpace(kv[0]), TrimSpace(kv[1]), TrimSpace(kv[2]);
    if name == "" || on == "" || off == "" {
      return Some(EmptyPart);
    }
    if !IsLabel(name) {
      return Some(BadLabel);
    }
    if !HasSuffix(on, ";") {
      on := on + ";";
    }
    if !HasSuffix(off, ";") {
      off := off + ";";
    }
    var bad := ValidateRFLinkCommand(on);
    if bad.Some? {
      return Some(BadCommand(bad.value));
    }
    bad := ValidateRFLinkCommand(off);
    return if bad.Some? then Some(BadCommand(bad.value)) else None;
  }

  method ValidateHAButtonsCSV(raw: string) returns (err: Option<CSVError>)
    ensures err == FirstError(NonBlank(Split(TrimSpace(raw), ',')), ButtonError)
  {
    var list := TrimSpace(raw);
    if list == "" {
      BlankList(list);
      return None;
    }
    var parts := SplitCSV(list);
    for i := 0 to |parts|
      invariant FirstError(parts, ButtonError) == FirstError(parts[i..], ButtonError)
    {
      assert parts[i..][1..] == parts[i + 1..];
      var bad := CheckButton(parts[i]);
      if bad.Some? {
        return bad;
      }
    }
    return None;
  }

  method ValidateHASwitchesCSV(raw: string) returns (err: Option<CSVError>)
    ensures err == FirstError(NonBlank(Split(TrimSpace(raw), ',')), SwitchError)
  {
    var list := TrimSpace(raw);
    if list == "" {
      BlankList(list);
      return None;
    }
    var parts := SplitCSV(list);
    for i := 0 to |parts|
      invariant FirstError(parts, SwitchError) == FirstError(parts[i..], SwitchError)
    {
      assert parts[i..][1..] == parts[i + 1..];
      var bad := CheckSwitch(parts[i]);
      if bad.Some? {
        return bad;
      }
    }
    return None;
  }

  lemma {:induction false} AllKnown<T>(parts: seq<string>, of: string -> Option<T>)
    requires forall i :: 0 <= i < |parts| ==> of(parts[i]).Some?
    ensures |Known(parts, of)| == |parts|
    ensures forall i :: 0 <= i < |parts| ==> Known(parts, of)[i] == of(parts[i]).value
  {
    if parts == [] {
    } else {
      AllKnown(parts[..|parts| - 1], of);
    }
  }

  /** cmd is exactly what the command path will send for it, when it fits the cap. */
  predicate SentAsIs(maxLen: int, cmd: string) {
    |cmd| <= Cap(maxLen) ==> NormalizeCommand(maxLen, cmd) == Ok(cmd)
  }

  lemma ValidTerminatedIsNormal(maxLen: int, cmd: string)
    requires Trimmed(cmd) && cmd != "" && Complaint(Terminated(cmd)).None?
    ensures SentAsIs(maxLen, Terminated(cmd))
  {
    TerminatedIsTrimmed(cmd);
    ValidIsRendered(Terminated(cmd));
    if |Terminated(cmd)| <= Cap(maxLen) {
      RenderingsAreFixedPoints(maxLen, FieldsOf(Terminated(cmd)));
    }
  }

  lemma CleanButton(maxLen: int, part: string)
    requires ButtonError(part).None?
    ensures ButtonOf(part).Some? && IsLabel(ButtonOf(part).value.name)
    ensures SentAsIs(maxLen, ButtonOf(part).value.command)
  {
    ValidTerminatedIsNormal(maxLen, TrimSpace(SplitN(part, ':', 2)[1]));
  }

  lemma CleanSwitch(maxLen: int, part: string)
    requires SwitchError(part).None?
    ensures SwitchOf(part).Some? && IsLabel(SwitchOf(part).value.name)
    ensures SentAsIs(maxLen, SwitchOf(part).value.commandOn) && SentAsIs(maxLen, SwitchOf(part).value.commandOff)
  {
    ValidTerminatedIsNormal(maxLen, TrimSpace(SplitN(part, ':', 3)[1]));
    ValidTerminatedIsNormal(maxLen, TrimSpace(SplitN(part, ':', 3)[2]));
  }

  /**
   A button list that the validator accepts is parsed without loss, one button per non-blank
   part, and each command that fits the cap is exactly what the command path will send.
   */
  lemma AcceptedButtonsAreParsed(maxLen: int, raw: string)
    ensures var parts := NonBlank(Split(TrimSpace(raw), ','));
            var buttons := Known(parts, ButtonOf);
            FirstError(parts, ButtonError).None? ==>
            && |buttons| == |parts|
            && forall i :: 0 <= i < |parts| ==>
                 && ButtonOf(parts[i]) == Some(buttons[i]) && IsLabel(buttons[i].name)
                 && SentAsIs(maxLen, buttons[i].command)
  {
    var parts := NonBlank(Split(TrimSpace(raw), ','));
    if FirstError(parts, ButtonError).Some? {
      return;
    }
    NoFirstError(parts, ButtonError);
    forall i | 0 <= i < |parts|
      ensures ButtonOf(parts[i]).Some? && IsLabel(ButtonOf(parts[i]).value.name)
      ensures SentAsIs(maxLen, ButtonOf(parts[i]).value.command)
    {
      CleanButton(maxLen, parts[i]);
    }
    AllKnown(parts, ButtonOf);
  }

  /** The same for switches and both of their commands. */
  lemma AcceptedSwitchesAreParsed(maxLen: int, raw: string)
    ensures var parts := NonBlank(Split(TrimSpace(raw), ','));
            var switches := Known(parts, SwitchOf);
            FirstError(parts, SwitchError).None? ==>
            && |switches| == |parts|
            && forall i :: 0 <= i < |parts| ==>
                 && SwitchOf(parts[i]) == Some(switches[i]) && IsLabel(switches[i].name)
                 && SentAsIs(maxLen, switches[i].commandOn) && SentAsIs(maxLen, switches[i].commandOff)
  {
    var parts := NonBlank(Split(TrimSpace(raw), ','));
    if FirstError(parts, SwitchError).Some? {
      return;
    }
    NoFirstError(parts, SwitchError);
    forall i | 0 <= i < |parts|
      ensures SwitchOf(parts[i]).Some? && IsLabel(SwitchOf(parts[i]).value.name)
      ensures SentAsIs(maxLen, SwitchOf(parts[i]).value.commandOn)
      ensures SentAsIs(maxLen, SwitchOf(parts[i]).value.commandOff)
    {
      CleanSwitch(maxLen, parts[i]);
    }
    AllKnown(parts, SwitchOf);
  }
}
