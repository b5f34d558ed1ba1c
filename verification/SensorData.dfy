/**
 Sensor messages (rflink/sensor_data.go, rflink/utils.go) and the debounce key of a line
 (rflink/publisher.go). Temperatures are kept as the parsed integer tenths.
 */
module SensorMessages {
  import opened Wrappers
  import opened Text

  /** knownFieldKeys: the fields with dedicated parsing. */
  predicate KnownFieldKey(key: string) {
    key == "ID" || key == "TEMP" || key == "HUM" || key == "BAT" || key == "SWITCH" || key == "CMD"
  }

  datatype SensorData = SensorData(
    hwid: string,
    model: string,
    id: string,
    friendlyName: string,
    temperature: Option<nat>,
    tempRaw: string,
    humidity: Option<nat>,
    bat: string,
    switch: string,
    cmd: string,
    extra: map<string, string>,
    receivedAt: int)
  {
    /** The MQTT topic segment: HWID preferred, raw ID otherwise. */
    function TopicID(): string {
      if hwid != "" then hwid else id
    }

    function StripEventFields(): SensorData {
      this.(cmd := "", switch := "")
    }
  }

  datatype ParseError = EmptyMessage | TooShort | InvalidField | BadTemperature | BadHumidity | NoSensorID

  // ----- Numbers -----

  function Digit(c: char): Option<nat> {
    if '0' <= c <= '9' then Some(c as int - '0' as int)
    else if 'a' <= c <= 'f' then Some(c as int - 'a' as int + 10)
    else if 'A' <= c <= 'F' then Some(c as int - 'A' as int + 10)
    else None
  }

  /** The value of s in the given base, if every character is a digit of that base. */
  function Digits(s: string, base: nat): (r: Option<nat>)
  {
    if s == "" then Some(0) else
    var high, low := Digits(s[..|s| - 1], base), Digit(s[|s| - 1]);
    if high.Some? && low.Some? && low.value < base then Some(high.value * base + low.value) else None
  }

  /** strToUint16: a non-empty digit string whose value fits 16 bits. */
  function StrToUint16(s: string, base: nat): (r: Option<nat>)
    ensures r.Some? ==> r.value < 0x1_0000
  {
    if s == "" then None else
    match Digits(s, base)
    case Some(v) => if v < 0x1_0000 then Some(v) else None
    case None => None
  }

  function Power(base: nat, n: nat): nat {
    if n == 0 then 1 else base * Power(base, n - 1)
  }

  predicate AllDigits(s: string, base: nat) {
    forall i :: 0 <= i < |s| ==> Digit(s[i]).Some? && Digit(s[i]).value < base
  }

  function Weighted(digit: nat, weight: nat): nat {
    digit * weight
  }

  /** What the numeral s stands for: each digit times the power of the base at its place. */
  function PlaceValue(s: string, base: nat): nat
    requires AllDigits(s, base)
  {
    if s == "" then 0 else Weighted(Digit(s[0]).value, Power(base, |s| - 1)) + PlaceValue(s[1..], base)
  }

  lemma Horner(d: nat, p: nat, v: nat, low: nat, base: nat)
    ensures Weighted(d, base * p) + (v * base + low) == (Weighted(d, p) + v) * base + low
  {}

  lemma {:induction false} PlaceValueLast(s: string, base: nat)
    requires s != "" && AllDigits(s, base)
    ensures AllDigits(s[..|s| - 1], base)
    ensures PlaceValue(s, base) == PlaceValue(s[..|s| - 1], base) * base + Digit(s[|s| - 1]).value
  {
    if |s| == 1 {
      assert s[1..] == "" && s[..0] == "";
    } else {
      var rest, init := s[1..], s[..|s| - 1];
      PlaceValueLast(rest, base);
      assert rest[..|rest| - 1] == init[1..];
      Horner(Digit(s[0]).value, Power(base, |s| - 2), PlaceValue(init[1..], base), Digit(s[|s| - 1]).value, base);
    }
  }

  lemma {:induction false} DigitsArePlaceValues(s: string, base: nat)
    ensures Digits(s, base) == if AllDigits(s, base) then Some(PlaceValue(s, base)) else None
  {
    if s == "" {
    } else {
      var init := s[..|s| - 1];
      DigitsArePlaceValues(init, base);
      assert s == init + [s[|s| - 1]];
      if AllDigits(s, base) {
        PlaceValueLast(s, base);
      }
    }
  }

  /** A number is accepted exactly if it is a numeral whose place value fits 16 bits, and has that value. */
  lemma AcceptedNumbers(s: string, base: nat)
    ensures StrToUint16(s, base) ==
            if s != "" && AllDigits(s, base) && PlaceValue(s, base) < 0x1_0000 then Some(PlaceValue(s, base)) else None
  {
    DigitsArePlaceValues(s, base);
  }

  // ----- Parsing -----

  function FieldTopicName(key: string): string {
    ToLower(TrimSpace(key))
  }

  /** One piece after the protocol name: KEY=value, blank pieces are skipped. */
  function ParseField(sd: SensorData, raw: string): Result<SensorData, ParseError> {
    var piece := TrimSpace(raw);
    if piece == "" then Ok(sd) else
    var arr := SplitN(piece, '=', 2);
    if |arr| != 2 then Err(InvalidField) else
    var key, value := ToUpper(TrimSpace(arr[0])), TrimSpace(arr[1]);
    if !KnownFieldKey(key) then Ok(sd.(extra := sd.extra[FieldTopicName(key) := value]))
    else SetKnownField(sd, key, value)
  }

  function SetKnownField(sd: SensorData, key: string, value: string): (r: Result<SensorData, ParseError>)
    requires KnownFieldKey(key)
    ensures r.Ok? ==> r.value.extra == sd.extra && r.value.model == sd.model
  {
    if key == "ID" then Ok(sd.(id := value, hwid := ToUpper(sd.model + "_" + value)))
    else if key == "TEMP" then
      (match StrToUint16(value, 16)
       case Some(t) => Ok(sd.(tempRaw := value, temperature := Some(t)))
       case None => Err(BadTemperature))
    else if key == "HUM" then
      (match StrToUint16(value, 10)
       case Some(h) => Ok(sd.(humidity := Some(h)))
       case None => Err(BadHumidity))
    else if key == "BAT" then Ok(sd.(bat := value))
    else if key == "SWITCH" then Ok(sd.(switch := value))
    else Ok(sd.(cmd := value))
  }

  function ParseFields(sd: SensorData, pieces: seq<string>): Result<SensorData, ParseError>
    decreases |pieces|
  {
    if pieces == [] then Ok(sd) else
    match ParseField(sd, pieces[0])
    case Ok(next) => ParseFields(next, pieces[1..])
    case Err(e) => Err(e)
  }

  function Blank(model: string, now: int): SensorData {
    SensorData("", ReplaceAll(TrimSpace(model), ' ', '_'), "", "", None, "", None, "", "", "", map[], now)
  }

  /** The record of a protocol name and the field pieces behind it. */
  function Record(pieces: seq<string>, now: int): Result<SensorData, ParseError>
    requires pieces != []
  {
    match ParseFields(Blank(pieces[0], now), pieces[1..])
    case Ok(sd) => if sd.id == "" then Err(NoSensorID) else Ok(sd)
    case Err(e) => Err(e)
  }

  /** What SensorDataFromMessage makes of msg at the time stamp now. */
  function Parsed(msg: string, now: int): Result<SensorData, ParseError> {
    var line := TrimSpace(msg);
    if line == "" then Err(EmptyMessage) else
    var pieces := Split(line, ';');
    if |pieces| < 3 then Err(TooShort) else Record(pieces[2..], now)
  }

  method SensorDataFromMessage(msg: string, now: int) returns (r: Result<SensorData, ParseError>)
    ensures r == Parsed(msg, now)
  {
    var line := TrimSpace(msg);
    if line == "" {
      return Err(EmptyMessage);
    }
    var pieces := Split(line, ';');
    if |pieces| < 3 {
      return Err(TooShort);
    }
    var sd := Blank(pieces[2], now);
    assert pieces[2..][1..] == pieces[3..];
    for i := 3 to |pieces|
      invariant ParseFields(Blank(pieces[2], now), pieces[3..]) == ParseFields(sd, pieces[i..])
    {
      assert pieces[i..][1..] == pieces[i + 1..];
      var piece := TrimSpace(pieces[i]);
      if piece == "" {
        continue;
      }
      var arr := SplitN(piece, '=', 2);
      if |arr| != 2 {
        return Err(InvalidField);
      }
      var key, value := ToUpper(TrimSpace(arr[0])), TrimSpace(arr[1]);
      if !KnownFieldKey(key) {
        sd := sd.(extra := sd.extra[FieldTopicName(key) := value]);
        continue;
      }
      match key {
        case "ID" =>
          sd := sd.(id := value);
          sd := sd.(hwid := ToUpper(sd.model + "_" + sd.id));
        case "TEMP" =>
          sd := sd.(tempRaw := value);
          var t := StrToUint16(value, 16);
          if t.None? {
            return Err(BadTemperature);
          }
          sd := sd.(temperature := t);
        case "HUM" =>
          var h := StrToUint16(value, 10);
          if h.None? {
            return Err(BadHumidity);
          }
          sd := sd.(humidity := h);
        case "BAT" =>
          sd := sd.(bat := value);
        case "SWITCH" =>
          sd := sd.(switch := value);
        case _ =>
          sd := sd.(cmd := value);
      }
    }
    if sd.id == "" {
      return Err(NoSensorID);
    }
    return Ok(sd);
  }

  // ----- What a line means, read off its pieces -----

  /** A piece is acceptable: blank, or KEY=value with a number where one is needed. */
  predicate Acceptable(raw: string) {
    var piece := TrimSpace(raw);
    piece == "" ||
    (var arr := SplitN(piece, '=', 2);
     && |arr| == 2
     && (ToUpper(TrimSpace(arr[0])) == "TEMP" ==> StrToUint16(TrimSpace(arr[1]), 16).Some?)
     && (ToUpper(TrimSpace(arr[0])) == "HUM" ==> StrToUint16(TrimSpace(arr[1]), 10).Some?))
  }

  /** The key of a piece that has one, in upper case. */
  function KeyOf(raw: string): Option<string> {
    var piece := TrimSpace(raw);
    var arr := SplitN(piece, '=', 2);
    if piece != "" && |arr| == 2 then Some(ToUpper(TrimSpace(arr[0]))) else None
  }

  function ValueOf(raw: string): string
    requires KeyOf(raw).Some?
  {
    TrimSpace(SplitN(TrimSpace(raw), '=', 2)[1])
  }

  /** The value of the last piece with this key. */
  function LastValue(pieces: seq<string>, key: string): Option<string>
    decreases |pieces|
  {
    if pieces == [] then None
    else if KeyOf(pieces[|pieces| - 1]) == Some(key) then Some(ValueOf(pieces[|pieces| - 1]))
    else LastValue(pieces[..|pieces| - 1], key)
  }

  /** The value of the last piece whose key is none of the known ones and is published as name. */
  function LastExtra(pieces: seq<string>, name: string): Option<string>
    decreases |pieces|
  {
    if pieces == [] then None
    else
      var key := KeyOf(pieces[|pieces| - 1]);
      if key.Some? && !KnownFieldKey(key.value) && FieldTopicName(key.value) == name
      then Some(ValueOf(pieces[|pieces| - 1]))
      else LastExtra(pieces[..|pieces| - 1], name)
  }

  function OrEmpty(v: Option<string>): string {
    if v.Some? then v.value else ""
  }

  function OrNone(v: Option<string>, base: nat): Option<nat> {
    if v.Some? then StrToUint16(v.value, base) else None
  }

  /** Each known field of sd carries the last value that the pieces give it. */
  ghost predicate KnownFieldsMatch(sd: SensorData, model: string, pieces: seq<string>) {
    && sd.model == model
    && sd.id == OrEmpty(LastValue(pieces, "ID"))
    && sd.hwid == (if LastValue(pieces, "ID").None? then "" else ToUpper(model + "_" + sd.id))
    && sd.tempRaw == OrEmpty(LastValue(pieces, "TEMP"))
    && sd.temperature == OrNone(LastValue(pieces, "TEMP"), 16)
    && sd.humidity == OrNone(LastValue(pieces, "HUM"), 10)
    && sd.bat == OrEmpty(LastValue(pieces, "BAT"))
    && sd.switch == OrEmpty(LastValue(pieces, "SWITCH"))
    && sd.cmd == OrEmpty(LastValue(pieces, "CMD"))
  }

  ghost predicate ExtrasMatch(sd: SensorData, pieces: seq<string>) {
    forall name :: LastExtra(pieces, name) == if name in sd.extra then Some(sd.extra[name]) else None
  }

  lemma ParseFieldIs(sd: SensorData, raw: string)
    ensures ParseField(sd, raw).Ok? <==> Acceptable(raw)
    ensures Acceptable(raw) ==>
              ParseField(sd, raw) ==
              match KeyOf(raw)
              case None => Ok(sd)
              case Some(key) =>
                if KnownFieldKey(key) then SetKnownField(sd, key, ValueOf(raw))
                else Ok(sd.(extra := sd.extra[FieldTopicName(key) := ValueOf(raw)]))
  {}

  lemma KnownFieldsStep(sd: SensorData, model: string, pre: seq<string>, raw: string)
    requires KnownFieldsMatch(sd, model, pre) && ParseField(sd, raw).Ok?
    ensures KnownFieldsMatch(ParseField(sd, raw).value, model, pre + [raw])
  {
    var t, ps, key := ParseField(sd, raw).value, pre + [raw], KeyOf(raw);
    ParseFieldIs(sd, raw);
    assert ps[..|pre|] == pre;
    if key.None? || !KnownFieldKey(key.value) {
      SameKnownFields(sd, t, model, pre, ps);
    } else {
      KnownFieldSet(sd, key.value, ValueOf(raw), model, pre, ps);
    }
  }

  lemma SameKnownFields(sd: SensorData, t: SensorData, model: string, pre: seq<string>, ps: seq<string>)
    requires KnownFieldsMatch(sd, model, pre) && t.(extra := sd.extra) == sd
    requires forall key :: KnownFieldKey(key) ==> LastValue(ps, key) == LastValue(pre, key)
    ensures KnownFieldsMatch(t, model, ps)
  {}

  /** One more piece gives the known key a value and leaves the others. */
  ghost predicate GivesKnown(key: string, value: string, pre: seq<string>, ps: seq<string>) {
    forall other :: KnownFieldKey(other) ==>
      LastValue(ps, other) == if other == key then Some(value) else LastValue(pre, other)
  }

  lemma KnownFieldSet(sd: SensorData, key: string, value: string, model: string, pre: seq<string>, ps: seq<string>)
    requires KnownFieldsMatch(sd, model, pre) && KnownFieldKey(key) && SetKnownField(sd, key, value).Ok?
    requires GivesKnown(key, value, pre, ps)
    ensures KnownFieldsMatch(SetKnownField(sd, key, value).value, model, ps)
  {
    if key == "TEMP" || key == "HUM" {
      NumberFieldSet(sd, key, value, model, pre, ps);
    } else if key == "ID" {
    } else if key == "BAT" {
    } else if key == "SWITCH" {
    }
  }

  lemma NumberFieldSet(sd: SensorData, key: string, value: string, model: string, pre: seq<string>, ps: seq<string>)
    requires KnownFieldsMatch(sd, model, pre) && (key == "TEMP" || key == "HUM") && SetKnownField(sd, key, value).Ok?
    requires GivesKnown(key, value, pre, ps)
    ensures KnownFieldsMatch(SetKnownField(sd, key, value).value, model, ps)
  {}

  lemma ExtrasStep(sd: SensorData, pre: seq<string>, raw: string)
    requires ExtrasMatch(sd, pre) && ParseField(sd, raw).Ok?
    ensures ExtrasMatch(ParseField(sd, raw).value, pre + [raw])
  {
    ParseFieldIs(sd, raw);
    assert (pre + [raw])[..|pre|] == pre;
  }

  lemma {:induction false} ParseFieldsLast(sd: SensorData, pieces: seq<string>)
    requires pieces != []
    ensures var before := ParseFields(sd, pieces[..|pieces| - 1]);
            ParseFields(sd, pieces) == if before.Ok? then ParseField(before.value, pieces[|pieces| - 1]) else before
    decreases |pieces|
  {
    var pre, rest := pieces[..|pieces| - 1], pieces[1..];
    if |pieces| > 1 {
      var next := ParseField(sd, pieces[0]);
      assert pre[0] == pieces[0] && rest[|rest| - 1] == pieces[|pieces| - 1];
      assert rest[..|rest| - 1] == pre[1..];
      if next.Ok? {
        ParseFieldsLast(next.value, rest);
      }
    }
  }

  predicate AllAcceptable(pieces: seq<string>) {
    pieces == [] || (AllAcceptable(pieces[..|pieces| - 1]) && Acceptable(pieces[|pieces| - 1]))
  }

  /** r is what the pieces mean for a protocol name and a time stamp. */
  ghost predicate Means(r: Result<SensorData, ParseError>, model: string, now: int, pieces: seq<string>) {
    && (r.Ok? <==> AllAcceptable(pieces))
    && (r.Ok? ==>
          && KnownFieldsMatch(r.value, model, pieces) && ExtrasMatch(r.value, pieces)
          && r.value.receivedAt == now && r.value.friendlyName == "")
  }

  lemma MeansStep(before: Result<SensorData, ParseError>, model: string, now: int, pre: seq<string>, raw: string)
    requires Means(before, model, now, pre)
    ensures Means(if before.Ok? then ParseField(before.value, raw) else before, model, now, pre + [raw])
  {
    assert (pre + [raw])[..|pre|] == pre;
    if before.Ok? {
      ParseFieldIs(before.value, raw);
      if Acceptable(raw) {
        KnownFieldsStep(before.value, model, pre, raw);
        ExtrasStep(before.value, pre, raw);
        KeepsStamp(before.value, raw);
      }
    }
  }

  lemma KeepsStamp(sd: SensorData, raw: string)
    requires ParseField(sd, raw).Ok?
    ensures var t := ParseField(sd, raw).value; t.receivedAt == sd.receivedAt && t.friendlyName == sd.friendlyName
  {}

  lemma {:induction false} FieldsMeanTheirPieces(model: string, now: int, pieces: seq<string>)
    ensures Means(ParseFields(Blank(model, now), pieces), Blank(model, now).model, now, pieces)
    decreases |pieces|
  {
    if pieces == [] {
    } else {
      var pre, raw := pieces[..|pieces| - 1], pieces[|pieces| - 1];
      FieldsMeanTheirPieces(model, now, pre);
      ParseFieldsLast(Blank(model, now), pieces);
      MeansStep(ParseFields(Blank(model, now), pre), Blank(model, now).model, now, pre, raw);
      assert pieces == pre + [raw];
    }
  }

  /**
   A line is a sensor message exactly if it has a protocol name, only acceptable pieces behind
   it, and a last ID that is not empty. Its record then carries, field by field, the last value
   given for each known key, and every other key under its lower-case name with its last value.
   */
  lemma RecordOfALine(msg: string, now: int)
    ensures var line := TrimSpace(msg);
            var ps := Split(line, ';');
            Parsed(msg, now).Ok? <==>
            line != "" && |ps| >= 3 && AllAcceptable(ps[3..]) && OrEmpty(LastValue(ps[3..], "ID")) != ""
    ensures Parsed(msg, now).Ok? ==>
              var ps := Split(TrimSpace(msg), ';');
              |ps| >= 3 && Means(Parsed(msg, now), ReplaceAll(TrimSpace(ps[2]), ' ', '_'), now, ps[3..])
  {
    var ps := Split(TrimSpace(msg), ';');
    if |ps| >= 3 {
      FieldsMeanTheirPieces(ps[2], now, ps[3..]);
      assert ps[2..][1..] == ps[3..];
    }
  }

  /** What is wrong with a piece that is not acceptable. */
  function Flaw(raw: string): ParseError {
    match KeyOf(raw)
    case None => InvalidField
    case Some(key) => if key == "TEMP" then BadTemperature else BadHumidity
  }

  /** Piece i is not acceptable, and every one before it is. */
  predicate IsFirstFlaw(pieces: seq<string>, i: int) {
    0 <= i < |pieces| && !Acceptable(pieces[i]) && forall j :: 0 <= j < i ==> Acceptable(pieces[j])
  }

  lemma FlawIs(sd: SensorData, raw: string)
    requires !Acceptable(raw)
    ensures ParseField(sd, raw) == Err(Flaw(raw))
  {}

  lemma {:induction false} FirstFlawDecides(sd: SensorData, pieces: seq<string>, i: int)
    requires IsFirstFlaw(pieces, i)
    ensures ParseFields(sd, pieces) == Err(Flaw(pieces[i]))
    decreases |pieces|
  {
    if i == 0 {
      FlawIs(sd, pieces[0]);
    } else {
      assert Acceptable(pieces[0]);
      ParseFieldIs(sd, pieces[0]);
      assert forall j :: 0 <= j < i - 1 ==> pieces[1..][j] == pieces[j + 1];
      FirstFlawDecides(ParseField(sd, pieces[0]).value, pieces[1..], i - 1);
    }
  }

  /** The error of a line: empty, too short, its first piece that is not acceptable, or no ID, in this order. */
  lemma ErrorOfALine(msg: string, now: int, i: int)
    ensures var ps := Split(TrimSpace(msg), ';');
            && (TrimSpace(msg) == "" ==> Parsed(msg, now) == Err(EmptyMessage))
            && (TrimSpace(msg) != "" && |ps| < 3 ==> Parsed(msg, now) == Err(TooShort))
            && (|ps| >= 3 && IsFirstFlaw(ps[3..], i) ==> Parsed(msg, now) == Err(Flaw(ps[3..][i])))
            && (|ps| >= 3 && AllAcceptable(ps[3..]) && OrEmpty(LastValue(ps[3..], "ID")) == "" ==>
                  Parsed(msg, now) == Err(NoSensorID))
  {
    var ps := Split(TrimSpace(msg), ';');
    if |ps| >= 3 {
      assert ps[2..][1..] == ps[3..];
      FieldsMeanTheirPieces(ps[2], now, ps[3..]);
      if IsFirstFlaw(ps[3..], i) {
        FirstFlawDecides(Blank(ps[2], now), ps[3..], i);
      }
    }
  }

  // ----- Debounce loses no sensor information -----

  /** The line without its sequence counter, so that radio retransmits share one key. */
  function DedupKey(msg: string): string {
    var line := TrimSpace(msg);
    var pieces := Split(line, ';');
    if |pieces| >= 3 && pieces[0] == "20" then Join([pieces[0]] + pieces[2..], ';') else line
  }

  /** The pieces behind a key: those of the line, less the counter when there was one. */
  lemma KeyPieces(msg: string)
    ensures var pieces := Split(TrimSpace(msg), ';');
            Split(DedupKey(msg), ';') ==
            if |pieces| >= 3 && pieces[0] == "20" then [pieces[0]] + pieces[2..] else pieces
  {
    var pieces := Split(TrimSpace(msg), ';');
    if |pieces| >= 3 && pieces[0] == "20" {
      SplitIsFree(TrimSpace(msg), ';');
      assert pieces[2..] == pieces[1..][1..];
      assert ([pieces[0]] + pieces[2..])[1..] == pieces[2..];
      SplitOfJoin([pieces[0]] + pieces[2..], ';');
    }
  }

  /** Lines that differ in the counter only have one key: a retransmission is recognized. */
  lemma RetransmissionsShareAKey(a: string, b: string, rest: string)
    requires Free(a, ';') && Free(b, ';') && Trimmed("20;" + a + ";" + rest) && Trimmed("20;" + b + ";" + rest)
    ensures DedupKey("20;" + a + ";" + rest) == DedupKey("20;" + b + ";" + rest)
  {
    KeyWithoutCounter(a, rest);
    KeyWithoutCounter(b, rest);
  }

  lemma CounterSplits(a: string, rest: string)
    requires Free(a, ';')
    ensures Split("20;" + a + ";" + rest, ';') == ["20"] + ([a] + Split(rest, ';'))
  {
    SplitAfter(a, ';', rest);
    SplitAfter("20", ';', a + [';'] + rest);
    assert "20;" == "20" + [';'] && ";" == [';'];
    Regrouped("20", [';'], a, rest);
  }

  lemma Regrouped(p: string, c: string, a: string, rest: string)
    ensures p + c + a + c + rest == p + c + (a + c + rest)
  {}

  lemma KeyWithoutCounter(a: string, rest: string)
    requires Free(a, ';') && Trimmed("20;" + a + ";" + rest)
    ensures DedupKey("20;" + a + ";" + rest) == Join(["20"] + Split(rest, ';'), ';')
  {
    TrimmedStays("20;" + a + ";" + rest);
    CounterSplits(a, rest);
    WithoutSecond("20", a, Split(rest, ';'));
  }

  lemma WithoutSecond(p: string, q: string, rest: seq<string>)
    ensures var ps := [p] + ([q] + rest); [ps[0]] + ps[2..] == [p] + rest
  {}

  function Pieces(msg: string): (ps: seq<string>)
    ensures |ps| >= 1
  {
    Split(TrimSpace(msg), ';')
  }

  /** Equal keys come from equal lines, from lines equal past the counter, or from two short lines. */
  lemma EqualKeysAgree(a: string, b: string)
    requires DedupKey(a) == DedupKey(b)
    ensures var p, q := Pieces(a), Pieces(b);
            || TrimSpace(a) == TrimSpace(b)
            || (|p| >= 3 && |q| >= 3 && p[2..] == q[2..])
            || (|p| <= 3 && |q| <= 3)
  {
    var p, q, k := Pieces(a), Pieces(b), Split(DedupKey(a), ';');
    KeyPieces(a);
    KeyPieces(b);
    JoinOfSplit(TrimSpace(a), ';');
    JoinOfSplit(TrimSpace(b), ';');
    var strippedA, strippedB := |p| >= 3 && p[0] == "20", |q| >= 3 && q[0] == "20";
    if strippedA && strippedB {
      assert p[2..] == k[1..] == q[2..];
    } else if strippedA || strippedB {
      assert k[0] == "20";
    }
  }

  lemma LongLine(msg: string, now: int)
    requires |Pieces(msg)| >= 3
    ensures Parsed(msg, now) == Record(Pieces(msg)[2..], now)
  {}

  lemma ShortLine(msg: string, now: int)
    requires |Pieces(msg)| <= 3
    ensures Parsed(msg, now).Err?
  {}

  /**
   Two lines with the same key are both no sensor message, or carry the same sensor record.
   That includes a line with a counter meeting a shorter line that looks already stripped.
   */
  lemma EqualKeysSameRecord(a: string, b: string, now: int)
    requires DedupKey(a) == DedupKey(b)
    ensures (Parsed(a, now).Err? && Parsed(b, now).Err?) || Parsed(a, now) == Parsed(b, now)
  {
    EqualKeysAgree(a, b);
    if |Pieces(a)| <= 3 && |Pieces(b)| <= 3 {
      ShortLine(a, now);
      ShortLine(b, now);
    } else if TrimSpace(a) != TrimSpace(b) {
      LongLine(a, now);
      LongLine(b, now);
    }
  }

  // ----- What is published -----

  datatype Payload = Text(text: string) | Celsius(tenths: nat) | Fahrenheit(celsiusTenths: nat) | Number(n: nat)

  type Fields = map<string, Payload>

  function With(fields: Fields, present: bool, key: string, value: Payload): Fields {
    if present then fields[key := value] else fields
  }

  /** The temperature, humidity and battery fields. */
  function Readings(sd: SensorData, tempUnit: string): Fields {
    var unit := ToUpper(tempUnit);
    var f0: Fields :=
      if unit == "RAW" then With(map[], sd.tempRaw != "", "temp", Text(sd.tempRaw))
      else if sd.temperature.None? then map[]
      else map["temp" := if unit == "F" then Fahrenheit(sd.temperature.value) else Celsius(sd.temperature.value)];
    var f1 := if sd.humidity.Some? then f0["hum" := Number(sd.humidity.value)] else f0;
    With(f1, sd.bat != "", "bat", Text(sd.bat))
  }

  /** The fields that SWITCH and CMD produce: one channel when both are there. */
  function Events(sd: SensorData): Fields {
    if sd.switch != "" && sd.cmd != ""
    then map["sw_" + FieldTopicName(sd.switch) := Text(ToUpper(TrimSpace(sd.cmd)))]
    else With(With(map[], sd.switch != "", "switch", Text(sd.switch)), sd.cmd != "", "cmd", Text(sd.cmd))
  }

  function ExtraFields(extra: map<string, string>): Fields {
    map k | k in extra && extra[k] != "" :: Text(extra[k])
  }

  function FieldsFor(sd: SensorData, tempUnit: string): Fields {
    Readings(sd, tempUnit) + Events(sd) + ExtraFields(sd.extra)
  }

  method FieldsForPublish(sd: SensorData, tempUnit: string) returns (fields: Fields)
    ensures fields == FieldsFor(sd, tempUnit)
  {
    fields := map[];
    var unit := ToUpper(tempUnit);
    if unit == "RAW" {
      if sd.tempRaw != "" {
        fields := fields["temp" := Text(sd.tempRaw)];
      }
    } else if unit == "F" {
      if sd.temperature.Some? {
        fields := fields["temp" := Fahrenheit(sd.temperature.value)];
      }
    } else {
      if sd.temperature.Some? {
        fields := fields["temp" := Celsius(sd.temperature.value)];
      }
    }
    if sd.humidity.Some? {
      fields := fields["hum" := Number(sd.humidity.value)];
    }
    if sd.bat != "" {
      fields := fields["bat" := Text(sd.bat)];
    }
    assert fields == Readings(sd, tempUnit);
    fields := AddEvents(fields, sd);
    fields := AddExtra(fields, sd.extra);
  }

  method AddEvents(base: Fields, sd: SensorData) returns (fields: Fields)
    ensures fields == base + Events(sd)
  {
    fields := base;
    if sd.switch != "" && sd.cmd != "" {
      var ch := FieldTopicName(sd.switch);
      fields := fields["sw_" + ch := Text(ToUpper(TrimSpace(sd.cmd)))];
    } else {
      if sd.switch != "" {
        fields := fields["switch" := Text(sd.switch)];
      }
      if sd.cmd != "" {
        fields := fields["cmd" := Text(sd.cmd)];
      }
    }
  }

  lemma OneMoreExtra(extra: map<string, string>, rest: set<string>, key: string)
    requires key in rest && key in extra
    ensures ExtraFields(extra - (rest - {key})) ==
            if extra[key] != "" then ExtraFields(extra - rest)[key := Text(extra[key])] else ExtraFields(extra - rest)
  {}

  /** The last loop of FieldsForPublish, in the map's arbitrary order. */
  method AddExtra(base: Fields, extra: map<string, string>) returns (fields: Fields)
    ensures fields == base + ExtraFields(extra)
  {
    fields := base;
    var rest := extra.Keys;
    while rest != {}
      invariant rest <= extra.Keys
      invariant fields == base + ExtraFields(extra - rest)
      decreases rest
    {
      var key :| key in rest;
      OneMoreExtra(extra, rest, key);
      rest := rest - {key};
      var value := extra[key];
      if value != "" {
        fields := fields[key := Text(value)];
      }
    }
    assert extra - {} == extra;
  }

  // ----- The text of a payload -----

  /** n in decimal. */
  function Numeral(n: nat): (s: string)
    ensures s != ""
  {
    if n < 10 then [('0' as int + n) as char] else Numeral(n / 10) + [('0' as int + n % 10) as char]
  }

  function Tenths(t: nat): string {
    Numeral(t / 10) + "." + Numeral(t % 10)
  }

  /** Celsius tenths in Fahrenheit tenths, to the nearest; the exact value never lies half way. */
  function FahrenheitTenths(t: nat): nat {
    (18 * t + 3205) / 10
  }

  /** The text that is published; the floating-point numbers of the source are taken as exact. */
  function Rendered(p: Payload): string {
    match p
    case Text(text) => text
    case Number(n) => Numeral(n)
    case Celsius(t) => Tenths(t)
    case Fahrenheit(t) => Tenths(FahrenheitTenths(t))
  }

  /** f Fahrenheit tenths are less than half a tenth from 9/5 of t Celsius tenths plus 32 degrees. */
  predicate IsNearest(f: nat, t: nat) {
    -5 < 2 * (5 * f - (9 * t + 1600)) < 5
  }

  lemma FahrenheitIsNearest(t: nat)
    ensures IsNearest(FahrenheitTenths(t), t)
  {}

  lemma {:induction false} NumeralReadsBack(n: nat)
    ensures Digits(Numeral(n), 10) == Some(n)
  {
    if n < 10 {
      assert Numeral(n)[..0] == "";
    } else {
      NumeralReadsBack(n / 10);
      assert Numeral(n)[..|Numeral(n)| - 1] == Numeral(n / 10);
    }
  }

  /** What a subscriber reads from it: whole part and one decimal. */
  function ReadTenths(s: string): Option<nat> {
    var i := First(s, '.');
    if i == |s| then None else
    var whole, tenth := Digits(s[..i], 10), Digits(s[i + 1..], 10);
    if whole.Some? && tenth.Some? && |s| == i + 2 then Some(whole.value * 10 + tenth.value) else None
  }

  lemma {:induction false} NumeralHasNoPoint(n: nat)
    ensures Free(Numeral(n), '.')
  {
    if n < 10 {
    } else {
      NumeralHasNoPoint(n / 10);
    }
  }

  lemma TenthsReadBack(t: nat)
    ensures ReadTenths(Tenths(t)) == Some(t)
  {
    var s := Tenths(t);
    NumeralReadsBack(t / 10);
    NumeralReadsBack(t % 10);
    NumeralHasNoPoint(t / 10);
    FirstIs(s, '.', |Numeral(t / 10)|);
    assert s[..|Numeral(t / 10)|] == Numeral(t / 10) && s[|Numeral(t / 10)| + 1..] == Numeral(t % 10);
  }

  /**
   A published humidity reads back as it was sent, a temperature in Celsius as its tenths, and one
   in Fahrenheit as the tenth nearest to 9/5 of it plus 32.
   */
  lemma PublishedNumbersReadBack(n: nat)
    ensures Digits(Rendered(Number(n)), 10) == Some(n)
    ensures ReadTenths(Rendered(Celsius(n))) == Some(n)
    ensures ReadTenths(Rendered(Fahrenheit(n))) == Some(FahrenheitTenths(n)) && IsNearest(FahrenheitTenths(n), n)
  {
    NumeralReadsBack(n);
    TenthsReadBack(n);
    TenthsReadBack(FahrenheitTenths(n));
    FahrenheitIsNearest(n);
  }

  // ----- No event is replayed -----

  /** A record whose publication carries no cmd, switch or SWITCH/CMD channel. */
  ghost predicate Replayable(sd: SensorData) {
    sd.cmd == "" && sd.switch == "" && NoKnownKeys(sd)
  }

  /** No extra field has the name of a known one, in any case. */
  ghost predicate NoKnownKeys(sd: SensorData) {
    forall k :: k in sd.extra ==> !KnownFieldKey(ToUpper(k))
  }

  lemma KnownNames()
    ensures ToUpper("cmd") == "CMD" && ToUpper("switch") == "SWITCH"
    ensures ToUpper("temp") == "TEMP" && ToUpper("hum") == "HUM" && ToUpper("bat") == "BAT"
  {}

  /** The published name of a key is the key again in upper case. */
  lemma PublishedNameKeepsKey(raw: string)
    ensures var key := ToUpper(TrimSpace(raw)); ToUpper(FieldTopicName(key)) == key
  {
    var key := ToUpper(TrimSpace(raw));
    UpperStaysTrimmed(TrimSpace(raw));
    TrimmedStays(key);
    UpperForgetsCase(TrimSpace(raw));
    UpperForgetsCase(key);
  }

  lemma FieldKeepsKnownKeysOut(sd: SensorData, raw: string)
    requires NoKnownKeys(sd)
    ensures var r := ParseField(sd, raw); r.Ok? ==> NoKnownKeys(r.value)
  {
    var piece := TrimSpace(raw);
    var arr := SplitN(piece, '=', 2);
    if piece != "" && |arr| == 2 {
      PublishedNameKeepsKey(arr[0]);
    }
  }

  lemma {:induction false} ParserKeepsKnownKeysOut(sd: SensorData, pieces: seq<string>)
    requires NoKnownKeys(sd)
    ensures var r := ParseFields(sd, pieces); r.Ok? ==> NoKnownKeys(r.value)
    decreases |pieces|
  {
    if pieces == [] {
    } else {
      FieldKeepsKnownKeysOut(sd, pieces[0]);
      var next := ParseField(sd, pieces[0]);
      if next.Ok? {
        ParserKeepsKnownKeysOut(next.value, pieces[1..]);
      }
    }
  }

  /** Whatever line was received, the record that is buffered for replay carries no event. */
  lemma StrippedIsReplayable(msg: string, now: int)
    requires Parsed(msg, now).Ok?
    ensures NoKnownKeys(Parsed(msg, now).value)
    ensures Replayable(Parsed(msg, now).value.StripEventFields())
  {
    var pieces := Split(TrimSpace(msg), ';');
    ParserKeepsKnownKeysOut(Blank(pieces[2], now), pieces[2..][1..]);
  }

  /** Stripping a record of its events leaves everything else about it: what it publishes, and as what. */
  lemma StripKeepsReadings(sd: SensorData, tempUnit: string)
    ensures var t := sd.StripEventFields();
            && t.cmd == "" && t.switch == ""
            && t.temperature == sd.temperature && t.tempRaw == sd.tempRaw && t.humidity == sd.humidity
            && t.bat == sd.bat && t.extra == sd.extra
            && t.id == sd.id && t.model == sd.model && t.hwid == sd.hwid && t.friendlyName == sd.friendlyName
            && t.receivedAt == sd.receivedAt && t.TopicID() == sd.TopicID()
            && FieldsFor(t, tempUnit) == Readings(sd, tempUnit) + ExtraFields(sd.extra)
  {
    assert Events(sd.StripEventFields()) == map[];
    assert Readings(sd, tempUnit) + map[] == Readings(sd, tempUnit);
  }

  /** The topic segment is the HWID, and the raw ID only without one. */
  lemma TopicOf(sd: SensorData)
    ensures sd.hwid != "" ==> sd.TopicID() == sd.hwid
    ensures sd.hwid == "" ==> sd.TopicID() == sd.id
  {}

  /**
   Publishing a replayable record sends no cmd and no switch field; an sw_ field can only be
   one the sensor itself sent under that name. Everything else about the reading is kept.
   */
  lemma ReplayPublishesNoEvent(sd: SensorData, tempUnit: string)
    requires Replayable(sd)
    ensures var fields := FieldsFor(sd, tempUnit);
            && "cmd" !in fields && "switch" !in fields
            && (forall f :: f in fields && HasPrefix(f, "sw_") ==> f in sd.extra && fields[f] == Text(sd.extra[f]))
            && fields == Readings(sd, tempUnit) + ExtraFields(sd.extra)
  {
    assert Events(sd) == map[];
    KnownNames();
    ReadingsKeys(sd, tempUnit);
    var fields := FieldsFor(sd, tempUnit);
    assert fields == Readings(sd, tempUnit) + ExtraFields(sd.extra);
    forall f | f in fields && HasPrefix(f, "sw_")
      ensures f in sd.extra && fields[f] == Text(sd.extra[f])
    {
      assert f[0] == 's' && f[1] == 'w';
    }
  }

  lemma EventsOf(sd: SensorData)
    ensures Events(sd) ==
            if sd.switch != "" && sd.cmd != "" then
              map["sw_" + ToLower(TrimSpace(sd.switch)) := Text(ToUpper(TrimSpace(sd.cmd)))]
            else if sd.switch != "" then map["switch" := Text(sd.switch)]
            else if sd.cmd != "" then map["cmd" := Text(sd.cmd)]
            else map[]
  {}

  /** An extra field of the same name would take the place of an event. */
  function Published(sd: SensorData, name: string, event: string): Payload {
    if name in sd.extra && sd.extra[name] != "" then Text(sd.extra[name]) else Text(event)
  }

  /**
   A record with both SWITCH and CMD publishes the command in upper case on a channel named after
   the switch, never a shared switch or cmd field; one of them alone goes out as it is under its own
   name.
   */
  lemma PublishedEvents(sd: SensorData, tempUnit: string)
    requires NoKnownKeys(sd)
    ensures var fields, channel := FieldsFor(sd, tempUnit), "sw_" + ToLower(TrimSpace(sd.switch));
            && ("cmd" in fields <==> sd.cmd != "" && sd.switch == "")
            && ("cmd" in fields ==> fields["cmd"] == Text(sd.cmd))
            && ("switch" in fields <==> sd.switch != "" && sd.cmd == "")
            && ("switch" in fields ==> fields["switch"] == Text(sd.switch))
            && (sd.cmd != "" && sd.switch != "" ==>
                  channel in fields && fields[channel] == Published(sd, channel, ToUpper(TrimSpace(sd.cmd))))
  {
    ReadingsKeys(sd, tempUnit);
    KnownNames();
    EventsOf(sd);
    var channel := "sw_" + ToLower(TrimSpace(sd.switch));
    assert channel[0] == 's' && channel[2] == '_';
  }

  /** Nothing else is published: every field is a reading, an event or a non-empty extra field. */
  lemma NothingElseIsPublished(sd: SensorData, tempUnit: string, f: string)
    requires f in FieldsFor(sd, tempUnit)
    ensures || f == "temp" || f == "hum" || f == "bat"
            || (f == "cmd" && sd.cmd != "") || (f == "switch" && sd.switch != "")
            || (f == "sw_" + ToLower(TrimSpace(sd.switch)) && sd.cmd != "" && sd.switch != "")
            || (f in sd.extra && sd.extra[f] != "")
  {
    ReadingsKeys(sd, tempUnit);
    EventsOf(sd);
  }

  /** No extra field ever shadows a reading, and no reading or event shadows a non-empty extra field. */
  lemma PublishedReadings(sd: SensorData, tempUnit: string)
    requires NoKnownKeys(sd)
    ensures var fields, unit := FieldsFor(sd, tempUnit), ToUpper(tempUnit);
            && ("hum" in fields <==> sd.humidity.Some?)
            && (sd.humidity.Some? ==> fields["hum"] == Number(sd.humidity.value))
            && ("bat" in fields <==> sd.bat != "") && (sd.bat != "" ==> fields["bat"] == Text(sd.bat))
            && ("temp" in fields <==> if unit == "RAW" then sd.tempRaw != "" else sd.temperature.Some?)
            && ("temp" in fields && unit == "RAW" ==> fields["temp"] == Text(sd.tempRaw))
            && ("temp" in fields && unit == "F" ==> fields["temp"] == Fahrenheit(sd.temperature.value))
            && ("temp" in fields && unit != "RAW" && unit != "F" ==> fields["temp"] == Celsius(sd.temperature.value))
            && forall k :: k in sd.extra && sd.extra[k] != "" ==> k in fields && fields[k] == Text(sd.extra[k])
  {
    KnownNames();
    EventKeys(sd);
  }

  lemma EventKeys(sd: SensorData)
    ensures forall k :: k in Events(sd) ==> k != "hum" && k != "bat" && k != "temp"
  {
    forall k | k in Events(sd) ensures k != "hum" && k != "bat" && k != "temp" {
      assert k[0] == 's' || k[0] == 'c';
    }
  }

  lemma ReadingsKeys(sd: SensorData, tempUnit: string)
    ensures forall k :: k in Readings(sd, tempUnit) ==> k == "temp" || k == "hum" || k == "bat"
  {}
}
