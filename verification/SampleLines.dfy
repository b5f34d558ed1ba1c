/**
 Lines that the parser is sure to accept (rflink/sensor_data.go): a counter, a protocol name, an ID
 and a battery state.
 */
module SampleLines {
  import opened Wrappers
  import opened Text
  import opened SensorMessages
  import P = Publisher

  /** A piece without separators or outer space. */
  predicate Word(s: string) {
    s != "" && Trimmed(s) && Free(s, ';') && Free(s, '=')
  }

  lemma Piece(sd: SensorData, piece: string, key: string, value: string)
    requires piece == key + ['='] + value && Word(key) && Word(value) && ToUpper(key) == key && KnownFieldKey(key)
    ensures ParseField(sd, piece) == SetKnownField(sd, key, value)
  {
    TrimmedStays(piece);
    TrimmedStays(key);
    TrimmedStays(value);
    FirstIs(piece, '=', |key|);
    assert piece[..|key|] == key && piece[|key| + 1..] == value;
    assert SplitN(piece, '=', 2) == [key, value];
  }

  lemma OneField(sd: SensorData, q: string)
    ensures ParseFields(sd, [q]) == ParseField(sd, q)
  {
    assert [q][1..] == [];
  }

  lemma TwoFields(sd: SensorData, t: SensorData, p: string, q: string)
    requires ParseField(sd, p) == Ok(t)
    ensures ParseFields(sd, [p, q]) == ParseField(t, q)
  {
    assert [p, q][1..] == [q];
    OneField(t, q);
  }

  lemma IdPiece(sd: SensorData, id: string)
    requires Word(id)
    ensures ParseField(sd, "ID" + ['='] + id) == Ok(sd.(id := id, hwid := ToUpper(sd.model + "_" + id)))
  {
    Piece(sd, "ID" + ['='] + id, "ID", id);
  }

  lemma BatteryPiece(sd: SensorData, bat: string)
    requires Word(bat)
    ensures ParseField(sd, "BAT" + ['='] + bat) == Ok(sd.(bat := bat))
  {
    Piece(sd, "BAT" + ['='] + bat, "BAT", bat);
  }

  lemma IdAndBattery(sd: SensorData, p: string, id: string, q: string, bat: string) returns (t: SensorData)
    requires Word(id) && Word(bat) && p == "ID" + ['='] + id && q == "BAT" + ['='] + bat
    ensures ParseFields(sd, [p, q]) == Ok(t) && t.id == id && t.bat == bat
  {
    var s := sd.(id := id, hwid := ToUpper(sd.model + "_" + id));
    t := s.(bat := bat);
    IdPiece(sd, id);
    BatteryPiece(s, bat);
    TwoFields(sd, s, p, q);
  }

  lemma FiveFree(a: string, b: string, c: string, d: string, e: string)
    requires Free(a, ';') && Free(b, ';') && Free(c, ';') && Free(d, ';') && Free(e, ';')
    ensures AllFree([a, b, c, d, e], ';')
  {
    assert [a, b, c, d, e][1..] == [b, c, d, e];
    assert [b, c, d, e][1..] == [c, d, e];
    assert [c, d, e][1..] == [d, e];
    assert [d, e][1..] == [e];
    assert AllFree([e], ';') && AllFree([d, e], ';') && AllFree([c, d, e], ';') && AllFree([b, c, d, e], ';');
  }

  lemma FiveJoined(a: string, b: string, c: string, d: string, e: string)
    ensures Join([a, b, c, d, e], ';') == a + [';'] + (b + [';'] + (c + [';'] + (d + [';'] + e)))
  {
    JoinCons(d, [e], ';');
    JoinCons(c, [d] + [e], ';');
    JoinCons(b, [c] + ([d] + [e]), ';');
    JoinCons(a, [b] + ([c] + ([d] + [e])), ';');
    assert [a, b, c, d, e] == [a] + ([b] + ([c] + ([d] + [e])));
  }

  lemma FivePieces(a: string, b: string, c: string, d: string, e: string)
    requires Word(a) && Free(b, ';') && Free(c, ';') && Free(d, ';') && Free(e, ';') && e != "" && Trimmed(e)
    ensures Pieces(Join([a, b, c, d, e], ';')) == [a, b, c, d, e]
  {
    FiveFree(a, b, c, d, e);
    SplitOfJoin([a, b, c, d, e], ';');
    FiveJoined(a, b, c, d, e);
    TrimmedStays(Join([a, b, c, d, e], ';'));
  }

  /** Every such line is a sensor message with a reading, and its record has what the line says. */
  lemma BatteryLine(counter: string, model: string, id: string, bat: string, at: int) returns (line: string)
    requires Word(counter) && Word(model) && Word(id) && Word(bat)
    ensures line == Join(["20", counter, model, "ID" + ['='] + id, "BAT" + ['='] + bat], ';')
    ensures Parsed(line, at).Ok? && P.HasReading(Parsed(line, at).value)
    ensures Parsed(line, at).value.id == id && Parsed(line, at).value.bat == bat
  {
    var p, q := "ID" + ['='] + id, "BAT" + ['='] + bat;
    line := Join(["20", counter, model, p, q], ';');
    FivePieces("20", counter, model, p, q);
    LongLine(line, at);
    var t := IdAndBattery(Blank(model, at), p, id, q, bat);
    RecordOf([model, p, q], model, [p, q], t, at);
    assert Pieces(line)[2..] == [model, p, q];
  }

  lemma RecordOf(pieces: seq<string>, model: string, fields: seq<string>, t: SensorData, at: int)
    requires pieces != [] && pieces[0] == model && pieces[1..] == fields
    requires ParseFields(Blank(model, at), fields) == Ok(t) && t.id != ""
    ensures Record(pieces, at) == Ok(t)
  {}
}
