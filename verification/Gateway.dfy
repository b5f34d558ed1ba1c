/**
 Gateway replies (rflink/sensor_data.go) and the way of a PONG line through the publish loop
 (rflink/publisher.go): the debouncer sees it before the watchdog does.
 */
module Gateway {
  import opened Wrappers
  import opened Text
  import opened SensorMessages

  datatype GatewayInfo = GatewayInfo(raw: string, version: string, pong: bool, extra: map<string, string>)

  predicate Contains(s: string, t: string) {
    exists i :: 0 <= i <= |s| && HasPrefix(s[i..], t)
  }

  /** What the pieces seen so far say; reply tells whether one of them marks a gateway reply. */
  datatype Scan = Scan(info: GatewayInfo, reply: bool)

  predicate SaysPong(raw: string) {
    ToUpper(TrimSpace(raw)) == "PONG"
  }

  function ScanPiece(s: Scan, raw: string): Scan {
    var piece := TrimSpace(raw);
    if piece == "" then s
    else if SaysPong(raw) then Scan(s.info.(pong := true), true)
    else if '=' !in piece then s
    else
      var kv := SplitN(piece, '=', 2);
      if |kv| != 2 then s else
      var key, val := ToUpper(TrimSpace(kv[0])), TrimSpace(kv[1]);
      if key == "VER" || key == "VERSION" then Scan(s.info.(version := val), true)
      else if key == "REV" || key == "BUILD" || key == "NAME"
      then Scan(s.info.(extra := s.info.extra[ToLower(key) := val]), true)
      else Scan(s.info.(extra := s.info.extra[ToLower(key) := val]), s.reply)
  }

  function ScanPieces(raw: string, pieces: seq<string>): Scan {
    if pieces == [] then Scan(GatewayInfo(raw, "", false, map[]), false)
    else ScanPiece(ScanPieces(raw, pieces[..|pieces| - 1]), pieces[|pieces| - 1])
  }

  /** Lines without the radio's prefix or with a device ID are never gateway replies. */
  predicate MayReply(line: string) {
    HasPrefix(line, "20;") && !Contains(ToUpper(line), "ID=")
  }

  function GatewayReply(msg: string): Option<GatewayInfo> {
    var line := TrimSpace(msg);
    if !MayReply(line) then None else
    var s := ScanPieces(line, Split(line, ';'));
    if s.reply then Some(s.info) else None
  }

  lemma MissingEquals(piece: string)
    requires '=' in piece
    ensures |SplitN(piece, '=', 2)| == 2
  {
    NoneBeforeFirst(piece, '=');
  }

  method ParseGatewayMessage(msg: string) returns (r: Option<GatewayInfo>)
    ensures r == GatewayReply(msg)
  {
    var line := TrimSpace(msg);
    if line == "" {
      return None;
    }
    if !HasPrefix(line, "20;") {
      return None;
    }
    if Contains(ToUpper(line), "ID=") {
      return None;
    }
    var info, hasPong, hasVer := GatewayInfo(line, "", false, map[]), false, false;
    var pieces := Split(line, ';');
    for n := 0 to |pieces|
      invariant ScanPieces(line, pieces[..n]) == Scan(info, hasPong || hasVer)
      invariant info.version != "" ==> hasVer
    {
      assert pieces[..n + 1][..n] == pieces[..n];
      var piece := TrimSpace(pieces[n]);
      if piece == "" {
        continue;
      }
      if ToUpper(piece) == "PONG" {
        info := info.(pong := true);
        hasPong := true;
        continue;
      }
      if '=' in piece {
        MissingEquals(piece);
        var kv := SplitN(piece, '=', 2);
        var key, val := ToUpper(TrimSpace(kv[0])), TrimSpace(kv[1]);
        if key == "VER" || key == "VERSION" {
          info := info.(version := val);
          hasVer := true;
        } else if key == "REV" || key == "BUILD" || key == "NAME" {
          info := info.(extra := info.extra[ToLower(key) := val]);
          hasVer := true;
        } else {
          info := info.(extra := info.extra[ToLower(key) := val]);
        }
      }
    }
    assert pieces[..|pieces|] == pieces;
    if !hasPong && !hasVer && info.version == "" {
      return None;
    }
    return Some(info);
  }

  // ----- What a reply says -----

  predicate SaysVersion(raw: string) {
    KeyOf(raw) == Some("VER") || KeyOf(raw) == Some("VERSION")
  }

  /** The piece makes the line a gateway reply. */
  predicate MarksReply(raw: string) {
    || SaysPong(raw) || SaysVersion(raw)
    || KeyOf(raw) == Some("REV") || KeyOf(raw) == Some("BUILD") || KeyOf(raw) == Some("NAME")
  }

  /** The value of the last piece that says the version. */
  function LastVersion(pieces: seq<string>): string {
    if pieces == [] then ""
    else if SaysVersion(pieces[|pieces| - 1]) then ValueOf(pieces[|pieces| - 1])
    else LastVersion(pieces[..|pieces| - 1])
  }

  /** The value of the last piece with this key in lower case, not counting versions. */
  function LastOther(pieces: seq<string>, name: string): Option<string> {
    if pieces == [] then None else
    var raw := pieces[|pieces| - 1];
    if KeyOf(raw).Some? && !SaysVersion(raw) && ToLower(KeyOf(raw).value) == name then Some(ValueOf(raw))
    else LastOther(pieces[..|pieces| - 1], name)
  }

  lemma KeyedPiece(raw: string)
    ensures KeyOf(raw).Some? <==> '=' in TrimSpace(raw)
    ensures SaysPong(raw) ==> KeyOf(raw).None?
  {
    var piece := TrimSpace(raw);
    if '=' in piece {
      MissingEquals(piece);
    } else {
      SplitWhole(piece, '=', 2);
    }
  }

  lemma ScanOne(s: Scan, raw: string, name: string)
    ensures var t := ScanPiece(s, raw);
            && t.info.raw == s.info.raw
            && t.info.version == (if SaysVersion(raw) then ValueOf(raw) else s.info.version)
            && (t.reply <==> s.reply || MarksReply(raw))
            && (name in t.info.extra <==> name in s.info.extra || LastOther([raw], name).Some?)
            && (name in t.info.extra ==>
                  t.info.extra[name] ==
                  if LastOther([raw], name).Some? then LastOther([raw], name).value else s.info.extra[name])
  {
    KeyedPiece(raw);
    assert [raw][..0] == [];
  }

  /** Piece by piece: the version is that of the last piece that says one, every other key has its last value. */
  lemma {:induction false} RepliesInFull(raw: string, pieces: seq<string>, name: string)
    ensures var info := ScanPieces(raw, pieces).info;
            && info.raw == raw && info.version == LastVersion(pieces)
            && LastOther(pieces, name) == if name in info.extra then Some(info.extra[name]) else None
  {
    if pieces == [] {
    } else {
      var last := pieces[|pieces| - 1];
      RepliesInFull(raw, pieces[..|pieces| - 1], name);
      ScanOne(ScanPieces(raw, pieces[..|pieces| - 1]), last, name);
      LastOtherOf(pieces, name);
    }
  }

  lemma LastOtherOf(pieces: seq<string>, name: string)
    requires pieces != []
    ensures var one := LastOther([pieces[|pieces| - 1]], name);
            LastOther(pieces, name) == if one.Some? then one else LastOther(pieces[..|pieces| - 1], name)
  {
    assert [pieces[|pieces| - 1]][..0] == [];
  }

  predicate Any(pieces: seq<string>, p: string -> bool) {
    pieces != [] && (p(pieces[|pieces| - 1]) || Any(pieces[..|pieces| - 1], p))
  }

  lemma {:induction false} AnyIsOne(pieces: seq<string>, p: string -> bool)
    ensures Any(pieces, p) <==> exists i :: 0 <= i < |pieces| && p(pieces[i])
  {
    if pieces == [] {
    } else {
      var pre := pieces[..|pieces| - 1];
      AnyIsOne(pre, p);
      assert forall i :: 0 <= i < |pre| ==> pre[i] == pieces[i];
    }
  }

  /** And the line is a reply exactly if some piece makes it one. */
  lemma {:induction false} RepliesAreMarked(raw: string, pieces: seq<string>)
    ensures ScanPieces(raw, pieces).reply <==> Any(pieces, MarksReply)
  {
    if pieces == [] {
    } else {
      RepliesAreMarked(raw, pieces[..|pieces| - 1]);
      ScanOne(ScanPieces(raw, pieces[..|pieces| - 1]), pieces[|pieces| - 1], "");
    }
  }

  /** So a line is a gateway reply exactly if it may be one and some piece marks it. */
  lemma GatewayReplies(msg: string)
    ensures GatewayReply(msg).Some? <==>
            MayReply(TrimSpace(msg)) && exists i :: 0 <= i < |Pieces(msg)| && MarksReply(Pieces(msg)[i])
    ensures GatewayReply(msg).Some? ==> GatewayReply(msg).value == ScanPieces(TrimSpace(msg), Pieces(msg)).info
  {
    RepliesAreMarked(TrimSpace(msg), Pieces(msg));
    AnyIsOne(Pieces(msg), MarksReply);
  }

  // ----- PONG lines -----

  predicate IsPong(msg: string) {
    GatewayReply(msg).Some? && GatewayReply(msg).value.pong
  }

  lemma PongInPiece(s: Scan, raw: string)
    ensures var t := ScanPiece(s, raw);
            (t.info.pong <==> s.info.pong || SaysPong(raw)) && (t.reply <== s.reply || SaysPong(raw))
  {}

  lemma {:induction false} PongIsScanned(raw: string, pieces: seq<string>)
    ensures ScanPieces(raw, pieces).info.pong <==> Any(pieces, SaysPong)
    ensures ScanPieces(raw, pieces).info.pong ==> ScanPieces(raw, pieces).reply
  {
    if pieces == [] {
    } else {
      PongIsScanned(raw, pieces[..|pieces| - 1]);
      PongInPiece(ScanPieces(raw, pieces[..|pieces| - 1]), pieces[|pieces| - 1]);
    }
  }

  /** A line is handled as a PONG exactly if it may be a reply and one of its pieces says so. */
  lemma PongLines(msg: string)
    ensures IsPong(msg) <==> MayReply(TrimSpace(msg)) && exists i :: 0 <= i < |Pieces(msg)| && SaysPong(Pieces(msg)[i])
  {
    PongIsScanned(TrimSpace(msg), Pieces(msg));
    AnyIsOne(Pieces(msg), SaysPong);
  }

  /** The answer to a PING: 20;counter;PONG; */
  predicate PongReply(msg: string) {
    var p := Pieces(msg);
    |p| == 4 && p[0] == "20" && p[2] == "PONG" && p[3] == ""
  }

  const PONG_KEY := "20;PONG;"

  lemma KeySplits()
    ensures Join(["20", "PONG", ""], ';') == PONG_KEY && Split(PONG_KEY, ';') == ["20", "PONG", ""]
  {
    SplitOfJoin(["20", "PONG", ""], ';');
  }

  lemma ReplyHasKey(msg: string)
    requires PongReply(msg)
    ensures DedupKey(msg) == PONG_KEY
  {
    KeySplits();
    var p := Pieces(msg);
    assert [p[0]] + p[2..] == ["20", "PONG", ""];
  }

  lemma KeyIsReply(msg: string)
    requires DedupKey(msg) == PONG_KEY
    ensures PongReply(msg)
  {
    KeySplits();
    KeyPieces(msg);
    var p := Pieces(msg);
    assert [p[0]] + p[2..] == ["20", "PONG", ""];
    assert p[2..] == ([p[0]] + p[2..])[1..];
  }

  /** All answers to a PING share one debounce key, and no other line has it. */
  lemma PongReplyKey(msg: string)
    ensures DedupKey(msg) == PONG_KEY <==> PongReply(msg)
  {
    if PongReply(msg) {
      ReplyHasKey(msg);
    } else if DedupKey(msg) == PONG_KEY {
      KeyIsReply(msg);
    }
  }

  lemma ReplyJoin(counter: string)
    ensures Join(["20", counter, "PONG", ""], ';') == "20;" + counter + ";PONG;"
  {
    JoinCons("PONG", [""], ';');
    JoinCons(counter, ["PONG"] + [""], ';');
    JoinCons("20", [counter] + (["PONG"] + [""]), ';');
    assert ["20", counter, "PONG", ""] == ["20"] + ([counter] + (["PONG"] + [""]));
  }

  lemma ReplyText(msg: string)
    requires PongReply(msg)
    ensures TrimSpace(msg) == "20;" + Pieces(msg)[1] + ";PONG;"
  {
    var p := Pieces(msg);
    JoinOfSplit(TrimSpace(msg), ';');
    assert p == ["20", p[1], "PONG", ""];
    ReplyJoin(p[1]);
  }

  /** Such an answer is handled as a PONG, unless its counter is no counter but a field. */
  lemma RepliesArePongs(msg: string)
    requires PongReply(msg) && '=' !in Pieces(msg)[1]
    ensures IsPong(msg)
  {
    var line, p := TrimSpace(msg), Pieces(msg);
    ReplyText(msg);
    NoFieldInside(line);
    PongLines(msg);
    assert SaysPong(p[2]);
  }

  lemma NoFieldInside(line: string)
    requires '=' !in line
    ensures !Contains(ToUpper(line), "ID=")
  {
    var upper := ToUpper(line);
    if i :| 0 <= i <= |upper| && HasPrefix(upper[i..], "ID=") {
      assert upper[i..][2] == "ID="[2];
      assert Upper(line[i + 2]) == '=';
    }
  }

  /** Every counter without a semicolon makes such an answer. */
  lemma RepliesExist(counter: string)
    requires Free(counter, ';')
    ensures PongReply("20;" + counter + ";PONG;") && Pieces("20;" + counter + ";PONG;")[1] == counter
  {
    var ps := ["20", counter, "PONG", ""];
    TrimmedStays("20;" + counter + ";PONG;");
    ReplyJoin(counter);
    RepliesAreFree(counter);
    SplitOfJoin(ps, ';');
  }

  lemma RepliesAreFree(counter: string)
    requires Free(counter, ';')
    ensures AllFree(["20", counter, "PONG", ""], ';')
  {
    assert ["20", counter, "PONG", ""][1..] == [counter, "PONG", ""];
    assert [counter, "PONG", ""][1..] == ["PONG", ""];
    assert ["PONG", ""][1..] == [""];
    assert AllFree([""], ';') && AllFree(["PONG", ""], ';') && AllFree([counter, "PONG", ""], ';');
  }
}
