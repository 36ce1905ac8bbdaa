/**
 * The line codec: `ProtocolEncoder.encode` and `ProtocolDecoder.decode` over the
 * seven message kinds the protocol's `MessageType` enumerates.
 */
module Codec {
  import opened Wrappers
  import opened JavaInt
  import opened Text
  import opened LineSyntax

  /** `InputMessage.InputType`. */
  datatype InputType = MoveUp | MoveDown | MoveLeft | MoveRight | Action | Stop

  /** `InputType.name()`. */
  function InputTypeName(t: InputType): (r: string)
    ensures Plain(r) && |r| > 0
  {
    match t
    case MoveUp => "MOVE_UP"
    case MoveDown => "MOVE_DOWN"
    case MoveLeft => "MOVE_LEFT"
    case MoveRight => "MOVE_RIGHT"
    case Action => "ACTION"
    case Stop => "STOP"
  }

  /** `InputType.valueOf(name)`: only the exact constant names are accepted. */
  function InputTypeOf(name: string): (r: Option<InputType>)
    ensures r.Some? ==> InputTypeName(r.value) == name
    ensures forall t: InputType :: name == InputTypeName(t) ==> r == Some(t)
  {
    if name == "MOVE_UP" then Some(MoveUp)
    else if name == "MOVE_DOWN" then Some(MoveDown)
    else if name == "MOVE_LEFT" then Some(MoveLeft)
    else if name == "MOVE_RIGHT" then Some(MoveRight)
    else if name == "ACTION" then Some(Action)
    else if name == "STOP" then Some(Stop)
    else None
  }

  /** The message kinds of the wire protocol, one constructor per message class. */
  datatype Message =
    | Join(name: string, preferredRole: Option<string>, preferredLevel: Int32)
    | Input(clientId: string, inputType: InputType)
    | StateUpdate(payload: string)
    | Chat(from: string, text: string)
    | RoleAssigned(playerId: string, role: string)
    | Error(code: string, text: string)
    | LevelData(width: Int32, height: Int32, rows: seq<string>)

  /** Why a line was not decoded. */
  datatype DecodeError =
    | Malformed  // an IllegalArgumentException (NumberFormatException included): answered with BAD_MESSAGE
    | Crash      // any other runtime exception thrown while decoding

  const JoinTag: string := "JOIN"
  const InputTag: string := "INPUT"
  const StateUpdateTag: string := "STATE_UPDATE"
  const ChatTag: string := "CHAT"
  const RoleAssignedTag: string := "ROLE_ASSIGNED"
  const ErrorTag: string := "ERROR"
  const LevelDataTag: string := "LEVEL_DATA"

  const Tags: set<string> :=
    {JoinTag, InputTag, StateUpdateTag, ChatTag, RoleAssignedTag, ErrorTag, LevelDataTag}

  // ---------------------------------------------------------------- encoding

  /** The builder loop of LEVEL_DATA: each row is appended after a `|`, unescaped. */
  function AppendRows(line: string, rows: seq<string>): string
    decreases |rows|
  {
    if |rows| == 0 then line else AppendRows(line + "|" + rows[0], rows[1..])
  }

  /** `ProtocolEncoder.encode`. */
  function Encode(m: Message): string {
    match m
    case Join(name, _, _) => JoinTag + "|" + Escape(name)
    case Chat(from, text) => ChatTag + "|" + Escape(from) + "|" + Escape(text)
    case RoleAssigned(id, role) => RoleAssignedTag + "|" + Escape(id) + "|" + Escape(role)
    case Error(code, text) => ErrorTag + "|" + Escape(code) + "|" + Escape(text)
    case Input(id, t) => InputTag + "|" + Escape(id) + "|" + InputTypeName(t)
    case StateUpdate(payload) => StateUpdateTag + "|" + Escape(payload)
    case LevelData(w, h, rows) => AppendRows(LevelDataTag + "|" + IntToString(w) + "|" + IntToString(h), rows)
  }

  // ---------------------------------------------------------------- decoding

  /** What the decoder does to a text field after splitting: as written it runs
      `unescape` once more; the corrected decoder takes the field as split. */
  function Field(s: string, unescapeAgain: bool): string {
    if unescapeAgain then Unescape(s) else s
  }

  /** The `switch` on the kind tag, over the already split fields. */
  function DecodeParts(parts: seq<string>, unescapeAgain: bool): (r: Result<Message, DecodeError>)
    requires |parts| >= 1
  {
    var tag := parts[0];
    if tag == JoinTag then
      var name := if |parts| > 1 then Field(parts[1], unescapeAgain) else "Player";
      var role := if |parts| > 2 && parts[2] != "" then Some(parts[2]) else None;
      var level := if |parts| > 3 && parts[3] != "" then ParseInt(parts[3]).GetOr(-1) else -1;
      Ok(Join(name, role, level))
    else if tag == ChatTag then
      if |parts| < 3 then Err(Malformed)
      else Ok(Chat(Field(parts[1], unescapeAgain), Field(parts[2], unescapeAgain)))
    else if tag == RoleAssignedTag then
      if |parts| < 3 then Err(Malformed)
      else Ok(RoleAssigned(Field(parts[1], unescapeAgain), Field(parts[2], unescapeAgain)))
    else if tag == ErrorTag then
      if |parts| < 3 then Err(Malformed)
      else Ok(Error(Field(parts[1], unescapeAgain), Field(parts[2], unescapeAgain)))
    else if tag == InputTag then
      if |parts| < 3 then Err(Malformed)
      else
        match InputTypeOf(parts[2])
        case None => Err(Malformed)
        case Some(t) => Ok(Input(Field(parts[1], unescapeAgain), t))
    else if tag == StateUpdateTag then
      if |parts| < 2 then Err(Malformed)
      else Ok(StateUpdate(Field(parts[1], unescapeAgain)))
    else if tag == LevelDataTag then
      if |parts| < 3 then Err(Malformed)
      else
        match (ParseInt(parts[1]), ParseInt(parts[2]))
        case (Some(w), Some(h)) =>
          var height: int := h;
          // `parts.length < 3 + height` is evaluated in 32-bit arithmetic
          if |parts| < Wrap32(3 + height) then Err(Malformed)
          else if height < 0 then Err(Crash)              // NegativeArraySizeException
          else if |parts| < 3 + height then Err(Crash)     // the wrapped check let a huge height through
          else Ok(LevelData(w, h, parts[3..3 + height]))
        case _ => Err(Malformed)
    else Err(Malformed)
  }

  /** `ProtocolDecoder.decode` as written. */
  function Decode(line: string): (r: Result<Message, DecodeError>)
    ensures |line| == 0 ==> r == Err(Malformed)
    ensures |line| > 0 && Split(line)[0] !in Tags ==> r == Err(Malformed)
    ensures (|line| > 0 && Split(line)[0] in {ChatTag, RoleAssignedTag, ErrorTag, InputTag}
             && |Split(line)| < 3) ==> r == Err(Malformed)
    ensures |line| > 0 && Split(line)[0] == JoinTag ==>
              (var parts := Split(line);
               && r.Ok? && r.value.Join?
               && r.value.name == (if |parts| > 1 then Unescape(parts[1]) else "Player")
               && (r.value.preferredRole.None? <==> (|parts| <= 2 || parts[2] == ""))
               && ((|parts| <= 3 || ParseInt(parts[3]).None?) ==> r.value.preferredLevel == -1))
    ensures |line| > 0 && Split(line)[0] == JoinTag ==>
              (var parts := Split(line);
               && r.Ok? && r.value.Join?
               && (|parts| > 2 && parts[2] != "" ==> r.value.preferredRole == Some(parts[2]))
               && (|parts| > 3 && ParseInt(parts[3]).Some? ==> r.value.preferredLevel == ParseInt(parts[3]).value))
    // the text kinds carry their fields unescaped once more
    ensures |line| > 0 && |Split(line)| >= 3 ==>
              (var parts := Split(line);
               && (parts[0] == ChatTag ==> r == Ok(Chat(Unescape(parts[1]), Unescape(parts[2]))))
               && (parts[0] == RoleAssignedTag ==> r == Ok(RoleAssigned(Unescape(parts[1]), Unescape(parts[2]))))
               && (parts[0] == ErrorTag ==> r == Ok(Error(Unescape(parts[1]), Unescape(parts[2]))))
               && (parts[0] == InputTag && InputTypeOf(parts[2]).Some? ==>
                     r == Ok(Input(Unescape(parts[1]), InputTypeOf(parts[2]).value))))
    ensures |line| > 0 && Split(line)[0] == StateUpdateTag ==>
              && (|Split(line)| < 2 ==> r == Err(Malformed))
              && (|Split(line)| >= 2 ==> r == Ok(StateUpdate(Unescape(Split(line)[1]))))
    ensures |line| > 0 && Split(line)[0] == InputTag && |Split(line)| >= 3 ==>
              (r.Ok? <==> exists t: InputType :: Split(line)[2] == InputTypeName(t))
    // `InputType.valueOf` throws IllegalArgumentException on an unknown name
    ensures |line| > 0 && Split(line)[0] == InputTag && |Split(line)| >= 3 && InputTypeOf(Split(line)[2]).None? ==>
              r == Err(Malformed)
    ensures |line| > 0 && Split(line)[0] == LevelDataTag ==>
              (var parts := Split(line);
               && ((|parts| < 3 || ParseInt(parts[1]).None? || ParseInt(parts[2]).None?) ==> r == Err(Malformed))
               && (|parts| >= 3 && ParseInt(parts[1]).Some? && ParseInt(parts[2]).Some? ==>
                     (var w, h := ParseInt(parts[1]).value, ParseInt(parts[2]).value as int;
                      && (0 <= h && 3 + h <= |parts| ==> r == Ok(LevelData(w, h, parts[3..3 + h])))
                      && (0 <= h && 3 + h > |parts| ==> r.Err?)
                      // too few rows is a rejected message while `3 + height` fits an int;
                      // past that the sum wraps negative and the allocation fails instead
                      && (0 <= h && 3 + h > |parts| && 3 + h <= MaxInt32 ==> r == Err(Malformed))
                      && (3 + h > MaxInt32 && 3 + h > |parts| ==> r == Err(Crash))
                      && (h < 0 ==> r == Err(Crash)))))
  {
    if |line| == 0 then Err(Malformed) else DecodeParts(Split(line), true)
  }

  // ------------------------------------------------------------- round trips

  /** The field values `encode` writes, before escaping. */
  function WireFields(m: Message): (r: seq<string>)
    ensures |r| >= 2
  {
    match m
    case Join(name, _, _) => [JoinTag, name]
    case Chat(from, text) => [ChatTag, from, text]
    case RoleAssigned(id, role) => [RoleAssignedTag, id, role]
    case Error(code, text) => [ErrorTag, code, text]
    case Input(id, t) => [InputTag, id, InputTypeName(t)]
    case StateUpdate(payload) => [StateUpdateTag, payload]
    case LevelData(w, h, rows) => [LevelDataTag, IntToString(w), IntToString(h)] + rows
  }

  /** LEVEL_DATA rows are written without escaping: only rows that need no escaping
      come out of a split as they went in. */
  predicate RowsPlain(m: Message) {
    m.LevelData? ==> forall i | 0 <= i < |m.rows| :: Plain(m.rows[i])
  }

  /** The height is also written separately from the rows: the decoder can only recover
      plain rows whose count is the height. */
  predicate RowsEncodable(m: Message) {
    RowsPlain(m) && (m.LevelData? ==> |m.rows| == m.height)
  }

  /** The message the receiver ends up with: the escaped text fields run through `unescape`
      once more, and JOIN carries neither role nor level. */
  function Received(m: Message): Message {
    match m
    case Join(name, _, _) => Join(Unescape(name), None, -1)
    case Chat(from, text) => Chat(Unescape(from), Unescape(text))
    case RoleAssigned(id, role) => RoleAssigned(Unescape(id), Unescape(role))
    case Error(code, text) => Error(Unescape(code), Unescape(text))
    case Input(id, t) => Input(Unescape(id), t)
    case StateUpdate(payload) => StateUpdate(Unescape(payload))
    case LevelData(w, h, rows) => m
  }

  lemma {:induction false} EscapeAllPlain(fields: seq<string>)
    requires forall i | 0 <= i < |fields| :: Plain(fields[i])
    ensures EscapeAll(fields) == fields
    decreases |fields|
  {
    if |fields| > 0 {
      EscapeAllPlain(fields[1..]);
      assert fields == [fields[0]] + fields[1..];
    }
  }

  lemma {:induction false} EscapeAllAppend(a: seq<string>, b: seq<string>)
    ensures EscapeAll(a + b) == EscapeAll(a) + EscapeAll(b)
    decreases |a|
  {
    if |a| == 0 {
      assert a + b == b;
    } else {
      assert (a + b)[1..] == a[1..] + b;
      EscapeAllAppend(a[1..], b);
    }
  }

  lemma {:induction false} JoinAppend(a: seq<string>, b: seq<string>)
    requires |a| >= 1 && |b| >= 1
    ensures JoinWith(a + b, Pipe) == JoinWith(a, Pipe) + "|" + JoinWith(b, Pipe)
    decreases |a|
  {
    if |a| == 1 {
      assert (a + b)[1..] == b;
    } else {
      assert (a + b)[1..] == a[1..] + b;
      JoinAppend(a[1..], b);
    }
  }

  lemma {:induction false} AppendRowsJoins(head: seq<string>, rows: seq<string>)
    requires |head| >= 1
    ensures AppendRows(JoinWith(head, Pipe), rows) == JoinWith(head + rows, Pipe)
    decreases |rows|
  {
    if |rows| == 0 {
      assert head + rows == head;
    } else {
      JoinAppend(head, [rows[0]]);
      assert JoinWith(head, Pipe) + "|" + rows[0] == JoinWith(head + [rows[0]], Pipe);
      AppendRowsJoins(head + [rows[0]], rows[1..]);
      assert head + [rows[0]] + rows[1..] == head + rows;
    }
  }

  lemma Join2(a: string, b: string)
    ensures JoinWith(EscapeAll([a, b]), Pipe) == Escape(a) + "|" + Escape(b)
  {
    assert EscapeAll([a, b]) == [Escape(a), Escape(b)] by {
      assert [a, b][1..] == [b];
      assert EscapeAll([b]) == [Escape(b)];
    }
    assert [Escape(a), Escape(b)][1..] == [Escape(b)];
  }

  lemma Join3(a: string, b: string, c: string)
    ensures JoinWith(EscapeAll([a, b, c]), Pipe) == Escape(a) + "|" + Escape(b) + "|" + Escape(c)
  {
    assert EscapeAll([a, b, c]) == [Escape(a)] + EscapeAll([b, c]) by {
      assert [a, b, c][1..] == [b, c];
    }
    assert EscapeAll([b, c]) == [Escape(b), Escape(c)] by {
      assert [b, c][1..] == [c];
      assert EscapeAll([c]) == [Escape(c)];
    }
    var e := [Escape(a), Escape(b), Escape(c)];
    assert e[1..] == [Escape(b), Escape(c)];
    assert e[1..][1..] == [Escape(c)];
    assert JoinWith(e[1..], Pipe) == Escape(b) + "|" + Escape(c);
    assert Escape(a) + "|" + (Escape(b) + "|" + Escape(c))
        == Escape(a) + "|" + Escape(b) + "|" + Escape(c);
  }

  lemma Tag2(tag: string, a: string)
    requires Plain(tag)
    ensures JoinWith(EscapeAll([tag, a]), Pipe) == tag + "|" + Escape(a)
  {
    Join2(tag, a);
  }

  lemma Tag3(tag: string, a: string, b: string)
    requires Plain(tag)
    ensures JoinWith(EscapeAll([tag, a, b]), Pipe) == tag + "|" + Escape(a) + "|" + Escape(b)
  {
    Join3(tag, a, b);
  }

  /** Every encoded line is its fields, escaped, joined with `|` (for LEVEL_DATA only
      when the rows need no escaping). */
  lemma EncodeIsEscapedFields(m: Message)
    requires RowsPlain(m)
    ensures Encode(m) == JoinWith(EscapeAll(WireFields(m)), Pipe)
  {
    match m
    case Join(name, _, _) =>
      assert Plain(JoinTag);
      Tag2(JoinTag, name);
    case Chat(from, text) =>
      assert Plain(ChatTag);
      Tag3(ChatTag, from, text);
    case RoleAssigned(id, role) =>
      assert Plain(RoleAssignedTag);
      Tag3(RoleAssignedTag, id, role);
    case Error(code, text) =>
      assert Plain(ErrorTag);
      Tag3(ErrorTag, code, text);
    case Input(id, t) =>
      var name := InputTypeName(t);
      assert Plain(InputTag);
      Tag3(InputTag, id, name);
      assert Escape(name) == name;
    case StateUpdate(payload) =>
      assert Plain(StateUpdateTag);
      Tag2(StateUpdateTag, payload);
    case LevelData(w, h, rows) =>
      EncodeLevelDataFields(w, h, rows);
  }

  /** The three header fields of LEVEL_DATA, joined. */
  lemma LevelDataHead(w: Int32, h: Int32)
    ensures JoinWith([LevelDataTag, IntToString(w), IntToString(h)], Pipe)
         == LevelDataTag + "|" + IntToString(w) + "|" + IntToString(h)
  {
    var head := [LevelDataTag, IntToString(w), IntToString(h)];
    assert head[1..] == [IntToString(w), IntToString(h)];
    assert head[1..][1..] == [IntToString(h)];
    assert JoinWith(head[1..], Pipe) == IntToString(w) + "|" + IntToString(h);
    assert LevelDataTag + "|" + (IntToString(w) + "|" + IntToString(h))
        == LevelDataTag + "|" + IntToString(w) + "|" + IntToString(h);
  }

  lemma EncodeLevelDataFields(w: Int32, h: Int32, rows: seq<string>)
    requires forall i | 0 <= i < |rows| :: Plain(rows[i])
    ensures Encode(LevelData(w, h, rows)) == JoinWith(EscapeAll(WireFields(LevelData(w, h, rows))), Pipe)
  {
    var head := [LevelDataTag, IntToString(w), IntToString(h)];
    LevelDataHead(w, h);
    AppendRowsJoins(head, rows);
    EscapeAllPlain(head + rows);
  }

  /** Splitting an encoded line gives back exactly the fields that were written. */
  lemma SplitEncoded(m: Message)
    requires RowsPlain(m)
    ensures Split(Encode(m)) == WireFields(m)
  {
    EncodeIsEscapedFields(m);
    SplitEscapedJoin(WireFields(m));
  }

  /** What `decode(encode(m))` yields for every message whose rows the encoder can carry:
      text fields lose one level of escaping and JOIN loses its preferences. */
  lemma DecodeEncode(m: Message)
    requires RowsEncodable(m)
    ensures Decode(Encode(m)) == Ok(Received(m))
  {
    SplitEncoded(m);
    assert Split("") == [""];
    assert Encode(m) != "";
    DecodeWireFields(m);
  }

  /** The decoder's reading of the field values `encode` writes. */
  lemma DecodeWireFields(m: Message)
    requires RowsEncodable(m)
    ensures DecodeParts(WireFields(m), true) == Ok(Received(m))
  {
    match m
    case Input(id, t) =>
      assert WireFields(m)[2] == InputTypeName(t);
    case LevelData(w, h, rows) =>
      DecodeWireLevelData(w, h, rows);
    case _ =>
  }

  lemma DecodeWireLevelData(w: Int32, h: Int32, rows: seq<string>)
    requires |rows| == h
    ensures DecodeParts(WireFields(LevelData(w, h, rows)), true) == Ok(LevelData(w, h, rows))
  {
    var parts := WireFields(LevelData(w, h, rows));
    ParseIntToString(w);
    ParseIntToString(h);
    assert parts[3..3 + h] == rows;
  }

  predicate NoBackslash(m: Message) {
    match m
    case Join(name, _, _) => Backslash !in name
    case Chat(from, text) => Backslash !in from && Backslash !in text
    case RoleAssigned(id, role) => Backslash !in id && Backslash !in role
    case Error(code, text) => Backslash !in code && Backslash !in text
    case Input(id, _) => Backslash !in id
    case StateUpdate(payload) => Backslash !in payload
    case LevelData(_, _, _) => true
  }

  /** CHAT, ROLE_ASSIGNED, ERROR, INPUT and STATE_UPDATE survive the round trip when
      no field holds a backslash (a `|` is fine); a JOIN survives only when it carries
      no preferences; LEVEL_DATA survives when its rows hold neither `|` nor `\` and
      their count is the height. */
  lemma RoundTripWithoutBackslash(m: Message)
    requires NoBackslash(m) && RowsEncodable(m)
    requires m.Join? ==> m.preferredRole.None? && m.preferredLevel == -1
    ensures Decode(Encode(m)) == Ok(m)
  {
    DecodeEncode(m);
  }

  /** The decoded JOIN never carries the sender's role or level preference. */
  lemma JoinDropsPreferences(name: string, role: Option<string>, level: Int32)
    ensures Decode(Encode(Join(name, role, level))) == Ok(Join(Unescape(name), None, -1))
  {
    DecodeEncode(Join(name, role, level));
  }

  /** The input kind always survives; the client id survives unless it holds a backslash. */
  lemma InputRoundTrip(id: string, t: InputType)
    ensures Decode(Encode(Input(id, t))) == Ok(Input(Unescape(id), t))
    ensures Backslash !in id ==> Decode(Encode(Input(id, t))) == Ok(Input(id, t))
  {
    DecodeEncode(Input(id, t));
  }

  lemma {:induction false} UnescapeDropsBackslash(s: string, escaped: bool)
    requires Backslash in s || escaped
    ensures |UnescapeFrom(s, escaped)| < |s| + (if escaped then 1 else 0)
    decreases |s|
  {
    if |s| > 0 {
      if escaped {
        UnescapeShrinks(s[1..], false);
      } else if s[0] == Backslash {
        UnescapeShrinks(s[1..], true);
      } else {
        var i :| 0 <= i < |s| && s[i] == Backslash;
        assert i != 0;
        assert s[1..][i - 1] == Backslash;
        UnescapeDropsBackslash(s[1..], false);
      }
    }
  }

  /** A CHAT whose sender holds a backslash never arrives intact, because the decoder
      unescapes a field that splitting has already unescaped. */
  lemma BackslashNeverSurvives(from: string, text: string)
    requires Backslash in from
    ensures Decode(Encode(Chat(from, text))) != Ok(Chat(from, text))
  {
    DecodeEncode(Chat(from, text));
    UnescapeDropsBackslash(from, false);
  }

  /** A LEVEL_DATA row holding `|` is cut in two: the row `|` comes back as an empty row. */
  lemma DecodeOneEmptyRow()
    ensures DecodeParts([LevelDataTag, "1", "1", "", ""], true) == Ok(LevelData(1, 1, [""]))
  {
    var fields := [LevelDataTag, "1", "1", "", ""];
    assert IntToString(1) == "1";
    ParseIntToString(1);
    assert Wrap32(3 + 1) == 4;
    assert fields[3..3 + 1] == [""];
  }

  lemma EncodePipeRow()
    ensures Encode(LevelData(1, 1, ["|"])) == JoinWith([LevelDataTag, "1", "1", "", ""], Pipe)
  {
    var head := [LevelDataTag, IntToString(1), IntToString(1)];
    assert IntToString(1) == "1";
    LevelDataHead(1, 1);
    AppendRowsJoins(head, ["|"]);
    JoinAppend(head, ["|"]);
    JoinAppend(head, ["", ""]);
    assert ["", ""][1..] == [""];
    assert JoinWith(["", ""], Pipe) == "|";
    assert head + ["", ""] == [LevelDataTag, "1", "1", "", ""];
  }

  lemma PipeInRowSplitsIt()
    ensures Decode(Encode(LevelData(1, 1, ["|"]))) == Ok(LevelData(1, 1, [""]))
  {
    var fields := [LevelDataTag, "1", "1", "", ""];
    var line := Encode(LevelData(1, 1, ["|"]));
    EncodePipeRow();
    EscapeAllPlain(fields);
    SplitEscapedJoin(fields);
    assert line != "" by {
      assert Split("") == [""];
    }
    DecodeOneEmptyRow();
  }

  // ------------------------------------------------------- corrected codec

  /** The fields a corrected encoder writes: JOIN keeps its role (empty for none) and
      level, and LEVEL_DATA rows are escaped like every other field. */
  function FixedFields(m: Message): (r: seq<string>)
    ensures |r| >= 2
  {
    match m
    case Join(name, role, level) => [JoinTag, name, role.GetOr(""), IntToString(level)]
    case _ => WireFields(m)
  }

  /** Corrected encoder: every field escaped, all fields written. */
  function EncodeFixed(m: Message): string {
    JoinWith(EscapeAll(FixedFields(m)), Pipe)
  }

  /** Corrected decoder: fields are taken as split, without a second `unescape`. */
  function DecodeFixed(line: string): (r: Result<Message, DecodeError>)
    ensures |line| == 0 ==> r == Err(Malformed)
  {
    if |line| == 0 then Err(Malformed) else DecodeParts(Split(line), false)
  }

  /** Messages the corrected codec can carry: an empty role is the same as none, and
      LEVEL_DATA lists exactly `height` rows. */
  predicate FixedEncodable(m: Message) {
    && (m.Join? ==> m.preferredRole != Some(""))
    && (m.LevelData? ==> |m.rows| == m.height)
  }

  lemma SplitFixed(m: Message)
    ensures Split(EncodeFixed(m)) == FixedFields(m)
    ensures EncodeFixed(m) != ""
  {
    SplitEscapedJoin(FixedFields(m));
    assert Split("") == [""];
  }

  lemma DecodeFixedJoin(name: string, role: Option<string>, level: Int32)
    requires role != Some("")
    ensures DecodeParts(FixedFields(Join(name, role, level)), false) == Ok(Join(name, role, level))
  {
    ParseIntToString(level);
  }

  lemma DecodeFixedLevelData(w: Int32, h: Int32, rows: seq<string>)
    requires |rows| == h
    ensures DecodeParts(FixedFields(LevelData(w, h, rows)), false) == Ok(LevelData(w, h, rows))
  {
    var parts := FixedFields(LevelData(w, h, rows));
    ParseIntToString(w);
    ParseIntToString(h);
    assert parts[3..3 + h] == rows;
  }

  lemma DecodeFixedFields(m: Message)
    requires FixedEncodable(m)
    ensures DecodeParts(FixedFields(m), false) == Ok(m)
  {
    match m
    case Join(name, role, level) =>
      DecodeFixedJoin(name, role, level);
    case Input(id, t) =>
      assert FixedFields(m)[2] == InputTypeName(t);
    case LevelData(w, h, rows) =>
      DecodeFixedLevelData(w, h, rows);
    case _ =>
  }

  /** With both corrections every message survives, whatever `|` and `\` its fields hold. */
  lemma FixedRoundTrip(m: Message)
    requires FixedEncodable(m)
    ensures DecodeFixed(EncodeFixed(m)) == Ok(m)
  {
    SplitFixed(m);
    DecodeFixedFields(m);
  }
}
