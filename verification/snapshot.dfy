/**
 * The STATE_UPDATE payload `broadcastState` writes: `F:x,y` when there is a fish,
 * always `;`, `C:x,y` when there is a crab, `;O:` and the `/`-separated object
 * records `T,x,y,A` when there are objects, and `;D:1` once the level is won.
 */
module Snapshot {
  import opened Wrappers
  import opened JavaInt
  import opened Text
  import opened Positions
  import opened World
  import Codec

  // ------------------------------------------------------------------ writing

  /** The kind letter of an object record. */
  function KindChar(kind: ObjectKind): char {
    match kind
    case Mushroom => 'M'
    case Box => 'B'
    case Rock => 'R'
  }

  /** The four comma-separated fields of an object record. */
  function RecordFields(o: GameObject): (r: seq<string>)
    ensures |r| == 4
    ensures forall i | 0 <= i < 4 :: ',' !in r[i] && ';' !in r[i] && '/' !in r[i] && '|' !in r[i] && '\\' !in r[i]
  {
    [[KindChar(o.kind)], IntToString(o.pos.x), IntToString(o.pos.y), if o.active then "1" else "0"]
  }

  /** One object: kind letter, x, y, and `1` when active or `0` when not. */
  function ObjectRecord(o: GameObject): (r: string)
    ensures SplitOn(r, ',') == RecordFields(o)
    ensures ';' !in r && '/' !in r && '|' !in r && '\\' !in r
  {
    var fields := RecordFields(o);
    SplitJoin(fields, ',');
    JoinWithout(fields, ',', ';');
    JoinWithout(fields, ',', '/');
    JoinWithout(fields, ',', '|');
    JoinWithout(fields, ',', '\\');
    JoinWith(fields, ',')
  }

  /** The records of all objects, in the order of the object list. */
  function Records(objects: seq<GameObject>): (r: seq<string>)
    ensures |r| == |objects|
    ensures forall i | 0 <= i < |r| :: r[i] == ObjectRecord(objects[i])
  {
    seq(|objects|, i requires 0 <= i < |objects| => ObjectRecord(objects[i]))
  }

  /** The `O:` section: the records joined with `/`. */
  function ObjectsText(objects: seq<GameObject>): (r: string)
    requires |objects| > 0
    ensures |r| >= 2 && r[..2] == "O:"
    ensures SplitOn(r[2..], '/') == Records(objects)
    ensures ';' !in r && '|' !in r && '\\' !in r
  {
    var rs := Records(objects);
    SplitJoin(rs, '/');
    JoinWithout(rs, '/', ';');
    JoinWithout(rs, '/', '|');
    JoinWithout(rs, '/', '\\');
    var r := "O:" + JoinWith(rs, '/');
    assert r[2..] == JoinWith(rs, '/');
    r
  }

  /** The letter that opens a role slot's section. */
  function RoleTag(role: Role): char {
    if role == Fish then 'F' else 'C'
  }

  /** The section of one role slot: empty when the slot holds no player. */
  function SlotText(role: Role, p: Option<Player>): (r: string)
    ensures ';' !in r && '|' !in r && '\\' !in r
    ensures p.None? <==> r == ""
  {
    if p.Some? then [RoleTag(role), ':'] + ToString(p.value.pos) else ""
  }

  /** The `;`-separated sections of the payload. */
  function Sections(g: GameState): (r: seq<string>)
    ensures |r| >= 2
    ensures forall i | 0 <= i < |r| :: ';' !in r[i] && '|' !in r[i] && '\\' !in r[i]
  {
    [SlotText(Fish, g.fish), SlotText(Crab, g.crab)]
      + (if |g.objects| > 0 then [ObjectsText(g.objects)] else [])
      + (if g.completed then ["D:1"] else [])
  }

  /** `broadcastState`'s payload, as its string builder appends it. */
  function Payload(g: GameState): (r: string)
    ensures '|' !in r && '\\' !in r
    ensures SplitOn(r, ';') == Sections(g)
  {
    var r := SlotText(Fish, g.fish) + ";" + SlotText(Crab, g.crab)
      + (if |g.objects| > 0 then ";" + ObjectsText(g.objects) else "")
      + (if g.completed then ";D:1" else "");
    PayloadIsJoin(g);
    SplitJoin(Sections(g), ';');
    JoinWithout(Sections(g), ';', '|');
    JoinWithout(Sections(g), ';', '\\');
    r
  }

  /** The sections as optional pieces: the two slots, then the objects, then the flag. */
  lemma SectionsShape(g: GameState)
    ensures Sections(g) == [SlotText(Fish, g.fish), SlotText(Crab, g.crab)] + ObjectSection(g) + DoneSection(g)
  {
  }

  function ObjectSection(g: GameState): seq<string> {
    if |g.objects| > 0 then [ObjectsText(g.objects)] else []
  }

  function DoneSection(g: GameState): seq<string> {
    if g.completed then ["D:1"] else []
  }

  lemma JoinOptional(parts: seq<string>, opt: seq<string>)
    requires |parts| >= 1 && |opt| <= 1
    ensures JoinWith(parts + opt, ';') == JoinWith(parts, ';') + (if |opt| == 1 then ";" + opt[0] else "")
  {
    if |opt| == 1 {
      assert parts + opt == parts + [opt[0]];
      JoinSnoc(parts, opt[0], ';');
      assert JoinWith(parts, ';') + [';'] + opt[0] == JoinWith(parts, ';') + (";" + opt[0]);
    } else {
      assert parts + opt == parts;
    }
  }

  lemma PayloadIsJoin(g: GameState)
    ensures SlotText(Fish, g.fish) + ";" + SlotText(Crab, g.crab)
      + (if |g.objects| > 0 then ";" + ObjectsText(g.objects) else "")
      + (if g.completed then ";D:1" else "")
      == JoinWith(Sections(g), ';')
  {
    var head := [SlotText(Fish, g.fish), SlotText(Crab, g.crab)];
    assert head[1..] == [SlotText(Crab, g.crab)];
    assert JoinWith(head, ';') == SlotText(Fish, g.fish) + ";" + SlotText(Crab, g.crab);
    JoinOptional(head, ObjectSection(g));
    JoinOptional(head + ObjectSection(g), DoneSection(g));
    SectionsShape(g);
  }

  // ------------------------------------------------------------------ reading

  /** What a reader learns from a payload: the two positions, the objects and the flag. */
  datatype View = View(fish: Option<Position>, crab: Option<Position>, objects: seq<GameObject>, completed: bool)

  function ViewOf(g: GameState): View {
    View(
      if g.fish.Some? then Some(g.fish.value.pos) else None,
      if g.crab.Some? then Some(g.crab.value.pos) else None,
      g.objects,
      g.completed)
  }

  /** Every coordinate in the state fits a Java `int`, as the server's coordinates do. */
  predicate Printable(g: GameState) {
    && (g.fish.Some? ==> FitsInt32(g.fish.value.pos))
    && (g.crab.Some? ==> FitsInt32(g.crab.value.pos))
    && forall k | 0 <= k < |g.objects| :: FitsInt32(g.objects[k].pos)
  }

  function KindOfChar(c: char): Option<ObjectKind> {
    if c == 'M' then Some(Mushroom) else if c == 'B' then Some(Box) else if c == 'R' then Some(Rock) else None
  }

  /** A slot section: empty for no player, otherwise the tag, `:` and a position. */
  function ReadSlot(role: Role, s: string): Option<Option<Position>> {
    if s == "" then Some(None)
    else if |s| >= 2 && s[0] == RoleTag(role) && s[1] == ':' then
      match FromString(s[2..])
      case Some(p) => Some(Some(p))
      case None => None
    else None
  }

  /** One object record; anything but four well-formed fields is rejected. */
  function ReadRecord(s: string): Option<GameObject> {
    var f := SplitOn(s, ',');
    if |f| != 4 || |f[0]| != 1 || (f[3] != "0" && f[3] != "1") then None
    else
      match (KindOfChar(f[0][0]), ParseInt(f[1]), ParseInt(f[2]))
      case (Some(kind), Some(x), Some(y)) => Some(GameObject(kind, Position(x, y), f[3] == "1"))
      case _ => None
  }

  function ReadRecords(rs: seq<string>): Option<seq<GameObject>>
    decreases |rs|
  {
    if |rs| == 0 then Some([])
    else
      match (ReadRecord(rs[0]), ReadRecords(rs[1..]))
      case (Some(o), Some(os)) => Some([o] + os)
      case _ => None
  }

  /** The sections after the two slots: an optional `O:` section, then an optional `D:1`. */
  function ReadTail(t: seq<string>): Option<(seq<GameObject>, bool)> {
    if |t| == 0 then Some(([], false))
    else if t == ["D:1"] then Some(([], true))
    else if |t[0]| >= 2 && t[0][..2] == "O:" && (|t| == 1 || t[1..] == ["D:1"]) then
      match ReadRecords(SplitOn(t[0][2..], '/'))
      case Some(objects) => Some((objects, |t| == 2))
      case None => None
    else None
  }

  /** A strict reader of the payload format, defined apart from the writer. */
  function ReadPayload(s: string): Option<View> {
    var sections := SplitOn(s, ';');
    if |sections| < 2 then None
    else
      match (ReadSlot(Fish, sections[0]), ReadSlot(Crab, sections[1]), ReadTail(sections[2..]))
      case (Some(fish), Some(crab), Some(tail)) => Some(View(fish, crab, tail.0, tail.1))
      case _ => None
  }

  // -------------------------------------------------------------- round trip

  lemma ReadRecordOf(o: GameObject)
    requires FitsInt32(o.pos)
    ensures ReadRecord(ObjectRecord(o)) == Some(o)
  {
    ParseIntToString(o.pos.x);
    ParseIntToString(o.pos.y);
  }

  /** Reading a list of records succeeds when every record reads, and keeps their order. */
  lemma {:induction false} ReadEach(rs: seq<string>, objects: seq<GameObject>)
    requires |rs| == |objects|
    requires forall i | 0 <= i < |rs| :: ReadRecord(rs[i]) == Some(objects[i])
    ensures ReadRecords(rs) == Some(objects)
    decreases |rs|
  {
    if |rs| > 0 {
      ReadEach(rs[1..], objects[1..]);
      assert objects == [objects[0]] + objects[1..];
    }
  }

  lemma ReadRecordsOf(objects: seq<GameObject>)
    requires forall k | 0 <= k < |objects| :: FitsInt32(objects[k].pos)
    ensures ReadRecords(Records(objects)) == Some(objects)
  {
    forall i | 0 <= i < |objects|
      ensures ReadRecord(Records(objects)[i]) == Some(objects[i])
    {
      ReadRecordOf(objects[i]);
    }
    ReadEach(Records(objects), objects);
  }

  lemma ReadSlotOf(role: Role, p: Option<Player>)
    requires p.Some? ==> FitsInt32(p.value.pos)
    ensures ReadSlot(role, SlotText(role, p)) == Some(if p.Some? then Some(p.value.pos) else None)
  {
    if p.Some? {
      var s := SlotText(role, p);
      assert s[2..] == ToString(p.value.pos);
      FromStringToString(p.value.pos);
    }
  }

  lemma ReadTailOf(g: GameState)
    requires forall k | 0 <= k < |g.objects| :: FitsInt32(g.objects[k].pos)
    ensures ReadTail(Sections(g)[2..]) == Some((g.objects, g.completed))
  {
    var t := Sections(g)[2..];
    if |g.objects| > 0 {
      var o := ObjectsText(g.objects);
      assert t == [o] + (if g.completed then ["D:1"] else []);
      assert t[0] == o;
      ReadRecordsOf(g.objects);
      if g.completed {
        assert t[1..] == ["D:1"];
      }
    } else {
      assert t == (if g.completed then ["D:1"] else []);
    }
  }

  /** The reader recovers from the payload exactly the players' positions, the objects
      (kind, cell and state, in order) and the completion flag. */
  lemma ReadPayloadOf(g: GameState)
    requires Printable(g)
    ensures ReadPayload(Payload(g)) == Some(ViewOf(g))
  {
    var sections := Sections(g);
    assert SplitOn(Payload(g), ';') == sections;
    ReadSlotOf(Fish, g.fish);
    ReadSlotOf(Crab, g.crab);
    ReadTailOf(g);
  }

  /** The payload travels in a STATE_UPDATE line unchanged: it holds no backslash. */
  lemma PayloadSurvivesCodec(g: GameState)
    ensures Codec.Decode(Codec.Encode(Codec.StateUpdate(Payload(g)))) == Ok(Codec.StateUpdate(Payload(g)))
  {
    Codec.RoundTripWithoutBackslash(Codec.StateUpdate(Payload(g)));
  }
}
