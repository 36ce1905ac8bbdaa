/** Grid coordinates and their "x,y" text form. */
module Positions {
  import opened Wrappers
  import opened JavaInt
  import opened Text

  /** A tile coordinate; x grows to the right, y grows downwards. */
  datatype Position = Position(x: int, y: int) {

    /** The neighbouring coordinate one step along (dx, dy). */
    function Plus(dx: int, dy: int): Position {
      Position(x + dx, y + dy)
    }
  }

  predicate FitsInt32(p: Position) {
    MinInt32 <= p.x <= MaxInt32 && MinInt32 <= p.y <= MaxInt32
  }

  /** `Position.toString`: the decimal x, one comma, the decimal y. */
  function ToString(p: Position): (r: string)
    ensures SplitOn(r, ',') == [IntToString(p.x), IntToString(p.y)]
    ensures '|' !in r && '\\' !in r && ';' !in r && '/' !in r && ':' !in r
  {
    var r := IntToString(p.x) + "," + IntToString(p.y);
    assert r == JoinWith([IntToString(p.x), IntToString(p.y)], ',');
    SplitJoin([IntToString(p.x), IntToString(p.y)], ',');
    r
  }

  /**
   * `Position.fromString`: `s.split(",")` must give exactly two parts and each
   * must parse as an `int`; otherwise the Java method throws, modelled as `None`.
   */
  function FromString(s: string): (r: Option<Position>)
    ensures |JavaSplit(s, ',')| != 2 ==> r.None?
    ensures r.Some? ==> FitsInt32(r.value)
    ensures r.Some? ==> (ParseInt(JavaSplit(s, ',')[0]) == Some(r.value.x)
                         && ParseInt(JavaSplit(s, ',')[1]) == Some(r.value.y))
    ensures (|JavaSplit(s, ',')| == 2 && ParseInt(JavaSplit(s, ',')[0]).Some?
             && ParseInt(JavaSplit(s, ',')[1]).Some?) ==> r.Some?
  {
    var parts := JavaSplit(s, ',');
    if |parts| != 2 then None
    else
      match (ParseInt(parts[0]), ParseInt(parts[1]))
      case (Some(x), Some(y)) => Some(Position(x, y))
      case _ => None
  }

  /** Every coordinate a Java `int` can hold survives printing and parsing, negatives included. */
  lemma FromStringToString(p: Position)
    requires FitsInt32(p)
    ensures FromString(ToString(p)) == Some(p)
  {
    var parts := [IntToString(p.x), IntToString(p.y)];
    assert ToString(p) == JoinWith(parts, ',');
    JavaSplitJoin(parts, ',');
    ParseIntToString(p.x);
    ParseIntToString(p.y);
  }
}
