/** Splitting a string on a separator character and joining it back. */
module Text {

  /** Every occurrence of `sep` ends one part and starts the next; empty parts are kept. */
  function SplitOn(s: string, sep: char): (r: seq<string>)
    ensures |r| >= 1
    ensures forall i | 0 <= i < |r| :: sep !in r[i]
    decreases |s|
  {
    if |s| == 0 then [""]
    else
      var rest := SplitOn(s[1..], sep);
      if s[0] == sep then [""] + rest else [[s[0]] + rest[0]] + rest[1..]
  }

  /** The parts, with one `sep` between neighbours. */
  function JoinWith(parts: seq<string>, sep: char): string
    requires |parts| >= 1
    decreases |parts|
  {
    if |parts| == 1 then parts[0] else parts[0] + [sep] + JoinWith(parts[1..], sep)
  }

  /** `s.split(sep)` for a one-character, non-special separator: a string without
      the separator is returned whole; otherwise trailing empty parts are dropped. */
  function JavaSplit(s: string, sep: char): (r: seq<string>)
    ensures forall i | 0 <= i < |r| :: sep !in r[i] || (r == [s] && sep !in s)
    ensures sep !in s ==> r == [s]
    ensures sep in s && |r| > 0 ==> r[|r| - 1] != ""
  {
    if sep in s then DropTrailingEmpty(SplitOn(s, sep)) else [s]
  }

  function DropTrailingEmpty(parts: seq<string>): (r: seq<string>)
    ensures |r| <= |parts| && r == parts[..|r|]
    ensures |r| > 0 ==> r[|r| - 1] != ""
    ensures forall i | |r| <= i < |parts| :: parts[i] == ""
  {
    if |parts| > 0 && parts[|parts| - 1] == "" then DropTrailingEmpty(parts[..|parts| - 1]) else parts
  }

  /** Splitting loses nothing: the parts joined with the separator give the string back. */
  lemma {:induction false} JoinSplit(s: string, sep: char)
    ensures JoinWith(SplitOn(s, sep), sep) == s
    decreases |s|
  {
    if |s| > 0 {
      var rest := SplitOn(s[1..], sep);
      JoinSplit(s[1..], sep);
      if s[0] == sep {
        assert ([""] + rest)[1..] == rest;
      } else {
        var r := [[s[0]] + rest[0]] + rest[1..];
        if |rest| > 1 {
          assert r[1..] == rest[1..];
          assert JoinWith(rest, sep) == rest[0] + [sep] + JoinWith(rest[1..], sep);
        }
      }
    }
  }

  /** Splitting a separator-free prefix glued to `t` extends the first part of `t`'s split. */
  lemma {:induction false} SplitPrefix(a: string, t: string, sep: char)
    requires sep !in a
    ensures SplitOn(a + t, sep) == [a + SplitOn(t, sep)[0]] + SplitOn(t, sep)[1..]
    decreases |a|
  {
    if |a| > 0 {
      assert (a + t)[1..] == a[1..] + t;
      assert a[0] in a;
      SplitPrefix(a[1..], t, sep);
      assert [a[0]] + (a[1..] + SplitOn(t, sep)[0]) == a + SplitOn(t, sep)[0];
    } else {
      var r := SplitOn(t, sep);
      assert a + t == t && a + r[0] == r[0];
      assert r == [r[0]] + r[1..];
    }
  }

  /** Joining separator-free parts and splitting again gives the parts back. */
  lemma {:induction false} SplitJoin(parts: seq<string>, sep: char)
    requires |parts| >= 1
    requires forall i | 0 <= i < |parts| :: sep !in parts[i]
    ensures SplitOn(JoinWith(parts, sep), sep) == parts
    decreases |parts|
  {
    if |parts| == 1 {
      SplitPrefix(parts[0], "", sep);
      assert parts[0] + "" == parts[0];
    } else {
      var tail := JoinWith(parts[1..], sep);
      SplitJoin(parts[1..], sep);
      assert parts[0] + [sep] + tail == parts[0] + ([sep] + tail);
      SplitPrefix(parts[0], [sep] + tail, sep);
      assert ([sep] + tail)[1..] == tail;
      assert SplitOn([sep] + tail, sep) == [""] + parts[1..];
      assert parts[0] + "" == parts[0];
    }
  }

  /** `String.split` returns exactly the parts that were joined, provided there are
      at least two and the last is not empty (Java drops trailing empty parts). */
  lemma JavaSplitJoin(parts: seq<string>, sep: char)
    requires |parts| >= 2 && parts[|parts| - 1] != ""
    requires forall i | 0 <= i < |parts| :: sep !in parts[i]
    ensures JavaSplit(JoinWith(parts, sep), sep) == parts
  {
    var s := JoinWith(parts, sep);
    SplitJoin(parts, sep);
    assert s == parts[0] + [sep] + JoinWith(parts[1..], sep);
    assert s[|parts[0]|] == sep;
  }

  /** Joining with one more part appends the separator and that part. */
  lemma {:induction false} JoinSnoc(parts: seq<string>, last: string, sep: char)
    requires |parts| >= 1
    ensures JoinWith(parts + [last], sep) == JoinWith(parts, sep) + [sep] + last
    decreases |parts|
  {
    if |parts| == 1 {
      assert (parts + [last])[1..] == [last];
    } else {
      assert (parts + [last])[1..] == parts[1..] + [last];
      JoinSnoc(parts[1..], last, sep);
    }
  }

  /** A character other than the separator occurs in the join only if it occurs in a part. */
  lemma {:induction false} JoinWithout(parts: seq<string>, sep: char, c: char)
    requires |parts| >= 1 && c != sep
    requires forall i | 0 <= i < |parts| :: c !in parts[i]
    ensures c !in JoinWith(parts, sep)
    decreases |parts|
  {
    if |parts| > 1 {
      JoinWithout(parts[1..], sep, c);
    }
  }
}
