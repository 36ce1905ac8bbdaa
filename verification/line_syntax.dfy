/**
 * The field syntax of one protocol line: fields separated by `|`, where a
 * backslash makes the next character literal.  Escaping is the encoder's
 * `escape`; splitting and unescaping are the decoder's `splitPreserveEscapes`
 * and `unescape`.
 */
module LineSyntax {
  import opened Wrappers
  import opened Text

  const Backslash: char := '\\'
  const Pipe: char := '|'

  /** The line or field needs no escaping at all. */
  predicate Plain(s: string) {
    Backslash !in s && Pipe !in s
  }

  // ---------------------------------------------------------------- escaping

  /** `s.replace(from, to)` for a one-character `from`. */
  function Replace(s: string, from: char, to: string): (r: string)
    ensures from !in s ==> r == s
    decreases |s|
  {
    if |s| == 0 then "" else (if s[0] == from then to else [s[0]]) + Replace(s[1..], from, to)
  }

  /** `ProtocolEncoder.escape` on a non-null string: first every backslash is doubled,
      then every pipe gets a backslash in front of it. */
  function Escape(s: string): (r: string)
    ensures Plain(s) ==> r == s
    ensures ScanFields(r, false) == [s]
    ensures Unescape(r) == s
  {
    EscapeFacts(s);
    Replace(Replace(s, Backslash, [Backslash, Backslash]), Pipe, [Backslash, Pipe])
  }

  lemma EscapeFacts(s: string)
    ensures Plain(s) ==> EscapeEach(s) == s
    ensures Replace(Replace(s, Backslash, [Backslash, Backslash]), Pipe, [Backslash, Pipe]) == EscapeEach(s)
    ensures ScanFields(EscapeEach(s), false) == [s]
    ensures UnescapeFrom(EscapeEach(s), false) == s
  {
    EscapeIsPerCharacter(s);
    ScanEscaped(s, "");
    UnescapeEscaped(s, "");
    assert EscapeEach(s) + "" == EscapeEach(s);
    assert s + "" == s;
    EscapePlain(s);
  }

  lemma {:induction false} EscapePlain(s: string)
    ensures Plain(s) ==> EscapeEach(s) == s
    decreases |s|
  {
    if |s| > 0 && Plain(s) {
      assert s[0] in s;
      assert forall c | c in s[1..] :: c in s;
      EscapePlain(s[1..]);
    }
  }

  /** `escape` on a Java reference that may be `null`: `null` becomes the empty field. */
  function EscapeNullable(s: Option<string>): (r: string)
    ensures s.None? ==> r == ""
    ensures s.Some? ==> ScanFields(r, false) == [s.value]
  {
    match s
    case None => ""
    case Some(v) => Escape(v)
  }

  /** What `escape` writes for one character. */
  function EscapeChar(c: char): string {
    if c == Backslash then [Backslash, Backslash]
    else if c == Pipe then [Backslash, Pipe]
    else [c]
  }

  /** The same escaping done character by character, used to reason about `Escape`. */
  function EscapeEach(s: string): string
    decreases |s|
  {
    if |s| == 0 then "" else EscapeChar(s[0]) + EscapeEach(s[1..])
  }

  /** Every field escaped on its own. */
  function EscapeAll(fields: seq<string>): (r: seq<string>)
    ensures |r| == |fields|
    decreases |fields|
  {
    if |fields| == 0 then [] else [Escape(fields[0])] + EscapeAll(fields[1..])
  }

  lemma {:induction false} ReplaceAppend(a: string, b: string, from: char, to: string)
    ensures Replace(a + b, from, to) == Replace(a, from, to) + Replace(b, from, to)
    decreases |a|
  {
    if |a| == 0 {
      assert a + b == b;
    } else {
      assert (a + b)[1..] == a[1..] + b;
      ReplaceAppend(a[1..], b, from, to);
    }
  }

  /** The two whole-string replacements agree with escaping each character on its own. */
  lemma {:induction false} EscapeIsPerCharacter(s: string)
    ensures Replace(Replace(s, Backslash, [Backslash, Backslash]), Pipe, [Backslash, Pipe]) == EscapeEach(s)
    decreases |s|
  {
    if |s| > 0 {
      var once := [Backslash, Backslash];
      assert s == [s[0]] + s[1..];
      ReplaceAppend([s[0]], s[1..], Backslash, once);
      var head := Replace([s[0]], Backslash, once);
      ReplaceAppend(head, Replace(s[1..], Backslash, once), Pipe, [Backslash, Pipe]);
      EscapeIsPerCharacter(s[1..]);
      if s[0] == Backslash {
        assert head == once;
        assert Replace(head, Pipe, [Backslash, Pipe]) == once;
      } else if s[0] == Pipe {
        assert head == [Pipe];
      } else {
        assert head == [s[0]];
      }
    }
  }

  // --------------------------------------------------------------- splitting

  /** The splitter's state machine, run from the given escape mode: the result's
      first element is the field being built. */
  function ScanFields(s: string, escaped: bool): (r: seq<string>)
    ensures |r| >= 1
    decreases |s|
  {
    if |s| == 0 then [""]
    else if escaped then PrependChar(s[0], ScanFields(s[1..], false))
    else if s[0] == Backslash then ScanFields(s[1..], true)
    else if s[0] == Pipe then [""] + ScanFields(s[1..], false)
    else PrependChar(s[0], ScanFields(s[1..], false))
  }

  function PrependChar(c: char, fields: seq<string>): (r: seq<string>)
    requires |fields| >= 1
    ensures |r| == |fields|
  {
    [[c] + fields[0]] + fields[1..]
  }

  function PrependText(t: string, fields: seq<string>): (r: seq<string>)
    requires |fields| >= 1
    ensures |r| == |fields|
  {
    [t + fields[0]] + fields[1..]
  }

  /** `splitPreserveEscapes`: the fields of a line, escapes consumed. */
  function Split(line: string): (r: seq<string>)
    ensures |r| == SeparatorCount(line) + 1
  {
    FieldCount(line);
    ScanFields(line, false)
  }

  /** `splitPreserveEscapes` as the Java loop writes it. */
  method SplitPreserveEscapes(line: string) returns (parts: seq<string>)
    ensures parts == Split(line)
  {
    var result: seq<string> := [];
    var current: string := "";
    var escape := false;
    var i := 0;
    assert line[0..] == line;
    PrependEmpty(ScanFields(line, false));
    while i < |line|
      invariant 0 <= i <= |line|
      invariant result + PrependText(current, ScanFields(line[i..], escape)) == ScanFields(line, false)
    {
      var c := line[i];
      assert line[i..][0] == c && line[i..][1..] == line[i + 1..];
      var rest := ScanFields(line[i + 1..], false);
      if escape {
        PrependTextChar(current, c, rest);
        current := current + [c];
        escape := false;
      } else if c == Backslash {
        escape := true;
      } else if c == Pipe {
        PrependTextPipe(result, current, rest);
        result := result + [current];
        current := "";
      } else {
        PrependTextChar(current, c, rest);
        current := current + [c];
      }
      i := i + 1;
    }
    assert line[i..] == [];
    assert current + "" == current;
    parts := result + [current];
  }

  lemma PrependTextChar(t: string, c: char, fields: seq<string>)
    requires |fields| >= 1
    ensures PrependText(t, PrependChar(c, fields)) == PrependText(t + [c], fields)
  {
    assert t + ([c] + fields[0]) == (t + [c]) + fields[0];
  }

  lemma PrependTextPipe(done: seq<string>, t: string, fields: seq<string>)
    requires |fields| >= 1
    ensures done + PrependText(t, [""] + fields) == (done + [t]) + PrependText("", fields)
  {
    assert t + "" == t;
    assert ([""] + fields)[1..] == fields;
    PrependEmpty(fields);
  }

  lemma PrependEmpty(fields: seq<string>)
    requires |fields| >= 1
    ensures PrependText("", fields) == fields
  {
    assert "" + fields[0] == fields[0];
    assert fields == [fields[0]] + fields[1..];
  }

  // -------------------------------------------------------------- unescaping

  function UnescapeFrom(s: string, escaped: bool): string
    decreases |s|
  {
    if |s| == 0 then ""
    else if escaped then [s[0]] + UnescapeFrom(s[1..], false)
    else if s[0] == Backslash then UnescapeFrom(s[1..], true)
    else [s[0]] + UnescapeFrom(s[1..], false)
  }

  /** `unescape`: each escaping backslash is dropped and the character after it kept. */
  function Unescape(s: string): (r: string)
    ensures Backslash !in s ==> r == s
    ensures |r| <= |s|
  {
    UnescapeIdentity(s);
    UnescapeShrinks(s, false);
    UnescapeFrom(s, false)
  }

  lemma {:induction false} UnescapeShrinks(s: string, escaped: bool)
    ensures |UnescapeFrom(s, escaped)| <= |s|
    decreases |s|
  {
    if |s| > 0 {
      UnescapeShrinks(s[1..], !escaped && s[0] == Backslash);
    }
  }

  lemma {:induction false} UnescapeIdentity(s: string)
    ensures Backslash !in s ==> UnescapeFrom(s, false) == s
    decreases |s|
  {
    if |s| > 0 && Backslash !in s {
      assert s[0] in s;
      assert forall c | c in s[1..] :: c in s;
      UnescapeIdentity(s[1..]);
    }
  }

  // ---------------------------------------------- separators, independently

  /** How many backslashes `s` ends with. */
  function TrailingBackslashes(s: string): nat
    decreases |s|
  {
    if |s| == 0 then 0
    else if s[|s| - 1] == Backslash then 1 + TrailingBackslashes(s[..|s| - 1])
    else 0
  }

  /** A `|` separates fields exactly when an even number of backslashes precede it. */
  predicate IsSeparator(s: string, i: int)
    requires 0 <= i < |s|
  {
    s[i] == Pipe && TrailingBackslashes(s[..i]) % 2 == 0
  }

  function SeparatorCount(s: string): nat
    decreases |s|
  {
    if |s| == 0 then 0
    else SeparatorCount(s[..|s| - 1]) + (if IsSeparator(s, |s| - 1) then 1 else 0)
  }

  /** The escape mode the splitter is in after reading `s` from mode `escaped`. */
  function EndsEscaped(s: string, escaped: bool): bool
    decreases |s|
  {
    if |s| == 0 then escaped
    else EndsEscaped(s[1..], !escaped && s[0] == Backslash)
  }

  lemma {:induction false} EndsEscapedSnoc(s: string, escaped: bool, c: char)
    ensures EndsEscaped(s + [c], escaped) == (!EndsEscaped(s, escaped) && c == Backslash)
    decreases |s|
  {
    if |s| > 0 {
      assert (s + [c])[1..] == s[1..] + [c];
      EndsEscapedSnoc(s[1..], !escaped && s[0] == Backslash, c);
    }
  }

  /** The splitter ends in escape mode exactly after an odd run of backslashes. */
  lemma {:induction false} EndsEscapedParity(s: string)
    ensures EndsEscaped(s, false) <==> TrailingBackslashes(s) % 2 == 1
    decreases |s|
  {
    if |s| > 0 {
      var p := s[..|s| - 1];
      assert s == p + [s[|s| - 1]];
      EndsEscapedSnoc(p, false, s[|s| - 1]);
      EndsEscapedParity(p);
    }
  }

  lemma {:induction false} ScanFieldsSnoc(s: string, escaped: bool, c: char)
    ensures |ScanFields(s + [c], escaped)|
         == |ScanFields(s, escaped)| + (if c == Pipe && !EndsEscaped(s, escaped) then 1 else 0)
    decreases |s|
  {
    if |s| > 0 {
      assert (s + [c])[1..] == s[1..] + [c];
      ScanFieldsSnoc(s[1..], !escaped && s[0] == Backslash, c);
    }
  }

  /** One field per unescaped `|`, plus one. */
  lemma {:induction false} FieldCount(s: string)
    ensures |ScanFields(s, false)| == SeparatorCount(s) + 1
    decreases |s|
  {
    if |s| > 0 {
      var p := s[..|s| - 1];
      assert s == p + [s[|s| - 1]];
      ScanFieldsSnoc(p, false, s[|s| - 1]);
      EndsEscapedParity(p);
      FieldCount(p);
    }
  }

  lemma {:induction false} TrailingEscapeIgnored(s: string, escaped: bool)
    requires !EndsEscaped(s, escaped)
    ensures ScanFields(s + [Backslash], escaped) == ScanFields(s, escaped)
    decreases |s|
  {
    if |s| > 0 {
      assert (s + [Backslash])[1..] == s[1..] + [Backslash];
      TrailingEscapeIgnored(s[1..], !escaped && s[0] == Backslash);
    }
  }

  /** A lone backslash at the end of a line is dropped by the splitter. */
  lemma TrailingBackslashDropped(s: string)
    requires TrailingBackslashes(s) % 2 == 0
    ensures Split(s + [Backslash]) == Split(s)
  {
    EndsEscapedParity(s);
    TrailingEscapeIgnored(s, false);
  }

  // ------------------------------------------------ splitting vs. unescaping

  lemma {:induction false} JoinScanIsUnescape(s: string, escaped: bool)
    ensures JoinWith(ScanFields(s, escaped), Pipe) == UnescapeFrom(s, escaped)
    decreases |s|
  {
    if |s| > 0 {
      var rest := ScanFields(s[1..], false);
      JoinScanIsUnescape(s[1..], !escaped && s[0] == Backslash);
      if escaped || s[0] != Backslash {
        if s[0] == Pipe && !escaped {
          assert ([""] + rest)[1..] == rest;
        } else if |rest| > 1 {
          assert PrependChar(s[0], rest)[1..] == rest[1..];
        }
      }
    }
  }

  /** Splitting consumes exactly the escapes `unescape` consumes: gluing the fields
      back together with `|` gives the unescaped line.  This is why running
      `unescape` again on a field drops backslashes the sender meant literally. */
  lemma SplitThenJoinIsUnescape(line: string)
    ensures JoinWith(Split(line), Pipe) == Unescape(line)
  {
    JoinScanIsUnescape(line, false);
  }

  // ---------------------------------------------------- escaping round trips

  lemma ScanEscapedChar(c: char, x: string)
    ensures ScanFields(EscapeChar(c) + x, false) == PrependChar(c, ScanFields(x, false))
  {
    if c == Backslash || c == Pipe {
      assert (EscapeChar(c) + x)[1..] == [c] + x;
      assert ([c] + x)[1..] == x;
    } else {
      assert (EscapeChar(c) + x)[1..] == x;
    }
  }

  lemma {:induction false} ScanEscaped(f: string, t: string)
    ensures ScanFields(EscapeEach(f) + t, false) == PrependText(f, ScanFields(t, false))
    decreases |f|
  {
    var r := ScanFields(t, false);
    if |f| == 0 {
      assert EscapeEach(f) + t == t;
      PrependEmpty(r);
    } else {
      var x := EscapeEach(f[1..]) + t;
      assert EscapeEach(f) + t == EscapeChar(f[0]) + x;
      ScanEscapedChar(f[0], x);
      ScanEscaped(f[1..], t);
      assert [f[0]] + (f[1..] + r[0]) == f + r[0];
    }
  }

  lemma UnescapeEscapedChar(c: char, x: string)
    ensures UnescapeFrom(EscapeChar(c) + x, false) == [c] + UnescapeFrom(x, false)
  {
    if c == Backslash || c == Pipe {
      assert (EscapeChar(c) + x)[1..] == [c] + x;
      assert ([c] + x)[1..] == x;
    } else {
      assert (EscapeChar(c) + x)[1..] == x;
    }
  }

  lemma {:induction false} UnescapeEscaped(f: string, t: string)
    ensures UnescapeFrom(EscapeEach(f) + t, false) == f + UnescapeFrom(t, false)
    decreases |f|
  {
    if |f| == 0 {
      assert EscapeEach(f) + t == t;
    } else {
      var x := EscapeEach(f[1..]) + t;
      assert EscapeEach(f) + t == EscapeChar(f[0]) + x;
      UnescapeEscapedChar(f[0], x);
      UnescapeEscaped(f[1..], t);
      assert [f[0]] + (f[1..] + UnescapeFrom(t, false)) == f + UnescapeFrom(t, false);
    }
  }

  /** Escaping every field and joining with `|` is undone by the splitter, whatever
      the fields contain. */
  lemma {:induction false} SplitEscapedJoin(fields: seq<string>)
    requires |fields| >= 1
    ensures Split(JoinWith(EscapeAll(fields), Pipe)) == fields
    decreases |fields|
  {
    var escaped := EscapeAll(fields);
    var head := EscapeEach(fields[0]);
    EscapeIsPerCharacter(fields[0]);
    assert escaped[0] == head;
    assert escaped[1..] == EscapeAll(fields[1..]);
    if |fields| == 1 {
      ScanEscaped(fields[0], "");
      assert head + "" == head;
      assert fields[0] + "" == fields[0];
    } else {
      var tail := JoinWith(escaped[1..], Pipe);
      SplitEscapedJoin(fields[1..]);
      assert JoinWith(escaped, Pipe) == head + ([Pipe] + tail);
      ScanEscaped(fields[0], [Pipe] + tail);
      PipeThenFields(tail, fields[1..]);
      assert fields[0] + "" == fields[0];
      assert fields == [fields[0]] + fields[1..];
    }
  }

  lemma PipeThenFields(tail: string, rest: seq<string>)
    requires ScanFields(tail, false) == rest
    ensures ScanFields([Pipe] + tail, false) == [""] + rest
  {
    assert ([Pipe] + tail)[1..] == tail;
  }
}
