/** What travels on the socket: trimming and tokenising an input line, and
    serialising a reply record with its line terminator and EOT marker. */
module Wire {
  import opened Types

  // ---------------------------------------------------------------------
  // Input: bytes.strip() and str.split()
  // ---------------------------------------------------------------------

  /** The bytes `bytes.strip()` removes: ASCII space, \t, \n, \r, \x0b, \x0c. */
  predicate IsAsciiSpace(b: byte) {
    b == 32 || b == 9 || b == 10 || b == 13 || b == 11 || b == 12
  }

  /** The characters `str.split()` splits on (those for which str.isspace()
      holds): the ASCII whitespace above, the separators \x1c-\x1f, and the
      Unicode spaces and line/paragraph separators. */
  predicate IsSpace(c: char) {
    || c == ' ' || c == '\t' || c == '\n' || c == '\r' || c == '\U{b}' || c == '\U{c}'
    || ('\U{1c}' <= c <= '\U{1f}')
    || c == '\U{85}' || c == '\U{a0}' || c == '\U{1680}'
    || ('\U{2000}' <= c <= '\U{200a}')
    || c == '\U{2028}' || c == '\U{2029}' || c == '\U{202f}' || c == '\U{205f}' || c == '\U{3000}'
  }

  function StripLeft(s: seq<byte>): (r: seq<byte>)
    ensures |r| <= |s| && r == s[|s| - |r|..]
    ensures forall i :: 0 <= i < |s| - |r| ==> IsAsciiSpace(s[i])
    ensures r != [] ==> !IsAsciiSpace(r[0])
  {
    if s != [] && IsAsciiSpace(s[0]) then StripLeft(s[1..]) else s
  }

  function StripRight(s: seq<byte>): (r: seq<byte>)
    ensures |r| <= |s| && r == s[..|r|]
    ensures forall i :: |r| <= i < |s| ==> IsAsciiSpace(s[i])
    ensures r != [] ==> !IsAsciiSpace(r[|r| - 1])
  {
    if s != [] && IsAsciiSpace(s[|s| - 1]) then StripRight(s[..|s| - 1]) else s
  }

  /** `bytes.strip()`: the input without its leading and trailing ASCII
      whitespace; every other byte, control bytes included, is kept. */
  function Strip(s: seq<byte>): (r: seq<byte>)
    ensures var k := |s| - |StripLeft(s)|;
      && k + |r| <= |s| && r == s[k..k + |r|]
      && (forall i :: 0 <= i < k ==> IsAsciiSpace(s[i]))
      && (forall i :: k + |r| <= i < |s| ==> IsAsciiSpace(s[i]))
    ensures r != [] ==> !IsAsciiSpace(r[0]) && !IsAsciiSpace(r[|r| - 1])
  {
    StripRight(StripLeft(s))
  }

  /** Strip removes nothing but whitespace from the ends: it yields the empty
      string exactly when the input is whitespace only, and it leaves an input
      with no whitespace at either end as it is. */
  lemma StripEmptyIff(s: seq<byte>)
    ensures Strip(s) == [] <==> forall i :: 0 <= i < |s| ==> IsAsciiSpace(s[i])
    ensures s != [] && !IsAsciiSpace(s[0]) && !IsAsciiSpace(s[|s| - 1]) ==> Strip(s) == s
  {
    if s != [] && !IsAsciiSpace(s[0]) && !IsAsciiSpace(s[|s| - 1]) {
      assert StripLeft(s) == s;
      assert StripRight(s) == s;
    }
    if Strip(s) == [] {
      var k := |s| - |StripLeft(s)|;
      forall i | 0 <= i < |s| ensures IsAsciiSpace(s[i]) {
        if i >= k { assert k + |Strip(s)| <= i; }
      }
    }
  }

  /** Strip does not remove control bytes that are not whitespace: the
      end-of-transmission byte survives it, alone or padded with whitespace,
      and so does a doubled one. */
  lemma StripKeepsEot()
    ensures Strip([4]) == [4]
    ensures Strip([4, 4]) == [4, 4]
  {
    var one: seq<byte> := [4];
    var twice: seq<byte> := [4, 4];
    StripEmptyIff(one);
    StripEmptyIff(twice);
  }

  lemma StripPaddedEot()
    ensures Strip([32, 4, 13, 10]) == [4]
  {
    var one: seq<byte> := [4];
    var two: seq<byte> := [4, 13];
    var inner: seq<byte> := [4, 13, 10];
    var padded: seq<byte> := [32, 4, 13, 10];
    assert padded[1..] == inner;
    assert StripLeft(inner) == inner;
    assert StripLeft(padded) == inner;
    assert inner[..2] == two;
    assert two[..1] == one;
    assert StripRight(two) == one;
    assert StripRight(inner) == one;
  }

  function DropSpace(s: string): (r: string)
    ensures |r| <= |s| && r == s[|s| - |r|..]
    ensures forall i :: 0 <= i < |s| - |r| ==> IsSpace(s[i])
    ensures r != [] ==> !IsSpace(r[0])
  {
    if s != [] && IsSpace(s[0]) then DropSpace(s[1..]) else s
  }

  function Word(s: string): (w: string)
    ensures |w| <= |s| && w == s[..|w|]
    ensures forall i :: 0 <= i < |w| ==> !IsSpace(w[i])
    ensures |w| < |s| ==> IsSpace(s[|w|])
    ensures s != [] && !IsSpace(s[0]) ==> |w| >= 1
  {
    if s != [] && !IsSpace(s[0]) then [s[0]] + Word(s[1..]) else []
  }

  predicate IsToken(w: string) {
    w != [] && forall i :: 0 <= i < |w| ==> !IsSpace(w[i])
  }

  /** A non-empty word of printable ASCII characters other than space is one token. */
  lemma PrintableIsToken(w: string)
    requires w != [] && forall i :: 0 <= i < |w| ==> '!' <= w[i] <= '~'
    ensures IsToken(w)
  {
  }

  /** A line holding one token and no whitespace splits into that token. */
  lemma SplitSingle(w: string)
    requires IsToken(w)
    ensures Split(w) == [w]
  {
    SplitJoin([w]);
    assert JoinWords([w]) == w;
  }

  /** `str.split()` with no separator: the maximal runs of non-whitespace
      characters, in order. */
  function Split(s: string): seq<string>
    decreases |s|
  {
    var t := DropSpace(s);
    if t == [] then [] else
      var w := Word(t);
      [w] + Split(t[|w|..])
  }

  /** Every token Split returns is non-empty and free of whitespace. */
  lemma {:induction false} SplitTokens(s: string)
    ensures forall i :: 0 <= i < |Split(s)| ==> IsToken(Split(s)[i])
    decreases |s|
  {
    var t := DropSpace(s);
    if t != [] {
      var w := Word(t);
      SplitTokens(t[|w|..]);
      var r := Split(s);
      assert r == [w] + Split(t[|w|..]);
      forall i | 0 <= i < |r| ensures IsToken(r[i]) {
        if i > 0 { assert r[i] == Split(t[|w|..])[i - 1]; }
      }
    }
  }

  /** A line yields no tokens exactly when every character is whitespace. */
  lemma SplitEmptyIff(s: string)
    ensures Split(s) == [] <==> forall i :: 0 <= i < |s| ==> IsSpace(s[i])
  {
    var t := DropSpace(s);
    if t != [] {
      assert !IsSpace(s[|s| - |t|]);
    }
  }

  /** Tokens joined by single spaces. */
  function JoinWords(ws: seq<string>): string {
    if ws == [] then "" else if |ws| == 1 then ws[0] else ws[0] + " " + JoinWords(ws[1..])
  }

  lemma WordOfToken(w: string, rest: string)
    requires IsToken(w)
    requires rest == [] || IsSpace(rest[0])
    ensures Word(w + rest) == w
    decreases |w|
  {
    if |w| > 1 {
      assert (w + rest)[1..] == w[1..] + rest;
      WordOfToken(w[1..], rest);
    } else {
      assert (w + rest)[1..] == rest;
    }
  }

  lemma SplitToken(w: string, rest: string)
    requires IsToken(w)
    requires rest == [] || IsSpace(rest[0])
    ensures Split(w + rest) == [w] + Split(rest)
  {
    var line := w + rest;
    assert DropSpace(line) == line;
    WordOfToken(w, rest);
    assert line[|w|..] == rest;
  }

  lemma SplitSpace(x: string)
    ensures Split(" " + x) == Split(x)
  {
    var s := " " + x;
    assert s[0] == ' ' && s[1..] == x;
    DropLeadingSpace(s);
    SplitOfDropped(s);
    SplitOfDropped(x);
  }

  lemma DropLeadingSpace(s: string)
    requires s != [] && IsSpace(s[0])
    ensures DropSpace(s) == DropSpace(s[1..])
  {
  }

  /** Split only looks at the line from its first non-space character on. */
  lemma SplitOfDropped(s: string)
    ensures Split(s) == Split(DropSpace(s))
  {
    var t := DropSpace(s);
    assert DropSpace(t) == t;
  }

  lemma SplitTokenSpace(w: string, tail: string)
    requires IsToken(w)
    ensures Split(w + (" " + tail)) == [w] + Split(tail)
  {
    SplitToken(w, " " + tail);
    SplitSpace(tail);
  }

  /** Splitting tokens joined by spaces gives the tokens back: Split finds
      exactly the boundaries a client puts between its arguments. */
  lemma {:induction false} SplitJoin(ws: seq<string>)
    requires forall i :: 0 <= i < |ws| ==> IsToken(ws[i])
    ensures Split(JoinWords(ws)) == ws
  {
    if |ws| == 1 {
      SplitToken(ws[0], "");
      assert ws[0] + "" == ws[0];
    } else if |ws| > 1 {
      var w, tail := ws[0], JoinWords(ws[1..]);
      assert JoinWords(ws) == w + (" " + tail);
      SplitJoin(ws[1..]);
      SplitTokenSpace(w, tail);
      HeadTail(ws);
    }
  }

  lemma HeadTail<T>(s: seq<T>)
    requires s != []
    ensures [s[0]] + s[1..] == s
  {
  }

  // ---------------------------------------------------------------------
  // Output: CmdServerHandler.send_reply
  // ---------------------------------------------------------------------

  /** `json.dumps` with its default separators `", "` and `": "`; how one
      string is escaped is `dumpStr`, a library function. */
  function Dumps(j: Json, dumpStr: string -> string): string
    decreases j
  {
    match j
    case Null => "null"
    case Str(s) => dumpStr(s)
    case Arr(items) => "[" + DumpItems(items, dumpStr) + "]"
    case Obj(fields) => "{" + DumpFields(fields, dumpStr) + "}"
  }

  function DumpItems(items: seq<Json>, dumpStr: string -> string): string
    decreases items
  {
    if items == [] then ""
    else if |items| == 1 then Dumps(items[0], dumpStr)
    else Dumps(items[0], dumpStr) + ", " + DumpItems(items[1..], dumpStr)
  }

  function DumpFields(fields: seq<(string, Json)>, dumpStr: string -> string): string
    decreases fields
  {
    if fields == [] then ""
    else
      var f := fields[0];
      assert f.1 < f;
      var field := dumpStr(f.0) + ": " + Dumps(f.1, dumpStr);
      if |fields| == 1 then field else field + ", " + DumpFields(fields[1..], dumpStr)
  }

  /** The dict send_reply serialises: `{'rc': rc}` when msg is None,
      `{'rc': rc, 'msg': msg}` otherwise. */
  function ReplyRecord(rc: Rc, msg: Json): Json {
    if msg.Null? then Obj([("rc", Str(RcName(rc)))])
    else Obj([("rc", Str(RcName(rc))), ("msg", msg)])
  }

  /** `send_reply(rc, msg, cont)`: the JSON record, CRLF, and the EOT byte
      unless `cont` is set. */
  function SendReply(rc: Rc, msg: Json, cont: bool, dumpStr: string -> string): string {
    Dumps(ReplyRecord(rc, msg), dumpStr) + "\r\n" + (if cont then "" else [EOT])
  }

  /** No line terminator and no EOT inside a string. */
  predicate NoBreak(s: string) {
    forall i :: 0 <= i < |s| ==> s[i] != '\r' && s[i] != '\n' && s[i] != EOT
  }

  /** What `json.dumps` guarantees of one escaped string (it escapes every
      control character): it never contains CR, LF or EOT. */
  ghost predicate DumpStrSafe(dumpStr: string -> string) {
    forall s :: NoBreak(dumpStr(s))
  }

  lemma NoBreakConcat(a: string, b: string)
    requires NoBreak(a) && NoBreak(b)
    ensures NoBreak(a + b)
  {
    forall i | 0 <= i < |a + b| ensures (a + b)[i] != '\r' && (a + b)[i] != '\n' && (a + b)[i] != EOT {
      if i >= |a| { assert (a + b)[i] == b[i - |a|]; }
    }
  }

  lemma {:induction false} DumpsNoBreak(j: Json, dumpStr: string -> string)
    requires DumpStrSafe(dumpStr)
    ensures NoBreak(Dumps(j, dumpStr))
    decreases j
  {
    match j
    case Null =>
    case Str(s) =>
    case Arr(items) =>
      DumpItemsNoBreak(items, dumpStr);
      NoBreakConcat("[", DumpItems(items, dumpStr));
      NoBreakConcat("[" + DumpItems(items, dumpStr), "]");
    case Obj(fields) =>
      DumpFieldsNoBreak(fields, dumpStr);
      NoBreakConcat("{", DumpFields(fields, dumpStr));
      NoBreakConcat("{" + DumpFields(fields, dumpStr), "}");
  }

  lemma {:induction false} DumpItemsNoBreak(items: seq<Json>, dumpStr: string -> string)
    requires DumpStrSafe(dumpStr)
    ensures NoBreak(DumpItems(items, dumpStr))
    decreases items
  {
    if items != [] {
      DumpsNoBreak(items[0], dumpStr);
      if |items| > 1 {
        DumpItemsNoBreak(items[1..], dumpStr);
        NoBreakConcat(Dumps(items[0], dumpStr), ", ");
        NoBreakConcat(Dumps(items[0], dumpStr) + ", ", DumpItems(items[1..], dumpStr));
      }
    }
  }

  lemma {:induction false} DumpFieldsNoBreak(fields: seq<(string, Json)>, dumpStr: string -> string)
    requires DumpStrSafe(dumpStr)
    ensures NoBreak(DumpFields(fields, dumpStr))
    decreases fields
  {
    if fields != [] {
      var key := dumpStr(fields[0].0);
      assert fields[0].1 < fields[0];
      DumpsNoBreak(fields[0].1, dumpStr);
      NoBreakConcat(key, ": ");
      NoBreakConcat(key + ": ", Dumps(fields[0].1, dumpStr));
      var field := key + ": " + Dumps(fields[0].1, dumpStr);
      if |fields| > 1 {
        DumpFieldsNoBreak(fields[1..], dumpStr);
        NoBreakConcat(field, ", ");
        NoBreakConcat(field + ", ", DumpFields(fields[1..], dumpStr));
      }
    }
  }

  /** Index of the first CRLF in `w`, if there is one. */
  function FindCrlf(w: string): (r: Option<nat>)
    ensures r.Some? ==> r.value + 2 <= |w| && w[r.value] == '\r' && w[r.value + 1] == '\n'
  {
    if |w| < 2 then None
    else if w[0] == '\r' && w[1] == '\n' then Some(0)
    else match FindCrlf(w[1..])
      case None => None
      case Some(i) => Some(i + 1)
  }

  /** How a client reads one reply: the record up to the first CRLF, and
      whether the reply was final (EOT after the CRLF) or not (nothing after). */
  function ParseFrame(w: string): Option<(string, bool)> {
    match FindCrlf(w)
    case None => None
    case Some(i) =>
      var rest := w[i + 2..];
      if rest == [] then Some((w[..i], true))
      else if rest == [EOT] then Some((w[..i], false))
      else None
  }

  lemma {:induction false} FindCrlfAfter(a: string, b: string)
    requires NoBreak(a)
    ensures FindCrlf(a + "\r\n" + b) == Some(|a|)
  {
    if a != [] {
      assert (a + "\r\n" + b)[1..] == a[1..] + "\r\n" + b;
      FindCrlfAfter(a[1..], b);
    }
  }

  /** Reply format: a client that reads up to the first CRLF recovers exactly
      the serialised record, and the reply carries the EOT byte exactly when
      `cont` is false. */
  lemma ReplyFrameRoundTrip(rc: Rc, msg: Json, cont: bool, dumpStr: string -> string)
    requires DumpStrSafe(dumpStr)
    ensures ParseFrame(SendReply(rc, msg, cont, dumpStr)) == Some((Dumps(ReplyRecord(rc, msg), dumpStr), cont))
  {
    var rec := Dumps(ReplyRecord(rc, msg), dumpStr);
    var tail := if cont then "" else [EOT];
    DumpsNoBreak(ReplyRecord(rc, msg), dumpStr);
    FindCrlfAfter(rec, tail);
    var w := SendReply(rc, msg, cont, dumpStr);
    assert w == rec + "\r\n" + tail;
    assert w[|rec| + 2..] == tail;
    assert w[..|rec|] == rec;
  }
}
