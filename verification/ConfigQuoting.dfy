/**
 Writing configuration text and reading it back: escaped values, whole documents, and the
 line terminators that do not matter.
 */
module ConfigQuoting {
  import opened ConfigText

  /* Escaping */

  function EscapeChar(c: char): (s: string)
    ensures |s| > 0 && '\n' !in s && '\r' !in s
  {
    match c
    case '"' => "\\\""
    case '\\' => "\\\\"
    case '\n' => "\\n"
    case '\t' => "\\t"
    case '\r' => "\\r"
    case _ => [c]
  }

  function Escaped(v: string): (s: string)
    ensures '\n' !in s && '\r' !in s
  {
    if v == [] then [] else EscapeChar(v[0]) + Escaped(v[1..])
  }

  function Quote(v: string): string { ['"'] + Escaped(v) + ['"'] }

  /** One escaped character is decoded to itself. */
  lemma DecodeChar(c: char, rest: string, done: string)
    ensures DecodeQuoted(EscapeChar(c) + rest, done) == DecodeQuoted(rest, done + [c])
  {
    var s := EscapeChar(c) + rest;
    if |EscapeChar(c)| == 2 {
      assert s[0] == '\\' && Unescape(s[1]) == Char(c) && s[2..] == rest;
    } else {
      assert s[0] == c && s[1..] == rest;
    }
  }

  /** Behind the closing quote white space or a comment does not matter. */
  lemma {:induction false} DecodeEscaped(v: string, done: string, rest: string)
    requires TrailerOk(rest)
    ensures DecodeQuoted(Escaped(v) + ['"'] + rest, done) == Value(done + v)
    decreases |v|
  {
    hide EscapeChar, TrailerOk;
    var s := Escaped(v) + ['"'] + rest;
    if v == [] {
      assert s[0] == '"' && s[1..] == rest && done + v == done;
    } else {
      var more := Escaped(v[1..]) + ['"'] + rest;
      assert s == EscapeChar(v[0]) + more;
      DecodeChar(v[0], more, done);
      DecodeEscaped(v[1..], done + [v[0]], rest);
      assert done + [v[0]] + v[1..] == done + v;
    }
  }

  /** Any value at all survives quoting and decoding. */
  lemma QuoteRoundTrip(v: string)
    ensures DecodeValue(Quote(v)) == Value(v)
  {
    var q := Quote(v);
    assert q[0] == '"' && q[1..] == Escaped(v) + ['"'] + [];
    assert TrimLeft(q) == q;
    DecodeEscaped(v, [], []);
    assert [] + v == v;
  }

  /* Assignments */

  function AssignLine(key: string, v: string): string { key + ['='] + Quote(v) }

  lemma {:induction false} FindFirst(a: string, c: char, b: string)
    requires c !in a
    ensures Find(a + [c] + b, c) == |a|
  {
    if a == [] {
      assert (a + [c] + b)[0] == c;
    } else {
      assert (a + [c] + b)[1..] == a[1..] + [c] + b;
      FindFirst(a[1..], c, b);
    }
  }

  lemma KeyCharacters(key: string)
    requires KeyValid(key)
    ensures !IsSpace(key[0]) && !IsComment(key[0]) && !IsSpace(key[|key| - 1])
    ensures '=' !in key && '\n' !in key && '\r' !in key
  {
  }

  /** A valid key and a quoted value make a line that assigns exactly that value. */
  lemma AssignLineParses(key: string, v: string)
    requires KeyValid(key)
    ensures ParseLine(AssignLine(key, v)) == Assign(key, v)
  {
    hide KeyValid, Quote, DecodeValue;
    var line := AssignLine(key, v);
    KeyCharacters(key);
    KeyNotEmpty(key);
    assert line[0] == key[0] && TrimLeft(line) == line;
    FindFirst(key, '=', Quote(v));
    assert line[..|key|] == key && TrimRight(key) == key;
    assert line[|key| + 1..] == Quote(v);
    QuoteRoundTrip(v);
  }

  lemma KeyNotEmpty(key: string)
    requires KeyValid(key)
    ensures key != []
  {
  }

  /* Documents */

  ghost predicate EndsLine(t: string) { t == [] || t[|t| - 1] == '\n' }

  lemma {:induction false} FindInFront(a: string, b: string, c: char)
    requires c in a
    ensures Find(a + b, c) == Find(a, c) < |a|
  {
    if a[0] != c {
      assert (a + b)[1..] == a[1..] + b;
      FindInFront(a[1..], b, c);
    } else {
      assert (a + b)[0] == c;
    }
  }

  /** Complete lines followed by more text. */
  lemma {:induction false} LinesConcat(a: string, b: string)
    requires EndsLine(a)
    ensures Lines(a + b) == Lines(a) + Lines(b)
    decreases |a|
  {
    hide Find, StripReturn, Lines;
    if a == [] {
      LinesNone();
      assert a + b == b && [] + Lines(b) == Lines(b);
    } else {
      LinesStart(a);
      LinesStart(a + b);
      assert a[|a| - 1] in a;
      FindInFront(a, b, '\n');
      var n := Find(a, '\n');
      var h, rest := StripReturn(a[..n]), a[n + 1..];
      SplitConcat(a, b, n);
      LinesConcat(rest, b);
      assert [h] + (Lines(rest) + Lines(b)) == [h] + Lines(rest) + Lines(b);
    }
  }

  lemma SplitConcat(a: string, b: string, n: nat)
    requires n < |a|
    ensures (a + b)[..n] == a[..n] && (a + b)[n + 1..] == a[n + 1..] + b
    ensures EndsLine(a) ==> EndsLine(a[n + 1..])
  {
  }

  /** A single line with either terminator; of several carriage returns only the last belongs to it. */
  lemma LineTerminated(line: string, crlf: bool)
    requires '\n' !in line && (crlf || line == [] || line[|line| - 1] != '\r')
    ensures Lines(line + if crlf then "\r\n" else "\n") == [line]
  {
    hide Lines, StripReturn;
    var body := if crlf then line + ['\r'] else line;
    assert line + (if crlf then "\r\n" else "\n") == body + ['\n'];
    OneLine(body);
    StripOne(line, crlf);
  }

  lemma StripOne(line: string, crlf: bool)
    requires crlf || line == [] || line[|line| - 1] != '\r'
    ensures StripReturn(if crlf then line + ['\r'] else line) == line
  {
  }

  lemma OneLine(body: string)
    requires '\n' !in body
    ensures Lines(body + ['\n']) == [StripReturn(body)]
  {
    hide StripReturn, Lines;
    var t := body + ['\n'];
    assert t == body + ['\n'] + [];
    FindFirst(body, '\n', []);
    LinesStart(t);
    LinesNone();
    assert t[..|body|] == body && t[|body| + 1..] == [];
  }

  lemma LinesNone()
    ensures Lines([]) == []
  {
  }

  /** The line feed after the last line is optional. */
  lemma LastTerminatorOptional(t: string)
    requires t != [] && t[|t| - 1] != '\n'
    ensures Lines(t + ['\n']) == Lines(t)
    decreases |t|
  {
    hide Find, StripReturn, Lines;
    var n := Find(t, '\n');
    if n < |t| {
      LinesStart(t);
      LinesStart(t + ['\n']);
      FindInFront(t, ['\n'], '\n');
      SplitConcat(t, ['\n'], n);
      LastTerminatorOptional(t[n + 1..]);
    } else {
      SingleLine(t);
    }
  }

  lemma SingleLine(t: string)
    requires t != [] && Find(t, '\n') == |t|
    ensures Lines(t) == [StripReturn(t)] && Lines(t + ['\n']) == [StripReturn(t)]
  {
    hide Find, StripReturn, Lines;
    LinesStart(t);
    LinesStart(t + ['\n']);
    LinesNone();
    assert t + ['\n'] == t + ['\n'] + [];
    FindFirst(t, '\n', []);
    assert t[..|t|] == t && (t + ['\n'])[..|t|] == t;
    assert (t + ['\n'])[|t| + 1..] == [];
  }

  /** One line per entry; crlf[i] chooses the terminator of line i. */
  ghost function Render(es: seq<Entry>, crlf: seq<bool>): (t: string)
    requires |crlf| == |es|
    ensures EndsLine(t)
  {
    if es == [] then []
    else
      var n := |es| - 1;
      Render(es[..n], crlf[..n]) + (AssignLine(es[n].key, es[n].value) + if crlf[n] then "\r\n" else "\n")
  }

  ghost predicate LinesFit(es: seq<Entry>) {
    forall i :: 0 <= i < |es| ==> |AssignLine(es[i].key, es[i].value)| <= LINE_MAX
  }

  /** A document of distinct valid keys, written with any mix of terminators, is read back exactly. */
  lemma {:induction false} DocumentRoundTrip(es: seq<Entry>, crlf: seq<bool>)
    requires |crlf| == |es| && Keyed(es) && LinesFit(es)
    ensures Parse(Render(es, crlf)) == Parsed(es)
    decreases |es|
  {
    hide KeyValid, ParseLines, AssignLine, Lines, ReadLine, Put;
    if es == [] {
      LinesNone();
      ParseNothing();
    } else {
      var n := |es| - 1;
      var front, line := Render(es[..n], crlf[..n]), AssignLine(es[n].key, es[n].value);
      DocumentRoundTrip(es[..n], crlf[..n]);
      AssignLineClean(es[n].key, es[n].value);
      LineTerminated(line, crlf[n]);
      LinesConcat(front, line + if crlf[n] then "\r\n" else "\n");
      AssignLast(Lines(front), es);
    }
  }

  lemma AssignLast(ls: seq<string>, es: seq<Entry>)
    requires es != [] && Keyed(es) && LinesFit(es)
    requires ParseLines(ls) == Parsed(es[..|es| - 1])
    ensures ParseLines(ls + [AssignLine(es[|es| - 1].key, es[|es| - 1].value)]) == Parsed(es)
  {
    hide KeyValid, ParseLine, AssignLine;
    var n := |es| - 1;
    var e, all := es[n], ls + [AssignLine(es[n].key, es[n].value)];
    AssignLineParses(e.key, e.value);
    assert all[..|all| - 1] == ls;
    assert IndexOf(es[..n], e.key) == n;
    assert es[..n] + [e] == es;
  }

  lemma AssignLineClean(key: string, v: string)
    requires KeyValid(key)
    ensures '\n' !in AssignLine(key, v) && '\r' !in AssignLine(key, v) && AssignLine(key, v) != []
  {
    KeyCharacters(key);
  }
}
