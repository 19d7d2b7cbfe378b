/**
 The characters that matter in a configuration line: what may stand around keys and values
 without being part of them, and which lines say nothing (cbase_config.c).
 */
module ConfigPlain {
  import opened ConfigText
  import opened ConfigQuoting

  /* Characters, by their codes */

  lemma SpaceCodes(c: char)
    ensures IsSpace(c) <==> c as int in {9, 11, 12, 32}
  {
  }

  lemma CommentCodes(c: char)
    ensures IsComment(c) <==> c as int in {35, 59}
  {
  }

  /** [A-Za-z_][A-Za-z0-9_.-]* */
  lemma KeyCodes(c: char)
    ensures KeyHead(c) <==> 65 <= c as int <= 90 || 97 <= c as int <= 122 || c as int == 95
    ensures KeyTail(c) <==> KeyHead(c) || 48 <= c as int <= 57 || c as int in {45, 46}
  {
  }

  /** The five escapes: the quote, the backslash, line feed, tabulator and carriage return. */
  lemma EscapeCodes(e: char)
    ensures Unescape(e).Char? <==> e as int in {34, 92, 110, 116, 114}
    ensures Unescape(e).Char? ==>
              Unescape(e).c as int == match e as int case 110 => 10 case 116 => 9 case 114 => 13 case n => n
  {
  }

  /* White space and comments around things */

  ghost predicate Blank(s: string) {
    forall i :: 0 <= i < |s| ==> s[i] as int in {9, 11, 12, 32}
  }

  ghost predicate CommentAt(s: string, n: nat) { n < |s| && s[n] as int in {35, 59} }

  /** Nothing, or a comment to the end of the line. */
  ghost predicate Remark(s: string) { s == [] || CommentAt(s, 0) }

  /** Neither blank at an end nor with a comment in it. */
  ghost predicate Plain(v: string) {
    && (v != [] ==> !Blank([v[0]]) && !Blank([v[|v| - 1]]) && v[0] != '"')
    && (forall i :: 0 <= i < |v| ==> !CommentAt(v, i))
  }

  lemma {:induction false} TrimLeftSkips(a: string, s: string)
    requires Blank(a) && (s == [] || !Blank([s[0]]))
    ensures TrimLeft(a + s) == s
  {
    if a == [] {
      assert a + s == s;
      if s != [] { assert [s[0]][0] == s[0]; }
    } else {
      assert (a + s)[1..] == a[1..] + s;
      TrimLeftSkips(a[1..], s);
    }
  }

  lemma {:induction false} TrimRightDrops(s: string, b: string)
    requires Blank(b) && (s == [] || !Blank([s[|s| - 1]]))
    ensures TrimRight(s + b) == s
    decreases |b|
  {
    var t := s + b;
    if b == [] {
      assert t == s;
      if s != [] { assert [s[|s| - 1]][0] == s[|s| - 1]; }
    } else {
      var n := |b| - 1;
      assert t[..|t| - 1] == s + b[..n] && t[|t| - 1] == b[n];
      TrimRightDrops(s, b[..n]);
    }
  }

  lemma {:induction false} CommentStarts(u: string, c: string)
    requires Remark(c) && forall i :: 0 <= i < |u| ==> !CommentAt(u, i)
    ensures BeforeComment(u + c) == u
  {
    if u == [] {
      assert u + c == c;
    } else {
      assert !CommentAt(u, 0) && (u + c)[1..] == u[1..] + c;
      forall i | 0 <= i < |u| - 1 ensures !CommentAt(u[1..], i) {
        assert !CommentAt(u, i + 1);
      }
      CommentStarts(u[1..], c);
      assert u == [u[0]] + u[1..];
    }
  }

  lemma BlankHasNoComment(b: string)
    requires Blank(b)
    ensures forall i :: 0 <= i < |b| ==> !CommentAt(b, i)
  {
  }

  /** The white space around an unquoted value and the comment behind it are not part of it. */
  lemma PlainDecodes(a: string, v: string, b: string, c: string)
    requires Blank(a) && Plain(v) && Blank(b) && Remark(c)
    ensures DecodeValue(a + v + b + c) == Value(v)
  {
    hide Blank, CommentAt, TrimLeft, TrimRight, BeforeComment;
    var s, u := a + v + b + c, v + b;
    NoComment(v, b);
    CommentStarts(u, c);
    TrimRightDrops(v, b);
    if v != [] {
      assert s == a + (u + c);
      TrimLeftSkips(a, u + c);
    } else {
      assert s == (a + b) + c && u == b;
      BlankTwice(a, b);
      RemarkNotBlank(c);
      TrimLeftSkips(a + b, c);
      CommentStarts([], c);
      assert [] + c == c;
      TrimNothing();
    }
  }

  lemma NoComment(v: string, b: string)
    requires Plain(v) && Blank(b)
    ensures forall i :: 0 <= i < |v + b| ==> !CommentAt(v + b, i)
  {
    BlankHasNoComment(b);
    forall i | 0 <= i < |v + b| ensures !CommentAt(v + b, i) {
      if i < |v| { assert !CommentAt(v, i); } else { assert !CommentAt(b, i - |v|); }
    }
  }

  lemma BlankTwice(a: string, b: string)
    requires Blank(a) && Blank(b)
    ensures Blank(a + b)
  {
  }

  lemma RemarkNotBlank(c: string)
    requires Remark(c)
    ensures c == [] || (!Blank([c[0]]) && c[0] != '"' && IsComment(c[0]))
  {
    if c != [] { assert [c[0]][0] == c[0]; }
  }

  lemma TrimNothing()
    ensures TrimRight([]) == []
  {
  }

  /** The same around a quoted value. */
  lemma QuotedDecodes(a: string, v: string, b: string, c: string)
    requires Blank(a) && Blank(b) && Remark(c)
    ensures DecodeValue(a + Quote(v) + b + c) == Value(v)
  {
    hide Blank, Remark, TrimLeft;
    var t := Quote(v) + (b + c);
    assert a + Quote(v) + b + c == a + t;
    assert t[0] == '"' && t[1..] == Escaped(v) + ['"'] + (b + c);
    QuoteNotBlank(t);
    TrimLeftSkips(a, t);
    RemarkNotBlank(c);
    TrimLeftSkips(b, c);
    DecodeEscaped(v, [], b + c);
    assert [] + v == v;
  }

  lemma QuoteNotBlank(t: string)
    requires t != [] && t[0] == '"'
    ensures !Blank([t[0]])
  {
    assert [t[0]][0] == '"';
  }

  /* Whole lines */

  /** White space in front of the key and around the '=' is not part of the key. */
  lemma KeyRead(indent: string, key: string, gap: string, rhs: string)
    requires Blank(indent) && Blank(gap) && KeyValid(key)
    ensures ParseLine(indent + key + gap + ['='] + rhs)
            == match DecodeValue(rhs) case Bad(info) => Wrong(info) case Value(v) => Assign(key, v)
  {
    hide KeyValid, DecodeValue, TrimLeft, TrimRight, Find;
    var t := (key + gap) + ['='] + rhs;
    assert indent + key + gap + ['='] + rhs == indent + t;
    KeyCharacters(key);
    KeyNotEmpty(key);
    assert t[0] == key[0];
    assert !Blank([key[0]]) by { assert [key[0]][0] == key[0]; }
    assert !Blank([key[|key| - 1]]) by { assert [key[|key| - 1]][0] == key[|key| - 1]; }
    TrimLeftSkips(indent, t);
    FindFirst(key + gap, '=', rhs);
    assert t[..|key + gap|] == key + gap && t[|key + gap| + 1..] == rhs;
    TrimRightDrops(key, gap);
  }

  /** A key, '=' and an unquoted value, with white space anywhere between and a comment behind, assign
      exactly that value. */
  lemma PlainLineParses(indent: string, key: string, gap: string, a: string, v: string, b: string, c: string)
    requires KeyValid(key) && Plain(v)
    requires Blank(indent) && Blank(gap) && Blank(a) && Blank(b) && Remark(c)
    ensures ParseLine(indent + key + gap + ['='] + (a + v + b + c)) == Assign(key, v)
  {
    hide Blank, Remark, KeyValid, Plain, DecodeValue, ParseLine;
    PlainDecodes(a, v, b, c);
    KeyRead(indent, key, gap, a + v + b + c);
  }

  /** The same with a quoted value, which can be any string. */
  lemma QuotedLineParses(indent: string, key: string, gap: string, a: string, v: string, b: string, c: string)
    requires KeyValid(key)
    requires Blank(indent) && Blank(gap) && Blank(a) && Blank(b) && Remark(c)
    ensures ParseLine(indent + key + gap + ['='] + (a + Quote(v) + b + c)) == Assign(key, v)
  {
    hide Blank, Remark, KeyValid, Quote, DecodeValue, ParseLine;
    QuotedDecodes(a, v, b, c);
    KeyRead(indent, key, gap, a + Quote(v) + b + c);
  }

  /** A line says nothing exactly when it is blank up to its end or up to a comment. */
  lemma SkipIff(line: string)
    ensures ParseLine(line) == Skip <==>
            exists n :: 0 <= n <= |line| && Blank(line[..n]) && (n == |line| || CommentAt(line, n))
  {
    hide DecodeValue, KeyValid, TrimRight;
    var n := FirstInk(line);
    TrimLeftSkips(line[..n], line[n..]);
    assert line == line[..n] + line[n..];
    forall m | n < m <= |line| ensures !Blank(line[..m]) {
      assert line[..m][n] == line[n];
    }
  }

  /** Where the white space at the start of a line ends. */
  lemma {:induction false} FirstInk(line: string) returns (n: nat)
    ensures n <= |line| && Blank(line[..n])
    ensures n < |line| ==> line[n] as int !in {9, 11, 12, 32} && !Blank([line[n..][0]])
  {
    n := 0;
    while n < |line| && line[n] as int in {9, 11, 12, 32}
      invariant n <= |line| && Blank(line[..n])
    {
      n := n + 1;
    }
    if n < |line| { assert [line[n..][0]][0] == line[n]; }
  }

  /** Every text behind an '=' is a quoted value or has these four parts. */
  lemma AnyValueHasParts(s: string) returns (a: string, v: string, b: string, c: string)
    ensures s == a + v + b + c && Blank(a) && Blank(b) && Remark(c)
    ensures Plain(v) || (v != [] && v[0] == '"')
  {
    var n := FirstInk(s);
    var m := n;
    while m < |s| && !CommentAt(s, m)
      invariant n <= m <= |s| && forall i :: n <= i < m ==> !CommentAt(s, i)
    {
      m := m + 1;
    }
    var k := m;
    while k > n && Blank([s[k - 1]])
      invariant n <= k <= m && Blank(s[k..m])
    {
      assert s[k - 1..m] == [s[k - 1]] + s[k..m];
      assert [s[k - 1]][0] == s[k - 1];
      k := k - 1;
    }
    a, v, b, c := s[..n], s[n..k], s[k..m], s[m..];
    assert m < |s| ==> CommentAt(c, 0);
    if v != [] {
      assert v[0] == s[n] == s[n..][0] && v[|v| - 1] == s[k - 1];
      forall i | 0 <= i < |v| ensures !CommentAt(v, i) {
        assert !CommentAt(s, n + i);
      }
    }
  }

  /** A line is too long exactly when it has more than 4096 characters. */
  lemma TooLongIff(line: string)
    ensures ReadLine(line) == Wrong(LineTooLong) <==> |line| > 4096
  {
    var t := TrimLeft(line);
    var eq := Find(t, '=');
    if eq < |t| {
      var v := TrimLeft(t[eq + 1..]);
      if v != [] { QuotedIsShort(v[1..], []); }
    }
  }

  lemma {:induction false} QuotedIsShort(s: string, done: string)
    ensures DecodeQuoted(s, done) != Bad(LineTooLong)
    decreases |s|
  {
    if s != [] && s[0] != '"' {
      if s[0] != '\\' {
        QuotedIsShort(s[1..], done + [s[0]]);
      } else if |s| > 1 && Unescape(s[1]).Char? {
        QuotedIsShort(s[2..], done + [Unescape(s[1]).c]);
      }
    }
  }

  /** A stored string is seen up to its first NUL. */
  lemma {:induction false} SeenToNul(s: string)
    ensures var t := Terminated(s);
            && |t| <= |s| && t == s[..|t|] && (|t| < |s| ==> s[|t|] as int == 0)
            && forall i :: 0 <= i < |t| ==> t[i] as int != 0
  {
    if s != [] && s[0] != '\0' {
      SeenToNul(s[1..]);
      var t := Terminated(s[1..]);
      assert Terminated(s) == [s[0]] + t;
      assert s[..|t| + 1] == [s[0]] + s[1..][..|t|];
    }
  }
}
