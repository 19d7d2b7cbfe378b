/**
 The configuration parser of cbase_config.c: index loops over the text, a decode buffer
 filled in place, and a linked list of entries, against `ConfigText`.
 */
module ConfigParser {
  import opened ConfigText

  /* Scanning */

  lemma TrimLeftStep(s: string, i: nat)
    requires i < |s| && IsSpace(s[i])
    ensures TrimLeft(s[i..]) == TrimLeft(s[i + 1..])
  {
    assert s[i..][1..] == s[i + 1..];
  }

  lemma TrimLeftDone(s: string, i: nat)
    requires i <= |s| && (i < |s| ==> !IsSpace(s[i]))
    ensures TrimLeft(s[i..]) == s[i..]
  {
  }

  /** Index of the first character that is not white space. */
  method SkipSpaces(s: string, from: nat) returns (i: nat)
    requires from <= |s|
    ensures from <= i <= |s| && TrimLeft(s[from..]) == s[i..]
  {
    hide TrimLeft;
    i := from;
    while i < |s| && IsSpace(s[i])
      invariant from <= i <= |s| && TrimLeft(s[from..]) == TrimLeft(s[i..])
    {
      TrimLeftStep(s, i);
      i := i + 1;
    }
    TrimLeftDone(s, i);
  }

  lemma TrimRightStep(s: string, lo: nat, hi: nat)
    requires lo < hi <= |s| && IsSpace(s[hi - 1])
    ensures TrimRight(s[lo..hi]) == TrimRight(s[lo..hi - 1])
  {
    assert s[lo..hi][..hi - lo - 1] == s[lo..hi - 1];
  }

  lemma TrimRightDone(s: string, lo: nat, hi: nat)
    requires lo <= hi <= |s| && (lo < hi ==> !IsSpace(s[hi - 1]))
    ensures TrimRight(s[lo..hi]) == s[lo..hi]
  {
  }

  /** The end of s[lo..hi] without trailing white space. */
  method DropSpaces(s: string, lo: nat, hi: nat) returns (end: nat)
    requires lo <= hi <= |s|
    ensures lo <= end <= hi && TrimRight(s[lo..hi]) == s[lo..end]
  {
    hide TrimRight;
    end := hi;
    while end > lo && IsSpace(s[end - 1])
      invariant lo <= end <= hi && TrimRight(s[lo..hi]) == TrimRight(s[lo..end])
    {
      TrimRightStep(s, lo, end);
      end := end - 1;
    }
    TrimRightDone(s, lo, end);
  }

  lemma FindStep(s: string, i: nat, c: char)
    requires i < |s| && s[i] != c
    ensures Find(s[i..], c) == 1 + Find(s[i + 1..], c)
  {
    assert s[i..][1..] == s[i + 1..];
  }

  /** Index of the next c, or the length. */
  method FindFrom(s: string, from: nat, c: char) returns (i: nat)
    requires from <= |s|
    ensures i == from + Find(s[from..], c) <= |s|
  {
    i := from;
    while i < |s| && s[i] != c
      invariant from <= i <= |s| && from + Find(s[from..], c) == i + Find(s[i..], c)
    {
      FindStep(s, i, c);
      i := i + 1;
    }
  }

  method CheckKey(s: string) returns (ok: bool)
    ensures ok <==> KeyValid(s)
  {
    if |s| == 0 { return false; }
    if !KeyHead(s[0]) { return false; }
    for i := 1 to |s|
      invariant forall j :: 1 <= j < i ==> KeyTail(s[j])
    {
      if !KeyTail(s[i]) { return false; }
    }
    ok := true;
  }

  lemma CommentStep(s: string, start: nat, j: nat)
    requires start <= j < |s| && !IsComment(s[j])
    requires BeforeComment(s[start..]) == s[start..j] + BeforeComment(s[j..])
    ensures BeforeComment(s[start..]) == s[start..j + 1] + BeforeComment(s[j + 1..])
  {
    assert s[j..][1..] == s[j + 1..];
    assert s[start..j + 1] == s[start..j] + [s[j]];
  }

  lemma CommentStops(s: string, j: nat)
    requires j <= |s| && (j < |s| ==> IsComment(s[j]))
    ensures BeforeComment(s[j..]) == []
  {
  }

  /** memcpy into the decode buffer. */
  method CopyOut(out: array<char>, v: string)
    requires |v| <= out.Length
    modifies out
    ensures out[..|v|] == v
  {
    for k := 0 to |v|
      invariant out[..k] == v[..k]
    {
      out[k] := v[k];
    }
  }

  /** The unquoted branch of cb__config_decode_value, from the first character of the value. */
  method DecodePlain(s: string, start: nat, out: array<char>) returns (n: nat)
    requires start <= |s| <= out.Length
    modifies out
    ensures n <= out.Length && out[..n] == TrimRight(BeforeComment(s[start..]))
  {
    hide BeforeComment, TrimRight;
    var j := start;
    assert s[start..j] + BeforeComment(s[j..]) == BeforeComment(s[start..]);
    while j < |s| && !IsComment(s[j])
      invariant start <= j <= |s|
      invariant BeforeComment(s[start..]) == s[start..j] + BeforeComment(s[j..])
    {
      CommentStep(s, start, j);
      j := j + 1;
    }
    CommentStops(s, j);
    assert s[start..j] + [] == s[start..j];
    var end := DropSpaces(s, start, j);
    var cap: nat := out.Length;
    n := end - start;
    if n > cap { n := cap; }
    CopyOut(out, s[start..start + n]);
  }

  /** Whether only white space or a comment follows the closing quote at j. */
  method CheckTrailer(s: string, j: nat) returns (ok: bool)
    requires j < |s|
    ensures ok <==> TrailerOk(s[j + 1..])
  {
    var k := SkipSpaces(s, j + 1);
    ok := !(k < |s| && !IsComment(s[k]));
  }

  lemma QuotedStep(s: string, j: nat, done: string)
    requires j < |s| && s[j] != '"'
    ensures s[j] != '\\' ==> DecodeQuoted(s[j..], done) == DecodeQuoted(s[j + 1..], done + [s[j]])
    ensures s[j] == '\\' && j + 1 >= |s| ==> DecodeQuoted(s[j..], done) == Bad(UnterminatedString)
    ensures s[j] == '\\' && j + 1 < |s| && Unescape(s[j + 1]).Unknown? ==>
              DecodeQuoted(s[j..], done) == Bad(BadEscape)
    ensures s[j] == '\\' && j + 1 < |s| && Unescape(s[j + 1]).Char? ==>
              DecodeQuoted(s[j..], done) == DecodeQuoted(s[j + 2..], done + [Unescape(s[j + 1]).c])
  {
    assert s[j..][1..] == s[j + 1..];
    if j + 1 < |s| { assert s[j..][2..] == s[j + 2..]; }
  }

  /** The quoted branch, from the character after the opening quote: the capacity never binds. */
  method DecodeInner(s: string, start: nat, out: array<char>) returns (info: Info, n: nat)
    requires start <= |s| <= out.Length
    modifies out
    ensures n <= out.Length
    ensures DecodeQuoted(s[start..], []) == if info == Ok then Value(out[..n]) else Bad(info)
  {
    hide DecodeQuoted, TrailerOk;
    var j, w := start, 0;
    assert out[..0] == [];
    while j < |s|
      invariant start <= j && w <= j - start && j <= |s|
      invariant DecodeQuoted(s[start..], []) == DecodeQuoted(s[j..], out[..w])
    {
      var c := s[j];
      if c == '"' {
        QuoteCloses(s, j, out[..w]);
        var ok := CheckTrailer(s, j);
        return if ok then Ok else ParseError, w;
      }
      QuotedStep(s, j, out[..w]);
      ghost var done := out[..w];
      if c == '\\' {
        if j + 1 >= |s| { return UnterminatedString, 0; }
        var esc := Unescape(s[j + 1]);
        if esc.Unknown? { return BadEscape, 0; }
        if w < out.Length {
          out[w] := esc.c;
          w := w + 1;
          assert out[..w] == done + [esc.c];
        }
        j := j + 2;
      } else {
        if w < out.Length {
          out[w] := c;
          w := w + 1;
          assert out[..w] == done + [c];
        }
        j := j + 1;
      }
    }
    QuoteOpen(s, j, out[..w]);
    return UnterminatedString, 0;
  }

  lemma QuoteCloses(s: string, j: nat, done: string)
    requires j < |s| && s[j] == '"'
    ensures DecodeQuoted(s[j..], done) == if TrailerOk(s[j + 1..]) then Value(done) else Bad(ParseError)
  {
    assert s[j..][1..] == s[j + 1..];
  }

  lemma QuoteOpen(s: string, j: nat, done: string)
    requires j == |s|
    ensures DecodeQuoted(s[j..], done) == Bad(UnterminatedString)
  {
  }

  /** cb__config_decode_value into a buffer as long as its input. */
  method DecodeInto(s: string, out: array<char>) returns (info: Info, n: nat)
    requires out.Length >= |s|
    modifies out
    ensures n <= out.Length
    ensures DecodeValue(s) == if info == Ok then Value(out[..n]) else Bad(info)
  {
    hide DecodeQuoted, TrimRight, BeforeComment, TrimLeft;
    assert s[0..] == s;
    var i := SkipSpaces(s, 0);
    if i >= |s| || s[i] != '"' {
      n := DecodePlain(s, i, out);
      info := Ok;
    } else {
      assert s[i..][1..] == s[i + 1..];
      info, n := DecodeInner(s, i + 1, out);
    }
  }

  /** cb__config_parse_line up to the point where an assignment is stored. */
  method ReadAssignment(line: string, mem: Memory) returns (res: Line)
    ensures res == LineWith(line, mem)
  {
    hide DecodeValue, TrimRight, TrimLeft, KeyValid;
    assert line[0..] == line;
    var i := SkipSpaces(line, 0);
    if i >= |line| { return Skip; }
    if IsComment(line[i]) { return Skip; }
    var eq := FindFrom(line, i, '=');
    if eq >= |line| { return Wrong(ParseError); }
    var keyEnd := DropSpaces(line, i, eq);
    assert line[i..][..eq - i] == line[i..eq];
    var ok := CheckKey(line[i..keyEnd]);
    if !ok { return Wrong(BadKey); }
    if !mem.buffer { return Wrong(AllocFailed); }
    var rhs := line[eq + 1..];
    assert line[i..][eq - i + 1..] == rhs;
    var decoded := new char[|rhs|](_ => ' ');
    var info, n := DecodeInto(rhs, decoded);
    if info != Ok { return Wrong(info); }
    res := Assign(line[i..keyEnd], decoded[..n]);
  }

  /** The stored value as the C functions see it. */
  method CString(s: string) returns (t: string)
    ensures t == Terminated(s)
  {
    hide Terminated;
    var i := 0;
    assert s[..0] + Terminated(s[0..]) == Terminated(s) by { assert s[0..] == s; }
    while i < |s| && s[i] != '\0'
      invariant i <= |s| && Terminated(s) == s[..i] + Terminated(s[i..])
    {
      TerminatedStep(s, i);
      assert s[..i + 1] == s[..i] + [s[i]];
      i := i + 1;
    }
    TerminatedEnd(s, i);
    t := s[..i];
  }

  lemma TerminatedStep(s: string, i: nat)
    requires i < |s| && s[i] != '\0'
    ensures Terminated(s[i..]) == [s[i]] + Terminated(s[i + 1..])
  {
    assert s[i..][1..] == s[i + 1..];
  }

  lemma TerminatedEnd(s: string, i: nat)
    requires i <= |s| && (i < |s| ==> s[i] == '\0')
    ensures Terminated(s[i..]) == []
  {
  }
}
