/**
 Which lines are wrong, and how: for every error of the line parser of cbase_config.c the
 exact condition on the text.
 */
module ConfigErrors {
  import opened ConfigText

  /* Quoted values */

  /** No quote stands alone, and every backslash starts a known escape. */
  ghost predicate WellEscaped(b: string)
    decreases |b|
  {
    b == [] ||
    if b[0] == '\\' then |b| >= 2 && Unescape(b[1]).Char? && WellEscaped(b[2..])
    else b[0] != '"' && WellEscaped(b[1..])
  }

  /** The quote at n ends the value: what stands before it is its well-escaped text. */
  ghost predicate Closes(s: string, n: nat) {
    n < |s| && s[n] == '"' && WellEscaped(s[..n])
  }

  /** The backslash at n starts an escape that nobody knows. */
  ghost predicate StrangeEscape(s: string, n: nat) {
    n + 1 < |s| && s[n] == '\\' && Unescape(s[n + 1]).Unknown? && WellEscaped(s[..n])
  }

  /** The text ends before the value does, perhaps in the middle of an escape. */
  ghost predicate NeverCloses(s: string) {
    WellEscaped(s) || (s != [] && s[|s| - 1] == '\\' && WellEscaped(s[..|s| - 1]))
  }

  /** Where the scan of a quoted value stops: at a quote, a strange escape, or the end. */
  lemma {:induction false} StopsSomewhere(s: string) returns (n: nat)
    ensures Closes(s, n) || StrangeEscape(s, n) || NeverCloses(s)
    decreases |s|
  {
    n := 0;
    assert s[..0] == [];
    if s != [] && s[0] != '"' {
      if s[0] != '\\' {
        n := StopsSomewhere(s[1..]);
        Prefixed(s, 1, n);
        n := n + 1;
      } else if |s| >= 2 && Unescape(s[1]).Char? {
        n := StopsSomewhere(s[2..]);
        Prefixed(s, 2, n);
        n := n + 2;
      }
    }
  }

  /** One character or one escape in front changes nothing about where the scan stops. */
  lemma Prefixed(s: string, k: nat, n: nat)
    requires k <= |s| && WellEscaped(s[..k])
    requires k == 1 || (k == 2 && s[0] == '\\')
    ensures Closes(s[k..], n) ==> Closes(s, n + k)
    ensures StrangeEscape(s[k..], n) ==> StrangeEscape(s, n + k)
    ensures NeverCloses(s[k..]) ==> NeverCloses(s)
  {
    var rest := s[k..];
    forall m: nat | m <= |rest| && WellEscaped(rest[..m]) ensures WellEscaped(s[..m + k]) {
      assert s[..m + k][..k] == s[..k] && s[..m + k][k..] == rest[..m];
      EscapeAhead(s[..m + k], k);
    }
    assert rest[..|rest|] == rest && s[..|s|] == s;
  }

  lemma EscapeAhead(b: string, k: nat)
    requires k <= |b| && WellEscaped(b[..k]) && WellEscaped(b[k..])
    requires k == 1 || (k == 2 && b[0] == '\\')
    ensures WellEscaped(b)
  {
  }

  lemma EscapeStep(s: string, done: string)
    requires |s| >= 2 && s[0] == '\\' && Unescape(s[1]).Char?
    ensures DecodeQuoted(s, done) == DecodeQuoted(s[2..], done + [Unescape(s[1]).c])
  {
  }

  lemma PlainStep(s: string, done: string)
    requires s != [] && s[0] != '\\' && s[0] != '"'
    ensures DecodeQuoted(s, done) == DecodeQuoted(s[1..], done + [s[0]])
  {
  }

  /** Well-escaped text is scanned to its end. */
  lemma {:induction false} ScansOver(b: string, rest: string, done: string) returns (after: string)
    requires WellEscaped(b)
    ensures DecodeQuoted(b + rest, done) == DecodeQuoted(rest, after)
    decreases |b|
  {
    hide DecodeQuoted, Unescape;
    var s := b + rest;
    if b == [] {
      assert s == rest;
      after := done;
    } else if b[0] == '\\' {
      EscapeStep(s, done);
      assert s[2..] == b[2..] + rest;
      after := ScansOver(b[2..], rest, done + [Unescape(b[1]).c]);
    } else {
      PlainStep(s, done);
      assert s[1..] == b[1..] + rest;
      after := ScansOver(b[1..], rest, done + [b[0]]);
    }
  }

  lemma ClosesDecides(s: string, n: nat, done: string)
    requires Closes(s, n)
    ensures if TrailerOk(s[n + 1..]) then DecodeQuoted(s, done).Value? else DecodeQuoted(s, done) == Bad(ParseError)
  {
    assert s == s[..n] + s[n..] && s[n..][1..] == s[n + 1..];
    var after := ScansOver(s[..n], s[n..], done);
  }

  lemma StrangeDecides(s: string, n: nat, done: string)
    requires StrangeEscape(s, n)
    ensures DecodeQuoted(s, done) == Bad(BadEscape)
  {
    assert s == s[..n] + s[n..];
    var after := ScansOver(s[..n], s[n..], done);
  }

  lemma EndDecides(s: string, done: string)
    requires NeverCloses(s)
    ensures DecodeQuoted(s, done) == Bad(UnterminatedString)
  {
    if WellEscaped(s) {
      assert s == s + [];
      var after := ScansOver(s, [], done);
    } else {
      var n := |s| - 1;
      assert s == s[..n] + [s[n]];
      var after := ScansOver(s[..n], [s[n]], done);
    }
  }

  /** A quoted value is good, or wrong in one of three ways, exactly as its text says. */
  lemma QuotedIff(s: string, done: string)
    ensures DecodeQuoted(s, done).Value? <==> exists n :: Closes(s, n) && TrailerOk(s[n + 1..])
    ensures DecodeQuoted(s, done) == Bad(ParseError) <==> exists n :: Closes(s, n) && !TrailerOk(s[n + 1..])
    ensures DecodeQuoted(s, done) == Bad(BadEscape) <==> exists n :: StrangeEscape(s, n)
    ensures DecodeQuoted(s, done) == Bad(UnterminatedString) <==> NeverCloses(s)
    ensures DecodeQuoted(s, done) != Bad(BadKey)
  {
    hide DecodeQuoted, TrailerOk, WellEscaped;
    forall n | Closes(s, n)
      ensures if TrailerOk(s[n + 1..]) then DecodeQuoted(s, done).Value? else DecodeQuoted(s, done) == Bad(ParseError)
    {
      ClosesDecides(s, n, done);
    }
    forall n | StrangeEscape(s, n) ensures DecodeQuoted(s, done) == Bad(BadEscape) {
      StrangeDecides(s, n, done);
    }
    if NeverCloses(s) { EndDecides(s, done); }
    var n := StopsSomewhere(s);
  }

  /* Lines */

  /** What is left of a line that is neither blank nor a comment. */
  ghost predicate Content(t: string) { t != [] && !IsComment(t[0]) }

  ghost function KeyOf(t: string): string { TrimRight(t[..Find(t, '=')]) }

  /** The text behind the opening quote of the value. */
  ghost predicate QuotedValue(t: string, s: string) {
    Find(t, '=') < |t| &&
    var v := TrimLeft(t[Find(t, '=') + 1..]);
    v != [] && v[0] == '"' && s == v[1..]
  }

  /** A line has a bad key if and only if there is an '=' and the text before the first one is
      no valid key; so an empty key is a bad key, and not a parse error. */
  lemma BadKeyIff(line: string)
    ensures var t := TrimLeft(line);
            ParseLine(line) == Wrong(BadKey) <==> Content(t) && '=' in t && !KeyValid(KeyOf(t))
  {
    hide KeyValid, DecodeQuoted, TrimRight, TrimLeft, BeforeComment;
    var t := TrimLeft(line);
    var eq := Find(t, '=');
    if eq < |t| {
      var v := TrimLeft(t[eq + 1..]);
      if v != [] { QuotedIff(v[1..], []); }
    }
  }

  lemma EmptyKeyIsBadKey(line: string)
    requires TrimLeft(line) != [] && TrimLeft(line)[0] == '='
    ensures ParseLine(line) == Wrong(BadKey)
  {
    var t := TrimLeft(line);
    assert Find(t, '=') == 0 && t[..0] == [];
    BadKeyIff(line);
  }

  /** A line is a parse error if and only if it has no '=', or its key is valid and its quoted
      value closes with something else behind it. */
  lemma ParseErrorIff(line: string)
    ensures var t := TrimLeft(line);
            ParseLine(line) == Wrong(ParseError) <==>
            Content(t) && ('=' !in t || (KeyValid(KeyOf(t)) &&
                                         exists s, n :: QuotedValue(t, s) && Closes(s, n) && !TrailerOk(s[n + 1..])))
  {
    hide KeyValid, DecodeQuoted, TrimRight, TrimLeft, BeforeComment, TrailerOk, WellEscaped;
    ValueIff(line);
  }

  /** The same for the two errors that only quoted values have. */
  lemma QuoteErrorIff(line: string)
    ensures var t := TrimLeft(line);
            && (ParseLine(line) == Wrong(UnterminatedString) <==>
                Content(t) && KeyValid(KeyOf(t)) && exists s :: QuotedValue(t, s) && NeverCloses(s))
            && (ParseLine(line) == Wrong(BadEscape) <==>
                Content(t) && KeyValid(KeyOf(t)) && exists s, n :: QuotedValue(t, s) && StrangeEscape(s, n))
  {
    hide KeyValid, DecodeQuoted, TrimRight, TrimLeft, BeforeComment, TrailerOk, WellEscaped;
    ValueIff(line);
  }

  /** The outcome of the value of a line, in terms of its text. */
  lemma ValueIff(line: string)
    ensures var t := TrimLeft(line);
            var eq := Find(t, '=');
            eq < |t| ==>
              var d := DecodeValue(t[eq + 1..]);
              && (d == Bad(ParseError) <==> exists s, n :: QuotedValue(t, s) && Closes(s, n) && !TrailerOk(s[n + 1..]))
              && (d == Bad(UnterminatedString) <==> exists s :: QuotedValue(t, s) && NeverCloses(s))
              && (d == Bad(BadEscape) <==> exists s, n :: QuotedValue(t, s) && StrangeEscape(s, n))
  {
    hide KeyValid, DecodeQuoted, TrimRight, TrimLeft, BeforeComment, TrailerOk, WellEscaped;
    var t := TrimLeft(line);
    var eq := Find(t, '=');
    if eq < |t| {
      var v := TrimLeft(t[eq + 1..]);
      if v != [] && v[0] == '"' {
        QuotedIff(v[1..], []);
        assert forall s :: QuotedValue(t, s) <==> s == v[1..];
      } else {
        assert forall s :: !QuotedValue(t, s);
      }
    }
  }
}
