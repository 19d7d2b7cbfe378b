/**
 What a configuration text means (cbase_config.c), as functions on strings: lines, keys,
 values with quotes and escapes, and the entries that result.
 */
module ConfigText {

  datatype Info =
    | Ok | ParseError | BadKey | UnterminatedString | BadEscape | LineTooLong | AllocFailed

  const LINE_MAX: nat := 4096

  /* Characters */

  const VTAB: char := '\U{0B}'
  const FEED: char := '\U{0C}'

  /** Horizontal white space; line terminators never count. */
  predicate IsSpace(c: char) { c == ' ' || c == '\t' || c == VTAB || c == FEED }

  predicate KeyHead(c: char) { 'A' <= c <= 'Z' || 'a' <= c <= 'z' || c == '_' }

  predicate KeyTail(c: char) { KeyHead(c) || '0' <= c <= '9' || c == '.' || c == '-' }

  ghost predicate KeyValid(s: string) {
    s != [] && KeyHead(s[0]) && forall i :: 1 <= i < |s| ==> KeyTail(s[i])
  }

  predicate IsComment(c: char) { c == '#' || c == ';' }

  ghost function TrimLeft(s: string): string {
    if s != [] && IsSpace(s[0]) then TrimLeft(s[1..]) else s
  }

  ghost function TrimRight(s: string): string {
    if s != [] && IsSpace(s[|s| - 1]) then TrimRight(s[..|s| - 1]) else s
  }

  /** The part before the first comment character. */
  ghost function BeforeComment(s: string): string {
    if s == [] || IsComment(s[0]) then [] else [s[0]] + BeforeComment(s[1..])
  }

  /** The position of the first c, or the length. */
  ghost function Find(s: string, c: char): (n: nat)
    ensures n <= |s| && (n < |s| ==> s[n] == c) && forall i :: 0 <= i < n ==> s[i] != c
  {
    if s == [] || s[0] == c then 0 else 1 + Find(s[1..], c)
  }

  /* Values */

  datatype Decoded = Value(text: string) | Bad(info: Info)

  /** The character an escape stands for. */
  datatype Escape = Char(c: char) | Unknown

  function Unescape(e: char): Escape {
    match e
    case '"' => Char('"')
    case '\\' => Char('\\')
    case 'n' => Char('\n')
    case 't' => Char('\t')
    case 'r' => Char('\r')
    case _ => Unknown
  }

  /** After a closing quote only white space or a comment may follow. */
  ghost predicate TrailerOk(s: string) {
    var t := TrimLeft(s);
    t == [] || IsComment(t[0])
  }

  /** The rest of a quoted value, with `done` decoded so far. */
  ghost function DecodeQuoted(s: string, done: string): Decoded
    decreases |s|
  {
    if s == [] then Bad(UnterminatedString)
    else if s[0] == '"' then if TrailerOk(s[1..]) then Value(done) else Bad(ParseError)
    else if s[0] == '\\' then
      if |s| == 1 then Bad(UnterminatedString)
      else match Unescape(s[1])
        case Unknown => Bad(BadEscape)
        case Char(c) => DecodeQuoted(s[2..], done + [c])
    else DecodeQuoted(s[1..], done + [s[0]])
  }

  ghost function DecodeValue(s: string): Decoded {
    var t := TrimLeft(s);
    if t == [] || t[0] != '"' then Value(TrimRight(BeforeComment(t)))
    else DecodeQuoted(t[1..], [])
  }

  /* Lines */

  datatype Line = Skip | Assign(key: string, value: string) | Wrong(info: Info)

  ghost function ParseLine(line: string): Line {
    var t := TrimLeft(line);
    if t == [] || IsComment(t[0]) then Skip
    else
      var eq := Find(t, '=');
      if eq == |t| then Wrong(ParseError)
      else
        var key := TrimRight(t[..eq]);
        if !KeyValid(key) then Wrong(BadKey)
        else match DecodeValue(t[eq + 1..])
          case Bad(info) => Wrong(info)
          case Value(v) => Assign(key, v)
  }

  /** A line that is longer than the limit is not looked at. */
  ghost function ReadLine(line: string): Line {
    if |line| > LINE_MAX then Wrong(LineTooLong) else ParseLine(line)
  }

  /** One carriage return before the line feed is dropped. */
  ghost function StripReturn(s: string): string {
    if s != [] && s[|s| - 1] == '\r' then s[..|s| - 1] else s
  }

  ghost function Lines(text: string): seq<string>
    decreases |text|
  {
    if text == [] then []
    else
      var n := Find(text, '\n');
      [StripReturn(text[..n])] + if n < |text| then Lines(text[n + 1..]) else []
  }

  /* Entries */

  datatype Entry = Entry(key: string, value: string)

  ghost function IndexOf(es: seq<Entry>, key: string): (n: nat)
    ensures n <= |es| && (n < |es| ==> es[n].key == key)
    ensures forall i :: 0 <= i < n ==> es[i].key != key
  {
    if es == [] || es[0].key == key then 0 else 1 + IndexOf(es[1..], key)
  }

  /** Replace the value of a known key in place, or append a new entry. */
  ghost function Put(es: seq<Entry>, key: string, value: string): seq<Entry> {
    var n := IndexOf(es, key);
    if n < |es| then es[n := Entry(key, value)] else es + [Entry(key, value)]
  }

  /** The entries, or the first offending line (counted from 1) and what is wrong with it. */
  datatype Outcome = Parsed(entries: seq<Entry>) | Failed(info: Info, line: nat)

  ghost function ParseLines(lines: seq<string>): Outcome {
    if lines == [] then Parsed([])
    else
      var n := |lines| - 1;
      match ParseLines(lines[..n])
      case Failed(info, line) => Failed(info, line)
      case Parsed(es) =>
        match ReadLine(lines[n])
        case Skip => Parsed(es)
        case Assign(k, v) => Parsed(Put(es, k, v))
        case Wrong(info) => Failed(info, n + 1)
  }

  ghost function Parse(text: string): Outcome { ParseLines(Lines(text)) }

  lemma LinesStart(t: string)
    requires t != []
    ensures var n := Find(t, '\n');
            && (n < |t| ==> Lines(t) == [StripReturn(t[..n])] + Lines(t[n + 1..]))
            && (n == |t| ==> Lines(t) == [StripReturn(t[..n])])
  {
    hide Find, StripReturn;
  }

  lemma ParseNothing()
    ensures ParseLines([]) == Parsed([])
  {
  }

  /* Memory */

  /** What the allocator answers while a line is read: the decode buffer, then the strings and the
      node of an entry. */
  datatype Memory = Memory(buffer: bool, value: bool, key: bool, entry: bool)

  const PLENTY := Memory(true, true, true, true)

  /** The line gets as far as its value, which needs a buffer. */
  ghost predicate NeedsBuffer(line: string) {
    var t := TrimLeft(line);
    && t != [] && !IsComment(t[0]) && Find(t, '=') < |t|
    && KeyValid(TrimRight(t[..Find(t, '=')]))
  }

  ghost function LineWith(line: string, mem: Memory): Line {
    if !mem.buffer && NeedsBuffer(line) then Wrong(AllocFailed) else ParseLine(line)
  }

  ghost function ReadWith(line: string, mem: Memory): Line {
    if |line| > LINE_MAX then Wrong(LineTooLong) else LineWith(line, mem)
  }

  /** A known key needs a new value string only. */
  ghost predicate CanStore(es: seq<Entry>, key: string, mem: Memory) {
    mem.value && (IndexOf(es, key) < |es| || (mem.key && mem.entry))
  }

  /** The outcome when the allocator answers mem(i) while line i is read. */
  ghost function ParseWith(lines: seq<string>, mem: nat -> Memory): Outcome {
    if lines == [] then Parsed([])
    else
      var n := |lines| - 1;
      match ParseWith(lines[..n], mem)
      case Failed(info, line) => Failed(info, line)
      case Parsed(es) => OneLine(es, ReadWith(lines[n], mem(n + 1)), mem(n + 1), n + 1)
  }

  ghost function OneLine(es: seq<Entry>, read: Line, mem: Memory, lineNo: nat): Outcome {
    match read
    case Skip => Parsed(es)
    case Assign(k, v) => if CanStore(es, k, mem) then Parsed(Put(es, k, v)) else Failed(AllocFailed, lineNo)
    case Wrong(info) => Failed(info, lineNo)
  }

  /** Want of memory stops a parse, at a line in front of which everything was right, and does
      nothing else: any other outcome is the one with plenty. */
  lemma {:induction false} MemoryOnlyStops(lines: seq<string>, mem: nat -> Memory)
    ensures var o := ParseWith(lines, mem);
            && (o.Parsed? || o.info != AllocFailed ==> o == ParseLines(lines))
            && (o.Failed? ==> 1 <= o.line <= |lines|)
            && (o.Failed? && o.info == AllocFailed ==> mem(o.line) != PLENTY && ParseLines(lines[..o.line - 1]).Parsed?)
    decreases |lines|
  {
    hide ParseLine, IndexOf, NeedsBuffer;
    if lines != [] {
      var n := |lines| - 1;
      MemoryOnlyStops(lines[..n], mem);
      var o := ParseWith(lines[..n], mem);
      if o.Parsed? {
        NeverOutOfMemory(lines[n]);
      } else {
        assert lines[..n][..o.line - 1] == lines[..o.line - 1];
      }
    }
  }

  /** With plenty of memory no line fails for want of it. */
  lemma NeverOutOfMemory(line: string)
    ensures ParseLine(line) != Wrong(AllocFailed)
  {
    var t := TrimLeft(line);
    var eq := Find(t, '=');
    if eq < |t| {
      var v := TrimLeft(t[eq + 1..]);
      if v != [] { QuotedHasMemory(v[1..], []); }
    }
  }

  lemma {:induction false} QuotedHasMemory(s: string, done: string)
    ensures DecodeQuoted(s, done) != Bad(AllocFailed)
    decreases |s|
  {
    if s != [] && s[0] != '"' {
      if s[0] != '\\' {
        QuotedHasMemory(s[1..], done + [s[0]]);
      } else if |s| > 1 && Unescape(s[1]).Char? {
        QuotedHasMemory(s[2..], done + [Unescape(s[1]).c]);
      }
    }
  }

  /** What a C function sees of a stored string: everything before the first NUL. */
  ghost function Terminated(s: string): string {
    if s == [] || s[0] == '\0' then [] else [s[0]] + Terminated(s[1..])
  }

  /* What parsing promises */

  /** Parsing fails exactly when some line is wrong, and reports the first such line. */
  lemma {:induction false} FailsAtFirstWrong(lines: seq<string>)
    ensures ParseLines(lines).Parsed? <==> forall i :: 0 <= i < |lines| ==> !ReadLine(lines[i]).Wrong?
    ensures var o := ParseLines(lines);
            o.Failed? ==>
              && 1 <= o.line <= |lines| && ReadLine(lines[o.line - 1]) == Wrong(o.info)
              && forall i :: 0 <= i < o.line - 1 ==> !ReadLine(lines[i]).Wrong?
    decreases |lines|
  {
    hide ReadLine;
    if lines != [] {
      var n := |lines| - 1;
      FailsAtFirstWrong(lines[..n]);
      assert forall i :: 0 <= i < n ==> lines[..n][i] == lines[i];
    }
  }

  ghost predicate Keyed(es: seq<Entry>) {
    && (forall i :: 0 <= i < |es| ==> KeyValid(es[i].key))
    && (forall i, j :: 0 <= i < j < |es| ==> es[i].key != es[j].key)
  }

  ghost predicate Assigns(lines: seq<string>, i: int, key: string) {
    0 <= i < |lines| && ReadLine(lines[i]).Assign? && ReadLine(lines[i]).key == key
  }

  /** Line i is the first (or the last) that assigns the key. */
  ghost predicate IsFirst(lines: seq<string>, i: int, key: string) {
    Assigns(lines, i, key) && forall j :: 0 <= j < i ==> !Assigns(lines, j, key)
  }

  ghost predicate IsLast(lines: seq<string>, i: int, key: string) {
    Assigns(lines, i, key) && forall j :: i < j < |lines| ==> !Assigns(lines, j, key)
  }

  /** `first` and `last` are the first and last lines that assign the entry's key; the last one wins. */
  ghost predicate EntryOk(lines: seq<string>, e: Entry, first: int, last: int) {
    IsFirst(lines, first, e.key) && IsLast(lines, last, e.key) && ReadLine(lines[last]).value == e.value
  }

  /** Entry j holds the last value written for its key, which `first[j]` was the first line to write. */
  ghost predicate Reflects(lines: seq<string>, es: seq<Entry>, first: seq<int>, last: seq<int>) {
    && |first| == |last| == |es|
    && (forall j :: 0 <= j < |es| ==> EntryOk(lines, es[j], first[j], last[j]))
    && (forall i, j :: 0 <= i < j < |es| ==> first[i] < first[j])
    && (forall i :: 0 <= i < |lines| && ReadLine(lines[i]).Assign? ==>
          exists j :: 0 <= j < |es| && es[j].key == ReadLine(lines[i]).key)
  }

  lemma ReadLineKey(line: string)
    requires ReadLine(line).Assign?
    ensures KeyValid(ReadLine(line).key)
  {
  }

  lemma ReflectsSkip(lines: seq<string>, l: string, es: seq<Entry>, first: seq<int>, last: seq<int>)
    requires Reflects(lines, es, first, last) && !ReadLine(l).Assign?
    ensures Reflects(lines + [l], es, first, last)
  {
    hide ReadLine, EntryOk;
    var all := lines + [l];
    forall j | 0 <= j < |es| ensures EntryOk(all, es[j], first[j], last[j]) {
      EntrySkips(lines, l, es[j], first[j], last[j]);
    }
    forall i | 0 <= i < |all| && ReadLine(all[i]).Assign?
      ensures exists j :: 0 <= j < |es| && es[j].key == ReadLine(all[i]).key
    {
      assert all[i] == lines[i];
    }
  }

  lemma EntrySkips(lines: seq<string>, l: string, e: Entry, first: int, last: int)
    requires EntryOk(lines, e, first, last) && !ReadLine(l).Assign?
    ensures EntryOk(lines + [l], e, first, last)
  {
    hide ReadLine;
    var all := lines + [l];
    forall i, k | 0 <= i < |all| ensures Assigns(all, i, k) <==> i < |lines| && Assigns(lines, i, k) {}
  }

  lemma PutKeyed(es: seq<Entry>, key: string, value: string)
    requires Keyed(es) && KeyValid(key)
    ensures Keyed(Put(es, key, value))
  {
    hide KeyValid;
  }

  lemma AssignsExtend(lines: seq<string>, l: string)
    requires ReadLine(l).Assign?
    ensures forall i, k :: 0 <= i <= |lines| ==>
              (Assigns(lines + [l], i, k) <==> if i < |lines| then Assigns(lines, i, k) else k == ReadLine(l).key)
  {
    hide ReadLine;
  }

  lemma FirstKept(lines: seq<string>, l: string, i: int, k: string)
    requires ReadLine(l).Assign? && IsFirst(lines, i, k)
    ensures IsFirst(lines + [l], i, k)
  {
    hide ReadLine;
    AssignsExtend(lines, l);
  }

  lemma LastKept(lines: seq<string>, l: string, i: int, k: string)
    requires ReadLine(l).Assign? && IsLast(lines, i, k) && k != ReadLine(l).key
    ensures IsLast(lines + [l], i, k)
  {
    hide ReadLine;
    AssignsExtend(lines, l);
  }

  lemma LastNew(lines: seq<string>, l: string)
    requires ReadLine(l).Assign?
    ensures IsLast(lines + [l], |lines|, ReadLine(l).key)
    ensures (forall i :: 0 <= i < |lines| ==> !Assigns(lines, i, ReadLine(l).key)) ==>
              IsFirst(lines + [l], |lines|, ReadLine(l).key)
  {
    hide ReadLine;
    AssignsExtend(lines, l);
  }

  lemma Covered(lines: seq<string>, l: string, es: seq<Entry>, es': seq<Entry>)
    requires forall i :: 0 <= i < |lines| && ReadLine(lines[i]).Assign? ==>
               exists j :: 0 <= j < |es| && es[j].key == ReadLine(lines[i]).key
    requires |es| <= |es'| && forall j :: 0 <= j < |es| ==> es'[j].key == es[j].key
    requires ReadLine(l).Assign? && exists j :: 0 <= j < |es'| && es'[j].key == ReadLine(l).key
    ensures forall i :: 0 <= i < |lines + [l]| && ReadLine((lines + [l])[i]).Assign? ==>
              exists j :: 0 <= j < |es'| && es'[j].key == ReadLine((lines + [l])[i]).key
  {
    hide ReadLine;
    var all := lines + [l];
    forall i | 0 <= i < |all| && ReadLine(all[i]).Assign?
      ensures exists j :: 0 <= j < |es'| && es'[j].key == ReadLine(all[i]).key
    {
      if i < |lines| {
        var j :| 0 <= j < |es| && es[j].key == ReadLine(lines[i]).key;
        assert es'[j].key == es[j].key;
      }
    }
  }

  lemma ReflectsUpdate(lines: seq<string>, l: string, es: seq<Entry>, first: seq<int>, last: seq<int>, m: nat)
    requires Reflects(lines, es, first, last) && Keyed(es)
    requires ReadLine(l).Assign? && m < |es| && es[m].key == ReadLine(l).key
    ensures Reflects(lines + [l], es[m := Entry(ReadLine(l).key, ReadLine(l).value)], first, last[m := |lines|])
  {
    hide ReadLine, IsFirst, IsLast, Assigns;
    var all, es', last' := lines + [l], es[m := Entry(ReadLine(l).key, ReadLine(l).value)], last[m := |lines|];
    LastNew(lines, l);
    forall j | 0 <= j < |es'|
      ensures EntryOk(all, es'[j], first[j], last'[j])
    {
      assert EntryOk(lines, es[j], first[j], last[j]);
      if j == m {
        FirstKept(lines, l, first[j], es[j].key);
        assert all[|lines|] == l;
      } else {
        EntryKept(lines, l, es[j], first[j], last[j]);
      }
    }
    assert es'[m].key == ReadLine(l).key;
    Covered(lines, l, es, es');
  }

  lemma NotAssigned(lines: seq<string>, es: seq<Entry>, first: seq<int>, last: seq<int>, key: string)
    requires Reflects(lines, es, first, last) && forall j :: 0 <= j < |es| ==> es[j].key != key
    ensures forall i :: 0 <= i < |lines| ==> !Assigns(lines, i, key)
    ensures forall j :: 0 <= j < |es| ==> 0 <= first[j] < |lines|
  {
    hide ReadLine;
  }

  lemma EntryKept(lines: seq<string>, l: string, e: Entry, first: int, last: int)
    requires EntryOk(lines, e, first, last) && ReadLine(l).Assign? && e.key != ReadLine(l).key
    ensures EntryOk(lines + [l], e, first, last)
  {
    hide ReadLine;
    FirstKept(lines, l, first, e.key);
    LastKept(lines, l, last, e.key);
  }

  lemma ReflectsAppend(lines: seq<string>, l: string, es: seq<Entry>, first: seq<int>, last: seq<int>)
    requires Reflects(lines, es, first, last)
    requires ReadLine(l).Assign? && forall j :: 0 <= j < |es| ==> es[j].key != ReadLine(l).key
    ensures Reflects(lines + [l], es + [Entry(ReadLine(l).key, ReadLine(l).value)], first + [|lines|], last + [|lines|])
  {
    hide ReadLine, EntryOk, Assigns;
    var key := ReadLine(l).key;
    var all, es', first', last' := lines + [l], es + [Entry(key, ReadLine(l).value)], first + [|lines|], last + [|lines|];
    NotAssigned(lines, es, first, last, key);
    EntryNew(lines, l);
    forall j | 0 <= j < |es'|
      ensures EntryOk(all, es'[j], first'[j], last'[j])
    {
      if j < |es| { EntryKept(lines, l, es[j], first[j], last[j]); }
    }
    assert es'[|es|].key == key;
    Covered(lines, l, es, es');
  }

  lemma EntryNew(lines: seq<string>, l: string)
    requires ReadLine(l).Assign? && forall i :: 0 <= i < |lines| ==> !Assigns(lines, i, ReadLine(l).key)
    ensures EntryOk(lines + [l], Entry(ReadLine(l).key, ReadLine(l).value), |lines|, |lines|)
  {
    hide ReadLine;
    LastNew(lines, l);
    assert (lines + [l])[|lines|] == l;
  }

  lemma ReflectsPut(lines: seq<string>, l: string, es: seq<Entry>, first: seq<int>, last: seq<int>)
    returns (first': seq<int>, last': seq<int>)
    requires Reflects(lines, es, first, last) && ReadLine(l).Assign? && Keyed(es)
    ensures var es' := Put(es, ReadLine(l).key, ReadLine(l).value);
            Keyed(es') && Reflects(lines + [l], es', first', last')
  {
    hide ReadLine, Reflects, Keyed;
    ReadLineKey(l);
    PutKeyed(es, ReadLine(l).key, ReadLine(l).value);
    var m := IndexOf(es, ReadLine(l).key);
    if m < |es| {
      ReflectsSizes(lines, es, first, last);
      ReflectsUpdate(lines, l, es, first, last, m);
      first', last' := first, last[m := |lines|];
    } else {
      ReflectsAppend(lines, l, es, first, last);
      first', last' := first + [|lines|], last + [|lines|];
    }
  }

  lemma ReflectsSizes(lines: seq<string>, es: seq<Entry>, first: seq<int>, last: seq<int>)
    requires Reflects(lines, es, first, last)
    ensures |first| == |last| == |es|
  {
  }

  /** Parsed entries have distinct valid keys, in the order of first mention, with the values
      written last, and no assigned key is missing. */
  lemma {:induction false} EntriesReflectLines(lines: seq<string>) returns (first: seq<int>, last: seq<int>)
    requires ParseLines(lines).Parsed?
    ensures Keyed(ParseLines(lines).entries)
    ensures Reflects(lines, ParseLines(lines).entries, first, last)
    decreases |lines|
  {
    hide ReadLine, Reflects, Put, Keyed;
    if lines == [] {
      first, last := [], [];
      ReflectsNothing();
    } else {
      var n := |lines| - 1;
      assert lines == lines[..n] + [lines[n]];
      first, last := EntriesReflectLines(lines[..n]);
      if ReadLine(lines[n]).Assign? {
        first, last := ReflectsPut(lines[..n], lines[n], ParseLines(lines[..n]).entries, first, last);
      } else {
        ReflectsSkip(lines[..n], lines[n], ParseLines(lines[..n]).entries, first, last);
      }
    }
  }

  lemma ReflectsNothing()
    ensures Keyed([]) && Reflects([], [], [], [])
  {
  }
}
