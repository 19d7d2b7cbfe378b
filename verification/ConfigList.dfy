/**
 The parsed configuration of cbase_config.c: a singly-linked list of entries with a tail
 pointer, filled line by line.
 */
module ConfigList {
  import opened Bits
  import opened Options
  import opened ConfigText
  import opened ConfigParser

  class Node {
    const key: string
    var value: string
    var next: Node?

    constructor (key: string, value: string)
      ensures this.key == key && this.value == value && next == null
    {
      this.key := key;
      this.value := value;
      next := null;
    }
  }

  ghost function At(nodes: seq<Node>, i: nat): Node? {
    if i < |nodes| then nodes[i] else null
  }

  /** Every node points to the one after it, the last to nothing. */
  ghost predicate Chained(nodes: seq<Node>) reads nodes {
    forall i :: 0 <= i < |nodes| ==> nodes[i].next == At(nodes, i + 1)
  }

  class Config {
    var info: Info
    var errorLine: nat
    var count: nat
    var head: Node?
    var tail: Node?
    /** The nodes in list order. */
    ghost var spine: seq<Node>

    /** head starts the chain, next follows it, tail ends it; no node occurs twice. */
    ghost predicate Linked() reads this, spine {
      && (forall i, j :: 0 <= i < j < |spine| ==> spine[i] != spine[j])
      && Chained(spine)
      && head == At(spine, 0)
      && tail == (if spine == [] then null else spine[|spine| - 1])
      && count == |spine| % U32
    }

    ghost function Entries(): (es: seq<Entry>) reads this, spine
      ensures |es| == |spine|
      ensures forall i :: 0 <= i < |es| ==> es[i] == Entry(spine[i].key, spine[i].value)
    {
      seq(|spine|, i requires 0 <= i < |spine| reads this, spine => Entry(spine[i].key, spine[i].value))
    }

    constructor ()
      ensures Linked() && Entries() == [] && info == Ok && errorLine == 0 && count == 0
      ensures spine == []
    {
      info := Ok;
      errorLine, count := 0, 0;
      head, tail, spine := null, null, [];
    }

    /** Walk the list for a key. */
    method FindEntry(key: string) returns (e: Node?)
      requires Linked()
      ensures var n := IndexOf(Entries(), key);
              e == At(spine, n)
    {
      e := head;
      ghost var i := 0;
      while e != null && e.key != key
        invariant 0 <= i <= |spine| && e == At(spine, i)
        invariant forall j :: 0 <= j < i ==> spine[j].key != key
        decreases |spine| - i
      {
        e := e.next;
        i := i + 1;
      }
      IndexIs(Entries(), key, i);
    }

    /** cb_config_get */
    method Get(key: string) returns (found: bool, value: string)
      requires Linked()
      ensures var n := IndexOf(Entries(), key);
              (found <==> n < |Entries()|) && (found ==> value == Terminated(Entries()[n].value))
    {
      hide IndexOf, Linked, Chained, Terminated;
      var e := FindEntry(key);
      if e == null { return false, ""; }
      value := CString(e.value);
      found := true;
    }

    /** cb__config_set: a known key keeps its place, a new one is appended through the tail; without
        memory nothing changes. */
    method Set(key: string, value: string, mem: Memory) returns (ok: bool)
      requires Linked()
      modifies this, spine
      ensures Linked() && ok == CanStore(old(Entries()), key, mem)
      ensures Entries() == if ok then Put(old(Entries()), key, value) else old(Entries())
      ensures info == old(info) && errorLine == old(errorLine)
      ensures forall k :: 0 <= k < |spine| ==> spine[k] in old(spine) || fresh(spine[k])
    {
      hide IndexOf, Linked, Chained, Entries;
      var existing := FindEntry(key);
      if !mem.value { return false; }
      if existing != null {
        Replace(existing, IndexOf(Entries(), key), value);
        return true;
      }
      if !mem.key { return false; }
      if !mem.entry { return false; }
      Append(key, value);
      ok := true;
    }

    /** The value of an entry that is in the list is exchanged where it stands. */
    method Replace(e: Node, ghost m: nat, value: string)
      requires Linked() && m < |spine| && e == spine[m]
      modifies e`value
      ensures Linked() && Entries() == old(Entries())[m := Entry(e.key, value)]
    {
      e.value := value;
      forall i | 0 <= i < |spine| ensures spine[i].next == At(spine, i + 1) {
        assert spine[i].next == old(spine[i].next);
      }
    }

    /** A new entry goes behind the tail. */
    method Append(key: string, value: string)
      requires Linked()
      modifies this, spine
      ensures Linked() && Entries() == old(Entries()) + [Entry(key, value)]
      ensures info == old(info) && errorLine == old(errorLine)
      ensures |spine| == |old(spine)| + 1 && old(spine) <= spine && fresh(spine[|spine| - 1])
    {
      hide Linked, Chained, Entries;
      var entry := new Node(key, value);
      AppendNode(entry);
    }

    method AppendNode(entry: Node)
      requires Linked() && entry !in spine && entry.next == null
      modifies this, spine
      ensures Linked() && spine == old(spine) + [entry]
      ensures Entries() == old(Entries()) + [Entry(entry.key, entry.value)]
      ensures info == old(info) && errorLine == old(errorLine)
    {
      hide Chained;
      LinkLast(entry);
      tail := entry;
      CountStep(|spine|);
      count := (count + 1) % U32;
      spine := spine + [entry];
    }

    method LinkLast(entry: Node)
      requires Linked() && entry !in spine && entry.next == null
      modifies `head, spine
      ensures head == if spine == [] then entry else old(head)
      ensures Chained(spine + [entry])
      ensures forall i :: 0 <= i < |spine| ==> spine[i].value == old(spine[i].value)
    {
      if head == null {
        head := entry;
      } else {
        tail.next := entry;
      }
      assert forall i :: 0 <= i < |spine| - 1 ==> spine[i].next == old(spine[i].next);
    }

    /** cb__config_free_entries */
    method FreeEntries()
      modifies this
      ensures Linked() && spine == [] && head == null && tail == null && count == 0
      ensures info == old(info) && errorLine == old(errorLine)
    {
      head, tail, spine := null, null, [];
      count := 0;
    }

    /** Reads one line into the list; false when that fails, with the reason in `info`. */
    method TakeLine(line: string, lineNo: nat, mem: Memory) returns (ok: bool)
      requires Linked() && info == Ok && errorLine == 0
      modifies this, spine
      ensures Linked()
      ensures forall k :: 0 <= k < |spine| ==> spine[k] in old(spine) || fresh(spine[k])
      ensures match OneLine(old(Entries()), ReadWith(line, mem), mem, lineNo)
              case Parsed(es) => ok && info == Ok && errorLine == 0 && Entries() == es
              case Failed(why, at) => !ok && info == why && errorLine == at && spine == [] && count == 0
    {
      hide LineWith, Put, CanStore, Linked, Chained, Entries;
      if |line| > LINE_MAX {
        info := LineTooLong;
        errorLine := lineNo;
        FreeEntries();
        return false;
      }
      var res := ReadAssignment(line, mem);
      var why := Ok;
      if res.Wrong? {
        why := res.info;
        ok := false;
      } else if res.Assign? {
        ok := Set(res.key, res.value, mem);
        if !ok { why := AllocFailed; }
      } else {
        ok := true;
      }
      if !ok {
        info := why;
        errorLine := lineNo;
        FreeEntries();
      }
    }
  }

  lemma CountStep(n: nat)
    ensures (n % U32 + 1) % U32 == (n + 1) % U32
  {
    ModSum(n, 1, U32);
  }

  lemma {:induction false} IndexIs(es: seq<Entry>, key: string, n: nat)
    requires n <= |es| && (n < |es| ==> es[n].key == key)
    requires forall i :: 0 <= i < n ==> es[i].key != key
    ensures IndexOf(es, key) == n
  {
  }

  /** The outcome that the fields of a configuration show. */
  ghost predicate Shows(cfg: Config, o: Outcome) reads cfg, cfg.spine {
    && cfg.Linked()
    && match o
       case Parsed(es) => cfg.info == Ok && cfg.errorLine == 0 && cfg.Entries() == es
       case Failed(info, line) =>
         cfg.info == info && cfg.errorLine == line % U32 && cfg.spine == [] && cfg.count == 0
  }

  /** The text from i on, and the lines before it. */
  ghost predicate Split(text: string, i: nat, done: seq<string>) {
    i <= |text| && Lines(text) == done + Lines(text[i..])
  }

  lemma SplitStart(text: string)
    ensures Split(text, 0, [])
  {
    assert text[0..] == text;
  }

  lemma SplitEnd(text: string, i: nat, done: seq<string>)
    requires Split(text, i, done) && i == |text|
    ensures done == Lines(text)
  {
    assert Lines([]) == [];
  }

  lemma SplitStep(text: string, start: nat, end: nat, done: seq<string>)
    requires Split(text, start, done) && start < |text| && end == start + Find(text[start..], '\n')
    ensures start <= end <= |text|
    ensures var line := StripReturn(text[start..end]);
            && (end < |text| ==> Split(text, end + 1, done + [line]))
            && (end == |text| ==> Lines(text) == done + [line])
            && |done| < |Lines(text)| && Lines(text)[..|done| + 1] == done + [line]
  {
    hide StripReturn, Find, Lines;
    var t, n := text[start..], end - start;
    var line := StripReturn(text[start..end]);
    LinesStart(t);
    assert t[..n] == text[start..end];
    if end < |text| {
      assert t[n + 1..] == text[end + 1..];
      var rest := Lines(text[end + 1..]);
      assert done + ([line] + rest) == done + [line] + rest;
    } else {
      assert [line] + [] == [line];
    }
  }

  lemma ParseStep(done: seq<string>, line: string, mem: nat -> Memory)
    ensures var o, n := ParseWith(done, mem), |done| + 1;
            o.Parsed? ==>
              ParseWith(done + [line], mem) == OneLine(o.entries, ReadWith(line, mem(n)), mem(n), n)
  {
    assert (done + [line])[..|done|] == done;
  }

  lemma {:induction false} FailureStays(lines: seq<string>, n: nat, mem: nat -> Memory)
    requires n <= |lines| && ParseWith(lines[..n], mem).Failed?
    ensures ParseWith(lines, mem) == ParseWith(lines[..n], mem)
    decreases |lines|
  {
    if n < |lines| {
      var k := |lines| - 1;
      assert lines[..k][..n] == lines[..n];
      FailureStays(lines[..k], n, mem);
    } else {
      assert lines[..n] == lines;
    }
  }

  /** One more line: the configuration shows what has been read so far. */
  method ReadInto(cfg: Config, ghost done: seq<string>, line: string, lineNo: nat,
                  ghost mem: nat -> Memory, answer: Memory)
    returns (ok: bool)
    requires answer == mem(|done| + 1)
    requires ParseWith(done, mem).Parsed? && Shows(cfg, ParseWith(done, mem)) && lineNo == (|done| + 1) % U32
    modifies cfg, cfg.spine
    ensures Shows(cfg, ParseWith(done + [line], mem)) && (ok <==> ParseWith(done + [line], mem).Parsed?)
    ensures forall k :: 0 <= k < |cfg.spine| ==> cfg.spine[k] in old(cfg.spine) || fresh(cfg.spine[k])
  {
    hide ParseWith, ReadWith, Put, CanStore;
    ParseStep(done, line, mem);
    ghost var read := ReadWith(line, answer);
    ok := cfg.TakeLine(line, lineNo, answer);
  }

  /** The end of the line that starts at `start`, with and without its carriage return. */
  method FetchLine(text: string, start: nat) returns (i: nat, end: nat)
    requires start <= |text|
    ensures start <= end <= i <= |text| && i == start + Find(text[start..], '\n')
    ensures text[start..end] == StripReturn(text[start..i])
  {
    hide Find, StripReturn;
    i := FindFrom(text, start, '\n');
    end := i;
    if end > start && text[end - 1] == '\r' { end := end - 1; }
    StripIs(text, start, i);
  }

  /** cb_config_parse. The text is None for a null pointer with a length; `mem` is what the
      allocator answers, line by line. */
  method ParseText(text: Option<string>, mem: nat -> Memory) returns (cfg: Config)
    ensures fresh(cfg)
    ensures text == None ==> Shows(cfg, Failed(ParseError, 0))
    ensures text.Some? ==> Shows(cfg, ParseWith(Lines(text.value), mem))
    ensures text.Some? && (forall i :: mem(i) == PLENTY) ==> Shows(cfg, Parse(text.value))
  {
    hide Lines, ParseWith, ParseLines;
    cfg := new Config();
    if text == None {
      cfg.info := ParseError;
      return;
    }
    assert ParseWith([], mem) == Parsed([]) by { NothingWith(mem); }
    ReadLines(cfg, text.value, mem);
    MemoryOnlyStops(Lines(text.value), mem);
  }

  lemma NothingWith(mem: nat -> Memory)
    ensures ParseWith([], mem) == Parsed([])
  {
  }

  /** The loop over the lines of the text. */
  method ReadLines(cfg: Config, text: string, mem: nat -> Memory)
    requires ParseWith([], mem) == Parsed([]) && Shows(cfg, Parsed([])) && cfg.spine == []
    modifies cfg
    ensures Shows(cfg, ParseWith(Lines(text), mem))
  {
    hide ParseWith, Lines, StripReturn, Split, Find, Shows;
    ghost var done: seq<string> := [];
    var lineNo, read := 0, 0;
    var i := 0;
    SplitStart(text);
    while i <= |text|
      invariant i <= |text| && Split(text, i, done)
      invariant read == |done| && lineNo == |done| % U32
      invariant forall k :: 0 <= k < |cfg.spine| ==> fresh(cfg.spine[k])
      invariant ParseWith(done, mem).Parsed? && Shows(cfg, ParseWith(done, mem))
      decreases |text| + 1 - i
    {
      var start, end := i, i;
      i, end := FetchLine(text, start);
      CountStep(|done|);
      lineNo := (lineNo + 1) % U32;
      if start >= |text| {
        SplitEnd(text, start, done);
        return;
      }
      SplitStep(text, start, i, done);
      read := read + 1;
      var ok := ReadInto(cfg, done, text[start..end], lineNo, mem, mem(read));
      if !ok {
        FailureStays(Lines(text), |done| + 1, mem);
        return;
      }
      done := done + [text[start..end]];
      if i < |text| {
        i := i + 1;
      } else {
        return;
      }
    }
  }

  lemma StripIs(text: string, start: nat, end: nat)
    requires start <= end <= |text|
    ensures StripReturn(text[start..end])
            == text[start..if end > start && text[end - 1] == '\r' then end - 1 else end]
  {
  }
}
