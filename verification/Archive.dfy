/** The WACZ writer's offset ledger and index, and the reader that must find each record again. */
module Archive {
  import opened Requests
  import opened LexOrder
  import opened ArchiveIndex

  // Reader

  /** The line a prefix search returns: the first one not below the target, if it starts with the target. */
  function FindLine(lines: seq<string>, target: string): Option<string> {
    if lines == [] then None
    else if Leq(target, lines[0]) then
      if target <= lines[0] then Some(lines[0]) else None
    else FindLine(lines[1..], target)
  }

  lemma {:induction false} FindLineAt(lines: seq<string>, target: string, i: nat)
    requires FirstNotBelow(lines, target, i)
    ensures FindLine(lines, target)
            == if i < |lines| && target <= lines[i] then Some(lines[i]) else None
  {
    if lines != [] && i > 0 {
      assert !Leq(target, lines[0]);
      assert FirstNotBelow(lines[1..], target, i - 1);
      FindLineAt(lines[1..], target, i - 1);
    }
  }

  lemma {:induction false} FirstExists(lines: seq<string>, target: string) returns (i: nat)
    ensures FirstNotBelow(lines, target, i)
  {
    if lines == [] || Leq(target, lines[0]) {
      i := 0;
    } else {
      var j := FirstExists(lines[1..], target);
      i := j + 1;
      forall k | 0 <= k < i ensures !Leq(target, lines[k]) {
        assert k > 0 ==> lines[k] == lines[1..][k - 1];
      }
    }
  }

  /** On sorted lines the search finds something exactly when some line starts with the target: the least such line. */
  lemma FindLineExact(lines: seq<string>, target: string)
    requires Sorted(lines)
    ensures var r := FindLine(lines, target);
            && (r.Some? <==> exists l :: l in lines && target <= l)
            && (r.Some? ==> r.value in lines && target <= r.value
                            && forall l :: l in lines && target <= l ==> Leq(r.value, l))
  {
    var i := FirstExists(lines, target);
    FindLineAt(lines, target, i);
    PrefixSearchExact(lines, target, i);
  }

  method SearchFileSegment(buffer: string, target: string) returns (r: Option<string>)
    ensures r.Some? ==> r.value in LinesOf(buffer) && target <= r.value
    ensures Sorted(LinesOf(buffer)) ==> r == FindLine(LinesOf(buffer), target)
  {
    var parts := Split(buffer, '\n');
    var lines := [];
    for i := 0 to |parts|
      invariant lines == NonBlank(parts[..i])
    {
      assert parts[..i + 1][..i] == parts[..i];
      if !Blank(parts[i]) {
        lines := lines + [parts[i]];
      }
    }
    assert parts[..|parts|] == parts;
    var index := Search(lines, target);
    if Sorted(lines) {
      FindLineAt(lines, target, index);
    }
    if index < |lines| && target <= lines[index] {
      return Some(lines[index]);
    }
    r := None;
  }

  /** The first position of a character. */
  function IndexOf(s: string, c: char): (r: Option<nat>)
    ensures r.None? <==> c !in s
    ensures r.Some? ==> r.value < |s| && s[r.value] == c && c !in s[..r.value]
  {
    if s == [] then None
    else if s[0] == c then Some(0)
    else match IndexOf(s[1..], c) case None => None case Some(i) => Some(i + 1)
  }

  lemma {:induction false} IndexOfAfter(a: string, b: string, c: char)
    requires c !in a && b != "" && b[0] == c
    ensures IndexOf(a + b, c) == Some(|a|)
  {
    if a == [] {
      assert a + b == b;
    } else {
      assert (a + b)[1..] == a[1..] + b && (a + b)[0] == a[0];
      IndexOfAfter(a[1..], b, c);
    }
  }

  datatype ReadResult = Content(bytes: string) | NotFound | InvalidEntry | ReadFailed

  /** The range in an index line: the JSON object starts at the first brace. */
  function RangeOf(codec: Codec, line: string): Option<(nat, nat)> {
    match IndexOf(line, '{')
    case None => None
    case Some(i) => codec.unmarshal(line[i..])
  }

  /** The container: the stored WARC stream with the bytes around it, and the stored index file. */
  datatype Wacz = Wacz(before: string, stream: string, after: string, index: string)

  function Bytes(w: Wacz): string {
    w.before + w.stream + w.after
  }

  /** The file read takes the range after the stream's start, wherever it ends in the container. */
  function Slice(w: Wacz, offset: nat, length: nat): ReadResult {
    var start := |w.before| + offset;
    if start + length <= |Bytes(w)| then Content(Bytes(w)[start..start + length]) else ReadFailed
  }

  lemma SliceOfStream(w: Wacz, offset: nat, length: nat)
    requires offset + length <= |w.stream|
    ensures Slice(w, offset, length) == Content(w.stream[offset..offset + length])
  {
    var start := |w.before| + offset;
    assert Bytes(w)[start..start + length] == w.stream[offset..offset + length];
  }

  function ReadLine(codec: Codec, w: Wacz, line: string): ReadResult {
    match RangeOf(codec, line)
    case None => InvalidEntry
    case Some(r) => Slice(w, r.0, r.1)
  }

  /** What ReadArchive returns for a search key. */
  function Read(codec: Codec, w: Wacz, target: string): ReadResult {
    match FindLine(LinesOf(w.index), target)
    case None => NotFound
    case Some(line) => ReadLine(codec, w, line)
  }

  method ReadArchive(codec: Codec, w: Wacz, host: string, requestURI: string) returns (r: ReadResult)
    ensures Sorted(LinesOf(w.index)) ==> r == Read(codec, w, SearchKey(host, requestURI))
    ensures r.NotFound? || exists line :: line in LinesOf(w.index) && SearchKey(host, requestURI) <= line && r == ReadLine(codec, w, line)
  {
    var line := SearchFileSegment(w.index, SearchKey(host, requestURI));
    if line == None {
      return NotFound;
    }
    var jsonStart := IndexOf(line.value, '{');
    if jsonStart == None {
      return InvalidEntry;
    }
    var range := codec.unmarshal(line.value[jsonStart.value..]);
    if range == None {
      return InvalidEntry;
    }
    var (offset, length) := range.value;
    var start := |w.before| + offset;
    if start + length > |Bytes(w)| {
      return ReadFailed;
    }
    r := Content(Bytes(w)[start..start + length]);
  }

  // Exactness of the key found

  lemma EntryLine(codec: Codec, entries: seq<Entry>, l: string)
    ensures l in Lines(codec, entries) <==> exists e :: e in entries && Line(codec, e) == l
  {
    if l in Lines(codec, entries) {
      var i :| 0 <= i < |entries| && Lines(codec, entries)[i] == l;
      assert entries[i] in entries;
    }
    forall e | e in entries && Line(codec, e) == l ensures l in Lines(codec, entries) {
      var i :| 0 <= i < |entries| && entries[i] == e;
      assert Lines(codec, entries)[i] == l;
    }
  }

  /** One key goes on where the other ends with a space; only a query that holds a space makes such a key. */
  predicate Meet(k: string, l: string) {
    k + " " <= l || l + " " <= k
  }

  lemma PrefixOfLine(t: string, key: string, rest: string)
    requires t <= key + " " + rest
    ensures t == key || key + " " <= t || (|t| < |key| && t <= key)
  {
    var line := key + " " + rest;
    if |t| <= |key| {
      assert t == line[..|t|] == key[..|t|];
    } else {
      assert key + " " == line[..|key| + 1] == t[..|key| + 1];
    }
  }

  lemma SpaceNext(t: string, key: string)
    requires t <= key && |t| < |key|
    ensures key[|t|] == ' ' <==> t + " " <= key
  {
    assert key[..|t| + 1] == t + [key[|t|]];
  }

  /** A line that starts with the target but has another key sorts after every line of the target key, unless the keys meet. */
  lemma LongerKeySortsLater(codec: Codec, e: Entry, f: Entry)
    requires Printable(f.key) && e.key <= Line(codec, f) && e.key != f.key && !Meet(e.key, f.key)
    ensures !Leq(Line(codec, f), Line(codec, e))
  {
    var t := e.key;
    var tail, tail' := " " + e.stamp + " " + codec.marshal(e), " " + f.stamp + " " + codec.marshal(f);
    assert Line(codec, f) == f.key + " " + (f.stamp + " " + codec.marshal(f));
    PrefixOfLine(t, f.key, f.stamp + " " + codec.marshal(f));
    SpaceNext(t, f.key);
    var x := f.key[|t|..];
    assert f.key == t + x && f.key[|t|] in f.key;
    assert Line(codec, f) == t + (x + tail') && Line(codec, e) == t + tail;
    ByNextChar(t, tail, x + tail');
  }

  lemma KeyLinesAreFound(codec: Codec, entries: seq<Entry>, d: Entry)
    requires Sound(codec) && (forall d :: d in entries ==> TidyEntry(d)) && d in entries
    ensures Line(codec, d) in LinesOf(IndexFile(codec, entries)) && d.key <= Line(codec, d)
  {
    ReaderFindsSortedLines(codec, entries);
    SortSorts(Lines(codec, entries));
    EntryLine(codec, entries, Line(codec, d));
    MembersOf(Lines(codec, entries), Sort(Lines(codec, entries)), Line(codec, d));
  }

  lemma FoundLineHasEntry(codec: Codec, entries: seq<Entry>, l: string) returns (f: Entry)
    requires Sound(codec) && (forall d :: d in entries ==> TidyEntry(d)) && l in LinesOf(IndexFile(codec, entries))
    ensures f in entries && Line(codec, f) == l
  {
    ReaderFindsSortedLines(codec, entries);
    SortSorts(Lines(codec, entries));
    MembersOf(Sort(Lines(codec, entries)), Lines(codec, entries), l);
    EntryLine(codec, entries, l);
    f :| f in entries && Line(codec, f) == l;
  }

  /** The line of this record of the target key is not above any line that a meeting key puts under the target. */
  predicate Unbeaten(codec: Codec, entries: seq<Entry>, e: Entry) {
    forall f :: f in entries && Meet(e.key, f.key) && e.key <= Line(codec, f) ==> Leq(Line(codec, e), Line(codec, f))
  }

  /** The search answers with a line whose key is exactly the target. */
  predicate FindsKey(codec: Codec, entries: seq<Entry>, target: string) {
    exists e :: e in entries && e.key == target && FindLine(LinesOf(IndexFile(codec, entries)), target) == Some(Line(codec, e))
  }

  /** Whatever is found under the target, if it has another key, beats the target's records. */
  lemma FoundBeatsOthers(codec: Codec, entries: seq<Entry>, e: Entry) returns (f: Entry)
    requires Sound(codec) && (forall d :: d in entries ==> TidyEntry(d)) && e in entries
    ensures f in entries && FindLine(LinesOf(IndexFile(codec, entries)), e.key) == Some(Line(codec, f))
    ensures forall d :: d in entries && e.key <= Line(codec, d) ==> Leq(Line(codec, f), Line(codec, d))
    ensures e.key <= Line(codec, f) && (f.key == e.key || Meet(e.key, f.key))
  {
    var found := LinesOf(IndexFile(codec, entries));
    ReaderFindsSortedLines(codec, entries);
    FindLineExact(found, e.key);
    KeyLinesAreFound(codec, entries, e);
    f := FoundLineHasEntry(codec, entries, FindLine(found, e.key).value);
    if f.key != e.key && !Meet(e.key, f.key) {
      LongerKeySortsLater(codec, e, f);
    }
    forall d | d in entries && e.key <= Line(codec, d) ensures Leq(Line(codec, f), Line(codec, d)) {
      KeyLinesAreFound(codec, entries, d);
    }
  }

  /**
   Exactly when the search finds the target key: when one of its records is
   beaten by no record whose key meets it.
   */
  lemma KeyIsExactIffUnbeaten(codec: Codec, entries: seq<Entry>, target: string)
    requires Sound(codec) && forall e :: e in entries ==> TidyEntry(e)
    ensures FindsKey(codec, entries, target) <==> exists e :: e in entries && e.key == target && Unbeaten(codec, entries, e)
  {
    if e :| e in entries && e.key == target && Unbeaten(codec, entries, e) {
      var f := FoundBeatsOthers(codec, entries, e);
      KeyLinesAreFound(codec, entries, e);
      if f.key != target {
        LeqAntisymmetric(Line(codec, e), Line(codec, f));
      }
    }
    if e :| e in entries && e.key == target && FindLine(LinesOf(IndexFile(codec, entries)), target) == Some(Line(codec, e)) {
      var f := FoundBeatsOthers(codec, entries, e);
    }
  }

  /** No written key meets the target, as when no query holds a space. */
  predicate Clear(entries: seq<Entry>, target: string) {
    forall f :: f in entries ==> !Meet(target, f.key)
  }

  /** Then the search answers with the target key if and only if it was written. */
  lemma KeyIsExactIffWritten(codec: Codec, entries: seq<Entry>, target: string)
    requires Sound(codec) && (forall e :: e in entries ==> TidyEntry(e)) && Clear(entries, target)
    ensures (exists e :: e in entries && e.key == target) <==> FindsKey(codec, entries, target)
  {
    if e :| e in entries && e.key == target {
      assert Unbeaten(codec, entries, e);
    }
    KeyIsExactIffUnbeaten(codec, entries, target);
  }

  /** A query with a space steals the look-up of the URL it extends: the search for the one finds the other's line. */
  lemma SpaceStealsLookup(codec: Codec, e: Entry, f: Entry)
    requires Sound(codec) && TidyEntry(e) && TidyEntry(f)
    requires e.key == "k)/?c" && f.key == "k)/?c 1" && e.stamp != "" && e.stamp[0] == '2'
    ensures FindLine(LinesOf(IndexFile(codec, [e, f])), e.key) == Some(Line(codec, f))
    ensures !FindsKey(codec, [e, f], e.key)
  {
    var tail, tail' := e.stamp + " " + codec.marshal(e), "1 " + f.stamp + " " + codec.marshal(f);
    var p := "k)/?c ";
    assert Line(codec, e) == p + tail;
    assert Line(codec, f) == p + tail';
    ByNextChar(p, tail', tail);
    var found := FoundBeatsOthers(codec, [e, f], e);
    KeyLinesAreFound(codec, [e, f], e);
    assert f in [e, f] && e.key <= Line(codec, f);
    if found == e {
      assert false;
    }
  }

  /** The entry found for a clear written key: its line is the least among the lines of that key. */
  lemma LeastOfKey(codec: Codec, entries: seq<Entry>, e: Entry) returns (f: Entry)
    requires Sound(codec) && (forall d :: d in entries ==> TidyEntry(d)) && e in entries && Clear(entries, e.key)
    ensures f in entries && f.key == e.key
    ensures FindLine(LinesOf(IndexFile(codec, entries)), e.key) == Some(Line(codec, f))
    ensures forall d :: d in entries && d.key == e.key ==> Leq(Line(codec, f), Line(codec, d))
  {
    f := FoundBeatsOthers(codec, entries, e);
    forall d | d in entries && d.key == e.key ensures e.key <= Line(codec, d) {
      KeyLinesAreFound(codec, entries, d);
    }
  }

  // Writer

  /** One AddRecord: a record written in full, or a failed write that left some bytes behind. */
  datatype Op = Write(record: Record) | Torn(partial: string)

  datatype Record = Record(key: string, stamp: string, payload: string, info: string)

  datatype Ledger = Ledger(stream: string, entries: seq<Entry>, offset: nat)

  const EMPTY := Ledger("", [], 0)

  function Add(l: Ledger, op: Op): Ledger {
    match op
    case Write(r) =>
      var n := |r.payload|;
      Ledger(l.stream + r.payload, l.entries + [Entry(r.key, r.stamp, l.offset, n, r.info)], l.offset + n)
    case Torn(partial) => l.(stream := l.stream + partial)
  }

  function LedgerAfter(ops: seq<Op>): Ledger {
    if ops == [] then EMPTY else Add(LedgerAfter(ops[..|ops| - 1]), ops[|ops| - 1])
  }

  /** The records written in full, in order. */
  function Written(ops: seq<Op>): seq<Record> {
    if ops == [] then []
    else
      var before, op := Written(ops[..|ops| - 1]), ops[|ops| - 1];
      if op.Write? then before + [op.record] else before
  }

  /** Bytes that failed writes left in the stream. */
  function TornBytes(ops: seq<Op>): nat {
    if ops == [] then 0
    else
      TornBytes(ops[..|ops| - 1]) + match ops[|ops| - 1] case Torn(p) => |p| case Write(_) => 0
  }

  /** Of those, the bytes before the k-th full record. */
  function TornBefore(ops: seq<Op>, k: nat): nat {
    if ops == [] then 0
    else if k < |Written(ops[..|ops| - 1])| then TornBefore(ops[..|ops| - 1], k)
    else TornBytes(ops[..|ops| - 1])
  }

  class Writer {
    var stream: string
    var indexEntries: seq<Entry>
    var warcOffset: nat

    constructor ()
      ensures View() == EMPTY
    {
      stream, indexEntries, warcOffset := "", [], 0;
    }

    function View(): Ledger
      reads this
    {
      Ledger(stream, indexEntries, warcOffset)
    }

    /** `ok` and `n` are the WARC library's: on failure the first `n` bytes were already written. */
    method AddRecord(key: string, stamp: string, payload: string, info: string, ok: bool, n: nat)
      requires n <= |payload|
      modifies this
      ensures View() == Add(old(View()), if ok then Write(Record(key, stamp, payload, info)) else Torn(payload[..n]))
    {
      if !ok {
        stream := stream + payload[..n];
        return;
      }
      stream := stream + payload;
      var recordLen := |payload|;
      indexEntries := indexEntries + [Entry(key, stamp, warcOffset, recordLen, info)];
      warcOffset := warcOffset + recordLen;
    }

    method CreateIndex(codec: Codec) returns (file: string)
      ensures file == IndexFile(codec, indexEntries)
    {
      var cdx := [];
      for i := 0 to |indexEntries|
        invariant cdx == Terminated(Lines(codec, indexEntries))[..i]
      {
        cdx := cdx + [Line(codec, indexEntries[i]) + "\n"];
      }
      assert cdx == Terminated(Lines(codec, indexEntries));
      cdx := Sort(cdx);
      file := "";
      for i := 0 to |cdx|
        invariant file + Concat(cdx[i..]) == Concat(cdx)
      {
        file := file + cdx[i];
        assert cdx[i..][1..] == cdx[i + 1..];
      }
      assert cdx[|cdx|..] == [];
    }
  }

  /** The entry describes the record, and the stream holds its bytes `shift` positions after the recorded offset. */
  predicate Ranges(stream: string, e: Entry, r: Record, shift: nat) {
    && e.key == r.key && e.stamp == r.stamp && e.info == r.info && e.length == |r.payload|
    && e.offset + shift + e.length <= |stream|
    && stream[e.offset + shift..e.offset + shift + e.length] == r.payload
  }

  lemma RangesExtend(stream: string, more: string, e: Entry, r: Record, shift: nat)
    requires Ranges(stream, e, r, shift)
    ensures Ranges(stream + more, e, r, shift)
  {
    var p := e.offset + shift;
    assert (stream + more)[p..p + e.length] == stream[p..p + e.length];
  }

  lemma NewRange(l: Ledger, r: Record, torn: nat)
    requires |l.stream| == l.offset + torn
    ensures var l' := Add(l, Write(r));
            Ranges(l'.stream, l'.entries[|l.entries|], r, torn)
  {
    assert (l.stream + r.payload)[|l.stream|..|l.stream| + |r.payload|] == r.payload;
  }

  lemma AddExtends(l: Ledger, op: Op) returns (more: string)
    ensures var l' := Add(l, op);
            l'.stream == l.stream + more && l.entries <= l'.entries
  {
    more := match op case Write(r) => r.payload case Torn(p) => p;
  }

  /** Every entry's range, shifted by the torn bytes before it, holds exactly the record's bytes. */
  lemma {:induction false} RangesHoldPayloads(ops: seq<Op>, k: nat)
    requires k < |Written(ops)|
    ensures |LedgerAfter(ops).entries| == |Written(ops)|
    ensures Ranges(LedgerAfter(ops).stream, LedgerAfter(ops).entries[k], Written(ops)[k], TornBefore(ops, k))
    decreases |ops|
  {
    var before, op := ops[..|ops| - 1], ops[|ops| - 1];
    OffsetLag(before);
    OffsetLag(ops);
    var l := LedgerAfter(before);
    if k < |Written(before)| {
      RangesHoldPayloads(before, k);
      var more := AddExtends(l, op);
      RangesExtend(l.stream, more, l.entries[k], Written(before)[k], TornBefore(before, k));
    } else {
      NewRange(l, op.record, TornBytes(before));
    }
  }

  lemma {:induction false} OffsetLag(ops: seq<Op>)
    ensures |LedgerAfter(ops).stream| == LedgerAfter(ops).offset + TornBytes(ops)
    ensures |LedgerAfter(ops).entries| == |Written(ops)|
    ensures Written(ops) == [] ==> LedgerAfter(ops).offset == 0
  {
    if ops != [] {
      OffsetLag(ops[..|ops| - 1]);
    }
  }

  /** Without torn writes the ranges tile the stream: each starts where the previous one ends, the last at its end. */
  lemma {:induction false} RangesTile(ops: seq<Op>, k: nat)
    requires TornBytes(ops) == 0 && k < |Written(ops)|
    ensures var l := LedgerAfter(ops);
            && |l.entries| == |Written(ops)|
            && (k == 0 ==> l.entries[k].offset == 0)
            && (k > 0 ==> l.entries[k].offset == l.entries[k - 1].offset + l.entries[k - 1].length)
            && (k == |l.entries| - 1 ==> l.entries[k].offset + l.entries[k].length == |l.stream|)
            && l.offset == |l.stream|
    decreases |ops|
  {
    var before := ops[..|ops| - 1];
    OffsetLag(before);
    if k < |Written(before)| {
      RangesTile(before, k);
    } else if k > 0 {
      RangesTile(before, k - 1);
    }
  }

  lemma {:induction false} TornBeforeAtMost(ops: seq<Op>, k: nat)
    ensures TornBefore(ops, k) <= TornBytes(ops)
  {
    if ops != [] {
      TornBeforeAtMost(ops[..|ops| - 1], k);
    }
  }

  lemma RangeReadBack(codec: Codec, e: Entry)
    requires Sound(codec) && TidyEntry(e) && '{' !in e.key
    ensures RangeOf(codec, Line(codec, e)) == Some((e.offset, e.length))
  {
    var head := e.key + " " + e.stamp + " ";
    assert Line(codec, e) == head + codec.marshal(e);
    IndexOfAfter(head, codec.marshal(e), '{');
    assert Line(codec, e)[|head|..] == codec.marshal(e);
  }

  /** Where the k-th full record starts in the stream. */
  function StartOf(ops: seq<Op>, k: nat): nat {
    if ops == [] then 0
    else
      var before := ops[..|ops| - 1];
      if k < |Written(before)| then StartOf(before, k) else |LedgerAfter(before).stream|
  }

  /** The index places each record too early, by the torn bytes before it. */
  lemma {:induction false} OffsetIsEarly(ops: seq<Op>, k: nat)
    requires k < |Written(ops)|
    ensures |LedgerAfter(ops).entries| == |Written(ops)|
    ensures StartOf(ops, k) == LedgerAfter(ops).entries[k].offset + TornBefore(ops, k)
  {
    var before := ops[..|ops| - 1];
    OffsetLag(before);
    OffsetLag(ops);
    if k < |Written(before)| {
      OffsetIsEarly(before, k);
    }
  }

  /** The container that holds what a writer wrote. */
  function Packed(codec: Codec, l: Ledger, before: string, after: string): Wacz {
    Wacz(before, l.stream, after, IndexFile(codec, l.entries))
  }

  lemma ReadAt(codec: Codec, w: Wacz, f: Entry)
    requires Sound(codec) && TidyEntry(f) && '{' !in f.key && f.offset + f.length <= |w.stream|
    requires FindLine(LinesOf(w.index), f.key) == Some(Line(codec, f))
    ensures Read(codec, w, f.key) == Content(w.stream[f.offset..f.offset + f.length])
  {
    RangeReadBack(codec, f);
    SliceOfStream(w, f.offset, f.length);
  }

  /**
   The result has as many bytes as the record, from `torn` bytes before its
   start: the range is the record's own exactly if no write before it was torn,
   and then the bytes are the record's.
   */
  predicate ReadsRange(stream: string, payload: string, start: nat, torn: nat, result: ReadResult) {
    var from, n := start - torn, |payload|;
    && 0 <= from && from + n <= |stream|
    && result == Content(stream[from..from + n])
    && (from == start <==> torn == 0)
    && (torn == 0 ==> stream[from..from + n] == payload)
  }

  predicate RangeIs(codec: Codec, ops: seq<Op>, k: nat, before: string, after: string)
    requires k < |Written(ops)|
  {
    ReadsRange(LedgerAfter(ops).stream, Written(ops)[k].payload, StartOf(ops, k), TornBefore(ops, k),
               Read(codec, Packed(codec, LedgerAfter(ops), before, after), Written(ops)[k].key))
  }

  lemma EntryRange(stream: string, e: Entry, r: Record, start: nat, torn: nat, result: ReadResult)
    requires Ranges(stream, e, r, torn) && start == e.offset + torn
    requires e.offset + e.length <= |stream| ==> result == Content(stream[e.offset..e.offset + e.length])
    ensures ReadsRange(stream, r.payload, start, torn, result)
  {
  }

  lemma RecordReadBack(codec: Codec, w: Wacz, e: Entry, r: Record, start: nat, torn: nat)
    requires Sound(codec) && TidyEntry(e) && '{' !in e.key && Ranges(w.stream, e, r, torn) && start == e.offset + torn
    requires FindLine(LinesOf(w.index), e.key) == Some(Line(codec, e))
    ensures ReadsRange(w.stream, r.payload, start, torn, Read(codec, w, r.key))
  {
    ReadAt(codec, w, e);
    EntryRange(w.stream, e, r, start, torn, Read(codec, w, e.key));
  }

  /** The record that the look-up of a written key finds: the one whose index line sorts least. */
  ghost predicate Finds(codec: Codec, entries: seq<Entry>, e: Entry) {
    && FindLine(LinesOf(IndexFile(codec, entries)), e.key) == Some(Line(codec, e))
    && forall d :: d in entries && d.key == e.key ==> Leq(Line(codec, e), Line(codec, d))
  }

  lemma FoundRecord(codec: Codec, ops: seq<Op>, i: nat) returns (k: nat)
    requires Sound(codec) && forall e :: e in LedgerAfter(ops).entries ==> TidyEntry(e)
    requires i < |Written(ops)| && Clear(LedgerAfter(ops).entries, Written(ops)[i].key)
    ensures k < |Written(ops)| == |LedgerAfter(ops).entries|
    ensures LedgerAfter(ops).entries[k].key == Written(ops)[i].key && Finds(codec, LedgerAfter(ops).entries, LedgerAfter(ops).entries[k])
  {
    var entries := LedgerAfter(ops).entries;
    RangesHoldPayloads(ops, i);
    var f := LeastOfKey(codec, entries, entries[i]);
    k :| 0 <= k < |entries| && entries[k] == f;
  }

  /**
   Round trip, with its exact outcome: reading a written key reads the range of
   one of its records, the one whose index line sorts least.
   */
  lemma ReadsBackWhatWasWritten(codec: Codec, ops: seq<Op>, i: nat, before: string, after: string) returns (k: nat)
    requires Sound(codec) && forall e :: e in LedgerAfter(ops).entries ==> TidyEntry(e)
    requires i < |Written(ops)| && '{' !in Written(ops)[i].key
    requires Clear(LedgerAfter(ops).entries, Written(ops)[i].key)
    ensures k < |Written(ops)| == |LedgerAfter(ops).entries|
    ensures Written(ops)[k].key == Written(ops)[i].key && Finds(codec, LedgerAfter(ops).entries, LedgerAfter(ops).entries[k])
    ensures RangeIs(codec, ops, k, before, after)
  {
    k := FoundRecord(codec, ops, i);
    var l := LedgerAfter(ops);
    assert TidyEntry(l.entries[k]);
    FoundRange(codec, ops, k, before, after);
  }

  lemma FoundRange(codec: Codec, ops: seq<Op>, k: nat, before: string, after: string)
    requires Sound(codec) && k < |Written(ops)| == |LedgerAfter(ops).entries|
    requires var e := LedgerAfter(ops).entries[k];
             TidyEntry(e) && '{' !in e.key && Finds(codec, LedgerAfter(ops).entries, e)
    ensures Written(ops)[k].key == LedgerAfter(ops).entries[k].key
    ensures RangeIs(codec, ops, k, before, after)
  {
    RangesHoldPayloads(ops, k);
    OffsetIsEarly(ops, k);
    RecordReadBack(codec, Packed(codec, LedgerAfter(ops), before, after), LedgerAfter(ops).entries[k], Written(ops)[k],
                   StartOf(ops, k), TornBefore(ops, k));
  }

  lemma TornLedger(r: Record)
    requires |r.payload| == 2
    ensures var ops := [Torn("x"), Write(r)];
            && LedgerAfter(ops) == Ledger("x" + r.payload, [Entry(r.key, r.stamp, 0, 2, r.info)], 2)
            && Written(ops) == [r]
  {
    var ops := [Torn("x"), Write(r)];
    assert ops[..1] == [Torn("x")] && [Torn("x")][..0] == [];
    assert LedgerAfter([Torn("x")]) == Ledger("x", [], 0);
  }

  /** A torn byte makes the read return other bytes than were written. */
  lemma TornWriteBreaksRoundTrip(codec: Codec, r: Record, before: string, after: string)
    requires Sound(codec) && r.payload == "ab"
    requires TidyEntry(Entry(r.key, r.stamp, 0, 2, r.info)) && '{' !in r.key
    ensures var l := LedgerAfter([Torn("x"), Write(r)]);
            Read(codec, Packed(codec, l, before, after), r.key) == Content("xa")
  {
    var e := Entry(r.key, r.stamp, 0, 2, r.info);
    TornLedger(r);
    var l := Ledger("x" + "ab", [e], 2);
    var f := LeastOfKey(codec, l.entries, e);
    ReadAt(codec, Packed(codec, l, before, after), e);
    assert l.stream[0..2] == "xa";
  }
}
