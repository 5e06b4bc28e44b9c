/** The CDXJ line index of a WACZ archive: search keys, lines, the index file and the search in it. */
module ArchiveIndex {
  import opened Requests
  import opened LexOrder
  import opened Strings

  // Splitting and joining

  /** strings.Split for a one-character separator: at least one part, separators dropped. */
  function Split(s: string, sep: char): (parts: seq<string>)
    ensures |parts| > 0
  {
    if s == [] then [""]
    else
      var rest := Split(s[1..], sep);
      if s[0] == sep then [""] + rest else [[s[0]] + rest[0]] + rest[1..]
  }

  function Join(parts: seq<string>, sep: string): string {
    if parts == [] then ""
    else if |parts| == 1 then parts[0]
    else parts[0] + sep + Join(parts[1..], sep)
  }

  /** A separator-free first part followed by a separator is split off. */
  lemma {:induction false} SplitOff(a: string, sep: char, rest: string)
    requires sep !in a
    ensures Split(a + [sep] + rest, sep) == [a] + Split(rest, sep)
  {
    var s := a + [sep] + rest;
    if a == [] {
      assert s[1..] == rest;
    } else {
      assert s[1..] == a[1..] + [sep] + rest && s[0] == a[0];
      SplitOff(a[1..], sep, rest);
      assert [a[0]] + a[1..] == a;
    }
  }

  lemma {:induction false} SplitWhole(a: string, sep: char)
    requires sep !in a
    ensures Split(a, sep) == [a]
  {
    if a != [] {
      SplitWhole(a[1..], sep);
      assert [a[0]] + a[1..] == a;
    }
  }

  lemma {:induction false} SplitJoin(parts: seq<string>, sep: char)
    requires parts != [] && forall p :: p in parts ==> sep !in p
    ensures Split(Join(parts, [sep]), sep) == parts
  {
    if |parts| == 1 {
      SplitWhole(parts[0], sep);
    } else {
      SplitOff(parts[0], sep, Join(parts[1..], [sep]));
      SplitJoin(parts[1..], sep);
      assert parts == [parts[0]] + parts[1..];
    }
  }

  lemma {:induction false} JoinSplit(s: string, sep: char)
    ensures Join(Split(s, sep), [sep]) == s
    ensures forall p :: p in Split(s, sep) ==> sep !in p && forall c :: c in p ==> c in s
  {
    if s != [] {
      JoinSplit(s[1..], sep);
      var rest := Split(s[1..], sep);
      assert s == [s[0]] + s[1..];
      assert rest == [rest[0]] + rest[1..];
      if s[0] == sep {
        assert Join([""] + rest, [sep]) == "" + [sep] + Join(rest, [sep]);
      } else {
        var parts := [[s[0]] + rest[0]] + rest[1..];
        assert parts[1..] == rest[1..];
        forall p | p in parts ensures sep !in p && forall c :: c in p ==> c in s {
          assert p == [s[0]] + rest[0] || p in rest;
          assert rest[0] in rest;
        }
      }
    }
  }

  // Search keys

  function Reverse(parts: seq<string>): seq<string> {
    if parts == [] then [] else Reverse(parts[1..]) + [parts[0]]
  }

  lemma {:induction false} ReverseTwice(parts: seq<string>)
    ensures Reverse(Reverse(parts)) == parts
    ensures forall p :: p in Reverse(parts) <==> p in parts
  {
    if parts != [] {
      ReverseTwice(parts[1..]);
      ReverseAppend(Reverse(parts[1..]), parts[0]);
      assert parts == [parts[0]] + parts[1..];
    }
  }

  lemma {:induction false} ReverseAppend(parts: seq<string>, p: string)
    ensures Reverse(parts + [p]) == [p] + Reverse(parts)
  {
    if parts != [] {
      assert (parts + [p])[1..] == parts[1..] + [p];
      ReverseAppend(parts[1..], p);
    }
  }

  /** The host's labels in reverse order, joined by commas. */
  function ReversedText(host: string): string {
    Join(Reverse(Split(host, '.')), ",")
  }

  /** Reversed host, a closing parenthesis, the request URI. */
  function SearchKey(host: string, requestURI: string): string {
    ReversedText(host) + ")" + requestURI
  }

  /** The authority of a URL ends at the first slash, and a request URI starts with one. */
  predicate Parsed(host: string, requestURI: string) {
    '/' !in host && requestURI != "" && requestURI[0] == '/'
  }

  lemma {:induction false} JoinChars(parts: seq<string>, sep: string, c: char)
    requires c in Join(parts, sep)
    ensures c in sep || exists p :: p in parts && c in p
  {
    if |parts| > 1 && c !in parts[0] && c !in sep {
      JoinChars(parts[1..], sep, c);
    }
  }

  /** The reversed text has no dots and, commas aside, only characters of the host. */
  lemma ReversedChars(host: string, c: char)
    requires c in ReversedText(host)
    ensures c != '.' && (c in host || c == ',')
  {
    var labels := Split(host, '.');
    JoinSplit(host, '.');
    ReverseTwice(labels);
    JoinChars(Reverse(labels), ",", c);
    if c != ',' {
      var p :| p in Reverse(labels) && c in p;
      assert p in labels;
    }
  }

  lemma KeysSplit(h: string, u: string, h': string, u': string)
    requires Parsed(h, u) && Parsed(h', u')
    ensures SearchKey(h, u) == SearchKey(h', u') <==> ReversedText(h) == ReversedText(h') && u == u'
  {
    if SearchKey(h, u) == SearchKey(h', u') {
      var a, a' := ReversedText(h) + ")", ReversedText(h') + ")";
      if '/' in a {
        ReversedChars(h, '/');
      }
      if '/' in a' {
        ReversedChars(h', '/');
      }
      assert u == "/" + u[1..] && u' == "/" + u'[1..];
      assert a + "/" + u[1..] == SearchKey(h, u) && a' + "/" + u'[1..] == SearchKey(h', u');
      CutAt(a, u[1..], a', u'[1..], '/');
      assert a[..|a| - 1] == ReversedText(h) && a'[..|a'| - 1] == ReversedText(h');
    }
  }

  lemma ReverseOne(p: string)
    ensures Reverse([p]) == [p]
  {
    assert [p][1..] == [];
  }

  lemma {:induction false} ReverseLength(parts: seq<string>)
    ensures |Reverse(parts)| == |parts|
  {
    if parts != [] {
      ReverseLength(parts[1..]);
    }
  }

  lemma Undotted(host: string)
    requires '.' !in host
    ensures ReversedText(host) == host
  {
    SplitWhole(host, '.');
    ReverseOne(host);
  }

  lemma {:induction false} ManyLabels(host: string)
    ensures '.' in host ==> |Split(host, '.')| > 1
  {
    if host != [] {
      ManyLabels(host[1..]);
    }
  }

  lemma Dotted(host: string)
    requires '.' in host
    ensures ',' in ReversedText(host)
  {
    var labels := Split(host, '.');
    ManyLabels(host);
    ReverseLength(labels);
    var reversed := Reverse(labels);
    assert Join(reversed, ",") == reversed[0] + "," + Join(reversed[1..], ",");
    assert (reversed[0] + "," + Join(reversed[1..], ","))[|reversed[0]|] == ',';
  }

  /** The host without commas that has a given reversed text. */
  function Restored(text: string): string {
    Join(Reverse(Split(text, ',')), ".")
  }

  lemma RestoredHost(text: string)
    requires '.' !in text
    ensures ReversedText(Restored(text)) == text && ',' !in Restored(text)
    ensures forall c :: c in Restored(text) ==> c == '.' || c in text
  {
    var labels := Split(text, ',');
    JoinSplit(text, ',');
    ReverseTwice(labels);
    ReverseLength(labels);
    SplitJoin(Reverse(labels), '.');
    forall c | c in Restored(text) ensures c != ',' && (c == '.' || c in text) {
      JoinChars(Reverse(labels), ".", c);
      if c != '.' {
        var p :| p in Reverse(labels) && c in p;
        assert p in labels;
      }
    }
  }

  /** A host without commas is restored from its reversed text. */
  lemma CommaFreeHost(host: string)
    requires ',' !in host
    ensures Restored(ReversedText(host)) == host
  {
    var labels := Split(host, '.');
    JoinSplit(host, '.');
    ReverseTwice(labels);
    ReverseTwice(Reverse(labels));
    ReverseLength(labels);
    forall p | p in Reverse(labels) ensures ',' !in p {
      assert p in labels;
    }
    SplitJoin(Reverse(labels), ',');
  }

  /** Two URLs whose hosts have no comma share a search key exactly when host and request URI agree. */
  lemma SearchKeyInjective(h: string, u: string, h': string, u': string)
    requires Parsed(h, u) && Parsed(h', u')
    requires ',' !in h && ',' !in h'
    ensures SearchKey(h, u) == SearchKey(h', u') <==> h == h' && u == u'
  {
    KeysSplit(h, u, h', u');
    CommaFreeHost(h);
    CommaFreeHost(h');
  }

  /** Commas are legal in hosts: every host with a dot or a comma, and no other, shares its keys with another host. */
  lemma HostSharesKeysIff(h: string)
    requires '/' !in h
    ensures (exists h' :: SameKeys(h, h') && h' != h) <==> '.' in h || ',' in h
  {
    var text := ReversedText(h);
    forall c | c in text ensures c != '.' && c != '/' {
      ReversedChars(h, c);
    }
    if ',' in h {
      RestoredHost(text);
      assert SameKeys(h, Restored(text)) && Restored(text) != h;
    } else if '.' in h {
      Dotted(h);
      Undotted(text);
      assert SameKeys(h, text) && text != h;
    } else {
      Undotted(h);
      forall h' | SameKeys(h, h') ensures h' == h {
        if '.' in h' {
          Dotted(h');
        } else {
          Undotted(h');
        }
      }
    }
  }

  /** Two hosts with one search key. */
  lemma CommaHostCollides(requestURI: string)
    ensures SearchKey("a,b", requestURI) == SearchKey("b.a", requestURI)
  {
    Undotted("a,b");
    SplitOff("b", '.', "a");
    SplitWhole("a", '.');
    assert "b" + "." + "a" == "b.a" && ["b", "a"][1..] == ["a"] && ["a"][1..] == [];
    assert Reverse(["b", "a"]) == ["a", "b"] && ["a", "b"][1..] == ["b"];
    assert Join(["a", "b"], ",") == "a" + "," + "b" == "a,b";
  }

  predicate SameKeys(h: string, h': string) {
    '/' !in h' && ReversedText(h) == ReversedText(h')
  }

  // Index lines

  /** One index record; `info` stands for the JSON fields other than the range. */
  datatype Entry = Entry(key: string, stamp: string, offset: nat, length: nat, info: string)

  /** JSON marshalling as a given pair of functions. */
  datatype Codec = Codec(marshal: Entry -> string, unmarshal: string -> Option<(nat, nat)>)

  /** What the JSON library guarantees: an object in printable characters, and its range back. */
  ghost predicate Sound(codec: Codec) {
    forall e: Entry ::
      && codec.marshal(e) != "" && codec.marshal(e)[0] == '{' && Printable(codec.marshal(e))
      && codec.unmarshal(codec.marshal(e)) == Some((e.offset, e.length))
  }

  function Line(codec: Codec, e: Entry): string {
    e.key + " " + e.stamp + " " + codec.marshal(e)
  }

  /**
   What url.Parse and the time layout guarantee of the text before the JSON object.
   Control characters are refused in URLs, but a query keeps its spaces.
   */
  predicate TidyEntry(e: Entry) {
    ')' in e.key && Printable(e.key) && Printable(e.stamp) && '{' !in e.stamp
  }

  function Lines(codec: Codec, entries: seq<Entry>): seq<string> {
    seq(|entries|, i requires 0 <= i < |entries| => Line(codec, entries[i]))
  }

  function Terminated(lines: seq<string>): seq<string> {
    seq(|lines|, i requires 0 <= i < |lines| => lines[i] + "\n")
  }

  function Concat(lines: seq<string>): string {
    if lines == [] then "" else lines[0] + Concat(lines[1..])
  }

  /** The index file: terminated lines, sorted with their line feeds, then written one after another. */
  function IndexFile(codec: Codec, entries: seq<Entry>): string {
    Concat(Sort(Terminated(Lines(codec, entries))))
  }

  predicate Blank(line: string) {
    forall c :: c in line ==> IsSpace(c)
  }

  function NonBlank(parts: seq<string>): seq<string> {
    if parts == [] then []
    else
      var rest := NonBlank(parts[..|parts| - 1]);
      if Blank(parts[|parts| - 1]) then rest else rest + [parts[|parts| - 1]]
  }

  /** The lines the reader finds in an index file. */
  function LinesOf(buffer: string): seq<string> {
    NonBlank(Split(buffer, '\n'))
  }

  predicate TidyLine(line: string) {
    Printable(line) && ')' in line
  }

  lemma {:induction false} SplitTerminated(lines: seq<string>)
    requires forall l :: l in lines ==> '\n' !in l
    ensures Split(Concat(Terminated(lines)), '\n') == lines + [""]
  {
    if lines != [] {
      SplitTerminated(lines[1..]);
      assert Terminated(lines)[1..] == Terminated(lines[1..]);
      SplitOff(lines[0], '\n', Concat(Terminated(lines[1..])));
      assert lines[0] + "\n" + Concat(Terminated(lines[1..])) == Concat(Terminated(lines));
      assert [lines[0]] + (lines[1..] + [""]) == lines + [""];
    }
  }

  lemma {:induction false} NothingBlank(lines: seq<string>)
    requires forall l :: l in lines ==> !Blank(l)
    ensures NonBlank(lines) == lines
  {
    if lines != [] {
      var front := lines[..|lines| - 1];
      forall l | l in front ensures !Blank(l) {}
      NothingBlank(front);
      assert lines[|lines| - 1] in lines;
    }
  }

  /** Reading back what was written gives the lines, whatever their order. */
  lemma LinesReadBack(lines: seq<string>)
    requires forall l :: l in lines ==> TidyLine(l)
    ensures LinesOf(Concat(Terminated(lines))) == lines
  {
    forall l | l in lines ensures '\n' !in l && !Blank(l) {
      assert TidyLine(l) && !IsSpace(')');
    }
    SplitTerminated(lines);
    assert (lines + [""])[..|lines|] == lines;
    NothingBlank(lines);
  }

  // Sorting with line feeds and sorting without agree on tidy lines.

  lemma SortedTerminated(lines: seq<string>)
    requires Sorted(Terminated(lines)) && forall l :: l in lines ==> Printable(l)
    ensures Sorted(lines)
  {
    forall i, j | 0 <= i < j < |lines| ensures Leq(lines[i], lines[j]) {
      assert Terminated(lines)[i] == lines[i] + "\n" && Terminated(lines)[j] == lines[j] + "\n";
      assert lines[i] in lines && lines[j] in lines;
      DropLineFeed(lines[i], lines[j]);
    }
  }

  lemma {:induction false} InsertTerminated(x: string, lines: seq<string>) returns (found: seq<string>)
    ensures Insert(x + "\n", Terminated(lines)) == Terminated(found)
    ensures multiset(found) == multiset(lines) + multiset{x}
  {
    var t := Terminated(lines);
    if lines == [] {
      found := [x];
      assert Terminated([x]) == [x + "\n"];
    } else if Leq(x + "\n", t[0]) {
      found := [x] + lines;
      assert Terminated(found) == [x + "\n"] + t;
    } else {
      assert t[1..] == Terminated(lines[1..]);
      var rest := InsertTerminated(x, lines[1..]);
      found := [lines[0]] + rest;
      assert Terminated(found) == [t[0]] + Terminated(rest);
      assert lines == [lines[0]] + lines[1..];
    }
  }

  lemma {:induction false} SortTerminated(lines: seq<string>) returns (sorted: seq<string>)
    ensures Sort(Terminated(lines)) == Terminated(sorted)
    ensures multiset(sorted) == multiset(lines)
  {
    if lines == [] {
      sorted := [];
    } else {
      assert Terminated(lines)[1..] == Terminated(lines[1..]);
      var rest := SortTerminated(lines[1..]);
      sorted := InsertTerminated(lines[0], rest);
      assert lines == [lines[0]] + lines[1..];
    }
  }

  /** The reader finds exactly the written lines, in order: splitting keeps them sorted. */
  lemma ReaderFindsSortedLines(codec: Codec, entries: seq<Entry>)
    requires Sound(codec) && forall e :: e in entries ==> TidyEntry(e)
    ensures LinesOf(IndexFile(codec, entries)) == Sort(Lines(codec, entries))
    ensures Sorted(LinesOf(IndexFile(codec, entries)))
  {
    var lines := Lines(codec, entries);
    var found := SortTerminated(lines);
    SortSorts(Terminated(lines));
    SortSorts(lines);
    forall l | l in found ensures TidyLine(l) {
      MembersOf(found, lines, l);
      var i :| 0 <= i < |lines| && lines[i] == l;
      assert entries[i] in entries;
      LineIsTidy(codec, entries[i]);
    }
    LinesReadBack(found);
    SortedTerminated(found);
    SortIsUnique(found, Sort(lines));
  }

  lemma LineIsTidy(codec: Codec, e: Entry)
    requires Sound(codec) && TidyEntry(e)
    ensures TidyLine(Line(codec, e))
  {
    var line := Line(codec, e);
    assert ')' in e.key;
    forall c | c in line ensures c >= ' ' {
      assert c in e.key || c == ' ' || c in e.stamp || c in codec.marshal(e);
    }
  }
}
