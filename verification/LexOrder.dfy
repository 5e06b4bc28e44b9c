/** Byte-wise lexicographic order on strings, sorting, and prefix search in a sorted list. */
module LexOrder {

  predicate Leq(a: string, b: string) {
    a == [] || (b != [] && (a[0] < b[0] || (a[0] == b[0] && Leq(a[1..], b[1..]))))
  }

  lemma {:induction false} LeqReflexive(a: string)
    ensures Leq(a, a)
  {
    if a != [] {
      LeqReflexive(a[1..]);
    }
  }

  lemma {:induction false} LeqTotal(a: string, b: string)
    ensures Leq(a, b) || Leq(b, a)
  {
    if a != [] && b != [] {
      LeqTotal(a[1..], b[1..]);
    }
  }

  lemma {:induction false} LeqTransitive(a: string, b: string, c: string)
    requires Leq(a, b) && Leq(b, c)
    ensures Leq(a, c)
  {
    if a != [] && a[0] == b[0] == c[0] {
      LeqTransitive(a[1..], b[1..], c[1..]);
    }
  }

  lemma {:induction false} LeqAntisymmetric(a: string, b: string)
    requires Leq(a, b) && Leq(b, a)
    ensures a == b
  {
    if a != [] {
      LeqAntisymmetric(a[1..], b[1..]);
      assert a == [a[0]] + a[1..] && b == [b[0]] + b[1..];
    }
  }

  lemma {:induction false} PrefixLeq(a: string, b: string)
    requires a <= b
    ensures Leq(a, b)
  {
    if a != [] {
      assert a[1..] <= b[1..];
      PrefixLeq(a[1..], b[1..]);
    }
  }

  /** Between a string and one of its extensions there are only extensions. */
  lemma {:induction false} PrefixSandwich(t: string, x: string, y: string)
    requires Leq(t, x) && Leq(x, y) && t <= y
    ensures t <= x
  {
    if t != [] {
      assert t[0] == y[0] && t[1..] <= y[1..];
      PrefixSandwich(t[1..], x[1..], y[1..]);
      assert t == [t[0]] + t[1..] && x == [x[0]] + x[1..];
    }
  }

  /** Strings that differ right after a common prefix are ordered by that difference. */
  lemma {:induction false} ByNextChar(p: string, a: string, b: string)
    requires a != [] && b != [] && a[0] < b[0]
    ensures !Leq(p + b, p + a)
  {
    if p != [] {
      assert (p + a)[1..] == p[1..] + a && (p + b)[1..] == p[1..] + b;
      ByNextChar(p[1..], a, b);
    }
  }

  /** No control character: nothing at or below the line feed, in particular. */
  predicate Printable(s: string) {
    forall c :: c in s ==> c >= ' '
  }

  /** Dropping the line feeds keeps the order of printable lines. */
  lemma {:induction false} DropLineFeed(a: string, b: string)
    requires Printable(a) && Printable(b) && Leq(a + "\n", b + "\n")
    ensures Leq(a, b)
  {
    if a != [] {
      assert a[0] in a;
      assert (a + "\n")[0] == a[0];
      if b != [] {
        assert (b + "\n")[0] == b[0];
        assert (a + "\n")[1..] == a[1..] + "\n" && (b + "\n")[1..] == b[1..] + "\n";
        if a[0] == b[0] {
          forall c | c in a[1..] ensures c in a {}
          forall c | c in b[1..] ensures c in b {}
          DropLineFeed(a[1..], b[1..]);
        }
      }
    }
  }

  // Sorting

  predicate Sorted(lines: seq<string>) {
    forall i, j :: 0 <= i < j < |lines| ==> Leq(lines[i], lines[j])
  }

  function Insert(x: string, lines: seq<string>): seq<string> {
    if lines == [] then [x]
    else if Leq(x, lines[0]) then [x] + lines
    else [lines[0]] + Insert(x, lines[1..])
  }

  /** The result of sorting; a sorted list of given lines is unique, see SortIsUnique. */
  function Sort(lines: seq<string>): seq<string> {
    if lines == [] then [] else Insert(lines[0], Sort(lines[1..]))
  }

  lemma SortedCons(x: string, lines: seq<string>)
    requires Sorted(lines) && forall l :: l in lines ==> Leq(x, l)
    ensures Sorted([x] + lines)
  {
  }

  lemma HeadIsLeast(lines: seq<string>, l: string)
    requires Sorted(lines) && l in lines
    ensures Leq(lines[0], l)
  {
    LeqReflexive(l);
  }

  lemma SortedTail(lines: seq<string>)
    requires Sorted(lines) && lines != []
    ensures Sorted(lines[1..])
  {
  }

  lemma MembersOf(a: seq<string>, b: seq<string>, l: string)
    requires multiset(a) == multiset(b) && l in a
    ensures l in b
  {
    assert l in multiset(b);
  }

  lemma {:induction false} InsertKeepsLines(x: string, lines: seq<string>)
    ensures multiset(Insert(x, lines)) == multiset([x] + lines)
  {
    if lines != [] && !Leq(x, lines[0]) {
      InsertKeepsLines(x, lines[1..]);
      assert [x] + lines == [x] + ([lines[0]] + lines[1..]);
    }
  }

  lemma {:induction false} InsertSorts(x: string, lines: seq<string>)
    requires Sorted(lines)
    ensures Sorted(Insert(x, lines))
  {
    if lines != [] {
      if Leq(x, lines[0]) {
        forall l | l in lines ensures Leq(x, l) {
          HeadIsLeast(lines, l);
          LeqTransitive(x, lines[0], l);
        }
        SortedCons(x, lines);
      } else {
        LeqTotal(x, lines[0]);
        SortedTail(lines);
        InsertSorts(x, lines[1..]);
        InsertKeepsLines(x, lines[1..]);
        forall l | l in Insert(x, lines[1..]) ensures Leq(lines[0], l) {
          MembersOf(Insert(x, lines[1..]), [x] + lines[1..], l);
          if l != x {
            HeadIsLeast(lines, l);
          }
        }
        SortedCons(lines[0], Insert(x, lines[1..]));
      }
    }
  }

  lemma {:induction false} SortSorts(lines: seq<string>)
    ensures Sorted(Sort(lines)) && multiset(Sort(lines)) == multiset(lines)
  {
    if lines != [] {
      SortSorts(lines[1..]);
      InsertSorts(lines[0], Sort(lines[1..]));
      InsertKeepsLines(lines[0], Sort(lines[1..]));
      assert lines == [lines[0]] + lines[1..];
    }
  }

  /** There is only one way to sort, so any correct sorting routine yields Sort. */
  lemma {:induction false} SortIsUnique(a: seq<string>, b: seq<string>)
    requires Sorted(a) && Sorted(b) && multiset(a) == multiset(b)
    ensures a == b
  {
    assert |a| == |multiset(a)| == |multiset(b)| == |b|;
    if a != [] {
      MembersOf(a, b, a[0]);
      MembersOf(b, a, b[0]);
      HeadIsLeast(a, b[0]);
      HeadIsLeast(b, a[0]);
      LeqAntisymmetric(a[0], b[0]);
      SortedTail(a);
      SortedTail(b);
      TailsMatch(a, b);
      SortIsUnique(a[1..], b[1..]);
    }
  }

  lemma TailsMatch(a: seq<string>, b: seq<string>)
    requires a != [] && b != [] && a[0] == b[0] && multiset(a) == multiset(b)
    ensures multiset(a[1..]) == multiset(b[1..])
  {
    assert a == [a[0]] + a[1..] && b == [b[0]] + b[1..];
    assert multiset(a[1..]) == multiset(a) - multiset{a[0]};
    assert multiset(b[1..]) == multiset(b) - multiset{b[0]};
  }

  // Search

  /** `i` is the first position whose line is not below the target. */
  predicate FirstNotBelow(lines: seq<string>, target: string, i: nat) {
    && i <= |lines|
    && (forall j :: 0 <= j < i ==> !Leq(target, lines[j]))
    && (i < |lines| ==> Leq(target, lines[i]))
  }

  /** The library's binary search, on the predicate `lines[i] >= target`. */
  method Search(lines: seq<string>, target: string) returns (i: nat)
    ensures i <= |lines|
    ensures Sorted(lines) ==> FirstNotBelow(lines, target, i)
  {
    i := 0;
    var j := |lines|;
    while i < j
      invariant 0 <= i <= j <= |lines|
      invariant i > 0 ==> !Leq(target, lines[i - 1])
      invariant j < |lines| ==> Leq(target, lines[j])
    {
      var h := (i + j) / 2;
      if !Leq(target, lines[h]) {
        i := h + 1;
      } else {
        j := h;
      }
    }
    if Sorted(lines) {
      forall k | 0 <= k < i ensures !Leq(target, lines[k]) {
        if Leq(target, lines[k]) && k < i - 1 {
          LeqTransitive(target, lines[k], lines[i - 1]);
        }
      }
    }
  }

  /**
   Prefix search is exact: the first line not below the target starts with it
   whenever any line does, and is then the least such line.
   */
  lemma PrefixSearchExact(lines: seq<string>, target: string, i: nat)
    requires Sorted(lines) && FirstNotBelow(lines, target, i)
    ensures (i < |lines| && target <= lines[i]) <==> exists l :: l in lines && target <= l
    ensures i < |lines| && target <= lines[i] ==>
              lines[i] in lines && forall l :: l in lines && target <= l ==> Leq(lines[i], l)
  {
    if i < |lines| && target <= lines[i] {
      assert lines[i] in lines;
    }
    forall l | l in lines && target <= l ensures i < |lines| && target <= lines[i] && Leq(lines[i], l) {
      var k :| 0 <= k < |lines| && lines[k] == l;
      PrefixLeq(target, l);
      assert i <= k;
      if i == k {
        LeqReflexive(l);
      }
      PrefixSandwich(target, lines[i], l);
    }
  }
}
