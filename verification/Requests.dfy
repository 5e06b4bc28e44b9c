/** Values shared by the crawl engine: URLs, request messages and optional values. */
module Requests {

  datatype Option<+T> = None | Some(value: T)

  /** A parsed URL. Two URLs are equal exactly when their string forms are. */
  datatype Url = Url(host: string, path: string)

  /** A crawler request; `ignoreDomain` exempts page resources from the domain check. */
  datatype Request = Request(url: Url, ignoreDomain: bool)

  /** The URLs named by a list of messages. */
  ghost function Named(messages: seq<Request>): (urls: set<Url>)
    ensures forall m :: m in messages ==> m.url in urls
  {
    set m | m in messages :: m.url
  }

  /** No two messages of the list name the same URL. */
  ghost predicate Distinct(messages: seq<Request>) {
    forall i, j :: 0 <= i < j < |messages| ==> messages[i].url != messages[j].url
  }

  ghost function Elements<T>(s: seq<T>): set<T> {
    set x | x in s
  }

  lemma NamedAppend(a: seq<Request>, b: seq<Request>)
    ensures Named(a + b) == Named(a) + Named(b)
  {
    forall u ensures u in Named(a + b) <==> u in Named(a) + Named(b) {
      if u in Named(a) {
        var m :| m in a && m.url == u;
        assert m in a + b;
      }
      if u in Named(b) {
        var m :| m in b && m.url == u;
        assert m in a + b;
      }
    }
  }

  lemma NamedOne(m: Request)
    ensures Named([m]) == {m.url}
  {
    assert m in [m];
  }

  lemma DistinctAppend(a: seq<Request>, m: Request)
    requires Distinct(a) && m.url !in Named(a)
    ensures Distinct(a + [m])
  {
    forall i, j | 0 <= i < j < |a + [m]| ensures (a + [m])[i].url != (a + [m])[j].url {
      assert a + [m] == a[..] + [m];
      if j == |a| {
        assert a[i] in a;
      }
    }
  }

  lemma DistinctSplit(a: seq<Request>, b: seq<Request>)
    requires Distinct(a + b)
    ensures Named(a) !! Named(b)
  {
    forall u | u in Named(a) ensures u !in Named(b) {
      var i :| 0 <= i < |a| && a[i].url == u;
      forall j | 0 <= j < |b| ensures b[j].url != u {
        assert (a + b)[i] == a[i] && (a + b)[|a| + j] == b[j];
      }
    }
  }
}
