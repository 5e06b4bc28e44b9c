/** The response body reader that enforces the byte limit of the crawler's HTTP client. */
module CappedReader {
  import opened Arith

  datatype Error = NoError | EOF | ErrResponseTooLarge | Broken

  /**
   How the underlying reader answers one call: it may return fewer bytes than
   asked, may report the end together with the last bytes or later, and may fail.
   */
  datatype Choice = Choice(count: nat, tellEnd: bool, broken: bool)

  datatype Answer = Answer(data: string, error: Error)

  /** One call of the underlying reader with a buffer of `size` bytes; EOF is only reported when nothing is left. */
  function Inner(rest: string, size: nat, choice: Choice): (a: Answer)
    ensures |a.data| <= size && a.data <= rest
    ensures a.error.EOF? ==> a.data == rest
    ensures !a.error.ErrResponseTooLarge?
  {
    var n := Min(choice.count, Min(size, |rest|));
    Answer(rest[..n],
           if choice.broken then Broken else if n == |rest| && choice.tellEnd then EOF else NoError)
  }

  datatype Reader = Reader(rest: string, remaining: int)

  /** One Read of the capped reader: its answer and its next state. */
  function ReadStep(r: Reader, size: nat, choice: Choice): (Answer, Reader) {
    if r.remaining > 0 then
      var a := Inner(r.rest, if size > r.remaining then r.remaining else size, choice);
      (a, Reader(r.rest[|a.data|..], r.remaining - |a.data|))
    else
      var a := Inner(r.rest, 1, choice);
      (Answer("", if |a.data| > 0 then ErrResponseTooLarge else a.error), r.(rest := r.rest[|a.data|..]))
  }

  class LimitedReadCloser {
    var body: string
    var remaining: int

    constructor (body: string, limit: int)
      ensures View() == Reader(body, limit)
    {
      this.body, remaining := body, limit;
    }

    function View(): Reader
      reads this
    {
      Reader(body, remaining)
    }

    method ReadInner(size: nat, choice: Choice) returns (a: Answer)
      modifies this`body
      ensures a == Inner(old(body), size, choice) && old(body) == a.data + body
    {
      a := Inner(body, size, choice);
      body := body[|a.data|..];
    }

    method Read(size: nat, choice: Choice) returns (a: Answer)
      modifies this
      ensures (a, View()) == ReadStep(old(View()), size, choice)
    {
      if remaining > 0 {
        var buffer := if size > remaining then remaining else size;
        a := ReadInner(buffer, choice);
        remaining := remaining - |a.data|;
        return;
      }
      var probe := ReadInner(1, choice);
      if |probe.data| > 0 {
        return Answer("", ErrResponseTooLarge);
      }
      a := Answer("", probe.error);
    }
  }

  // Runs: a caller reads with buffers of any sizes until the first error.

  datatype Call = Call(size: nat, choice: Choice)

  function ReaderAfter(body: string, limit: nat, calls: seq<Call>): Reader {
    if calls == [] then Reader(body, limit)
    else
      var last := calls[|calls| - 1];
      ReadStep(ReaderAfter(body, limit, calls[..|calls| - 1]), last.size, last.choice).1
  }

  function LastAnswer(body: string, limit: nat, calls: seq<Call>): Answer
    requires calls != []
  {
    var last := calls[|calls| - 1];
    ReadStep(ReaderAfter(body, limit, calls[..|calls| - 1]), last.size, last.choice).0
  }

  /** All calls but the last one returned no error. */
  predicate UpToFirstError(body: string, limit: nat, calls: seq<Call>) {
    |calls| > 1 ==>
      var before := calls[..|calls| - 1];
      UpToFirstError(body, limit, before) && LastAnswer(body, limit, before).error.NoError?
  }

  function Delivered(body: string, limit: nat, calls: seq<Call>): string {
    if calls == [] then ""
    else Delivered(body, limit, calls[..|calls| - 1]) + LastAnswer(body, limit, calls).data
  }

  /** Delivered bytes and unread ones make up the body, delivered bytes and allowance the limit. */
  predicate Fits(body: string, limit: nat, sofar: string, r: Reader) {
    sofar + r.rest == body && r.remaining >= 0 && |sofar| + r.remaining == limit
  }

  lemma DataFits(body: string, limit: nat, sofar: string, r: Reader, size: nat, choice: Choice)
    requires Fits(body, limit, sofar, r) && r.remaining > 0
    ensures var (a, r') := ReadStep(r, size, choice);
            && Fits(body, limit, sofar + a.data, r')
            && (a.error.EOF? ==> sofar + a.data == body)
            && !a.error.ErrResponseTooLarge?
  {
    var (a, r') := ReadStep(r, size, choice);
    assert r.rest == a.data + r'.rest;
    assert sofar + (a.data + r'.rest) == (sofar + a.data) + r'.rest;
  }

  lemma ProbeFits(body: string, limit: nat, sofar: string, r: Reader, size: nat, choice: Choice)
    requires Fits(body, limit, sofar, r) && r.remaining == 0
    ensures var (a, r') := ReadStep(r, size, choice);
            && a.data == "" && |sofar| == limit <= |body| && body[..limit] == sofar
            && (a.error.NoError? ==> Fits(body, limit, sofar, r'))
            && (a.error.EOF? ==> sofar == body)
            && (a.error.ErrResponseTooLarge? ==> |body| > limit)
  {
    assert body[..|sofar|] == sofar;
    if r.rest == "" {
      assert sofar + "" == sofar;
    }
  }

  lemma {:induction false} CleanRun(body: string, limit: nat, calls: seq<Call>)
    requires UpToFirstError(body, limit, calls)
    requires calls != [] ==> LastAnswer(body, limit, calls).error.NoError?
    ensures Fits(body, limit, Delivered(body, limit, calls), ReaderAfter(body, limit, calls))
  {
    if calls == [] {
      assert "" + body == body;
    } else {
      var before, last := calls[..|calls| - 1], calls[|calls| - 1];
      CleanRun(body, limit, before);
      var sofar, r := Delivered(body, limit, before), ReaderAfter(body, limit, before);
      if r.remaining > 0 {
        DataFits(body, limit, sofar, r, last.size, last.choice);
      } else {
        ProbeFits(body, limit, sofar, r, last.size, last.choice);
        assert sofar + "" == sofar;
      }
    }
  }

  /**
   The cap is exact. Whatever the buffer sizes and short reads, the bytes
   delivered are a prefix of the body within the limit. Reading until the first
   error then gives the whole body and EOF only if it fits, and stops with
   ErrResponseTooLarge only after `limit` bytes of a longer one.
   */
  lemma CapIsExact(body: string, limit: nat, calls: seq<Call>)
    requires calls != [] && UpToFirstError(body, limit, calls)
    ensures Delivered(body, limit, calls) <= body && |Delivered(body, limit, calls)| <= limit
    ensures var e := LastAnswer(body, limit, calls).error;
            && (e.EOF? ==> Delivered(body, limit, calls) == body)
            && (e.ErrResponseTooLarge? ==> |body| > limit && Delivered(body, limit, calls) == body[..limit])
            && (e.EOF? || e.ErrResponseTooLarge? ==> (e.EOF? <==> |body| <= limit))
  {
    var before, last := calls[..|calls| - 1], calls[|calls| - 1];
    CleanRun(body, limit, before);
    var sofar, r := Delivered(body, limit, before), ReaderAfter(body, limit, before);
    if r.remaining > 0 {
      DataFits(body, limit, sofar, r, last.size, last.choice);
    } else {
      ProbeFits(body, limit, sofar, r, last.size, last.choice);
      assert sofar + "" == sofar;
    }
  }

  /** A read never returns more than its buffer holds. */
  lemma NeverOverfills(r: Reader, size: nat, choice: Choice)
    ensures |ReadStep(r, size, choice).0.data| <= size
  {
  }

  /**
   At the limit every read decides: once `limit` bytes are delivered, a read that
   the underlying reader serves reports the size error if the body goes on, and
   otherwise what the underlying reader reports at the end.
   */
  lemma AtTheLimitReadsDecide(body: string, limit: nat, calls: seq<Call>, next: Call)
    requires UpToFirstError(body, limit, calls)
    requires calls != [] ==> LastAnswer(body, limit, calls).error.NoError?
    requires |Delivered(body, limit, calls)| == limit && next.choice.count >= 1
    ensures var e := LastAnswer(body, limit, calls + [next]).error;
            if |body| > limit then e.ErrResponseTooLarge?
            else e == if next.choice.broken then Broken else if next.choice.tellEnd then EOF else NoError
  {
    CleanRun(body, limit, calls);
    assert (calls + [next])[..|calls|] == calls;
  }

  lemma AfterTooLarge(body: string, limit: nat, calls: seq<Call>)
    requires UpToFirstError(body, limit, calls)
    requires calls != [] && LastAnswer(body, limit, calls).error.ErrResponseTooLarge?
    ensures ReaderAfter(body, limit, calls).remaining == 0
    ensures |body| > limit && |ReaderAfter(body, limit, calls).rest| == |body| - limit - 1
  {
    var before, last := calls[..|calls| - 1], calls[|calls| - 1];
    CleanRun(body, limit, before);
    var r := ReaderAfter(body, limit, before);
    if r.remaining > 0 {
      DataFits(body, limit, Delivered(body, limit, before), r, last.size, last.choice);
    }
  }

  /**
   When the error sticks: a caller that reads on after the first
   ErrResponseTooLarge gets it again if and only if the body is longer than the
   limit by more than the one byte that the probe consumed.
   */
  lemma ErrorSticksIffTwoOver(body: string, limit: nat, calls: seq<Call>, next: Call)
    requires UpToFirstError(body, limit, calls)
    requires calls != [] && LastAnswer(body, limit, calls).error.ErrResponseTooLarge?
    requires next.choice.count >= 1
    ensures LastAnswer(body, limit, calls + [next]).error.ErrResponseTooLarge? <==> |body| > limit + 1
    ensures |body| == limit + 1 && next.choice.tellEnd && !next.choice.broken ==>
              LastAnswer(body, limit, calls + [next]) == Answer("", EOF)
  {
    AfterTooLarge(body, limit, calls);
    assert (calls + [next])[..|calls|] == calls;
  }

  /** What the client hands out: nothing when the declared length is too large, the capped body otherwise. */
  datatype Opened = Rejected | Uncapped(body: string) | Capped(reader: Reader)

  function Open(body: string, contentLength: int, maxResponseBytes: int): Opened {
    if maxResponseBytes <= 0 then Uncapped(body)
    else if contentLength > maxResponseBytes then Rejected
    else Capped(Reader(body, maxResponseBytes))
  }

  /**
   Which responses end refused, early or while reading: those that declare or
   have more bytes than the limit. The early refusal alone refuses a response
   that the cap would pass exactly when only the declared length is too large, as
   in the reply to a HEAD request.
   */
  lemma RefusedIffTooLarge(body: string, contentLength: int, limit: nat, calls: seq<Call>)
    requires limit > 0 && calls != [] && UpToFirstError(body, limit, calls)
    requires LastAnswer(body, limit, calls).error.EOF? || LastAnswer(body, limit, calls).error.ErrResponseTooLarge?
    ensures var early, late := Open(body, contentLength, limit).Rejected?, LastAnswer(body, limit, calls).error.ErrResponseTooLarge?;
            && (early || late <==> contentLength > limit || |body| > limit)
            && (early && !late <==> contentLength > limit >= |body|)
            && (contentLength == -1 || contentLength == |body| ==> (early || late <==> |body| > limit))
  {
    CapIsExact(body, limit, calls);
  }

  /** Without a positive limit nothing is refused and nothing is cut. */
  lemma NoLimitNoCap(body: string, contentLength: int, maxResponseBytes: int)
    ensures Open(body, contentLength, maxResponseBytes) == Uncapped(body) <==> maxResponseBytes <= 0
    ensures Open(body, contentLength, maxResponseBytes).Capped? ==>
              Open(body, contentLength, maxResponseBytes).reader == Reader(body, maxResponseBytes)
  {
  }

  /** A HEAD reply is refused for the size of a body it does not have. */
  lemma HeadReplyIsRefused(limit: nat)
    requires limit > 0
    ensures Open("", limit + 1, limit).Rejected?
    ensures UpToFirstError("", limit, [Call(1, Choice(1, true, false))])
    ensures LastAnswer("", limit, [Call(1, Choice(1, true, false))]) == Answer("", EOF)
  {
    assert [Call(1, Choice(1, true, false))][..0] == [];
  }
}
