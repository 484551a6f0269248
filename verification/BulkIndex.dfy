/**
  The bulk indexer: cuts a batch into `_bulk` requests and retries each once
  when the cluster is overloaded.

  A document arrives as the two JSON texts the source builds for it. The
  source's `length` counts UTF-16 code units; a `char` here is a Unicode scalar
  value, so those beyond the basic plane count twice.
 */
module BulkIndex {
  import opened Wrappers
  import opened Strings

  const MAX_BYTES: nat := 5 * 1024 * 1024

  function Units(c: char): nat {
    if c as int > 0xFFFF then 2 else 1
  }

  /** `s.length`. */
  function Length(s: string): nat {
    if s == "" then 0 else Units(s[0]) + Length(s[1..])
  }

  lemma {:induction false} LengthConcat(s: string, t: string)
    ensures Length(s + t) == Length(s) + Length(t)
  {
    if s == "" {
      assert s + t == t;
    } else {
      LengthConcat(s[1..], t);
      assert (s + t)[1..] == s[1..] + t;
    }
  }

  datatype Text = Text(action: string, doc: string)

  datatype Line = Line(action: string, doc: string, bytes: nat)

  function LineOf(t: Text): Line {
    Line(t.action, t.doc, Length(t.action) + Length(t.doc) + 2)
  }

  function LinesOf(docs: seq<Text>): seq<Line> {
    seq(|docs|, i requires 0 <= i < |docs| => LineOf(docs[i]))
  }

  /** The summed `bytes` field of lines `i` to `j`. */
  function Bytes(lines: seq<Line>, i: nat, j: nat): nat
    requires i <= j <= |lines|
  {
    if i == j then 0 else Bytes(lines, i, j - 1) + lines[j - 1].bytes
  }

  lemma {:induction false} BytesSplit(lines: seq<Line>, i: nat, j: nat, k: nat)
    requires i <= j <= k <= |lines|
    ensures Bytes(lines, i, k) == Bytes(lines, i, j) + Bytes(lines, j, k)
  {
    if j < k {
      BytesSplit(lines, i, j, k - 1);
    }
  }

  function Ndjson(lines: seq<Line>): seq<string> {
    seq(|lines|, i requires 0 <= i < |lines| => lines[i].action + "\n" + lines[i].doc)
  }

  /** The request body for some lines. */
  function Body(lines: seq<Line>): string {
    Join(Ndjson(lines), "\n") + "\n"
  }

  predicate Measured(line: Line) {
    line.bytes == Length(line.action) + Length(line.doc) + 2
  }

  /** The body of a chunk is exactly as long as its lines claim. */
  lemma {:induction false} BodyLength(lines: seq<Line>)
    requires lines != [] && forall l :: l in lines ==> Measured(l)
    ensures Length(Body(lines)) == Bytes(lines, 0, |lines|)
  {
    var texts := Ndjson(lines);
    LengthConcat(lines[0].action, "\n");
    LengthConcat(lines[0].action + "\n", lines[0].doc);
    LengthConcat(Join(texts, "\n"), "\n");
    assert Measured(lines[0]);
    if |lines| == 1 {
      assert Bytes(lines, 0, 1) == lines[0].bytes;
    } else {
      BodyLength(lines[1..]);
      assert Ndjson(lines[1..]) == texts[1..];
      LengthConcat(Join(texts[1..], "\n"), "\n");
      LengthConcat(texts[0] + "\n", Join(texts[1..], "\n"));
      LengthConcat(texts[0], "\n");
      BytesSplit(lines, 0, 1, |lines|);
      assert lines[1..|lines|] == lines[1..];
      BytesSlice(lines, 1, |lines|, 1, |lines|);
      assert Bytes(lines, 0, 1) == lines[0].bytes;
    }
  }

  /** A slice sums like the part of the batch it is. */
  lemma {:induction false} BytesSlice(lines: seq<Line>, from: nat, to: nat, i: nat, j: nat)
    requires from <= i <= j <= to <= |lines|
    ensures Bytes(lines[from..to], i - from, j - from) == Bytes(lines, i, j)
  {
    if i < j {
      BytesSlice(lines, from, to, i, j - 1);
    }
  }

  /*
   * Ways to cut the batch. `ends` are the positions after each chunk.
   */

  function Start(ends: seq<nat>, k: nat): nat
    requires k <= |ends|
  {
    if k == 0 then 0 else ends[k - 1]
  }

  /** Chunk `k`, if the positions are in order. */
  function Chunk(lines: seq<Line>, ends: seq<nat>, k: nat): seq<Line>
    requires k < |ends|
  {
    if Start(ends, k) <= ends[k] <= |lines| then lines[Start(ends, k)..ends[k]] else []
  }

  /** Lines `from` to `to` fit one request, or are a single document. */
  ghost predicate Fits(lines: seq<Line>, from: nat, to: nat) {
    from <= to <= |lines| && (Bytes(lines, from, to) <= MAX_BYTES || to <= from + 1)
  }

  /** A non-empty chunk that fits and could not take one more line. */
  ghost predicate Full(lines: seq<Line>, from: nat, to: nat) {
    && from < to && Fits(lines, from, to)
    && (to < |lines| ==> Bytes(lines, from, to + 1) > MAX_BYTES)
  }

  ghost predicate FitsAt(lines: seq<Line>, ends: seq<nat>, k: nat)
    requires k < |ends|
  {
    Fits(lines, Start(ends, k), ends[k])
  }

  ghost predicate FullAt(lines: seq<Line>, ends: seq<nat>, k: nat)
    requires k < |ends|
  {
    Full(lines, Start(ends, k), ends[k])
  }

  /** Consecutive chunks covering the whole batch, each meeting the bound. */
  ghost predicate ValidSplit(lines: seq<Line>, ends: seq<nat>) {
    && Start(ends, |ends|) == |lines|
    && forall k {:trigger FitsAt(lines, ends, k)} :: 0 <= k < |ends| ==> FitsAt(lines, ends, k)
  }

  /** Consecutive chunks from the start of the batch, each of them full. */
  ghost predicate Greedy(lines: seq<Line>, ends: seq<nat>) {
    forall k {:trigger FullAt(lines, ends, k)} :: 0 <= k < |ends| ==> FullAt(lines, ends, k)
  }

  lemma BytesMonotone(lines: seq<Line>, a: nat, i: nat, j: nat, b: nat)
    requires a <= i <= j <= b <= |lines|
    ensures Bytes(lines, i, j) <= Bytes(lines, a, b)
  {
    BytesSplit(lines, a, i, b);
    BytesSplit(lines, i, j, b);
  }

  /** A chunk that starts no later than a full one cannot end after it. */
  lemma FullReachesFurthest(lines: seq<Line>, from: nat, to: nat, otherFrom: nat, otherTo: nat)
    requires Full(lines, from, to) && Fits(lines, otherFrom, otherTo) && otherFrom <= from
    ensures otherTo <= to
  {
    if otherTo > to {
      BytesMonotone(lines, otherFrom, from, to + 1, otherTo);
    }
  }

  /** Greedy stays ahead: its first `k` chunks cover at least what any other valid split's do. */
  lemma {:induction false} GreedyAhead(lines: seq<Line>, greedy: seq<nat>, other: seq<nat>, k: nat)
    requires Greedy(lines, greedy) && ValidSplit(lines, other)
    requires k <= |greedy| && k <= |other|
    ensures Start(other, k) <= Start(greedy, k)
  {
    if k > 0 {
      GreedyAhead(lines, greedy, other, k - 1);
      assert FullAt(lines, greedy, k - 1) && FitsAt(lines, other, k - 1);
      FullReachesFurthest(lines, Start(greedy, k - 1), greedy[k - 1], Start(other, k - 1), other[k - 1]);
    }
  }

  lemma GreedyHasRoom(lines: seq<Line>, greedy: seq<nat>, k: nat)
    requires Greedy(lines, greedy) && k < |greedy|
    ensures Start(greedy, k) < |lines|
  {
    assert FullAt(lines, greedy, k);
  }

  /** No split meeting the same bound has fewer chunks. */
  lemma GreedyMinimal(lines: seq<Line>, greedy: seq<nat>, other: seq<nat>)
    requires Greedy(lines, greedy) && ValidSplit(lines, other)
    ensures |greedy| <= |other|
  {
    if |other| < |greedy| {
      GreedyAhead(lines, greedy, other, |other|);
      GreedyHasRoom(lines, greedy, |other|);
    }
  }

  lemma GreedySplits(lines: seq<Line>, greedy: seq<nat>)
    requires Greedy(lines, greedy) && Start(greedy, |greedy|) == |lines|
    ensures ValidSplit(lines, greedy)
  {
    forall k | 0 <= k < |greedy| ensures FitsAt(lines, greedy, k) {
      assert FullAt(lines, greedy, k);
    }
  }

  /** The chunks, laid end to end, are the part of the batch they cover. */
  lemma {:induction false} ChunksConcatenate(lines: seq<Line>, ends: seq<nat>, k: nat)
    requires Greedy(lines, ends) && k <= |ends|
    ensures Start(ends, k) <= |lines|
    ensures Flatten(lines, ends, k) == lines[..Start(ends, k)]
  {
    if k > 0 {
      ChunksConcatenate(lines, ends, k - 1);
      GreedyRange(lines, ends, k - 1);
      var from, to := Start(ends, k - 1), ends[k - 1];
      assert lines[..to] == lines[..from] + lines[from..to];
    }
  }

  lemma GreedyRange(lines: seq<Line>, ends: seq<nat>, k: nat)
    requires Greedy(lines, ends) && k < |ends|
    ensures Start(ends, k) < ends[k] <= |lines|
  {
    assert FullAt(lines, ends, k);
  }

  ghost function Flatten(lines: seq<Line>, ends: seq<nat>, k: nat): seq<Line>
    requires k <= |ends|
  {
    if k == 0 then [] else Flatten(lines, ends, k - 1) + Chunk(lines, ends, k - 1)
  }

  /*
   * The requests.
   */

  /** How the cluster answers one request: accepted, with or without failed
      items, or an error with some status (0 if it has none). */
  datatype Response = Accepted(itemErrors: bool) | Refused(status: nat)

  datatype Error = HttpError(status: nat) | ItemErrors

  /** The requests one chunk costs when the next one is request number `n`. */
  function Attempts(server: nat -> Response, n: nat): (r: nat)
    ensures 1 <= r <= 2
  {
    if server(n) == Refused(429) then 2 else 1
  }

  /** The answer that decides a chunk first sent as request number `n`. */
  function Verdict(server: nat -> Response, n: nat): Result<(), Error> {
    match server(n + Attempts(server, n) - 1)
    case Accepted(itemErrors) => if itemErrors then Failure(ItemErrors) else Success(())
    case Refused(status) => Failure(HttpError(status))
  }

  /** The answer that decides chunk `k`. */
  function ChunkVerdict(server: nat -> Response, k: nat): Result<(), Error> {
    Verdict(server, SentBefore(server, k))
  }

  /** Where in the request log chunk `k` starts. */
  function SentBefore(server: nat -> Response, k: nat): nat {
    if k == 0 then 0
    else var n := SentBefore(server, k - 1); n + Attempts(server, n)
  }

  function Repeat(body: string, n: nat): (r: seq<string>)
    ensures |r| == n
  {
    if n == 0 then [] else Repeat(body, n - 1) + [body]
  }

  /** The bodies sent for the first `k` chunks: each once, or twice if it was retried. */
  ghost function RequestLog(server: nat -> Response, lines: seq<Line>, ends: seq<nat>, k: nat): seq<string>
    requires k <= |ends|
  {
    if k == 0 then [] else RequestLog(server, lines, ends, k - 1) + ChunkLog(server, lines, ends, k - 1)
  }

  /** The bodies sent for chunk `k`. */
  ghost function ChunkLog(server: nat -> Response, lines: seq<Line>, ends: seq<nat>, k: nat): seq<string>
    requires k < |ends|
  {
    Repeat(Body(Chunk(lines, ends, k)), Attempts(server, SentBefore(server, k)))
  }

  /** One entry per request. */
  lemma {:induction false} LogLength(server: nat -> Response, lines: seq<Line>, ends: seq<nat>, k: nat)
    requires k <= |ends|
    ensures |RequestLog(server, lines, ends, k)| == SentBefore(server, k)
  {
    if k > 0 {
      LogLength(server, lines, ends, k - 1);
    }
  }

  ghost predicate SameChunkLog(server: nat -> Response, lines: seq<Line>, a: seq<nat>, b: seq<nat>, i: nat)
    requires i < |a| && i < |b|
  {
    ChunkLog(server, lines, a, i) == ChunkLog(server, lines, b, i)
  }

  lemma {:induction false} SameLog(server: nat -> Response, lines: seq<Line>, a: seq<nat>, b: seq<nat>, k: nat)
    requires k <= |a| && k <= |b|
    requires forall i: nat {:trigger SameChunkLog(server, lines, a, b, i)} ::
               i < k ==> SameChunkLog(server, lines, a, b, i)
    ensures RequestLog(server, lines, a, k) == RequestLog(server, lines, b, k)
  {
    if k > 0 {
      SameLog(server, lines, a, b, k - 1);
      assert SameChunkLog(server, lines, a, b, k - 1);
    }
  }

  lemma RequestLogPrefix(server: nat -> Response, lines: seq<Line>, ends: seq<nat>, end: nat, k: nat)
    requires k <= |ends|
    ensures RequestLog(server, lines, ends + [end], k) == RequestLog(server, lines, ends, k)
  {
    forall i: nat | i < k ensures SameChunkLog(server, lines, ends + [end], ends, i) {
      ChunkLogPrefix(server, lines, ends, end, i);
    }
    SameLog(server, lines, ends + [end], ends, k);
  }

  lemma ChunkLogPrefix(server: nat -> Response, lines: seq<Line>, ends: seq<nat>, end: nat, k: nat)
    requires k < |ends|
    ensures ChunkLog(server, lines, ends + [end], k) == ChunkLog(server, lines, ends, k)
  {
    assert Start(ends + [end], k) == Start(ends, k);
    assert Chunk(lines, ends + [end], k) == Chunk(lines, ends, k);
  }

  /** A chunk costs one or two requests. */
  lemma {:induction false} RequestsPerChunk(server: nat -> Response, k: nat)
    ensures k <= SentBefore(server, k) <= 2 * k
  {
    if k > 0 {
      RequestsPerChunk(server, k - 1);
    }
  }

  /** Posts one chunk, retrying once on a 429; the last answer decides. */
  method PostChunk(server: nat -> Response, ndjson: string, log0: seq<string>)
    returns (log: seq<string>, verdict: Result<(), Error>)
    ensures log == log0 + Repeat(ndjson, Attempts(server, |log0|))
    ensures verdict == Verdict(server, |log0|)
    ensures log == log0 + if server(|log0|) == Refused(429) then [ndjson, ndjson] else [ndjson]
    ensures verdict.Success? <==> server(|log| - 1) == Accepted(false)
    ensures verdict == Failure(ItemErrors) <==> server(|log| - 1) == Accepted(true)
    ensures forall status :: verdict == Failure(HttpError(status)) <==> server(|log| - 1) == Refused(status)
  {
    log := log0;
    var attempt := 0;
    while true
      invariant 0 <= attempt <= 1
      invariant log == log0 + Repeat(ndjson, attempt)
      invariant attempt == 1 ==> server(|log0|) == Refused(429)
      decreases 1 - attempt
    {
      var response := server(|log|);
      log := log + [ndjson];
      match response
      case Accepted(itemErrors) =>
        return log, if itemErrors then Failure(ItemErrors) else Success(());
      case Refused(status) =>
        if status == 429 && attempt == 0 {
          attempt := attempt + 1;
          continue;
        }
        return log, Failure(HttpError(status));
    }
  }

  /** The inner loop: extends a chunk while the next line still fits. */
  method TakeChunk(lines: seq<Line>, cursor: nat) returns (end: nat)
    requires cursor < |lines|
    ensures Full(lines, cursor, end)
  {
    var bytes: nat := 0;
    end := cursor;
    while end < |lines| && (end == cursor || bytes + lines[end].bytes <= MAX_BYTES)
      invariant cursor <= end <= |lines|
      invariant bytes == Bytes(lines, cursor, end)
      invariant Fits(lines, cursor, end)
    {
      bytes := bytes + lines[end].bytes;
      end := end + 1;
    }
  }

  /** What posting the chunks `ends` in turn has done: the chunks are greedy, the
      log holds their bodies, and all but possibly the last were accepted. */
  ghost predicate Posted(server: nat -> Response, lines: seq<Line>, ends: seq<nat>, log: seq<string>,
                         accepted: nat)
    requires accepted <= |ends|
  {
    && Greedy(lines, ends)
    && log == RequestLog(server, lines, ends, |ends|)
    && (forall k :: 0 <= k < accepted ==> ChunkVerdict(server, k).Success?)
  }

  /** One turn of the outer loop. */
  method PostNext(server: nat -> Response, lines: seq<Line>, ends0: seq<nat>, log0: seq<string>)
    returns (ends: seq<nat>, log: seq<string>, verdict: Result<(), Error>)
    requires Posted(server, lines, ends0, log0, |ends0|) && Start(ends0, |ends0|) < |lines|
    ensures |ends| == |ends0| + 1 && Start(ends0, |ends0|) < Start(ends, |ends|) <= |lines|
    ensures Posted(server, lines, ends, log, |ends0|)
    ensures verdict == ChunkVerdict(server, |ends0|)
    ensures verdict.Success? ==> Posted(server, lines, ends, log, |ends|)
  {
    var cursor := Start(ends0, |ends0|);
    var end := TakeChunk(lines, cursor);
    PostedOneMore(server, lines, ends0, log0, end);
    log, verdict := PostChunk(server, Body(lines[cursor..end]), log0);
    ends := ends0 + [end];
  }

  /** The requests from `marks[k]` up to `marks[k + 1]` all carry chunk `k`: two
      if the first was refused with a 429, else one. */
  ghost predicate ChunkSent(server: nat -> Response, lines: seq<Line>, ends: seq<nat>, log: seq<string>,
                            marks: seq<nat>, k: nat)
    requires k < |ends| < |marks|
  {
    && marks[k + 1] == marks[k] + (if server(marks[k]) == Refused(429) then 2 else 1) <= |log|
    && forall n :: marks[k] <= n < marks[k + 1] ==> log[n] == Body(Chunk(lines, ends, k))
  }

  /** The log is made of the requests of the chunks in order. */
  ghost predicate Exchange(server: nat -> Response, lines: seq<Line>, ends: seq<nat>, log: seq<string>,
                           marks: seq<nat>)
  {
    && |marks| == |ends| + 1 && marks[0] == 0 && marks[|ends|] == |log|
    && forall k: nat {:trigger ChunkSent(server, lines, ends, log, marks, k)} :: k < |ends| ==>
        ChunkSent(server, lines, ends, log, marks, k)
  }

  /** These entries of the log are all this body. */
  ghost predicate AllAre(log: seq<string>, from: nat, to: nat, body: string) {
    to <= |log| && forall n :: from <= n < to ==> log[n] == body
  }

  lemma AllAreStill(log: seq<string>, more: seq<string>, from: nat, to: nat, body: string)
    requires AllAre(log, from, to, body)
    ensures AllAre(log + more, from, to, body)
  {
  }

  lemma {:induction false} Repeated(body: string, n: nat)
    ensures AllAre(Repeat(body, n), 0, n, body)
  {
    if n > 0 { Repeated(body, n - 1); }
  }

  lemma LastAre(log: seq<string>, body: string, n: nat)
    ensures AllAre(log + Repeat(body, n), |log|, |log| + n, body)
  {
    Repeated(body, n);
  }

  lemma {:induction false} AllAreInLonger(server: nat -> Response, lines: seq<Line>, ends: seq<nat>, j: nat, m: nat,
                                          from: nat, to: nat, body: string)
    requires j <= m <= |ends| && AllAre(RequestLog(server, lines, ends, j), from, to, body)
    ensures AllAre(RequestLog(server, lines, ends, m), from, to, body)
    decreases m - j
  {
    if j < m {
      AllAreInLonger(server, lines, ends, j, m - 1, from, to, body);
      AllAreStill(RequestLog(server, lines, ends, m - 1), ChunkLog(server, lines, ends, m - 1), from, to, body);
    }
  }

  lemma ChunkEndsLog(server: nat -> Response, lines: seq<Line>, ends: seq<nat>, k: nat, body: string)
    requires k < |ends| && body == Body(Chunk(lines, ends, k))
    ensures AllAre(RequestLog(server, lines, ends, k + 1), SentBefore(server, k), SentBefore(server, k + 1), body)
  {
    LogLength(server, lines, ends, k);
    LastAre(RequestLog(server, lines, ends, k), body, Attempts(server, SentBefore(server, k)));
  }

  lemma ChunkIsSent(server: nat -> Response, lines: seq<Line>, ends: seq<nat>, log: seq<string>, marks: seq<nat>,
                    k: nat)
    requires k < |ends| < |marks| && log == RequestLog(server, lines, ends, |ends|)
    requires marks[k] == SentBefore(server, k) && marks[k + 1] == SentBefore(server, k + 1)
    ensures ChunkSent(server, lines, ends, log, marks, k)
  {
    var body := Body(Chunk(lines, ends, k));
    ChunkEndsLog(server, lines, ends, k, body);
    AllAreInLonger(server, lines, ends, k + 1, |ends|, marks[k], marks[k + 1], body);
  }

  /** The last answer to chunk `k` reports no failed item. */
  ghost predicate ChunkAccepted(server: nat -> Response, marks: seq<nat>, k: nat) {
    k + 1 < |marks| && marks[k + 1] > 0 && server(marks[k + 1] - 1) == Accepted(false)
  }

  /** That of the first `n` chunks. */
  ghost predicate AllAccepted(server: nat -> Response, marks: seq<nat>, n: int) {
    forall k: nat :: k < n ==> ChunkAccepted(server, marks, k)
  }

  lemma PostedIsExchange(server: nat -> Response, lines: seq<Line>, ends: seq<nat>, log: seq<string>, accepted: nat)
    returns (marks: seq<nat>)
    requires accepted <= |ends| && Posted(server, lines, ends, log, accepted)
    ensures Exchange(server, lines, ends, log, marks)
    ensures AllAccepted(server, marks, accepted)
  {
    marks := seq(|ends| + 1, k requires 0 <= k => SentBefore(server, k));
    LogLength(server, lines, ends, |ends|);
    forall k: nat | k < |ends| ensures ChunkSent(server, lines, ends, log, marks, k) {
      ChunkIsSent(server, lines, ends, log, marks, k);
    }
    forall k: nat | k < accepted ensures ChunkAccepted(server, marks, k) { assert ChunkVerdict(server, k).Success?; }
  }

  lemma LastAnswerDecides(server: nat -> Response, lines: seq<Line>, ends: seq<nat>)
    requires ends != []
    ensures var log := RequestLog(server, lines, ends, |ends|);
            log != [] && AnswersWith(server(|log| - 1), ChunkVerdict(server, |ends| - 1))
  {
    LogLength(server, lines, ends, |ends|);
  }

  /** What an answer means for the chunk it is the last to. */
  ghost predicate AnswersWith(answer: Response, verdict: Result<(), Error>) {
    match answer
    case Accepted(itemErrors) => verdict == if itemErrors then Failure(ItemErrors) else Success(())
    case Refused(status) => verdict == Failure(HttpError(status))
  }

  /** `ends` are the chunks posted, `log` the request bodies in order and
      `marks` where in the log each chunk's requests begin. The call succeeds if
      and only if every chunk's last answer reports no failed item; else the last
      answer of all is the error. */
  method BulkIndex(docs: seq<Text>, server: nat -> Response)
    returns (ends: seq<nat>, log: seq<string>, r: Result<nat, Error>, ghost marks: seq<nat>)
    ensures r.Success? ==>
        r.value == |docs| && ValidSplit(LinesOf(docs), ends) && Posted(server, LinesOf(docs), ends, log, |ends|)
    ensures r.Failure? ==>
        ends != [] && Posted(server, LinesOf(docs), ends, log, |ends| - 1) &&
        ChunkVerdict(server, |ends| - 1) == Failure(r.error)
    ensures Exchange(server, LinesOf(docs), ends, log, marks)
    ensures AllAccepted(server, marks, if r.Success? then |ends| else |ends| - 1)
    ensures r == Failure(ItemErrors) ==> log != [] && server(|log| - 1) == Accepted(true)
    ensures forall status :: r == Failure(HttpError(status)) ==> log != [] && server(|log| - 1) == Refused(status)
  {
    if |docs| == 0 { return [], [], Success(0), [0]; }
    var lines := LinesOf(docs);
    ends, log := [], [];
    while Start(ends, |ends|) < |lines|
      invariant Start(ends, |ends|) <= |lines|
      invariant Posted(server, lines, ends, log, |ends|)
      decreases |lines| - Start(ends, |ends|)
    {
      var verdict;
      ends, log, verdict := PostNext(server, lines, ends, log);
      if verdict.Failure? {
        marks := PostedIsExchange(server, lines, ends, log, |ends| - 1);
        LastAnswerDecides(server, lines, ends);
        return ends, log, Failure(verdict.error), marks;
      }
    }
    GreedySplits(lines, ends);
    marks := PostedIsExchange(server, lines, ends, log, |ends|);
    r := Success(|docs|);
  }

  lemma PostedOneMore(server: nat -> Response, lines: seq<Line>, ends: seq<nat>, log: seq<string>, end: nat)
    requires Posted(server, lines, ends, log, |ends|)
    requires Full(lines, Start(ends, |ends|), end)
    ensures var more := log + Repeat(Body(lines[Start(ends, |ends|)..end]), Attempts(server, |log|));
            && Posted(server, lines, ends + [end], more, |ends|)
            && (Verdict(server, |log|).Success? ==> Posted(server, lines, ends + [end], more, |ends| + 1))
            && Verdict(server, |log|) == ChunkVerdict(server, |ends|)
  {
    OneMoreChunk(server, lines, ends, end);
    LogLength(server, lines, ends, |ends|);
  }

  lemma OneMoreChunk(server: nat -> Response, lines: seq<Line>, ends: seq<nat>, end: nat)
    requires Greedy(lines, ends) && Full(lines, Start(ends, |ends|), end)
    ensures Greedy(lines, ends + [end])
    ensures RequestLog(server, lines, ends + [end], |ends| + 1) ==
            RequestLog(server, lines, ends, |ends|) +
            Repeat(Body(lines[Start(ends, |ends|)..end]), Attempts(server, SentBefore(server, |ends|)))
  {
    StillGreedy(lines, ends, end);
    RequestLogPrefix(server, lines, ends, end, |ends|);
    LastChunk(lines, ends, end);
  }

  lemma LastChunk(lines: seq<Line>, ends: seq<nat>, end: nat)
    requires Start(ends, |ends|) <= end <= |lines|
    ensures Chunk(lines, ends + [end], |ends|) == lines[Start(ends, |ends|)..end]
  {
    assert Start(ends + [end], |ends|) == Start(ends, |ends|);
  }

  lemma StillGreedy(lines: seq<Line>, ends: seq<nat>, end: nat)
    requires Greedy(lines, ends) && Full(lines, Start(ends, |ends|), end)
    ensures Greedy(lines, ends + [end])
  {
    var all := ends + [end];
    forall k | 0 <= k < |all| ensures FullAt(lines, all, k) {
      if k < |ends| {
        assert FullAt(lines, ends, k);
        assert Start(all, k) == Start(ends, k);
      }
    }
  }

  /** Every body posted is as long as its lines claim, and within the limit
      unless it carries a single document. */
  lemma PostedBodyLength(docs: seq<Text>, ends: seq<nat>, k: nat)
    requires Greedy(LinesOf(docs), ends) && k < |ends|
    ensures var lines := LinesOf(docs);
            && Start(ends, k) < ends[k] <= |lines|
            && Length(Body(Chunk(lines, ends, k))) == Bytes(lines, Start(ends, k), ends[k])
            && (Length(Body(Chunk(lines, ends, k))) <= MAX_BYTES || |Chunk(lines, ends, k)| == 1)
  {
    var lines := LinesOf(docs);
    GreedyRange(lines, ends, k);
    var from, to := Start(ends, k), ends[k];
    var chunk := lines[from..to];
    assert FullAt(lines, ends, k);
    assert forall l :: l in chunk ==> Measured(l) by {
      forall l | l in chunk ensures Measured(l) {
        var i :| 0 <= i < |chunk| && chunk[i] == l;
        assert l == LineOf(docs[from + i]);
      }
    }
    BodyLength(chunk);
    BytesSlice(lines, from, to, from, to);
  }

  /** A successful call posts the fewest chunks any valid split has, with at
      most two requests each. */
  lemma FewestRequests(lines: seq<Line>, ends: seq<nat>, other: seq<nat>, server: nat -> Response)
    requires Greedy(lines, ends) && ValidSplit(lines, other)
    ensures |ends| <= |RequestLog(server, lines, ends, |ends|)| <= 2 * |ends| <= 2 * |other|
  {
    GreedyMinimal(lines, ends, other);
    RequestsPerChunk(server, |ends|);
    LogLength(server, lines, ends, |ends|);
  }
}
