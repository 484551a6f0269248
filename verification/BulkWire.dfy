/**
  Code units are not bytes. The bulk indexer's documentation speaks of a payload
  under 5 MiB; what its loop bounds is the number of UTF-16 code units. This
  module measures the bodies as they go over the wire, in UTF-8, and says when
  the limit holds there.
 */
module BulkWire {
  import opened Arithmetic
  import opened Strings
  import opened BulkIndex

  function Utf8Bytes(c: char): nat {
    var n := c as int;
    if n < 0x80 then 1 else if n < 0x800 then 2 else if n <= 0xFFFF then 3 else 4
  }

  /** The size of `s` on the wire. */
  function Utf8Length(s: string): nat {
    if s == "" then 0 else Utf8Bytes(s[0]) + Utf8Length(s[1..])
  }

  predicate IsAscii(c: char) {
    c as int < 0x80
  }

  predicate Ascii(s: string) {
    forall i :: 0 <= i < |s| ==> IsAscii(s[i])
  }

  /** The wire size is between one and three times what the loop counts, and
      exactly what it counts if and only if the text is ASCII. */
  lemma {:induction false} WireSize(s: string)
    ensures Length(s) <= Utf8Length(s) <= 3 * Length(s)
    ensures Utf8Length(s) == Length(s) <==> Ascii(s)
  {
    if s != "" {
      WireSize(s[1..]);
      var rest := s[1..];
      assert forall i :: 0 <= i < |rest| ==> rest[i] == s[i + 1];
      assert Ascii(s) ==> Ascii(rest);
    }
  }

  lemma {:induction false} Utf8Concat(s: string, t: string)
    ensures Utf8Length(s + t) == Utf8Length(s) + Utf8Length(t)
  {
    if s == "" {
      assert s + t == t;
    } else {
      Utf8Concat(s[1..], t);
      assert (s + t)[1..] == s[1..] + t;
    }
  }

  lemma {:induction false} LengthAtMost(s: string)
    ensures |s| <= Length(s) <= 2 * |s|
  {
    if s != "" {
      LengthAtMost(s[1..]);
    }
  }

  /*
   * The texts the source builds: `JSON.stringify` of an action and of a document.
   */

  /** One character inside a JSON string (section 7 of RFC 8259). */
  function Escaped(c: char): string {
    if c == '"' then "\\\""
    else if c == '\\' then "\\\\"
    else if c == '\n' then "\\n"
    else if c == '\r' then "\\r"
    else if c == '\t' then "\\t"
    else if c as int == 8 then "\\b"
    else if c as int == 12 then "\\f"
    else if c as int < 0x20 then "\\u00" + [if c as int < 0x10 then '0' else '1', Hex(c as int % 0x10)]
    else [c]
  }

  function Hex(n: nat): char
    requires n < 0x10
  {
    "0123456789abcdef"[n]
  }

  function EscapedAll(s: string): string {
    if s == "" then "" else Escaped(s[0]) + EscapedAll(s[1..])
  }

  function Quoted(s: string): string {
    "\"" + EscapedAll(s) + "\""
  }

  function ActionText(index: string, id: string): string {
    "{\"index\":{\"_index\":" + Quoted(index) + (if id == "" then "" else ",\"_id\":" + Quoted(id)) + "}}"
  }

  /** A document with one text field. */
  function DocText(field: string, value: string): string {
    "{" + Quoted(field) + ":" + Quoted(value) + "}"
  }

  /** A text of a bulk call: its action names the index and perhaps an id. */
  ghost predicate FromCall(t: Text, index: string) {
    t.doc != "" && exists id :: t.action == ActionText(index, id)
  }

  /** Beyond ASCII, the text uses only characters of the alphabet. */
  predicate Uses(alphabet: char -> bool, s: string) {
    forall i :: 0 <= i < |s| ==> IsAscii(s[i]) || alphabet(s[i])
  }

  /** A batch the source may be called with, written in the alphabet. */
  ghost predicate Batch(alphabet: char -> bool, docs: seq<Text>, index: string) {
    forall t :: t in docs ==> FromCall(t, index) && Uses(alphabet, t.action) && Uses(alphabet, t.doc)
  }

  /** Every body of several documents the greedy loop posts is within the limit on the wire. */
  ghost predicate WithinOnWire(docs: seq<Text>, ends: seq<nat>) {
    Greedy(LinesOf(docs), ends) ==>
      forall k: nat :: k < |ends| && |Chunk(LinesOf(docs), ends, k)| > 1 ==>
        Utf8Length(Body(Chunk(LinesOf(docs), ends, k))) <= MAX_BYTES
  }

  /*
   * ASCII batches.
   */

  lemma {:induction false} AsciiJoin(parts: seq<string>, sep: string)
    requires Ascii(sep) && forall p :: p in parts ==> Ascii(p)
    ensures Ascii(Join(parts, sep))
  {
    if parts != [] {
      assert Ascii(parts[0]) && forall p :: p in parts[1..] ==> p in parts;
      AsciiJoin(parts[1..], sep);
      assert Ascii(parts[0] + sep);
    }
  }

  lemma AsciiBody(chunk: seq<Line>)
    requires forall l :: l in chunk ==> Ascii(l.action) && Ascii(l.doc)
    ensures Ascii(Body(chunk))
  {
    forall p | p in Ndjson(chunk) ensures Ascii(p) {
      var i :| 0 <= i < |chunk| && Ndjson(chunk)[i] == p;
      assert p == chunk[i].action + "\n" + chunk[i].doc;
    }
    AsciiJoin(Ndjson(chunk), "\n");
  }

  /** What the loop promises in code units it keeps on the wire when all texts are ASCII. */
  lemma AsciiWithinOnWire(docs: seq<Text>, ends: seq<nat>)
    requires forall t :: t in docs ==> Ascii(t.action) && Ascii(t.doc)
    ensures WithinOnWire(docs, ends)
  {
    var lines := LinesOf(docs);
    forall k: nat | Greedy(lines, ends) && k < |ends| && |Chunk(lines, ends, k)| > 1
      ensures Utf8Length(Body(Chunk(lines, ends, k))) <= MAX_BYTES
    {
      var chunk := Chunk(lines, ends, k);
      PostedBodyLength(docs, ends, k);
      forall l | l in chunk ensures Ascii(l.action) && Ascii(l.doc) {
        var i :| 0 <= i < |lines| && lines[i] == l;
        assert docs[i] in docs;
      }
      AsciiBody(chunk);
      WireSize(Body(chunk));
    }
  }

  /*
   * Any other alphabet.
   */

  function Repeated(c: char, n: nat): (s: string)
    ensures |s| == n && forall i :: 0 <= i < n ==> s[i] == c
  {
    seq(n, _ => c)
  }

  lemma {:induction false} RepeatedSize(c: char, n: nat)
    requires !IsAscii(c)
    ensures Length(Repeated(c, n)) == n * Units(c)
    ensures Utf8Length(Repeated(c, n)) == n * Utf8Bytes(c)
    ensures EscapedAll(Repeated(c, n)) == Repeated(c, n)
  {
    if n > 0 {
      RepeatedSize(c, n - 1);
      assert Repeated(c, n)[1..] == Repeated(c, n - 1);
      assert Escaped(c) == [c];
      assert [c] + Repeated(c, n - 1) == Repeated(c, n);
      Times(n, Units(c));
      Times(n, Utf8Bytes(c));
    }
  }

  /** Every part counts on the wire. */
  lemma BodyOfTwo(a: Line, b: Line)
    ensures Utf8Length(Body([a, b])) >= Utf8Length(a.doc) + Utf8Length(b.doc)
  {
    var x, y := a.action + "\n" + a.doc, b.action + "\n" + b.doc;
    assert Ndjson([a, b]) == [x, y];
    assert [x, y][1..] == [y];
    assert Join([x, y], "\n") == x + "\n" + y;
    Utf8Concat(a.action + "\n", a.doc);
    Utf8Concat(b.action + "\n", b.doc);
    Utf8Concat(x + "\n", y);
    Utf8Concat(x, "\n");
    Utf8Concat(x + "\n" + y, "\n");
  }

  lemma DocHoldsValue(field: string, value: string)
    ensures Utf8Length(DocText(field, value)) >= Utf8Length(EscapedAll(value))
    ensures Length(DocText(field, value)) <= Length(EscapedAll(value)) + 2 * |Quoted(field)| + 10
  {
    var inner, before := EscapedAll(value), "{" + Quoted(field) + ":" + "\"";
    assert DocText(field, value) == before + inner + "\"}";
    Utf8Concat(before, inner);
    Utf8Concat(before + inner, "\"}");
    LengthConcat(before, inner);
    LengthConcat(before + inner, "\"}");
    LengthAtMost(before);
    LengthAtMost("\"}");
  }

  const PLAIN_ACTION := ActionText("i", "")

  lemma PlainSizes()
    ensures |PLAIN_ACTION| <= 30 && |Quoted("t")| == 3
    ensures Ascii(PLAIN_ACTION) && FromCall(Text(PLAIN_ACTION, "{}"), "i")
  {
    assert EscapedAll("i") == "i" && EscapedAll("t") == "t" by {
      assert "i"[1..] == "" && "t"[1..] == "";
      assert Escaped('i') == ['i'] && Escaped('t') == ['t'];
    }
  }

  /** How often `c` fits twice into the limit, with room for the rest of two documents. */
  function HalfFull(c: char): nat {
    (MAX_BYTES / 2 - 100) / Units(c)
  }

  function WideDoc(c: char): Text {
    Text(PLAIN_ACTION, DocText("t", Repeated(c, HalfFull(c))))
  }

  lemma HalfFullSize(c: char)
    requires !IsAscii(c)
    ensures var n := HalfFull(c);
            && MAX_BYTES / 2 - 102 <= n * Units(c) <= MAX_BYTES / 2 - 100
            && n * Utf8Bytes(c) >= 2 * (n * Units(c))
            && (0x800 <= c as int <= 0xFFFF ==> n * Utf8Bytes(c) == 3 * (n * Units(c)))
  {
  }

  lemma WideDocSize(c: char)
    requires !IsAscii(c)
    ensures LineOf(WideDoc(c)).bytes <= MAX_BYTES / 2
    ensures Utf8Length(WideDoc(c).doc) >= HalfFull(c) * Utf8Bytes(c)
  {
    PlainSizes();
    LengthAtMost(PLAIN_ACTION);
    RepeatedSize(c, HalfFull(c));
    DocHoldsValue("t", Repeated(c, HalfFull(c)));
    HalfFullSize(c);
  }

  lemma WideDocInBatch(c: char, alphabet: char -> bool)
    requires !IsAscii(c) && alphabet(c)
    ensures FromCall(WideDoc(c), "i") && Uses(alphabet, WideDoc(c).action) && Uses(alphabet, WideDoc(c).doc)
  {
    PlainSizes();
    var inner := Repeated(c, HalfFull(c));
    RepeatedSize(c, HalfFull(c));
    var before := "{" + Quoted("t") + ":" + "\"";
    assert WideDoc(c).doc == before + inner + "\"}";
    assert Ascii(Quoted("t")) by { assert "t"[1..] == ""; }
    assert Ascii(before) && Ascii("\"}");
  }

  /** Two documents with one text field each, of any one character beyond ASCII,
      that the loop posts as one chunk although its body is over the limit on the
      wire, and over twice the limit for the characters of three bytes. */
  lemma WireLimitExceeded(c: char) returns (docs: seq<Text>)
    requires !IsAscii(c)
    ensures docs == [WideDoc(c), WideDoc(c)]
    ensures Greedy(LinesOf(docs), [2]) && Chunk(LinesOf(docs), [2], 0) == LinesOf(docs)
    ensures Utf8Length(Body(LinesOf(docs))) > MAX_BYTES
    ensures 0x800 <= c as int <= 0xFFFF ==> Utf8Length(Body(LinesOf(docs))) > 2 * MAX_BYTES
  {
    docs := [WideDoc(c), WideDoc(c)];
    var lines, line := LinesOf(docs), LineOf(WideDoc(c));
    assert lines == [line, line];
    WideDocSize(c);
    HalfFullSize(c);
    assert Bytes(lines, 0, 1) == lines[0].bytes;
    assert Bytes(lines, 0, 2) == Bytes(lines, 0, 1) + lines[1].bytes;
    assert FullAt(lines, [2], 0);
    BodyOfTwo(line, line);
  }

  lemma OverOnWire(alphabet: char -> bool, c: char) returns (docs: seq<Text>)
    requires alphabet(c) && !IsAscii(c)
    ensures Batch(alphabet, docs, "i") && !WithinOnWire(docs, [2])
  {
    docs := WireLimitExceeded(c);
    WideDocInBatch(c, alphabet);
    assert |Chunk(LinesOf(docs), [2], 0)| == 2;
  }

  /** The limit holds on the wire for every batch written in an alphabet if and
      only if the alphabet is ASCII. */
  lemma WireLimitHoldsIff(alphabet: char -> bool)
    ensures (forall docs, ends, index :: Batch(alphabet, docs, index) ==> WithinOnWire(docs, ends)) <==>
            (forall c :: alphabet(c) ==> IsAscii(c))
  {
    if forall c :: alphabet(c) ==> IsAscii(c) {
      forall docs, ends, index | Batch(alphabet, docs, index) ensures WithinOnWire(docs, ends) {
        AsciiWithinOnWire(docs, ends);
      }
    } else {
      var c :| alphabet(c) && !IsAscii(c);
      var docs := OverOnWire(alphabet, c);
    }
  }
}
