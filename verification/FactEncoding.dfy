/** The stored form of a graph's facts: each encoded on its own, and the digest of them all. A digest stands
    for the text it hashes, so that it tells every two texts apart. */
module FactEncoding {
  import opened Prelude
  import opened Json
  import opened Diagnostics
  import opened FragmentMerge
  import opened Chunking
  import opened Publication

  // ---------------------------------------------------------------- one fact

  function Texts(s: seq<string>): Json.Items { if s == [] then NoItems else Items(Text(s[0]), Texts(s[1..])) }

  function EntryRecord(e: Entry): Value
  {
    var body := Field("body", Text(e.body), NoFields);
    var refs := Field("refs", Array(Texts(e.refs)), body);
    Object(Field("id", Text(e.id), refs))
  }

  function EntryEncoding(e: Entry): string { Encode(EntryRecord(e)) }

  lemma {:induction false} TextsInjective(a: seq<string>, b: seq<string>)
    requires Texts(a) == Texts(b)
    ensures a == b
  {
    if a != [] && b != [] {
      TextsInjective(a[1..], b[1..]);
      assert a == [a[0]] + a[1..] && b == [b[0]] + b[1..];
    }
  }

  lemma EntryRecordInjective(a: Entry, b: Entry)
    requires EntryRecord(a) == EntryRecord(b)
    ensures a == b
  {
    TextsInjective(a.refs, b.refs);
  }

  lemma EntryEncodingInjective(a: Entry, b: Entry)
    requires EntryEncoding(a) == EntryEncoding(b)
    ensures a == b
  {
    EncodeInjective(EntryRecord(a), EntryRecord(b));
    EntryRecordInjective(a, b);
  }

  // ---------------------------------------------------------------- the digest of all facts

  function EntryRecords(s: seq<Entry>): Json.Items
  {
    if s == [] then NoItems else Items(EntryRecord(s[0]), EntryRecords(s[1..]))
  }

  function DiagnosticRecords(s: seq<Diagnostic>): Json.Items
  {
    if s == [] then NoItems else Items(Record(s[0]), DiagnosticRecords(s[1..]))
  }

  function FactSet(f: Fragment): Value
  {
    var diagnostics := Items(Array(DiagnosticRecords(f.diagnostics)), NoItems);
    var edges := Items(Array(EntryRecords(f.relationships)), diagnostics);
    Array(Items(Array(EntryRecords(f.primary)), edges))
  }

  function FactSetDigest(f: Fragment): string { Encode(FactSet(f)) }

  lemma {:induction false} EntryRecordsInjective(a: seq<Entry>, b: seq<Entry>)
    requires EntryRecords(a) == EntryRecords(b)
    ensures a == b
  {
    if a != [] && b != [] {
      EntryRecordInjective(a[0], b[0]);
      EntryRecordsInjective(a[1..], b[1..]);
      assert a == [a[0]] + a[1..] && b == [b[0]] + b[1..];
    }
  }

  lemma {:induction false} DiagnosticRecordsInjective(a: seq<Diagnostic>, b: seq<Diagnostic>)
    requires DiagnosticRecords(a) == DiagnosticRecords(b)
    ensures a == b
  {
    if a != [] && b != [] {
      RecordInjective(a[0], b[0]);
      DiagnosticRecordsInjective(a[1..], b[1..]);
      assert a == [a[0]] + a[1..] && b == [b[0]] + b[1..];
    }
  }

  /** Graphs with the same digest have the same facts, in the same order. */
  lemma FactSetDigestInjective(f: Fragment, g: Fragment)
    requires FactSetDigest(f) == FactSetDigest(g)
    ensures f == g
  {
    EncodeInjective(FactSet(f), FactSet(g));
    EntryRecordsInjective(f.primary, g.primary);
    EntryRecordsInjective(f.relationships, g.relationships);
    DiagnosticRecordsInjective(f.diagnostics, g.diagnostics);
  }

  // ---------------------------------------------------------------- the facts as they are stored

  function PlainFact(f: Fragment, i: nat): Fact
    requires i < Count(f)
  {
    var n, m := |f.primary|, |f.primary| + |f.relationships|;
    if i < n then Fact("node", f.primary[i].id, EntryEncoding(f.primary[i]))
    else if i < m then Fact("edge", f.relationships[i - n].id, EntryEncoding(f.relationships[i - n]))
    else Fact("diagnostic", Encoding(f.diagnostics[i - m]), Encoding(f.diagnostics[i - m]))
  }

  /** Nodes, then edges, then diagnostics. */
  function PlainFacts(f: Fragment): seq<Fact>
  {
    seq(Count(f), i requires 0 <= i < Count(f) => PlainFact(f, i))
  }

  function CountsOf(f: Fragment): FactCounts
  {
    FactCounts(|f.primary|, |f.relationships|, |f.diagnostics|)
  }

  function Encoded<T>(kind: string, facts: seq<T>, id: T -> string, encode: T -> string): seq<Fact>
  {
    seq(|facts|, i requires 0 <= i < |facts| => Fact(kind, id(facts[i]), encode(facts[i])))
  }

  lemma PlainFactsInParts(f: Fragment)
    ensures PlainFacts(f) ==
        Encoded("node", f.primary, EntryId, EntryEncoding) + Encoded("edge", f.relationships, EntryId, EntryEncoding)
        + Encoded("diagnostic", f.diagnostics, Encoding, Encoding)
  {
    var nodes := Encoded("node", f.primary, EntryId, EntryEncoding);
    var edges := Encoded("edge", f.relationships, EntryId, EntryEncoding);
    var diagnostics := Encoded("diagnostic", f.diagnostics, Encoding, Encoding);
    forall i | 0 <= i < Count(f) ensures PlainFact(f, i) == (nodes + edges + diagnostics)[i] {}
    assert PlainFacts(f) == nodes + edges + diagnostics;
  }

  method AppendFacts<T>(output: seq<Fact>, kind: string, facts: seq<T>, id: T -> string, encode: T -> string)
    returns (r: seq<Fact>)
    ensures r == output + Encoded(kind, facts, id, encode)
  {
    r := output;
    for i := 0 to |facts|
      invariant r == output + Encoded(kind, facts, id, encode)[..i]
    {
      r := r + [Fact(kind, id(facts[i]), encode(facts[i]))];
    }
  }

  /** The encoding pass of a preparation: every fact of the graph, encoded, in storage order. */
  method EncodeFacts(f: Fragment) returns (r: seq<Fact>)
    ensures r == PlainFacts(f)
  {
    r := AppendFacts([], "node", f.primary, EntryId, EntryEncoding);
    r := AppendFacts(r, "edge", f.relationships, EntryId, EntryEncoding);
    r := AppendFacts(r, "diagnostic", f.diagnostics, Encoding, Encoding);
    PlainFactsInParts(f);
  }

  lemma KindAt(f: Fragment, i: nat)
    requires i < Count(f)
    ensures PlainFact(f, i).kind == "node" <==> i < |f.primary|
    ensures PlainFact(f, i).kind == "diagnostic" <==> i >= |f.primary| + |f.relationships|
  {
    assert "node"[0] != "edge"[0] && "node"[0] != "diagnostic"[0] && "edge"[0] != "diagnostic"[0];
  }

  lemma SamePlainFact(f: Fragment, g: Fragment, i: nat)
    requires PlainFacts(f) == PlainFacts(g) && i < Count(f)
    ensures i < Count(g) && PlainFact(f, i) == PlainFact(g, i)
  {
    assert |PlainFacts(f)| == |PlainFacts(g)|;
    assert PlainFacts(f)[i] == PlainFacts(g)[i];
  }

  lemma SameCounts(f: Fragment, g: Fragment)
    requires PlainFacts(f) == PlainFacts(g)
    ensures CountsOf(f) == CountsOf(g)
  {
    assert |PlainFacts(f)| == |PlainFacts(g)|;
    var i := Min(|f.primary|, |g.primary|);
    var j := Min(|f.primary| + |f.relationships|, |g.primary| + |g.relationships|);
    if i < Count(f) {
      SamePlainFact(f, g, i);
      KindAt(f, i);
      KindAt(g, i);
    }
    if j < Count(f) {
      SamePlainFact(f, g, j);
      KindAt(f, j);
      KindAt(g, j);
    }
  }

  /** Stored facts determine the graph they were encoded from. */
  lemma PlainFactsInjective(f: Fragment, g: Fragment)
    requires PlainFacts(f) == PlainFacts(g)
    ensures f == g
  {
    SameCounts(f, g);
    var n, m := |f.primary|, |f.primary| + |f.relationships|;
    forall i | 0 <= i < n ensures f.primary[i] == g.primary[i] {
      SamePlainFact(f, g, i);
      EntryEncodingInjective(f.primary[i], g.primary[i]);
    }
    forall i | 0 <= i < m - n ensures f.relationships[i] == g.relationships[i] {
      SamePlainFact(f, g, n + i);
      EntryEncodingInjective(f.relationships[i], g.relationships[i]);
    }
    forall i | 0 <= i < |f.diagnostics| ensures f.diagnostics[i] == g.diagnostics[i] {
      SamePlainFact(f, g, m + i);
      EncodingInjective(f.diagnostics[i], g.diagnostics[i]);
    }
  }
}
