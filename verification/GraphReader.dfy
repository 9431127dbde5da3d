/** Reading a published snapshot: the facts come back ordered by kind and id, are decoded one by one, sorted
    into the three lists and counted against the record. */
module GraphReader {
  import opened Prelude
  import opened Ordering
  import opened Diagnostics
  import opened FragmentMerge
  import opened Fidelity
  import opened Publication
  import opened FactEncoding

  type EntryDecoder = string -> Option<Entry>
  type DiagnosticDecoder = string -> Option<Diagnostic>

  /** Decoding undoes encoding. */
  ghost predicate Decodes(entry: EntryDecoder, diagnostic: DiagnosticDecoder)
  {
    && (forall e :: entry(EntryEncoding(e)) == Some(e))
    && (forall d :: diagnostic(Encoding(d)) == Some(d))
  }

  /** `ORDER BY fact_kind, fact_id`. */
  predicate FactLeq(a: Fact, b: Fact)
  {
    if a.kind == b.kind then LexLeq(a.id, b.id) else LexLeq(a.kind, b.kind)
  }

  /** One more fact of the list. */
  function ReadOne(g: Fragment, x: Fact, entry: EntryDecoder, diagnostic: DiagnosticDecoder)
    : Result<Fragment, StoreError>
  {
    if x.kind == "node" then
      var e := entry(x.encoded);
      if e.None? then Err(IntegrityFailure) else Ok(g.(primary := g.primary + [e.value]))
    else if x.kind == "edge" then
      var e := entry(x.encoded);
      if e.None? then Err(IntegrityFailure) else Ok(g.(relationships := g.relationships + [e.value]))
    else if x.kind == "diagnostic" then
      var d := diagnostic(x.encoded);
      if d.None? then Err(IntegrityFailure) else Ok(g.(diagnostics := g.diagnostics + [d.value]))
    else Err(IntegrityFailure)
  }

  function ReadAll(facts: seq<Fact>, entry: EntryDecoder, diagnostic: DiagnosticDecoder): Result<Fragment, StoreError>
  {
    if facts == [] then Ok(Fragment([], [], []))
    else
      var g :- ReadAll(facts[..|facts| - 1], entry, diagnostic);
      ReadOne(g, facts[|facts| - 1], entry, diagnostic)
  }

  function Loaded(r: Revision, entry: EntryDecoder, diagnostic: DiagnosticDecoder): Result<Fragment, StoreError>
  {
    var g :- ReadAll(Sort(FactLeq, r.facts), entry, diagnostic);
    if CountsOf(g) == r.counts then Ok(g) else Err(IntegrityFailure)
  }

  // ---------------------------------------------------------------- the loading loop

  lemma ReadNext(facts: seq<Fact>, i: nat, entry: EntryDecoder, diagnostic: DiagnosticDecoder)
    requires i < |facts| && ReadAll(facts[..i], entry, diagnostic).Ok?
    ensures ReadAll(facts[..i + 1], entry, diagnostic) ==
            ReadOne(ReadAll(facts[..i], entry, diagnostic).value, facts[i], entry, diagnostic)
  {
    assert facts[..i + 1][..i] == facts[..i];
  }

  lemma {:induction false} FailureStays(facts: seq<Fact>, i: nat, entry: EntryDecoder, diagnostic: DiagnosticDecoder)
    requires i <= |facts| && ReadAll(facts[..i], entry, diagnostic).Err?
    ensures ReadAll(facts, entry, diagnostic) == ReadAll(facts[..i], entry, diagnostic)
    decreases |facts|
  {
    if i == |facts| {
      assert facts[..i] == facts;
    } else {
      assert facts[..|facts| - 1][..i] == facts[..i];
      FailureStays(facts[..|facts| - 1], i, entry, diagnostic);
    }
  }

  /** Load the stored facts of a snapshot, in one pass. */
  method LoadGraph(r: Revision, entry: EntryDecoder, diagnostic: DiagnosticDecoder)
    returns (g: Result<Fragment, StoreError>)
    ensures g == Loaded(r, entry, diagnostic)
  {
    var facts := Sort(FactLeq, r.facts);
    var read := Fragment([], [], []);
    for i := 0 to |facts|
      invariant ReadAll(facts[..i], entry, diagnostic) == Ok(read)
    {
      ReadNext(facts, i, entry, diagnostic);
      var next := ReadOne(read, facts[i], entry, diagnostic);
      if next.Err? {
        FailureStays(facts, i + 1, entry, diagnostic);
        return next;
      }
      read := next.value;
    }
    assert facts[..|facts|] == facts;
    if CountsOf(read) != r.counts { return Err(IntegrityFailure); }
    g := Ok(read);
  }

  // ---------------------------------------------------------------- the order of the facts

  ghost predicate StrictlySorted<T(!new)>(leq: (T, T) -> bool, s: seq<T>)
  {
    forall i, j :: 0 <= i < j < |s| ==> leq(s[i], s[j]) && !leq(s[j], s[i])
  }

  lemma SameHead<T(!new)>(leq: (T, T) -> bool, a: seq<T>, b: seq<T>)
    requires TotalPreorder(leq) && SortedBy(leq, a) && StrictlySorted(leq, b)
    requires a != [] && b != [] && multiset(a) == multiset(b)
    ensures a[0] == b[0]
  {
    assert a[0] in multiset(a) && b[0] in multiset(b);
    var i :| 0 <= i < |b| && b[i] == a[0];
    var j :| 0 <= j < |a| && a[j] == b[0];
    assert leq(a[0], a[j]);
  }

  lemma TailsOf<T(!new)>(leq: (T, T) -> bool, a: seq<T>, b: seq<T>)
    requires SortedBy(leq, a) && StrictlySorted(leq, b) && multiset(a) == multiset(b)
    requires a != [] && b != [] && a[0] == b[0]
    ensures SortedBy(leq, a[1..]) && StrictlySorted(leq, b[1..]) && multiset(a[1..]) == multiset(b[1..])
  {
    WithoutHead(a);
    WithoutHead(b);
  }

  lemma WithoutHead<T>(s: seq<T>)
    requires s != []
    ensures multiset(s[1..]) == multiset(s) - multiset{s[0]}
  {
    assert s == [s[0]] + s[1..];
  }

  lemma SameLength<T>(a: seq<T>, b: seq<T>)
    requires multiset(a) == multiset(b)
    ensures |a| == |b|
  {
    assert |a| == |multiset(a)| && |b| == |multiset(b)|;
  }

  /** There is one way to sort what can be sorted strictly. */
  lemma {:induction false} SortedIsUnique<T(!new)>(leq: (T, T) -> bool, a: seq<T>, b: seq<T>)
    requires TotalPreorder(leq) && SortedBy(leq, a) && StrictlySorted(leq, b) && multiset(a) == multiset(b)
    ensures a == b
    decreases |a|
  {
    SameLength(a, b);
    if a != [] {
      SameHead(leq, a, b);
      TailsOf(leq, a, b);
      SortedIsUnique(leq, a[1..], b[1..]);
      assert a == [a[0]] + a[1..] && b == [b[0]] + b[1..];
    }
  }

  lemma FactOrder()
    ensures TotalPreorder(FactLeq)
  {
    forall a, b ensures FactLeq(a, b) || FactLeq(b, a) {
      LexTotal(a.id, b.id);
      LexTotal(a.kind, b.kind);
    }
    forall a, b, c | FactLeq(a, b) && FactLeq(b, c) ensures FactLeq(a, c) { FactLeqTransitive(a, b, c); }
  }

  lemma FactLeqTransitive(a: Fact, b: Fact, c: Fact)
    requires FactLeq(a, b) && FactLeq(b, c)
    ensures FactLeq(a, c)
  {
    if a.kind == b.kind && b.kind == c.kind { LexTransitive(a.id, b.id, c.id); }
    if a.kind != b.kind && b.kind != c.kind {
      LexTransitive(a.kind, b.kind, c.kind);
      LexTotal(a.kind, b.kind);
    }
  }

  ghost predicate OfKind(s: seq<Fact>, kind: string) { forall i :: 0 <= i < |s| ==> s[i].kind == kind }

  lemma JoinStrictlySorted(a: seq<Fact>, b: seq<Fact>, kind: string)
    requires StrictlySorted(FactLeq, a) && StrictlySorted(FactLeq, b) && OfKind(b, kind)
    requires forall i :: 0 <= i < |a| ==> LexLeq(a[i].kind, kind) && a[i].kind != kind
    ensures StrictlySorted(FactLeq, a + b)
  {
    forall i, j | 0 <= i < j < |a + b| ensures FactLeq((a + b)[i], (a + b)[j]) && !FactLeq((a + b)[j], (a + b)[i]) {
      if i < |a| <= j { LexTotal(a[i].kind, b[j - |a|].kind); }
    }
  }

  lemma EncodedStrictlySorted<T(!new)>(kind: string, facts: seq<T>, id: T -> string, encode: T -> string)
    requires Ascending(id, facts)
    ensures StrictlySorted(FactLeq, Encoded(kind, facts, id, encode)) && OfKind(Encoded(kind, facts, id, encode), kind)
  {
    var s := Encoded(kind, facts, id, encode);
    forall i, j | 0 <= i < j < |s| ensures FactLeq(s[i], s[j]) && !FactLeq(s[j], s[i]) {
      LexTotal(id(facts[i]), id(facts[j]));
    }
  }

  lemma KindOrder()
    ensures LexLeq("diagnostic", "edge") && LexLeq("diagnostic", "node") && LexLeq("edge", "node")
    ensures "diagnostic" != "edge" && "diagnostic" != "node" && "edge" != "node"
  {
    assert "diagnostic"[0] < "edge"[0] < "node"[0];
  }

  function Nodes(f: Fragment): seq<Fact> { Encoded("node", f.primary, EntryId, EntryEncoding) }
  function Edges(f: Fragment): seq<Fact> { Encoded("edge", f.relationships, EntryId, EntryEncoding) }
  function Notes(f: Fragment): seq<Fact> { Encoded("diagnostic", f.diagnostics, Encoding, Encoding) }

  /** The stored facts come back as diagnostics, edges and nodes, each in the order they were prepared in. */
  lemma StoredOrder(f: Fragment)
    requires InOrder(f)
    ensures Sort(FactLeq, PlainFacts(f)) == Notes(f) + Edges(f) + Nodes(f)
  {
    var n, e, d := Nodes(f), Edges(f), Notes(f);
    PlainFactsInParts(f);
    FactOrder();
    SortSorts(FactLeq, PlainFacts(f));
    assert multiset(n + e + d) == multiset(n) + multiset(e) + multiset(d) == multiset(d + e + n);
    PartsStrictlySorted(f);
    SortedIsUnique(FactLeq, Sort(FactLeq, PlainFacts(f)), d + e + n);
  }

  lemma PartsStrictlySorted(f: Fragment)
    requires InOrder(f)
    ensures StrictlySorted(FactLeq, Notes(f) + Edges(f) + Nodes(f))
  {
    KindOrder();
    EncodedStrictlySorted("node", f.primary, EntryId, EntryEncoding);
    EncodedStrictlySorted("edge", f.relationships, EntryId, EntryEncoding);
    EncodedStrictlySorted("diagnostic", f.diagnostics, Encoding, Encoding);
    JoinStrictlySorted(Notes(f), Edges(f), "edge");
    JoinStrictlySorted(Notes(f) + Edges(f), Nodes(f), "node");
  }

  // ---------------------------------------------------------------- decoding what was encoded

  lemma ReadStep(facts: seq<Fact>, x: Fact, entry: EntryDecoder, diagnostic: DiagnosticDecoder)
    requires ReadAll(facts, entry, diagnostic).Ok?
    ensures ReadAll(facts + [x], entry, diagnostic) ==
            ReadOne(ReadAll(facts, entry, diagnostic).value, x, entry, diagnostic)
  {
    assert (facts + [x])[..|facts|] == facts;
  }

  lemma EncodedLast<T>(before: seq<Fact>, kind: string, facts: seq<T>, id: T -> string, encode: T -> string)
    requires facts != []
    ensures var x := facts[|facts| - 1];
            before + Encoded(kind, facts, id, encode) ==
            before + Encoded(kind, facts[..|facts| - 1], id, encode) + [Fact(kind, id(x), encode(x))]
  {
  }

  lemma {:induction false} ReadDiagnostics(s: seq<Diagnostic>, entry: EntryDecoder, diagnostic: DiagnosticDecoder)
    requires Decodes(entry, diagnostic)
    ensures ReadAll([] + Encoded("diagnostic", s, Encoding, Encoding), entry, diagnostic) == Ok(Fragment([], [], s))
  {
    if s != [] {
      var init, x := s[..|s| - 1], s[|s| - 1];
      KindOrder();
      ReadDiagnostics(init, entry, diagnostic);
      EncodedLast([], "diagnostic", s, Encoding, Encoding);
      ReadStep([] + Encoded("diagnostic", init, Encoding, Encoding), Fact("diagnostic", Encoding(x), Encoding(x)),
               entry, diagnostic);
      assert init + [x] == s;
    }
  }

  lemma {:induction false} ReadEdges(before: seq<Fact>, s: seq<Entry>, d: seq<Diagnostic>, entry: EntryDecoder,
                                     diagnostic: DiagnosticDecoder)
    requires Decodes(entry, diagnostic) && ReadAll(before, entry, diagnostic) == Ok(Fragment([], [], d))
    ensures ReadAll(before + Encoded("edge", s, EntryId, EntryEncoding), entry, diagnostic) == Ok(Fragment([], s, d))
    decreases |s|
  {
    if s == [] {
      assert before + Encoded("edge", s, EntryId, EntryEncoding) == before;
    } else {
      var init, x := s[..|s| - 1], s[|s| - 1];
      var last := Fact("edge", EntryId(x), EntryEncoding(x));
      KindOrder();
      ReadEdges(before, init, d, entry, diagnostic);
      EncodedLast(before, "edge", s, EntryId, EntryEncoding);
      ReadStep(before + Encoded("edge", init, EntryId, EntryEncoding), last, entry, diagnostic);
      assert init + [x] == s;
    }
  }

  lemma {:induction false} ReadNodes(before: seq<Fact>, s: seq<Entry>, e: seq<Entry>, d: seq<Diagnostic>,
                                     entry: EntryDecoder, diagnostic: DiagnosticDecoder)
    requires Decodes(entry, diagnostic) && ReadAll(before, entry, diagnostic) == Ok(Fragment([], e, d))
    ensures ReadAll(before + Encoded("node", s, EntryId, EntryEncoding), entry, diagnostic) == Ok(Fragment(s, e, d))
    decreases |s|
  {
    if s == [] {
      assert before + Encoded("node", s, EntryId, EntryEncoding) == before;
    } else {
      var init, x := s[..|s| - 1], s[|s| - 1];
      var last := Fact("node", EntryId(x), EntryEncoding(x));
      ReadNodes(before, init, e, d, entry, diagnostic);
      EncodedLast(before, "node", s, EntryId, EntryEncoding);
      ReadStep(before + Encoded("node", init, EntryId, EntryEncoding), last, entry, diagnostic);
      assert init + [x] == s;
    }
  }

  /** The round trip of a snapshot: what was prepared in order and stored is loaded again, list for list. */
  lemma LoadedIsStored(r: Revision, f: Fragment, entry: EntryDecoder, diagnostic: DiagnosticDecoder)
    requires InOrder(f) && r.facts == PlainFacts(f) && r.counts == CountsOf(f) && Decodes(entry, diagnostic)
    ensures Loaded(r, entry, diagnostic) == Ok(f)
  {
    StoredOrder(f);
    ReadDiagnostics(f.diagnostics, entry, diagnostic);
    assert [] + Notes(f) == Notes(f);
    ReadEdges(Notes(f), f.relationships, f.diagnostics, entry, diagnostic);
    ReadNodes(Notes(f) + Edges(f), f.primary, f.relationships, f.diagnostics, entry, diagnostic);
  }
}
