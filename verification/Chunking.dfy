/** Cutting a worker's output into batch-sized payloads. */
module Chunking {
  import opened Prelude
  import opened Ordering
  import opened Diagnostics
  import opened JsonSort
  import opened FragmentMerge

  /** One fact of a payload, in the order a payload lists them. */
  datatype Item = PrimaryItem(entry: Entry) | RelationshipItem(entry: Entry) | DiagnosticItem(diagnostic: Diagnostic)

  function Count(f: Fragment): nat { |f.primary| + |f.relationships| + |f.diagnostics| }

  function PrimaryItems(s: seq<Entry>): (r: seq<Item>)
    ensures |r| == |s|
  {
    seq(|s|, i requires 0 <= i < |s| => PrimaryItem(s[i]))
  }

  function RelationshipItems(s: seq<Entry>): (r: seq<Item>)
    ensures |r| == |s|
  {
    seq(|s|, i requires 0 <= i < |s| => RelationshipItem(s[i]))
  }

  function DiagnosticItems(s: seq<Diagnostic>): (r: seq<Item>)
    ensures |r| == |s|
  {
    seq(|s|, i requires 0 <= i < |s| => DiagnosticItem(s[i]))
  }

  /** Primaries, then relationships, then diagnostics. */
  function Flat(f: Fragment): (r: seq<Item>)
    ensures |r| == Count(f)
  {
    PrimaryItems(f.primary) + RelationshipItems(f.relationships) + DiagnosticItems(f.diagnostics)
  }

  /** The facts of a list of payloads, end to end. */
  function Stream(fs: seq<Fragment>): seq<Item>
  {
    if fs == [] then [] else Flat(fs[0]) + Stream(fs[1..])
  }

  lemma {:induction false} StreamConcat(a: seq<Fragment>, b: seq<Fragment>)
    ensures Stream(a + b) == Stream(a) + Stream(b)
  {
    if a == [] {
      assert a + b == b;
    } else {
      assert (a + b)[1..] == a[1..] + b;
      StreamConcat(a[1..], b);
    }
  }

  /** Which kind of fact sits at a position. */
  lemma KindAt(f: Fragment, i: nat)
    requires i < Count(f)
    ensures Flat(f)[i].PrimaryItem? <==> i < |f.primary|
    ensures Flat(f)[i].DiagnosticItem? <==> |f.primary| + |f.relationships| <= i
  {
  }

  lemma SameShape(a: Fragment, b: Fragment)
    requires Flat(a) == Flat(b)
    ensures |a.primary| == |b.primary| && |a.relationships| == |b.relationships| && |a.diagnostics| == |b.diagnostics|
  {
    assert |Flat(a)| == |Flat(b)|;
    if |a.primary| > 0 { KindAt(a, |a.primary| - 1); KindAt(b, |a.primary| - 1); }
    if |b.primary| > 0 { KindAt(a, |b.primary| - 1); KindAt(b, |b.primary| - 1); }
    if |a.diagnostics| > 0 { KindAt(a, Count(a) - |a.diagnostics|); KindAt(b, Count(a) - |a.diagnostics|); }
    if |b.diagnostics| > 0 { KindAt(a, Count(b) - |b.diagnostics|); KindAt(b, Count(b) - |b.diagnostics|); }
  }

  /** A payload is recovered from its flat list. */
  lemma FlatInjective(a: Fragment, b: Fragment)
    requires Flat(a) == Flat(b)
    ensures a == b
  {
    SameShape(a, b);
    var n, m := |a.primary|, |a.primary| + |a.relationships|;
    forall i | 0 <= i < n ensures a.primary[i] == b.primary[i] { assert Flat(a)[i] == Flat(b)[i]; }
    forall i | 0 <= i < m - n ensures a.relationships[i] == b.relationships[i] {
      assert Flat(a)[n + i] == Flat(b)[n + i];
    }
    forall i | 0 <= i < |a.diagnostics| ensures a.diagnostics[i] == b.diagnostics[i] {
      assert Flat(a)[m + i] == Flat(b)[m + i];
    }
  }

  // ---------------------------------------------------------------- taking prefixes

  /** Move as many items as still fit from the front of a list. */
  method TakePrefix<T>(items: seq<T>, remaining: nat) returns (taken: seq<T>, rest: seq<T>, left: nat)
    ensures taken + rest == items && |taken| == Min(|items|, remaining) && left == remaining - |taken|
  {
    var count := Min(|items|, remaining);
    taken, rest, left := items[..count], items[count..], remaining - count;
  }

  /** The first `n` facts of a payload, and the others. */
  function Cut(f: Fragment, n: nat): (Fragment, Fragment)
  {
    var a := Min(|f.primary|, n);
    var b := Min(|f.relationships|, n - a);
    var c := Min(|f.diagnostics|, n - a - b);
    (Fragment(f.primary[..a], f.relationships[..b], f.diagnostics[..c]),
     Fragment(f.primary[a..], f.relationships[b..], f.diagnostics[c..]))
  }

  /** A cut of a concatenation falls in one of its two parts. */
  lemma CutConcat<T>(x: seq<T>, y: seq<T>, n: nat)
    requires n <= |x| + |y|
    ensures var a := Min(|x|, n);
            (x + y)[..n] == x[..a] + y[..n - a] && (x + y)[n..] == x[a..] + y[n - a..]
  {
  }

  lemma CutParts(f: Fragment, a: nat, b: nat, c: nat)
    requires a <= |f.primary| && b <= |f.relationships| && c <= |f.diagnostics|
    ensures PrimaryItems(f.primary[..a]) == PrimaryItems(f.primary)[..a]
        && PrimaryItems(f.primary[a..]) == PrimaryItems(f.primary)[a..]
    ensures RelationshipItems(f.relationships[..b]) == RelationshipItems(f.relationships)[..b]
    ensures RelationshipItems(f.relationships[b..]) == RelationshipItems(f.relationships)[b..]
    ensures DiagnosticItems(f.diagnostics[..c]) == DiagnosticItems(f.diagnostics)[..c]
    ensures DiagnosticItems(f.diagnostics[c..]) == DiagnosticItems(f.diagnostics)[c..]
  {
  }

  /** Cutting three lists in turn cuts their concatenation. */
  lemma CutThree<T>(x: seq<T>, y: seq<T>, z: seq<T>, n: nat)
    ensures var a := Min(|x|, n); var b := Min(|y|, n - a); var c := Min(|z|, n - a - b);
            var k := Min(n, |x| + |y| + |z|);
            && (x + y + z)[..k] == x[..a] + y[..b] + z[..c]
            && (x + y + z)[k..] == x[a..] + y[b..] + z[c..]
  {
    var a := Min(|x|, n);
    var b := Min(|y|, n - a);
    var c := Min(|z|, n - a - b);
    CutConcat(x, y, a + b);
    CutConcat(x + y, z, a + b + c);
  }

  /** Cutting a payload cuts its flat list. */
  lemma CutFlat(f: Fragment, n: nat)
    ensures var k := Min(n, Count(f));
            Flat(Cut(f, n).0) == Flat(f)[..k] && Flat(Cut(f, n).1) == Flat(f)[k..]
  {
    var a := Min(|f.primary|, n);
    var b := Min(|f.relationships|, n - a);
    CutParts(f, a, b, Min(|f.diagnostics|, n - a - b));
    CutThree(PrimaryItems(f.primary), RelationshipItems(f.relationships), DiagnosticItems(f.diagnostics), n);
  }

  method TakePayload(f: Fragment, limit: nat) returns (payload: Fragment, rest: Fragment)
    ensures (payload, rest) == Cut(f, limit)
  {
    var primary, relationships, diagnostics, primaryRest, relationshipRest, diagnosticRest, remaining;
    primary, primaryRest, remaining := TakePrefix(f.primary, limit);
    relationships, relationshipRest, remaining := TakePrefix(f.relationships, remaining);
    diagnostics, diagnosticRest, remaining := TakePrefix(f.diagnostics, remaining);
    payload := Fragment(primary, relationships, diagnostics);
    rest := Fragment(primaryRest, relationshipRest, diagnosticRest);
    assert f.primary == primary + primaryRest && f.relationships == relationships + relationshipRest
           && f.diagnostics == diagnostics + diagnosticRest;
  }

  // ---------------------------------------------------------------- chunks

  /** Consecutive chunks of `limit` items; the last may be shorter. */
  function Chunks(s: seq<Item>, limit: nat): seq<seq<Item>>
    requires limit > 0
    decreases |s|
  {
    if s == [] then [] else if |s| <= limit then [s] else [s[..limit]] + Chunks(s[limit..], limit)
  }

  function Flats(fs: seq<Fragment>): (r: seq<seq<Item>>)
    ensures |r| == |fs| && forall i :: 0 <= i < |r| ==> r[i] == Flat(fs[i])
  {
    seq(|fs|, i requires 0 <= i < |fs| => Flat(fs[i]))
  }

  lemma {:induction false} MulStep(n: nat, a: nat, b: nat)
    requires a > b
    ensures n * a >= n * b + n
    decreases a
  {
    if a > b + 1 { MulStep(n, a - 1, b); }
    assert n * a == n * (a - 1) + n;
  }

  lemma SameQuotient(n: nat, q: nat, r: nat, q': nat, r': nat)
    requires n * q + r == n * q' + r' && r < n && r' < n
    ensures q == q'
  {
    if q > q' { MulStep(n, q, q'); }
    if q' > q { MulStep(n, q', q); }
  }

  lemma DivUnique(x: nat, n: nat, q: nat, r: nat)
    requires n > 0 && r < n && x == n * q + r
    ensures x / n == q
  {
    SameQuotient(n, x / n, x % n, q, r);
  }

  lemma DivStep(x: nat, n: nat)
    requires n > 0
    ensures (x + n) / n == x / n + 1
  {
    assert n * (x / n + 1) == n * (x / n) + n;
    DivUnique(x + n, n, x / n + 1, x % n);
  }

  /** Rounded-up division counts the chunks. */
  lemma {:induction false} ChunkCount(s: seq<Item>, limit: nat)
    requires limit > 0
    ensures |Chunks(s, limit)| == (|s| + limit - 1) / limit
    decreases |s|
  {
    if |s| == 0 {
      DivUnique(limit - 1, limit, 0, limit - 1);
    } else if |s| <= limit {
      DivUnique(|s| + limit - 1, limit, 1, |s| - 1);
    } else {
      ChunkCount(s[limit..], limit);
      DivStep(|s| - 1, limit);
      assert |s[limit..]| + limit - 1 == |s| - 1;
    }
  }

  /** Facts in the order they are emitted: by id, by id, by encoding. */
  function Ordered(f: Fragment): (r: Fragment)
    ensures Count(r) == Count(f)
  {
    Fragment(Sort(EntryLeq, f.primary), Sort(EntryLeq, f.relationships), SortedByKey(DiagnosticKey, f.diagnostics))
  }

  lemma EntryOrder()
    ensures TotalPreorder(EntryLeq)
  {
    forall a, b ensures EntryLeq(a, b) || EntryLeq(b, a) { LexTotal(a.id, b.id); }
    forall a, b, c | EntryLeq(a, b) && EntryLeq(b, c) ensures EntryLeq(a, c) { LexTransitive(a.id, b.id, c.id); }
  }

  /** The ids, in the order their entries are emitted, never descend; nor do the encodings of diagnostics. */
  ghost predicate Emittable(f: Fragment)
  {
    && (forall i, j :: 0 <= i < j < |f.primary| ==> LexLeq(f.primary[i].id, f.primary[j].id))
    && (forall i, j :: 0 <= i < j < |f.relationships| ==> LexLeq(f.relationships[i].id, f.relationships[j].id))
    && (forall i, j :: 0 <= i < j < |f.diagnostics| ==>
          LexLeq(Encoding(f.diagnostics[i]), Encoding(f.diagnostics[j])))
  }

  /** Emission sorts the facts and neither adds nor drops one. */
  lemma OrderedMeaning(f: Fragment)
    ensures Emittable(Ordered(f))
    ensures multiset(Ordered(f).primary) == multiset(f.primary)
    ensures multiset(Ordered(f).relationships) == multiset(f.relationships)
    ensures multiset(Ordered(f).diagnostics) == multiset(f.diagnostics)
  {
    EntryOrder();
    SortSorts(EntryLeq, f.primary);
    SortSorts(EntryLeq, f.relationships);
    SortedDiagnostics(f.diagnostics);
    JsonOrderIsStable(DiagnosticKey, f.diagnostics, "");
    var r := Ordered(f);
    forall i, j | 0 <= i < j < |r.primary| ensures LexLeq(r.primary[i].id, r.primary[j].id) {
      assert EntryLeq(r.primary[i], r.primary[j]);
    }
    forall i, j | 0 <= i < j < |r.relationships| ensures LexLeq(r.relationships[i].id, r.relationships[j].id) {
      assert EntryLeq(r.relationships[i], r.relationships[j]);
    }
    forall i, j | 0 <= i < j < |r.diagnostics|
      ensures LexLeq(Encoding(r.diagnostics[i]), Encoding(r.diagnostics[j]))
    {
      assert DiagnosticLeq(r.diagnostics[i], r.diagnostics[j]);
    }
  }

  /** The payloads are the limit-sized chunks of the fragment's one flat list, which is their concatenation; an
      empty fragment has one empty payload. */
  ghost predicate CutInto(f: Fragment, limit: nat, payloads: seq<Fragment>)
    requires limit > 0
  {
    && Flats(payloads) == (if Count(f) == 0 then [[]] else Chunks(Flat(f), limit))
    && |payloads| == Max(1, (Count(f) + limit - 1) / limit)
    && Stream(payloads) == Flat(f)
  }

  /** Cut a fragment into consecutive payloads; an empty fragment still gives one. */
  method CutAll(fragment: Fragment, limit: nat) returns (payloads: seq<Fragment>)
    requires limit > 0
    ensures CutInto(fragment, limit, payloads)
  {
    var rest := fragment;
    payloads := [];
    while Count(rest) > 0
      invariant Cutting(payloads, rest, Flat(fragment), limit)
      decreases Count(rest)
    {
      CuttingStep(payloads, rest, Flat(fragment), limit);
      var payload;
      payload, rest := TakePayload(rest, limit);
      payloads := payloads + [payload];
    }
    CuttingEnds(payloads, rest, Flat(fragment), limit);
    if payloads == [] {
      payloads := [Fragment([], [], [])];
    }
  }

  method SortFacts(fragment: Fragment) returns (r: Option<Fragment>)
    ensures r == Some(Ordered(fragment))
  {
    var diagnostics := SortByJsonKey(fragment.diagnostics, DiagnosticKey);
    if diagnostics.None? { return None; }
    r := Some(Fragment(Sort(EntryLeq, fragment.primary), Sort(EntryLeq, fragment.relationships), diagnostics.value));
  }

  /** The payloads are exactly the limit-sized chunks of the one flat list, and there is always at least one. */
  method Payloads(fragment: Fragment, limit: nat) returns (r: Result<seq<Fragment>, WorkerError>)
    requires limit > 0
    ensures r.Ok? && CutInto(Ordered(fragment), limit, r.value)
  {
    var sorted := SortFacts(fragment);
    if sorted.None? { return Err(ExtractionFailed); }
    var payloads := CutAll(sorted.value, limit);
    r := Ok(payloads);
  }

  /** What is cut off so far, followed by the chunks of what is left, are the chunks of the whole. */
  ghost predicate Cutting(payloads: seq<Fragment>, rest: Fragment, whole: seq<Item>, limit: nat)
    requires limit > 0
  {
    && Flats(payloads) + Chunks(Flat(rest), limit) == Chunks(whole, limit)
    && Stream(payloads) + Flat(rest) == whole
  }

  lemma FirstChunk(s: seq<Item>, limit: nat)
    requires limit > 0 && s != []
    ensures var k := Min(limit, |s|); Chunks(s, limit) == [s[..k]] + Chunks(s[k..], limit)
  {
    if |s| <= limit { assert s[..|s|] == s && s[|s|..] == []; }
  }

  lemma ChunkStep(f: Fragment, limit: nat)
    requires limit > 0 && Count(f) > 0
    ensures Chunks(Flat(f), limit) == [Flat(Cut(f, limit).0)] + Chunks(Flat(Cut(f, limit).1), limit)
    ensures Flat(Cut(f, limit).0) + Flat(Cut(f, limit).1) == Flat(f)
    ensures Count(Cut(f, limit).1) < Count(f)
  {
    CutFlat(f, limit);
    FirstChunk(Flat(f), limit);
  }

  lemma CuttingStep(payloads: seq<Fragment>, rest: Fragment, whole: seq<Item>, limit: nat)
    requires limit > 0 && Count(rest) > 0 && Cutting(payloads, rest, whole, limit)
    ensures Cutting(payloads + [Cut(rest, limit).0], Cut(rest, limit).1, whole, limit)
    ensures Count(Cut(rest, limit).1) < Count(rest)
  {
    var (payload, next) := Cut(rest, limit);
    ChunkStep(rest, limit);
    FlatsAppend(payloads, payload, Chunks(Flat(next), limit));
    StreamAppend(payloads, payload, Flat(next));
  }

  lemma FlatsAppend(payloads: seq<Fragment>, payload: Fragment, tail: seq<seq<Item>>)
    ensures Flats(payloads + [payload]) + tail == Flats(payloads) + ([Flat(payload)] + tail)
  {
  }

  lemma StreamAppend(payloads: seq<Fragment>, payload: Fragment, tail: seq<Item>)
    ensures Stream(payloads + [payload]) + tail == Stream(payloads) + (Flat(payload) + tail)
  {
    StreamConcat(payloads, [payload]);
    assert Stream([payload]) == Flat(payload) + Stream([]);
  }

  lemma CuttingEnds(payloads: seq<Fragment>, rest: Fragment, whole: seq<Item>, limit: nat)
    requires limit > 0 && Count(rest) == 0 && Cutting(payloads, rest, whole, limit)
    ensures Flats(payloads) == Chunks(whole, limit) && Stream(payloads) == whole
    ensures |payloads| == (|whole| + limit - 1) / limit && (payloads == [] <==> whole == [])
  {
    ChunkCount(whole, limit);
    assert Flat(rest) == [];
  }

  // ---------------------------------------------------------------- splitting

  /** Halve a payload; refused below two facts. */
  function SplitPayload(f: Fragment): (r: Result<(Fragment, Fragment), WorkerError>)
    ensures r.Ok? <==> Count(f) >= 2
    ensures r.Ok? ==> Count(r.value.0) >= 1 && Count(r.value.1) >= 1 && Flat(r.value.0) + Flat(r.value.1) == Flat(f)
    ensures r.Ok? ==> Count(r.value.0) == Count(f) / 2
  {
    CutFlat(f, Count(f) / 2);
    if Count(f) < 2 then Err(OutputLimitExceeded) else Ok(Cut(f, Count(f) / 2))
  }

  /** Splits and acceptances still possible. */
  function Work(pending: seq<Fragment>): nat
  {
    if pending == [] then 0 else Max(1, 2 * Count(pending[0]) - 1) + Work(pending[1..])
  }

  lemma SplitWork(first: Fragment, second: Fragment, f: Fragment, rest: seq<Fragment>)
    requires Count(first) >= 1 && Count(second) >= 1 && Count(first) + Count(second) == Count(f)
    ensures Work([first, second] + rest) < Work([f] + rest)
  {
    assert ([first, second] + rest)[1..] == [second] + rest && ([second] + rest)[1..] == rest
        && ([f] + rest)[1..] == rest;
    assert Work([second] + rest) == Max(1, 2 * Count(second) - 1) + Work(rest);
  }

  /** Encoded size of a payload at a sequence number, with or without the final marker; none when it does
      not form a valid batch. */
  type Measure = (nat, bool, Fragment) -> Option<nat>

  /** What sizing decides about the payload at the front. */
  datatype Decision = Reject(error: WorkerError) | Accept | Halve(first: Fragment, second: Fragment)

  function Decide(position: nat, last: bool, payload: Fragment, measure: Measure, maxBytes: nat): (d: Decision)
    ensures d.Halve? ==>
        Count(d.first) >= 1 && Count(d.second) >= 1 && Count(d.first) + Count(d.second) == Count(payload)
  {
    if position > U32_MAX then Reject(OutputLimitExceeded)
    else
      match measure(position, last, payload)
      case None => Reject(FactConflict)
      case Some(bytes) =>
        if bytes <= maxBytes then Accept
        else
          match SplitPayload(payload)
          case Err(e) => Reject(e)
          case Ok((first, second)) => assert |Flat(first) + Flat(second)| == |Flat(payload)|; Halve(first, second)
  }

  lemma HalvesAreWhole(position: nat, last: bool, payload: Fragment, measure: Measure, maxBytes: nat)
    requires Decide(position, last, payload, measure, maxBytes).Halve?
    ensures var d := Decide(position, last, payload, measure, maxBytes); Flat(d.first) + Flat(d.second) == Flat(payload)
  {
  }

  lemma AcceptedFits(position: nat, last: bool, payload: Fragment, measure: Measure, maxBytes: nat)
    requires Decide(position, last, payload, measure, maxBytes).Accept?
    ensures measure(position, last, payload).Some? && measure(position, last, payload).value <= maxBytes
  {
  }

  /** Split until every payload fits the batch limit at the position it will be emitted at. */
  function Sized(pending: seq<Fragment>, sized: seq<Fragment>, measure: Measure, maxBytes: nat)
    : Result<seq<Fragment>, WorkerError>
    decreases Work(pending)
  {
    if pending == [] then Ok(sized)
    else
      var payload, rest := pending[0], pending[1..];
      match Decide(|sized|, rest == [], payload, measure, maxBytes)
      case Reject(e) => Err(e)
      case Accept => Sized(rest, sized + [payload], measure, maxBytes)
      case Halve(first, second) =>
        assert pending == [payload] + rest;
        SplitWork(first, second, payload, rest);
        Sized([first, second] + rest, sized, measure, maxBytes)
  }

  /** Nothing is split that fits where it is. */
  lemma {:induction false} FittingStays(pending: seq<Fragment>, sized: seq<Fragment>, measure: Measure, maxBytes: nat)
    requires |sized| + |pending| <= U32_MAX + 1
    requires forall i :: 0 <= i < |pending| ==>
               var bytes := measure(|sized| + i, i == |pending| - 1, pending[i]);
               bytes.Some? && bytes.value <= maxBytes
    ensures Sized(pending, sized, measure, maxBytes) == Ok(sized + pending)
    decreases |pending|
  {
    if pending == [] {
      assert sized + pending == sized;
    } else {
      var payload, rest := pending[0], pending[1..];
      assert measure(|sized| + 0, rest == [], payload).Some?;
      forall i | 0 <= i < |rest|
        ensures var bytes := measure(|sized + [payload]| + i, i == |rest| - 1, rest[i]);
                bytes.Some? && bytes.value <= maxBytes
      {
        assert rest[i] == pending[i + 1] && |sized| + (i + 1) == |sized + [payload]| + i;
        assert measure(|sized| + (i + 1), i + 1 == |pending| - 1, pending[i + 1]).Some?;
      }
      FittingStays(rest, sized + [payload], measure, maxBytes);
      assert sized + [payload] + rest == sized + pending;
    }
  }

  method SizePayloads(payloads: seq<Fragment>, measure: Measure, maxBytes: nat)
    returns (reply: Result<seq<Fragment>, WorkerError>)
    ensures reply == Sized(payloads, [], measure, maxBytes)
  {
    var pending, sized: seq<Fragment> := payloads, [];
    while pending != []
      invariant Sized(pending, sized, measure, maxBytes) == Sized(payloads, [], measure, maxBytes)
      decreases Work(pending)
    {
      var payload, rest := pending[0], pending[1..];
      var decision := Decide(|sized|, rest == [], payload, measure, maxBytes);
      if decision.Reject? { return Err(decision.error); }
      if decision.Accept? {
        pending, sized := rest, sized + [payload];
      } else {
        assert pending == [payload] + rest;
        SplitWork(decision.first, decision.second, payload, rest);
        pending := [decision.first, decision.second] + rest;
      }
    }
    reply := Ok(sized);
  }

  ghost predicate Fits(sized: seq<Fragment>, last: bool, measure: Measure, maxBytes: nat)
  {
    forall i :: 0 <= i < |sized| ==>
      var bytes := measure(i, last && i == |sized| - 1, sized[i]);
      bytes.Some? && bytes.value <= maxBytes
  }

  /** The payloads a sizing ended in carry the stream it started from, and all fit. */
  ghost predicate SizedOk(pending: seq<Fragment>, sized: seq<Fragment>, r: seq<Fragment>, measure: Measure,
                          maxBytes: nat)
  {
    && Stream(r) == Stream(sized) + Stream(pending) && Fits(r, true, measure, maxBytes)
    && |sized| <= |r| && (pending != [] ==> r != [])
  }

  lemma AcceptStep(payload: Fragment, rest: seq<Fragment>, sized: seq<Fragment>, r: seq<Fragment>, measure: Measure,
                   maxBytes: nat)
    requires SizedOk(rest, sized + [payload], r, measure, maxBytes)
    ensures SizedOk([payload] + rest, sized, r, measure, maxBytes)
  {
    StreamAppend(sized, payload, Stream(rest));
    assert ([payload] + rest)[1..] == rest;
  }

  lemma SplitStep(first: Fragment, second: Fragment, payload: Fragment, rest: seq<Fragment>, sized: seq<Fragment>,
                  r: seq<Fragment>, measure: Measure, maxBytes: nat)
    requires SizedOk([first, second] + rest, sized, r, measure, maxBytes) && Flat(first) + Flat(second) == Flat(payload)
    ensures SizedOk([payload] + rest, sized, r, measure, maxBytes)
  {
    StreamSplit(first, second, payload, rest);
  }

  lemma FitsOneMore(sized: seq<Fragment>, payload: Fragment, last: bool, measure: Measure, maxBytes: nat)
    requires Fits(sized, false, measure, maxBytes)
    requires measure(|sized|, last, payload).Some? && measure(|sized|, last, payload).value <= maxBytes
    ensures Fits(sized + [payload], last, measure, maxBytes)
  {
  }

  /** Splitting terminates, keeps the stream of facts, and every payload fits at exactly the sequence
      number and final marker it is later emitted with. */
  lemma {:induction false} SizedPreservesStream(pending: seq<Fragment>, sized: seq<Fragment>, measure: Measure,
                                                maxBytes: nat)
    requires Sized(pending, sized, measure, maxBytes).Ok? && Fits(sized, pending == [], measure, maxBytes)
    ensures SizedOk(pending, sized, Sized(pending, sized, measure, maxBytes).value, measure, maxBytes)
    decreases Work(pending)
  {
    var r := Sized(pending, sized, measure, maxBytes).value;
    if pending != [] {
      var payload, rest := pending[0], pending[1..];
      assert pending == [payload] + rest;
      var decision := Decide(|sized|, rest == [], payload, measure, maxBytes);
      if decision.Accept? {
        AcceptedFits(|sized|, rest == [], payload, measure, maxBytes);
        FitsOneMore(sized, payload, rest == [], measure, maxBytes);
        SizedPreservesStream(rest, sized + [payload], measure, maxBytes);
        AcceptStep(payload, rest, sized, r, measure, maxBytes);
      } else {
        HalvesAreWhole(|sized|, rest == [], payload, measure, maxBytes);
        SplitWork(decision.first, decision.second, payload, rest);
        SizedPreservesStream([decision.first, decision.second] + rest, sized, measure, maxBytes);
        SplitStep(decision.first, decision.second, payload, rest, sized, r, measure, maxBytes);
      }
    }
  }

  lemma StreamSplit(a: Fragment, b: Fragment, f: Fragment, rest: seq<Fragment>)
    requires Flat(a) + Flat(b) == Flat(f)
    ensures Stream([a, b] + rest) == Stream([f] + rest)
  {
    assert ([a, b] + rest)[1..] == [b] + rest && ([b] + rest)[1..] == rest && ([f] + rest)[1..] == rest;
    assert Stream([b] + rest) == Flat(b) + Stream(rest);
    assert Flat(a) + (Flat(b) + Stream(rest)) == Flat(a) + Flat(b) + Stream(rest);
  }

  /** `f` is a run of consecutive facts of `p`. */
  ghost predicate PieceOf(f: Fragment, p: Fragment)
  {
    exists i, j :: 0 <= i <= j <= |Flat(p)| && Flat(f) == Flat(p)[i..j]
  }

  /** `f` was cut from one of the pending payloads. */
  ghost predicate CutFrom(f: Fragment, pending: seq<Fragment>)
  {
    exists n :: 0 <= n < |pending| && PieceOf(f, pending[n])
  }

  lemma PieceOfPiece(f: Fragment, p: Fragment, whole: Fragment)
    requires PieceOf(f, p) && PieceOf(p, whole)
    ensures PieceOf(f, whole)
  {
    var i, j :| 0 <= i <= j <= |Flat(p)| && Flat(f) == Flat(p)[i..j];
    var k, l :| 0 <= k <= l <= |Flat(whole)| && Flat(p) == Flat(whole)[k..l];
    SliceOfSlice(Flat(whole), k, l, i, j);
  }

  lemma SliceOfSlice(s: seq<Item>, k: nat, l: nat, i: nat, j: nat)
    requires k <= l <= |s| && i <= j <= l - k
    ensures s[k..l][i..j] == s[k + i..k + j]
  {
    assert forall m :: 0 <= m < j - i ==> s[k..l][i..j][m] == s[k + i..k + j][m];
  }

  lemma HalvesArePieces(first: Fragment, second: Fragment, payload: Fragment)
    requires Flat(first) + Flat(second) == Flat(payload)
    ensures PieceOf(first, payload) && PieceOf(second, payload)
  {
    var n, whole := |Flat(first)|, Flat(payload);
    assert Flat(first) == whole[0..n];
    assert Flat(second) == whole[n..|whole|];
  }

  lemma CutFromHalves(f: Fragment, first: Fragment, second: Fragment, payload: Fragment, rest: seq<Fragment>)
    requires Flat(first) + Flat(second) == Flat(payload) && CutFrom(f, [first, second] + rest)
    ensures CutFrom(f, [payload] + rest)
  {
    HalvesArePieces(first, second, payload);
    var pending, whole := [first, second] + rest, [payload] + rest;
    var n :| 0 <= n < |pending| && PieceOf(f, pending[n]);
    if n < 2 {
      PieceOfPiece(f, pending[n], payload);
      assert PieceOf(f, whole[0]);
    } else {
      assert PieceOf(f, whole[n - 1]);
    }
  }

  /** Every payload the sizing can look at measures, and fits once it is a single fact. */
  ghost predicate Measurable(pending: seq<Fragment>, measure: Measure, maxBytes: nat)
  {
    forall i, last, f :: CutFrom(f, pending) ==>
      measure(i, last, f).Some? && (Count(f) < 2 ==> measure(i, last, f).value <= maxBytes)
  }

  lemma MeasurableRest(payload: Fragment, rest: seq<Fragment>, measure: Measure, maxBytes: nat)
    requires Measurable([payload] + rest, measure, maxBytes)
    ensures Measurable(rest, measure, maxBytes)
    ensures forall i, last :: measure(i, last, payload).Some?
                              && (Count(payload) < 2 ==> measure(i, last, payload).value <= maxBytes)
  {
    var pending := [payload] + rest;
    assert Flat(payload) == Flat(payload)[0..|Flat(payload)|];
    assert PieceOf(payload, pending[0]);
    forall f | CutFrom(f, rest) ensures CutFrom(f, pending) {
      var n :| 0 <= n < |rest| && PieceOf(f, rest[n]);
      assert PieceOf(f, pending[n + 1]);
    }
  }

  lemma MeasurableHalves(first: Fragment, second: Fragment, payload: Fragment, rest: seq<Fragment>,
                         measure: Measure, maxBytes: nat)
    requires Measurable([payload] + rest, measure, maxBytes) && Flat(first) + Flat(second) == Flat(payload)
    ensures Measurable([first, second] + rest, measure, maxBytes)
  {
    forall f | CutFrom(f, [first, second] + rest) ensures CutFrom(f, [payload] + rest) {
      CutFromHalves(f, first, second, payload, rest);
    }
  }

  /** When every piece of the pending payloads measures, single facts fit and the sequence numbers cannot
      run out, sizing succeeds. */
  lemma {:induction false} SizedSucceeds(pending: seq<Fragment>, sized: seq<Fragment>, measure: Measure, maxBytes: nat)
    requires Measurable(pending, measure, maxBytes) && |sized| + Work(pending) <= U32_MAX + 1
    ensures Sized(pending, sized, measure, maxBytes).Ok?
    decreases Work(pending)
  {
    if pending != [] {
      var payload, rest := pending[0], pending[1..];
      assert pending == [payload] + rest;
      MeasurableRest(payload, rest, measure, maxBytes);
      var decision := Decide(|sized|, rest == [], payload, measure, maxBytes);
      if decision.Accept? {
        SizedSucceeds(rest, sized + [payload], measure, maxBytes);
      } else {
        HalvesAreWhole(|sized|, rest == [], payload, measure, maxBytes);
        MeasurableHalves(decision.first, decision.second, payload, rest, measure, maxBytes);
        SplitWork(decision.first, decision.second, payload, rest);
        SizedSucceeds([decision.first, decision.second] + rest, sized, measure, maxBytes);
      }
    }
  }
}
