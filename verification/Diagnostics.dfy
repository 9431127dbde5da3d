/** Graph and memory diagnostics, and the JSON record each serializes to. */
module Diagnostics {
  import opened Prelude
  import opened Json

  datatype Severity = Info | Warning | Error
  datatype Position = Position(byteOffset: nat, line: Option<nat>, column: Option<nat>)
  datatype Span = Span(start: Position, end: Position)
  datatype Location = Location(path: string, span: Option<Span>)

  /** Metrics are listed in key order; a source category is its token. */
  datatype Diagnostic =
    | GraphDiagnostic(buildId: string, snapshotId: Option<string>, severity: Severity, code: string,
                      location: Option<Location>, metrics: seq<(string, int)>)
    | MemoryDiagnostic(buildId: string, revisionId: string, severity: Severity, code: string,
                       sourceCategory: Option<string>, entityId: Option<string>, relationshipId: Option<string>,
                       metrics: seq<(string, int)>)

  // ---------------------------------------------------------------- the record

  function Optional(s: Option<string>): Value { if s.Some? then Text(s.value) else Null }
  function OptionalNumber(n: Option<nat>): Value { if n.Some? then Number(n.value) else Null }

  function SeverityToken(s: Severity): string
  {
    match s case Info => "info" case Warning => "warning" case Error => "error"
  }

  function PositionRecord(p: Position): Value
  {
    Object(Field("byte_offset", Number(p.byteOffset),
           Field("line", OptionalNumber(p.line),
           Field("column", OptionalNumber(p.column), NoFields))))
  }

  function SpanRecord(s: Option<Span>): Value
  {
    if s.None? then Null
    else Object(Field("start", PositionRecord(s.value.start), Field("end", PositionRecord(s.value.end), NoFields)))
  }

  function LocationRecord(l: Option<Location>): Value
  {
    if l.None? then Null
    else Object(Field("path", Text(l.value.path), Field("span", SpanRecord(l.value.span), NoFields)))
  }

  function MetricFields(metrics: seq<(string, int)>): Fields
  {
    if metrics == [] then NoFields else Field(metrics[0].0, Number(metrics[0].1), MetricFields(metrics[1..]))
  }

  /** The fields both kinds end in. */
  function Metrics(d: Diagnostic): Fields { Field("metrics", Object(MetricFields(d.metrics)), NoFields) }

  /** Severity and code sit between the identities and the kind's own fields. */
  function Coded(d: Diagnostic, rest: Fields): Fields
  {
    var code := Field("code", Text(d.code), rest);
    Field("severity", Text(SeverityToken(d.severity)), code)
  }

  /** Every field is written, in declaration order. */
  function Record(d: Diagnostic): Value
  {
    if d.GraphDiagnostic? then
      var location := Field("location", LocationRecord(d.location), Metrics(d));
      var snapshot := Field("snapshot_id", Optional(d.snapshotId), Coded(d, location));
      Object(Field("build_id", Text(d.buildId), snapshot))
    else
      var relationship := Field("relationship_id", Optional(d.relationshipId), Metrics(d));
      var entity := Field("entity_id", Optional(d.entityId), relationship);
      var category := Field("source_category", Optional(d.sourceCategory), entity);
      var revision := Field("revision_id", Text(d.revisionId), Coded(d, category));
      Object(Field("build_id", Text(d.buildId), revision))
  }

  function Encoding(d: Diagnostic): string { Encode(Record(d)) }

  /** Serializing a diagnostic always succeeds. */
  function DiagnosticKey(d: Diagnostic): Option<string> { Some(Encoding(d)) }

  // ---------------------------------------------------------------- no two alike

  lemma {:induction false} MetricsInjective(a: seq<(string, int)>, b: seq<(string, int)>)
    requires MetricFields(a) == MetricFields(b)
    ensures a == b
  {
    if a != [] && b != [] {
      MetricsInjective(a[1..], b[1..]);
      assert a == [a[0]] + a[1..] && b == [b[0]] + b[1..];
    }
  }

  lemma SeverityInjective(a: Severity, b: Severity)
    requires SeverityToken(a) == SeverityToken(b)
    ensures a == b
  {
    assert SeverityToken(a)[0] == SeverityToken(b)[0];
  }

  lemma LocationInjective(a: Option<Location>, b: Option<Location>)
    requires LocationRecord(a) == LocationRecord(b)
    ensures a == b
  {
  }

  lemma RecordInjective(a: Diagnostic, b: Diagnostic)
    requires Record(a) == Record(b)
    ensures a == b
  {
    assert a.GraphDiagnostic? <==> Record(a).fields.rest.name == "snapshot_id" by {
      assert "snapshot_id"[0] != "revision_id"[0];
    }
    assert b.GraphDiagnostic? <==> Record(b).fields.rest.name == "snapshot_id" by {
      assert "snapshot_id"[0] != "revision_id"[0];
    }
    SeverityInjective(a.severity, b.severity);
    MetricsInjective(a.metrics, b.metrics);
    if a.GraphDiagnostic? { LocationInjective(a.location, b.location); }
  }

  /** Different diagnostics never share an encoding. */
  lemma EncodingInjective(a: Diagnostic, b: Diagnostic)
    requires Encoding(a) == Encoding(b)
    ensures a == b
  {
    EncodeInjective(Record(a), Record(b));
    RecordInjective(a, b);
  }
}
