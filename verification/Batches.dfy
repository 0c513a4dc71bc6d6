/** A logs.raw batch, its validation (internal/contracts/logsraw.go) and its normalization into log rows
    (internal/processor/normalize.go). Time parsing, JSON, hashing and templates are taken as given. */
module Batches {
  import opened Wrappers
  import opened Numbers
  import opened Sequences
  import opened Positions
  import opened Fields

  datatype RawRecord = RawRecord(timestamp: string, level: string, message: string, fields: map<string, string>)

  datatype RawBatch = RawBatch(schemaVersion: string, requestId: string, correlationId: string, traceId: string,
                               fingerprint: string, receivedAt: string, tenantId: nat, service: string, env: string,
                               source: string, logs: seq<RawRecord>)

  datatype Row = Row(timestamp: int, tenantId: nat, service: string, environment: string, source: string, level: string,
                     host: string, traceId: string, fingerprint: string, message: string, messageTemplate: string,
                     templateId: string, fieldsJson: string, ingestId: string, rawSizeBytes: nat)

  datatype Codec = Codec(text: Text, parseTime: string -> Option<int>, marshal: map<string, string> -> Option<string>,
                         template: string -> (string, string), digest: seq<string> -> string, size: RawRecord -> nat,
                         attributes: Row -> Option<map<string, string>>)

  const SCHEMA_VERSION := "logs.raw.v1"
  const HOST_NAMES := ["host", "hostname"]
  const TRACE_NAMES := ["trace_id", "traceid", "trace-id"]

  function Validate(b: RawBatch): Option<string> {
    if b.schemaVersion != SCHEMA_VERSION then Some("invalid schema version")
    else if b.requestId == "" then Some("request_id is required")
    else if b.fingerprint == "" then Some("fingerprint is required")
    else if b.receivedAt == "" then Some("received_at is required")
    else if b.tenantId == 0 then Some("tenant_id is required")
    else if b.service == "" then Some("service is required")
    else if b.env == "" then Some("env is required")
    else if b.logs == [] then Some("at least one log entry is required")
    else None
  }

  /** No required part is missing, and the schema is the one it reads. */
  lemma ValidIff(b: RawBatch)
    ensures Validate(b).None? <==>
            && b.schemaVersion == "logs.raw.v1" && b.requestId != "" && b.fingerprint != "" && b.receivedAt != ""
            && b.tenantId != 0 && b.service != "" && b.env != "" && b.logs != []
  {
  }

  lemma ValidHasContent(b: RawBatch)
    requires Validate(b).None?
    ensures b.requestId != "" && b.tenantId != 0 && b.logs != []
  {
  }

  // ----- one record

  function NormalizeTag(c: Codec, value: string): string {
    c.text.lower(c.text.trim(value))
  }

  function NormalizeLevel(c: Codec, value: string): string {
    var level := c.text.lower(c.text.trim(value));
    if level in {"", "information", "informational"} then "info"
    else if level in {"warn", "warning"} then "warn"
    else if level in {"err", "error"} then "error"
    else if level in {"fatal", "critical", "panic"} then "fatal"
    else level
  }

  function WithoutDashes(s: string): string {
    if s == "" then "" else (if s[0] == '-' || s[0] == '_' then "" else [s[0]]) + WithoutDashes(s[1..])
  }

  function NoDash(): char -> bool {
    (x: char) => x != '-' && x != '_'
  }

  lemma {:induction false} DashesFiltered(s: string)
    ensures WithoutDashes(s) == Filter(NoDash(), s)
  {
    if s != "" {
      DashesFiltered(s[1..]);
      FilterConcat(NoDash(), [s[0]], s[1..]);
      FilterSnoc(NoDash(), [], s[0]);
      assert [] + [s[0]] == [s[0]] && s == [s[0]] + s[1..];
    }
  }

  /** A field name counts without its dashes and underscores, and nothing else is dropped from it. */
  lemma DashesDropped(s: string) returns (at: seq<int>)
    ensures Picks(s, WithoutDashes(s), at)
    ensures forall k :: 0 <= k < |s| ==> (k in at <==> s[k] != '-' && s[k] != '_')
  {
    DashesFiltered(s);
    at := FilterPicks(NoDash(), s);
  }

  function FieldNorm(c: Codec): string -> string {
    (key: string) => WithoutDashes(c.text.lower(c.text.trim(key)))
  }

  function Trimmed(c: Codec, value: Option<string>): string {
    if value.Some? then c.text.trim(value.value) else ""
  }

  function ParseTimestamp(c: Codec, value: string): Option<int> {
    c.parseTime(c.text.trim(value))
  }

  /** A blank timestamp means the time the batch was received. */
  function RecordTime(c: Codec, receivedAt: int, record: RawRecord): Option<int> {
    if c.text.trim(record.timestamp) == "" then Some(receivedAt) else ParseTimestamp(c, record.timestamp)
  }

  function MarshalFields(c: Codec, fields: map<string, string>): Option<string> {
    if fields == map[] then Some("{}") else c.marshal(fields)
  }

  function MakeRow(c: Codec, b: RawBatch, record: RawRecord, timestamp: int, host: string, traceId: string,
                   fieldsJson: string): Row
  {
    var service, environment, source := NormalizeTag(c, b.service), NormalizeTag(c, b.env), NormalizeTag(c, b.source);
    var level, message := NormalizeLevel(c, record.level), c.text.trim(record.message);
    var (messageTemplate, templateId) := c.template(message);
    Row(timestamp, b.tenantId, service, environment, source, level, host, traceId,
        c.digest([service, environment, source, level, message, fieldsJson]), message, messageTemplate, templateId,
        fieldsJson, b.requestId, c.size(record) % TWO_TO_32)
  }

  datatype Tags = Tags(host: string, traceId: string, rest: map<string, string>)

  ghost function TagsOf(c: Codec, batchTrace: string, fields: map<string, string>, hosts: seq<string>,
                        traces: seq<string>): Tags
  {
    var norm := FieldNorm(c);
    var unhosted := Unnamed(norm, fields, hosts);
    var own := Trimmed(c, FirstValue(norm, unhosted, traces));
    Tags(Trimmed(c, FirstValue(norm, fields, hosts)), if own == "" then c.text.trim(batchTrace) else own,
         Unnamed(norm, unhosted, traces))
  }

  /** Takes host and trace id out of a copy of the record's fields; a record without a trace id has its batch's. */
  method ExtractTags(c: Codec, batchTrace: string, fields: map<string, string>, hosts: seq<string>, traces: seq<string>)
      returns (tags: Tags)
    ensures tags == TagsOf(c, batchTrace, fields, hosts, traces)
  {
    var norm := FieldNorm(c);
    var host, unhosted := Extract(norm, fields, hosts);
    var own, rest := Extract(norm, unhosted, traces);
    var traceId := Trimmed(c, own);
    if traceId == "" {
      traceId := c.text.trim(batchTrace);
    }
    return Tags(Trimmed(c, host), traceId, rest);
  }

  ghost function Tagging(c: Codec, batchTrace: string): RawRecord -> Tags {
    (record: RawRecord) => TagsOf(c, batchTrace, record.fields, HOST_NAMES, TRACE_NAMES)
  }

  /** None when the record's timestamp does not parse or its remaining fields cannot be encoded. */
  function RowWith(c: Codec, b: RawBatch, receivedAt: int, record: RawRecord, tags: Tags): Option<Row> {
    var timestamp, json := RecordTime(c, receivedAt, record), MarshalFields(c, tags.rest);
    if timestamp.None? || json.None? then None
    else Some(MakeRow(c, b, record, timestamp.value, tags.host, tags.traceId, json.value))
  }

  method NormalizeRecord(c: Codec, b: RawBatch, receivedAt: int, record: RawRecord) returns (result: Option<Row>)
    ensures result == RowWith(c, b, receivedAt, record, Tagging(c, b.traceId)(record))
  {
    if RecordTime(c, receivedAt, record).None? {
      return None;
    }
    var tags := ExtractTags(c, b.traceId, record.fields, HOST_NAMES, TRACE_NAMES);
    return RowWith(c, b, receivedAt, record, tags);
  }

  /** What is left of the fields: exactly those that are neither a host nor a trace id under any spelling. */
  ghost predicate Untagged(c: Codec, fields: map<string, string>, hosts: seq<string>, traces: seq<string>,
                           rest: map<string, string>)
  {
    && (forall key :: key in rest <==>
          key in fields && !Names(FieldNorm(c), key, hosts) && !Names(FieldNorm(c), key, traces))
    && (forall key :: key in rest ==> rest[key] == fields[key])
  }

  lemma {:induction false} TagsUntag(c: Codec, batchTrace: string, fields: map<string, string>, hosts: seq<string>,
                                     traces: seq<string>)
    ensures Untagged(c, fields, hosts, traces, TagsOf(c, batchTrace, fields, hosts, traces).rest)
  {
  }

  predicate Encodes(c: Codec, rest: map<string, string>, json: string) {
    if rest == map[] then json == "{}" else c.marshal(rest) == Some(json)
  }

  lemma {:induction false} RowOfTags(c: Codec, b: RawBatch, receivedAt: int, record: RawRecord, tags: Tags)
    ensures var row := RowWith(c, b, receivedAt, record, tags);
            && (row.Some? <==>
                RecordTime(c, receivedAt, record).Some? && (tags.rest == map[] || c.marshal(tags.rest).Some?))
            && (row.Some? ==>
                  && RowId(row.value) == IdOf(b) && Encodes(c, tags.rest, row.value.fieldsJson)
                  && RecordTime(c, receivedAt, record) == Some(row.value.timestamp)
                  && row.value.host == tags.host && row.value.traceId == tags.traceId)
  {
  }

  /** A record has a row exactly when its own time parses, or it has none, and the fields left without host and trace
      id can be encoded. The row is stamped with the batch's tenant and id, carries that time or else the batch's, and
      stores nothing but those fields. */
  lemma {:induction false} NormalizedRecordMeans(c: Codec, b: RawBatch, receivedAt: int, record: RawRecord, tags: Tags)
    requires tags == Tagging(c, b.traceId)(record)
    ensures Untagged(c, record.fields, HOST_NAMES, TRACE_NAMES, tags.rest)
    ensures TagsRead(c, b.traceId, record.fields, HOST_NAMES, TRACE_NAMES, tags)
    ensures HOST_NAMES == ["host", "hostname"] && TRACE_NAMES == ["trace_id", "traceid", "trace-id"]
    ensures var row := RowWith(c, b, receivedAt, record, tags);
            && (row.Some? <==>
                  && (c.text.trim(record.timestamp) == "" || c.parseTime(c.text.trim(record.timestamp)).Some?)
                  && (tags.rest == map[] || c.marshal(tags.rest).Some?))
            && (row.Some? ==>
                  && RowId(row.value) == IdOf(b) && Encodes(c, tags.rest, row.value.fieldsJson)
                  && (if c.text.trim(record.timestamp) == "" then row.value.timestamp == receivedAt
                      else c.parseTime(c.text.trim(record.timestamp)) == Some(row.value.timestamp))
                  && ColumnsOf(c, b, record, row.value)
                  && row.value.host == tags.host && row.value.traceId == tags.traceId)
  {
    TagsMean(c, b.traceId, record.fields, HOST_NAMES, TRACE_NAMES);
    ColumnsMean(c, b, receivedAt, record, tags);
    TagsUntag(c, b.traceId, record.fields, HOST_NAMES, TRACE_NAMES);
    RowOfTags(c, b, receivedAt, record, tags);
  }

  // ----- one record, column by column

  /** The level in lower case, common spellings brought together; none at all means info. */
  predicate LevelOf(c: Codec, value: string, level: string) {
    var spelled := c.text.lower(c.text.trim(value));
    if spelled == "" || spelled == "information" || spelled == "informational" then level == "info"
    else if spelled == "warn" || spelled == "warning" then level == "warn"
    else if spelled == "err" || spelled == "error" then level == "error"
    else if spelled == "fatal" || spelled == "critical" || spelled == "panic" then level == "fatal"
    else level == spelled
  }

  /** Tags of the batch in lower case, text of the record trimmed, its template, and a fingerprint of them all. */
  ghost predicate ColumnsOf(c: Codec, b: RawBatch, record: RawRecord, row: Row) {
    && row.tenantId == b.tenantId && row.ingestId == b.requestId
    && row.service == c.text.lower(c.text.trim(b.service)) && row.environment == c.text.lower(c.text.trim(b.env))
    && row.source == c.text.lower(c.text.trim(b.source)) && LevelOf(c, record.level, row.level)
    && row.message == c.text.trim(record.message)
    && row.messageTemplate == c.template(row.message).0 && row.templateId == c.template(row.message).1
    && row.fingerprint ==
       c.digest([row.service, row.environment, row.source, row.level, row.message, row.fieldsJson])
    && 0 <= row.rawSizeBytes < 0x1_0000_0000 && (c.size(record) - row.rawSizeBytes) % 0x1_0000_0000 == 0
  }

  lemma {:induction false} ColumnsMean(c: Codec, b: RawBatch, receivedAt: int, record: RawRecord, tags: Tags)
    ensures var row := RowWith(c, b, receivedAt, record, tags);
            row.Some? ==>
              ColumnsOf(c, b, record, row.value) && row.value.host == tags.host && row.value.traceId == tags.traceId
  {
  }

  ghost predicate TrimmedPick(c: Codec, fields: map<string, string>, names: seq<string>, value: string) {
    exists found :: Picked(FieldNorm(c), fields, names, found) &&
                    value == match found case Some(text) => c.text.trim(text) case None => ""
  }

  /** The host is the trimmed value of the least field named like a host; the trace id that of the least remaining one
      named like a trace id, or the batch's own when there is none or it is blank. */
  ghost predicate TagsRead(c: Codec, batchTrace: string, fields: map<string, string>, hosts: seq<string>,
                           traces: seq<string>, tags: Tags)
  {
    && TrimmedPick(c, fields, hosts, tags.host)
    && exists rest :: Without(c, fields, hosts, rest) && TraceRead(c, batchTrace, rest, traces, tags.traceId)
  }

  ghost predicate Without(c: Codec, fields: map<string, string>, names: seq<string>, rest: map<string, string>) {
    && (forall key :: key in rest <==> key in fields && !Names(FieldNorm(c), key, names))
    && forall key :: key in rest ==> rest[key] == fields[key]
  }

  ghost predicate TraceRead(c: Codec, batchTrace: string, fields: map<string, string>, names: seq<string>,
                            traceId: string)
  {
    exists own :: TrimmedPick(c, fields, names, own) &&
                  traceId == if own != "" then own else c.text.trim(batchTrace)
  }

  lemma PickTrimmed(c: Codec, fields: map<string, string>, names: seq<string>)
    ensures TrimmedPick(c, fields, names, Trimmed(c, FirstValue(FieldNorm(c), fields, names)))
  {
    FirstValuePicked(FieldNorm(c), fields, names);
  }

  lemma {:induction false} TagsMean(c: Codec, batchTrace: string, fields: map<string, string>, hosts: seq<string>,
                                    traces: seq<string>)
    ensures TagsRead(c, batchTrace, fields, hosts, traces, TagsOf(c, batchTrace, fields, hosts, traces))
  {
    var rest := Unnamed(FieldNorm(c), fields, hosts);
    PickTrimmed(c, fields, hosts);
    assert Without(c, fields, hosts, rest);
    TraceMeans(c, batchTrace, rest, traces);
  }

  lemma TraceMeans(c: Codec, batchTrace: string, fields: map<string, string>, names: seq<string>)
    ensures var own := Trimmed(c, FirstValue(FieldNorm(c), fields, names));
            TraceRead(c, batchTrace, fields, names, if own == "" then c.text.trim(batchTrace) else own)
  {
    PickTrimmed(c, fields, names);
  }

  // ----- the batch

  function Normalizer(c: Codec, b: RawBatch, receivedAt: int, tags: RawRecord -> Tags): RawRecord -> Option<Row> {
    (record: RawRecord) => RowWith(c, b, receivedAt, record, tags(record))
  }

  ghost function Normalized(c: Codec, b: RawBatch): Option<seq<Row>> {
    match ParseTimestamp(c, b.receivedAt)
    case None => None
    case Some(receivedAt) => Traverse(Normalizer(c, b, receivedAt, Tagging(c, b.traceId)), b.logs)
  }

  lemma NormalizeOneMore(normalizer: RawRecord -> Option<Row>, logs: seq<RawRecord>, i: nat, rows: seq<Row>)
    requires i < |logs| && Traverse(normalizer, logs[..i]) == Some(rows)
    ensures var row := normalizer(logs[i]);
            if row.None? then Traverse(normalizer, logs) == None
            else Traverse(normalizer, logs[..i + 1]) == Some(rows + [row.value])
  {
    TraversePrefix(normalizer, logs, i);
    if normalizer(logs[i]).None? {
      TraverseFails(normalizer, logs, i + 1);
    }
  }

  method NormalizeLogs(c: Codec, b: RawBatch, receivedAt: int) returns (result: Option<seq<Row>>)
    ensures result == Traverse(Normalizer(c, b, receivedAt, Tagging(c, b.traceId)), b.logs)
  {
    ghost var normalizer := Normalizer(c, b, receivedAt, Tagging(c, b.traceId));
    var rows: seq<Row> := [];
    for i := 0 to |b.logs|
      invariant Traverse(normalizer, b.logs[..i]) == Some(rows)
    {
      NormalizeOneMore(normalizer, b.logs, i, rows);
      var normalized := NormalizeRecord(c, b, receivedAt, b.logs[i]);
      if normalized.None? {
        return None;
      }
      rows := rows + [normalized.value];
    }
    assert b.logs[..|b.logs|] == b.logs;
    return Some(rows);
  }

  method NormalizeBatch(c: Codec, b: RawBatch) returns (result: Option<seq<Row>>)
    ensures result == Normalized(c, b)
  {
    var receivedAt := ParseTimestamp(c, b.receivedAt);
    if receivedAt.None? {
      return None;
    }
    result := NormalizeLogs(c, b, receivedAt.value);
  }

  // ----- laws

  datatype BatchId = BatchId(tenantId: nat, ingestId: string)

  function IdOf(b: RawBatch): BatchId {
    BatchId(b.tenantId, b.requestId)
  }

  function RowId(r: Row): BatchId {
    BatchId(r.tenantId, r.ingestId)
  }

  predicate RecordNormalizes(c: Codec, receivedAt: int, record: RawRecord, tags: RawRecord -> Tags) {
    RecordTime(c, receivedAt, record).Some? && MarshalFields(c, tags(record).rest).Some?
  }

  lemma RowWithStamped(c: Codec, b: RawBatch, receivedAt: int, record: RawRecord, tags: RawRecord -> Tags)
    ensures var row := RowWith(c, b, receivedAt, record, tags(record));
            && (row.Some? <==> RecordNormalizes(c, receivedAt, record, tags))
            && (row.Some? ==> RowId(row.value) == IdOf(b))
  {
  }

  predicate AllNormalize(c: Codec, b: RawBatch, receivedAt: int, tags: RawRecord -> Tags) {
    forall i :: 0 <= i < |b.logs| ==> RecordNormalizes(c, receivedAt, b.logs[i], tags)
  }

  predicate Stamped(rows: seq<Row>, id: BatchId) {
    forall i :: 0 <= i < |rows| ==> RowId(rows[i]) == id
  }

  lemma RowsStamped(c: Codec, b: RawBatch, receivedAt: int, tags: RawRecord -> Tags)
    ensures var rows := Traverse(Normalizer(c, b, receivedAt, tags), b.logs);
            && (rows.Some? <==> AllNormalize(c, b, receivedAt, tags))
            && (rows.Some? ==> |rows.value| == |b.logs| && Stamped(rows.value, IdOf(b)))
  {
    TraverseIff(Normalizer(c, b, receivedAt, tags), b.logs);
    forall i | 0 <= i < |b.logs|
      ensures var row := Normalizer(c, b, receivedAt, tags)(b.logs[i]);
              && (row.Some? <==> RecordNormalizes(c, receivedAt, b.logs[i], tags))
              && (row.Some? ==> RowId(row.value) == IdOf(b))
    {
      RowWithStamped(c, b, receivedAt, b.logs[i], tags);
    }
  }

  /** A batch that normalizes yields one row per log, each stamped with the batch's tenant
      and ingest id; and it fails to normalize exactly when a timestamp or a record's fields cannot be encoded. */
  lemma {:induction false} NormalizedRowsStamped(c: Codec, b: RawBatch)
    ensures Normalized(c, b).Some? <==>
              && ParseTimestamp(c, b.receivedAt).Some?
              && AllNormalize(c, b, ParseTimestamp(c, b.receivedAt).value, Tagging(c, b.traceId))
    ensures Normalized(c, b).Some? ==>
              && |Normalized(c, b).value| == |b.logs|
              && (b.logs != [] ==> Normalized(c, b).value != [])
              && Stamped(Normalized(c, b).value, IdOf(b))
  {
    if ParseTimestamp(c, b.receivedAt).Some? {
      RowsStamped(c, b, ParseTimestamp(c, b.receivedAt).value, Tagging(c, b.traceId));
    }
  }

  // ----- the same logs submitted again

  /** The same logs under the same id, as the ingest hash has it: times of receipt, correlation and trace ids of the
      requests may differ. */
  predicate Resubmits(a: RawBatch, b: RawBatch) {
    b == a.(receivedAt := b.receivedAt, correlationId := b.correlationId, traceId := b.traceId)
  }

  /** Every log has a time of its own, which ingest insists on. */
  predicate OwnTimes(c: Codec, b: RawBatch) {
    forall i :: 0 <= i < |b.logs| ==> c.text.trim(b.logs[i].timestamp) != ""
  }

  /** Rows that agree in every column but the trace id. */
  predicate RowsAlike(xs: seq<Row>, ys: seq<Row>) {
    |xs| == |ys| && forall i :: 0 <= i < |xs| ==> ys[i] == xs[i].(traceId := ys[i].traceId)
  }

  predicate TimesAlike(xs: seq<Row>, ys: seq<Row>) {
    |xs| == |ys| && forall i :: 0 <= i < |xs| ==> xs[i].timestamp == ys[i].timestamp
  }

  lemma {:induction false} TagsAlike(c: Codec, x: string, y: string, fields: map<string, string>, hosts: seq<string>,
                                     traces: seq<string>)
    ensures var first, second := TagsOf(c, x, fields, hosts, traces), TagsOf(c, y, fields, hosts, traces);
            first.host == second.host && first.rest == second.rest
  {
  }

  lemma {:induction false} RowAlike(c: Codec, a: RawBatch, b: RawBatch, atA: int, atB: int, record: RawRecord,
                                    tagsA: Tags, tagsB: Tags)
    requires Resubmits(a, b) && c.text.trim(record.timestamp) != ""
    requires tagsA.host == tagsB.host && tagsA.rest == tagsB.rest
    ensures var x, y := RowWith(c, a, atA, record, tagsA), RowWith(c, b, atB, record, tagsB);
            && (x.Some? <==> y.Some?)
            && (x.Some? ==> y.value == x.value.(traceId := y.value.traceId) && y.value.traceId == tagsB.traceId)
  {
  }

  /** Submitted again, the logs normalize to the same rows but for the trace id, which a record without one of its own
      has from its batch. */
  lemma {:induction false} ResubmittedRowsAlike(c: Codec, a: RawBatch, b: RawBatch)
    requires Resubmits(a, b) && OwnTimes(c, a) && Normalized(c, a).Some? && Normalized(c, b).Some?
    ensures RowsAlike(Normalized(c, a).value, Normalized(c, b).value)
  {
    var atA, atB := ParseTimestamp(c, a.receivedAt).value, ParseTimestamp(c, b.receivedAt).value;
    RowsOfLogs(c, a, b, atA, atB, Tagging(c, a.traceId), Tagging(c, b.traceId));
    forall record: RawRecord
      ensures Tagging(c, a.traceId)(record).host == Tagging(c, b.traceId)(record).host
      ensures Tagging(c, a.traceId)(record).rest == Tagging(c, b.traceId)(record).rest
    {
      TagsAlike(c, a.traceId, b.traceId, record.fields, HOST_NAMES, TRACE_NAMES);
    }
  }

  lemma {:induction false} RowsOfLogs(c: Codec, a: RawBatch, b: RawBatch, atA: int, atB: int, tagsA: RawRecord -> Tags,
                                      tagsB: RawRecord -> Tags)
    requires Resubmits(a, b) && OwnTimes(c, a)
    ensures var xs := Traverse(Normalizer(c, a, atA, tagsA), a.logs);
            var ys := Traverse(Normalizer(c, b, atB, tagsB), b.logs);
            (forall record :: tagsA(record).host == tagsB(record).host && tagsA(record).rest == tagsB(record).rest) ==>
              xs.Some? && ys.Some? ==> RowsAlike(xs.value, ys.value)
  {
    var f, g := Normalizer(c, a, atA, tagsA), Normalizer(c, b, atB, tagsB);
    TraverseIff(f, a.logs);
    TraverseIff(g, b.logs);
    forall i | 0 <= i < |a.logs| && tagsA(a.logs[i]).host == tagsB(a.logs[i]).host
      && tagsA(a.logs[i]).rest == tagsB(a.logs[i]).rest
      ensures f(a.logs[i]).Some? && g(a.logs[i]).Some? ==>
                g(a.logs[i]).value == f(a.logs[i]).value.(traceId := g(a.logs[i]).value.traceId)
    {
      RowAlike(c, a, b, atA, atB, a.logs[i], tagsA(a.logs[i]), tagsB(a.logs[i]));
    }
  }
}
