/** The DLQ replay tool: grouping scanned envelopes by source record and refusing duplicates. */
module ReplayDlq {
  import opened Wrappers
  import opened Text
  import opened Coordinates
  import KafkaConsumer
  import ConsumerConfluence

  /** A DLQ envelope as JSON delivers it; envelopes from before the identity field have no `failureId`. */
  datatype Envelope = Envelope(failureId: Option<string>, topic: Option<string>, partition: Option<nat>, offset: Option<nat>)

  /** One scanned DLQ record: where it sits in the DLQ topic, and its envelope. */
  datatype Scanned = Scanned(dlqPartition: nat, dlqOffset: nat, envelope: Envelope)

  function Shown(value: Option<string>): string {
    if value.Some? then value.value else "None"
  }

  function ShownNumber(value: Option<nat>): string {
    if value.Some? then Decimal(value.value) else "None"
  }

  /** `failure_id_from_envelope` */
  function FailureIdOf(e: Envelope): string {
    if e.failureId.Some? && e.failureId.value != "" then e.failureId.value
    else Shown(e.topic) + [':'] + ShownNumber(e.partition) + [':'] + ShownNumber(e.offset)
  }

  /** The envelope was written for source record `c`, by the present consumer or by one that knew no identity field. */
  predicate WrittenFor(e: Envelope, c: Coord) {
    && e.topic == Some(c.topic) && e.partition == Some(c.partition) && e.offset == Some(c.offset)
    && (e.failureId == Some(FailureId(c)) || e.failureId.None? || e.failureId == Some(""))
  }

  /** The records with failure identity `id`, in scan order. */
  function Select(records: seq<Scanned>, id: string): seq<Scanned> {
    if records == [] then []
    else
      var last := records[|records| - 1];
      Select(records[..|records| - 1], id) + if FailureIdOf(last.envelope) == id then [last] else []
  }

  /** The records written for source record `c`, in scan order. */
  ghost function SelectSource(records: seq<Scanned>, c: Coord): seq<Scanned> {
    if records == [] then []
    else
      var last := records[|records| - 1];
      SelectSource(records[..|records| - 1], c) + if WrittenFor(last.envelope, c) then [last] else []
  }

  /** Every scanned envelope was written for some source record. */
  ghost predicate AllWritten(records: seq<Scanned>) {
    forall i :: 0 <= i < |records| ==> Written(records[i].envelope)
  }

  ghost predicate Written(e: Envelope) {
    exists c :: WrittenFor(e, c)
  }

  lemma WrittenIdentity(e: Envelope, c: Coord)
    requires WrittenFor(e, c)
    ensures FailureIdOf(e) == FailureId(c)
  {
  }

  /** Grouping by identity is grouping by source record: legacy envelopes join, strangers stay out, order and multiplicity are kept. */
  lemma {:induction false} GroupsAreSources(records: seq<Scanned>, c: Coord)
    requires AllWritten(records)
    ensures Select(records, FailureId(c)) == SelectSource(records, c)
  {
    if records != [] {
      var n := |records| - 1;
      var front := records[..n];
      assert forall i :: 0 <= i < n ==> front[i] == records[i];
      GroupsAreSources(front, c);
      var d :| WrittenFor(records[n].envelope, d);
      WrittenIdentity(records[n].envelope, d);
      FailureIdInjective(c, d);
    }
  }

  /** `group_by_failure_id` */
  method GroupByFailureId(records: seq<Scanned>) returns (groups: map<string, seq<Scanned>>)
    ensures forall id :: id in groups <==> Select(records, id) != []
    ensures forall id :: id in groups ==> groups[id] == Select(records, id)
  {
    groups := map[];
    for i := 0 to |records|
      invariant forall id :: id in groups <==> Select(records[..i], id) != []
      invariant forall id :: id in groups ==> groups[id] == Select(records[..i], id)
    {
      var id := FailureIdOf(records[i].envelope);
      var sofar := if id in groups then groups[id] else [];
      groups := groups[id := sofar + [records[i]]];
      assert records[..i + 1][..i] == records[..i];
    }
    assert records[..|records|] == records;
  }

  /** `duplicate_groups` */
  method DuplicateGroups(records: seq<Scanned>) returns (duplicates: map<string, seq<Scanned>>)
    ensures forall id :: id in duplicates <==> |Select(records, id)| > 1
    ensures forall id :: id in duplicates ==> duplicates[id] == Select(records, id)
  {
    var groups := GroupByFailureId(records);
    duplicates := map id | id in groups && |groups[id]| > 1 :: groups[id];
  }

  datatype Verdict = NotFound | Inspected | Refused | Published | DeliveryFailed

  /** The decision of `main` once the requested record was looked up and the DLQ topic scanned. */
  method Replay(requested: Option<Envelope>, records: seq<Scanned>, execute: bool, allowDuplicate: bool, delivers: bool)
    returns (verdict: Verdict)
    ensures verdict == NotFound <==> requested.None?
    ensures verdict == Refused <==>
              requested.Some? && execute && !allowDuplicate && |Select(records, FailureIdOf(requested.value))| > 1
    ensures verdict == Published <==>
              requested.Some? && execute && delivers && (allowDuplicate || |Select(records, FailureIdOf(requested.value))| <= 1)
    ensures verdict == DeliveryFailed <==>
              requested.Some? && execute && !delivers && (allowDuplicate || |Select(records, FailureIdOf(requested.value))| <= 1)
    ensures verdict == Inspected <==> requested.Some? && !execute
  {
    if requested.None? { return NotFound; }
    var id := FailureIdOf(requested.value);
    var groups := DuplicateGroups(records);
    var duplicates := if id in groups then groups[id] else [];
    if !execute { return Inspected; }
    if duplicates != [] && !allowDuplicate { return Refused; }
    return if delivers then Published else DeliveryFailed;
  }

  // ---------------------------------------------------------------- the consumer's own DLQ

  /** A scan of what the consumer published, in order. */
  function ScanOf(dlq: seq<KafkaConsumer.Envelope>): seq<Scanned> {
    if dlq == [] then []
    else
      var last := dlq[|dlq| - 1];
      ScanOf(dlq[..|dlq| - 1])
      + [Scanned(0, |dlq| - 1, Envelope(Some(FailureId(last.coord)), Some(last.coord.topic), Some(last.coord.partition), Some(last.coord.offset)))]
  }

  /** The tool sees as many duplicates of a source record as the consumer published copies: an unforced replay is refused exactly from two on. */
  lemma {:induction false} DuplicatesAreCopies(dlq: seq<KafkaConsumer.Envelope>, c: Coord)
    ensures |Select(ScanOf(dlq), FailureId(c))| == ConsumerConfluence.Copies(dlq, c)
  {
    if dlq != [] {
      var last := dlq[|dlq| - 1];
      DuplicatesAreCopies(dlq[..|dlq| - 1], c);
      assert ScanOf(dlq)[..|ScanOf(dlq)| - 1] == ScanOf(dlq[..|dlq| - 1]);
      FailureIdInjective(last.coord, c);
      FailureIdNotEmpty(last.coord);
    }
  }

  lemma FailureIdNotEmpty(c: Coord)
    ensures FailureId(c) != ""
  {
    assert |FailureId(c)| >= 2;
  }
}
