/**
  The identity of a Kafka source record: the failure identity of its DLQ envelopes and the
  key of its Raw object. Both are printed from the source coordinate, and both can be read
  back, so the rest of the model speaks about coordinates.
*/
module Coordinates {
  import opened Wrappers
  import opened Text

  datatype Coord = Coord(topic: string, partition: nat, offset: nat)

  /** `deterministic_failure_id` */
  function FailureId(c: Coord): string {
    c.topic + [':'] + Decimal(c.partition) + [':'] + Decimal(c.offset)
  }

  /** Reads a failure identity from the right: a topic may contain colons itself. */
  function ParseFailureId(id: string): Option<Coord> {
    match SplitLast(id, ':')
    case None => None
    case Some(tail) =>
      match SplitLast(tail.0, ':')
      case None => None
      case Some(parts) =>
        match (ParseDecimal(parts.1), ParseDecimal(tail.1))
        case (Some(partition), Some(offset)) => Some(Coord(parts.0, partition, offset))
        case _ => None
  }

  /** Reading undoes printing, for every topic. */
  lemma FailureIdRoundTrip(c: Coord)
    ensures ParseFailureId(FailureId(c)) == Some(c)
  {
    PrintedDigits(c.offset, ':');
    PrintedDigits(c.partition, ':');
    SplitLastFinds(c.topic + [':'] + Decimal(c.partition), Decimal(c.offset), ':');
    SplitLastFinds(c.topic, Decimal(c.partition), ':');
    ParsePrinted(c.partition);
    ParsePrinted(c.offset);
  }

  /** Equal failure identities name the same source record. */
  lemma FailureIdInjective(c: Coord, d: Coord)
    ensures FailureId(c) == FailureId(d) <==> c == d
  {
    FailureIdRoundTrip(c);
    FailureIdRoundTrip(d);
  }

  /**
    `deterministic_s3_key`: `lead` is the part that comes from the prefix, the topic's
    category and the record's date.
  */
  function RawKey(lead: string, c: Coord): string {
    lead + ['/'] + ("topic=" + c.topic) + ['/'] + ("partition=" + Decimal(c.partition)) + ['/']
    + ("offset=" + Decimal(c.offset)) + ['/'] + "record.avro"
  }

  /** Reads the coordinate of a Raw key from its last four path segments. */
  function ParseRawKey(key: string): Option<Coord> {
    match SplitLast(key, '/')
    case None => None
    case Some(name) =>
      match SplitLast(name.0, '/')
      case None => None
      case Some(offset) =>
        match SplitLast(offset.0, '/')
        case None => None
        case Some(partition) =>
          match SplitLast(partition.0, '/')
          case None => None
          case Some(topic) => FromSegments(topic.1, partition.1, offset.1)
  }

  function FromSegments(topic: string, partition: string, offset: string): Option<Coord> {
    if |topic| < 6 || |partition| < 10 || |offset| < 7 then None
    else
      match (ParseDecimal(partition[10..]), ParseDecimal(offset[7..]))
      case (Some(p), Some(o)) => Some(Coord(topic[6..], p, o))
      case _ => None
  }

  /** Whatever the leading part is, the key of a slash-free topic gives its coordinate back. */
  lemma RawKeyRoundTrip(lead: string, c: Coord)
    requires '/' !in c.topic
    ensures ParseRawKey(RawKey(lead, c)) == Some(c)
  {
    var topic, partition, offset := "topic=" + c.topic, "partition=" + Decimal(c.partition), "offset=" + Decimal(c.offset);
    PrintedDigits(c.partition, '/');
    PrintedDigits(c.offset, '/');
    ParsePrinted(c.partition);
    ParsePrinted(c.offset);
    SplitLastFinds(lead + ['/'] + topic + ['/'] + partition + ['/'] + offset, "record.avro", '/');
    SplitLastFinds(lead + ['/'] + topic + ['/'] + partition, offset, '/');
    SplitLastFinds(lead + ['/'] + topic, partition, '/');
    SplitLastFinds(lead, topic, '/');
    SegmentsRead(c);
  }

  lemma SegmentsRead(c: Coord)
    ensures FromSegments("topic=" + c.topic, "partition=" + Decimal(c.partition), "offset=" + Decimal(c.offset)) == Some(c)
  {
    ParsePrinted(c.partition);
    ParsePrinted(c.offset);
    assert ("topic=" + c.topic)[6..] == c.topic;
    assert ("partition=" + Decimal(c.partition))[10..] == Decimal(c.partition);
    assert ("offset=" + Decimal(c.offset))[7..] == Decimal(c.offset);
  }

  /** Raw keys of slash-free topics are equal only for the same source record, even across dates and categories. */
  lemma RawKeyInjective(lead1: string, c: Coord, lead2: string, d: Coord)
    requires '/' !in c.topic && '/' !in d.topic && RawKey(lead1, c) == RawKey(lead2, d)
    ensures c == d
  {
    RawKeyRoundTrip(lead1, c);
    RawKeyRoundTrip(lead2, d);
  }

  /** How a failure identity looks. */
  lemma PrintedIdentity()
    ensures FailureId(Coord("payment-events", 3, 42)) == "payment-events:3:42"
  {
    assert Decimal(3) == "3" && Decimal(42) == "42";
  }

  /** How a key looks below its leading part. */
  lemma PrintedKey(lead: string, c: Coord)
    ensures RawKey(lead, c) == lead + ("/topic=" + c.topic) + ("/partition=" + Decimal(c.partition)) + ("/offset=" + Decimal(c.offset)) + "/record.avro"
  {
    hide Decimal;
    Segment(lead, "topic=", "/topic=", c.topic);
    var one := lead + ("/topic=" + c.topic);
    Segment(one, "partition=", "/partition=", Decimal(c.partition));
    var two := one + ("/partition=" + Decimal(c.partition));
    Segment(two, "offset=", "/offset=", Decimal(c.offset));
    var three := two + ("/offset=" + Decimal(c.offset));
    assert ['/'] + "record.avro" == "/record.avro";
    assert three + ['/'] + "record.avro" == three + (['/'] + "record.avro");
  }

  lemma Segment(before: string, name: string, slashed: string, value: string)
    requires slashed == ['/'] + name
    ensures before + ['/'] + (name + value) == before + (slashed + value)
  {
  }
}
