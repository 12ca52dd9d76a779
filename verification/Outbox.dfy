/** Outbox records, delivery results and dead-letter filters (internal/domain/outbox/record.go),
    and what resolving results or replaying dead letters does to the boxes that hold them. */
module Outbox {
  import opened ByteText
  import opened Rules
  import opened FlowModel
  import opened Ordering

  type OutputId = Text

  /** The finalized snapshot a record carries; JSON being lossless, it stands for the encoded bytes. */
  datatype Payload = Payload(flow: Flow, reason: Reason, finalizedAt: Time, size: nat)

  datatype Record = Record(
    outputId: OutputId,
    index: Text,
    document: Payload,
    createdAt: Time,
    deadLetteredAt: Time,
    replayCount: nat,
    attempts: nat,
    lastError: Text,
    rejectionType: Text,
    nextAttemptAt: Time)

  function NewRecord(id: OutputId, index: Text, document: Payload, now: Time): Record
  {
    Record(id, index, document, now, ZERO_TIME, 0, 0, "", "", ZERO_TIME)
  }

  predicate Ready(r: Record, now: Time)
  {
    r.nextAttemptAt == ZERO_TIME || r.nextAttemptAt <= now
  }

  datatype Disposition = Delivered | Retryable | Permanent | Unrecognised

  datatype Result = Result(
    outputId: OutputId,
    disposition: Disposition,
    err: Option<Text>,
    rejectionType: Text,
    deadLetteredAt: Time,
    attempts: nat,
    nextAttemptAt: Time)

  // ---------- boxes ----------

  /** The delivery side of a store: records awaiting delivery and retained rejections. */
  datatype Boxes = Boxes(records: map<OutputId, Record>, dead: map<OutputId, Record>, dropped: nat)

  predicate Labelled(m: map<OutputId, Record>)
  {
    forall id :: id in m ==> m[id].outputId == id
  }

  function ErrorOr(err: Option<Text>, previous: Text): Text
  {
    if err.Some? then err.value else previous
  }

  function Buried(r: Record, res: Result): Record
  {
    r.(attempts := if res.attempts > 0 then res.attempts else r.attempts,
       lastError := ErrorOr(res.err, r.lastError),
       rejectionType := res.rejectionType,
       deadLetteredAt := res.deadLetteredAt)
  }

  function Postponed(r: Record, res: Result): Record
  {
    r.(attempts := if res.attempts > 0 then res.attempts else r.attempts + 1,
       nextAttemptAt := res.nextAttemptAt,
       lastError := ErrorOr(res.err, r.lastError))
  }

  predicate Recognised(results: seq<Result>)
  {
    forall i :: 0 <= i < |results| ==> results[i].disposition != Unrecognised
  }

  /** The engine-owned dimensions of a rejection that summaries count. */
  datatype Ref = Ref(typ: Text, index: Text)

  function RefOf(r: Record): Ref
  {
    Ref(r.rejectionType, r.index)
  }

  /** What a transaction reports about the dead-letter set. */
  datatype Change = Change(records: nat, dropped: nat, changed: bool, added: seq<Ref>, removed: seq<Ref>)

  const NO_CHANGE := Change(0, 0, false, [], [])

  /** A resolution under way: the boxes, and the references added to and removed from the dead letters. */
  datatype Progress = Progress(boxes: Boxes, added: seq<Ref>, removed: seq<Ref>)

  function RefsAt(dead: map<OutputId, Record>, id: OutputId): seq<Ref>
  {
    if id in dead then [RefOf(dead[id])] else []
  }

  /** One verdict. A result for a record that is gone changes nothing; a repeated burial replaces
      the earlier one and reports both. */
  function Resolved(p: Progress, res: Result): Progress
  {
    var b := p.boxes;
    if res.outputId !in b.records then p
    else
      var record := b.records[res.outputId];
      match res.disposition
      case Delivered => p.(boxes := b.(records := b.records - {res.outputId}))
      case Permanent =>
        var buried := Buried(record, res);
        Progress(b.(records := b.records - {res.outputId}, dead := b.dead[res.outputId := buried]),
                 p.added + [RefOf(buried)], p.removed + RefsAt(b.dead, res.outputId))
      case Retryable => p.(boxes := b.(records := b.records[res.outputId := Postponed(record, res)]))
      case Unrecognised => p
  }

  function ResolvedAll(b: Boxes, results: seq<Result>): Progress
  {
    if results == [] then Progress(b, [], [])
    else Resolved(ResolvedAll(b, results[..|results| - 1]), results[|results| - 1])
  }

  // ---------- eviction order ----------

  /** Oldest creation first, ties by ID. */
  datatype Age = Age(createdAt: Time, id: OutputId)

  predicate Older(a: Age, b: Age)
  {
    a.createdAt < b.createdAt || (a.createdAt == b.createdAt && Less(a.id, b.id))
  }

  lemma OlderIsOrder()
    ensures Sortable(Older) && Decisive(Older)
  {
    forall a: Age, b: Age ensures Older(a, b) || a == b || Older(b, a) {
      LessTotal(a.id, b.id);
    }
    forall a: Age, b: Age | Older(a, b) ensures !Older(b, a) {
      if Older(b, a) {
        LessTransitive(a.id, b.id, a.id);
        LessIrreflexive(a.id);
      }
    }
    forall a: Age, b: Age, c: Age | !Older(b, a) && !Older(c, b) ensures !Older(c, a) {
      LessTotal(a.id, b.id);
      LessTotal(b.id, c.id);
      if Older(c, a) {
        if a.createdAt == b.createdAt == c.createdAt {
          if a.id != b.id && b.id != c.id {
            LessTransitive(a.id, b.id, c.id);
            LessTransitive(a.id, c.id, a.id);
          }
          LessIrreflexive(a.id);
          LessIrreflexive(b.id);
          assert false;
        }
      }
    }
  }

  function AgeOf(dead: map<OutputId, Record>, id: OutputId): Age
    requires id in dead
  {
    Age(dead[id].createdAt, id)
  }

  function AgesOf(dead: map<OutputId, Record>): set<Age>
  {
    set id | id in dead :: AgeOf(dead, id)
  }
}
