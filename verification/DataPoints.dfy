/** The rows of the relational store that the pipeline works on (engine/task_cognify.go). */
module DataPoints {

  datatype Status = Pending | Processing | Cognified | Completed | Failed | Retrying

  /** Row ids. A chunk's id is made from its document's id and its index, which is also how
      its parent is found again. */
  datatype Id = Doc(doc: nat) | Child(doc: nat, index: nat)

  /** A document row tells whether its chunk rows were created. */
  datatype Row = DocRow(status: Status, split: bool) | ChunkRow(status: Status)

  type Rows = map<Id, Row>

  /** Document ids have document rows, chunk ids have chunk rows. */
  ghost predicate Typed(rows: Rows) {
    forall id :: id in rows ==> (id.Doc? <==> rows[id].DocRow?)
  }

  predicate IsChunkOf(id: Id, d: nat) {
    id.Child? && id.doc == d
  }

  /** Every chunk row of document d is completed, and there is one. */
  ghost predicate AllCompleted(rows: Rows, d: nat) {
    && (exists id :: id in rows && IsChunkOf(id, d))
    && (forall id :: id in rows && IsChunkOf(id, d) ==> rows[id].status == Completed)
  }

  /** The status that syncParentStatusFromChildren writes. */
  ghost function SyncedStatus(rows: Rows, d: nat): Status {
    if AllCompleted(rows, d) then Completed else Processing
  }

  // A document row synchronized with its chunk rows.
  ghost function SyncDoc(rows: Rows, d: nat): Rows {
    if Doc(d) in rows && rows[Doc(d)].DocRow?
    then rows[Doc(d) := DocRow(SyncedStatus(rows, d), rows[Doc(d)].split)] else rows
  }
}
