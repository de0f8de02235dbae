/** The wire format of one HAMq message, as far as delivery and auditing look at it.
    Ids are UUID4 strings; they are opaque here and only compared. */
module Messages {
  datatype Option<+T> = None | Some(value: T)

  datatype Message = Message(id: string, sequence: int, producer: string, data: string, checksum: string)

  /** An id names at most one message. */
  ghost predicate UniqueIds(ms: set<Message>) {
    forall a, b :: a in ms && b in ms && a.id == b.id ==> a == b
  }
}
