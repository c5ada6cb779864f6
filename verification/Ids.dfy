/** Opaque identities and the small wrappers shared by every other module.
    An identity is only ever compared for equality; attempt numbers, epochs and
    generations are ordered and therefore plain naturals. */
module Ids {
  datatype Option<+T> = None | Some(value: T)

  newtype Byte = x: int | 0 <= x < 256

  datatype JobID = JobID(value: nat)
  datatype TaskID = TaskID(value: nat)
  datatype LeaseID = LeaseID(value: nat)
  datatype NodeID = NodeID(value: nat)
  datatype WorkerID = WorkerID(value: nat)
  datatype ActorID = ActorID(value: nat)
  datatype ObjectID = ObjectID(task: TaskID, returnIndex: nat)
  datatype AttemptID = AttemptID(task: TaskID, number: nat)
  datatype Address = Address(host: string, port: nat)
}
