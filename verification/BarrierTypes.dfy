/** What the snapshot and the group barrier share: node names, the clock, slot states. */
module BarrierTypes {

  // Names of nodes and volumes; where names are sorted, the order of the numbers is theirs.
  type Node = nat
  type Volume = nat
  type Seconds = int

  const SUSPEND_DEADLINE: Seconds := 60
  const SUSPEND_RETRY_BACKOFF: Seconds := 30

  datatype Option<+T> = None | Some(value: T)

  /** One node's leg of one volume. */
  datatype Leg = Leg(vol: Volume, node: Node)

  datatype SlotState = Unset | Pending | Suspended | Done | Error

  predicate Raised(x: SlotState) {
    x == Suspended || x == Done
  }
}
