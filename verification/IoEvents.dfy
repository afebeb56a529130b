/** Sets of io events. */
module IoEvents {

  /** EV_READ and EV_WRITE, as a mask holds them. */
  datatype Mask = Mask(read: bool, write: bool) {
    predicate Any() { read || write }
    function Or(m: Mask): Mask { Mask(read || m.read, write || m.write) }
    function And(m: Mask): Mask { Mask(read && m.read, write && m.write) }
  }

  const NONE := Mask(false, false)
}
