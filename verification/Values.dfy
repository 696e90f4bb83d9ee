/** Values and the names of what is allocated.

    Nodes and wires are named by where they come from instead of by address: the n-th
    allocation made while handling the active pair of two nodes is Born({left, right}, n). */
module Values {

  datatype Option<+T> = None | Some(value: T)

  datatype Name = Initial(index: nat) | Born(redex: set<Name>, index: nat)

  datatype Value =
    | Wire(id: Name)
    | Principal(node: Name, port: nat)
    | Int(n: int)
    | Ctor(ctor: nat)
    | Function(index: nat)
    | Primitive(primitive: nat)

  /** Two values to be joined. */
  datatype Pair = Pair(left: Value, right: Value)
}
