/** A connection, as its owner sees it. */
module Connections {

  datatype Connection<S> = Connection(id: nat, state: S, closed: bool)
}
