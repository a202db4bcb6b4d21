/// Datatypes shared by the other modules.
module Common {

  datatype Option<+T> = None | Some(value: T)

  /// The value stored for a key, if there is one.
  function Lookup<K, V>(m: map<K, V>, k: K): Option<V> {
    if k in m then Some(m[k]) else None
  }

  type Byte = b: nat | b < 256

  type Bytes = seq<Byte>

  /// How a location authenticates its users beyond their keys.
  datatype MfaMode = Disabled | Internal | External

  /// A gateway that connected, and has not disconnected later.
  predicate IsConnected(connectedAt: Option<int>, disconnectedAt: Option<int>) {
    if connectedAt.Some? && disconnectedAt.Some? then disconnectedAt.value <= connectedAt.value
    else connectedAt.Some?
  }
}
