/** Vocabulary shared by every component of the model. */
module Common {
  type byte = b: int | 0 <= b < 256
  type bytes = seq<byte>

  /** MQTT quality of service. */
  type QoS = q: nat | q <= 2

  const MAX_ID: nat := 65535

  datatype Option<+T> = None | Some(value: T)

  /** Codec error returns (wolfmqtt/mqtt_types.h). */
  datatype Error = OutOfBuffer | Malformed | BadArg | PropertyError | PropertyMismatch | PacketType | PacketId

  datatype Result<+T> = Ok(value: T) | Err(error: Error)

  function Min(a: int, b: int): (r: int)
    ensures r <= a && r <= b && (r == a || r == b)
  {
    if a < b then a else b
  }

  function Max(a: int, b: int): (r: int)
    ensures r >= a && r >= b && (r == a || r == b)
  {
    if a < b then b else a
  }

  /** The sequence left when the element at index i is unlinked. */
  function RemoveAt<T>(s: seq<T>, i: nat): (r: seq<T>)
    requires i < |s|
    ensures |r| == |s| - 1
    ensures forall k :: 0 <= k < i ==> r[k] == s[k]
    ensures forall k :: i <= k < |r| ==> r[k] == s[k + 1]
  {
    s[..i] + s[i + 1..]
  }
}
