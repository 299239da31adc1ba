/**
 * Values shared by every part of the model: descriptors, client ids, bytes, client records and
 * the owning slots of the server's client vector.
 */
module Types {

  /** A socket descriptor. Zero is the value the library uses for "no socket". */
  type Fd = int

  /** The source's uint64_t client id; the model assumes fewer than 2^64 ids are ever issued. */
  type ClientId = nat

  newtype Byte = x: int | 0 <= x < 256

  type Bytes = seq<Byte>

  /** An std::error_code of the system category: zero is "no error". */
  type ErrorCode = int

  /** client_info: `sock` is conn.socket_, `fd` the copy taken when the client was created. */
  datatype Client = Client(id: ClientId, fd: Fd, sock: Fd, connected: bool)

  /** One std::unique_ptr<client_info> in clients_. */
  datatype Slot = Null | Own(c: Client)

  datatype Option<+T> = None | Some(value: T)

  /** The integers 1, 2, ..., n. */
  function UpTo(n: nat): (r: seq<ClientId>)
    ensures |r| == n
    ensures forall i :: 0 <= i < n ==> r[i] == i + 1
  {
    seq(n, i requires 0 <= i < n => i + 1)
  }
}
