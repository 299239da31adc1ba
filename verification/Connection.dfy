/** connection and acceptor as objects: who holds which descriptor after each operation. */
module Connections {
  import opened Types
  import opened Machine
  import opened Wire
  import opened Hosts
  import opened SocketOps

  /** An address; the default one is what endpoint() builds. */
  datatype Endpoint = NoEndpoint | Endpoint(name: string)

  /** The kernel's answer to ::recv: a count, 0 at the end of the stream, or -1; and errno after it. */
  datatype RecvAnswer = Arrived(count: nat, errno: ErrorCode) | Failed(errno: ErrorCode)

  class Connection {
    var socket: Fd
    var local: Endpoint
    var remote: Endpoint

    constructor ()
      ensures socket == 0 && local == NoEndpoint && remote == NoEndpoint
    {
      socket, local, remote := 0, NoEndpoint, NoEndpoint;
    }

    /** connection::from_native_socket */
    constructor FromNativeSocket(fd: Fd, local: Endpoint, remote: Endpoint)
      ensures socket == fd && this.local == local && this.remote == remote
    {
      socket, this.local, this.remote := fd, local, remote;
    }

    predicate IsConnected() reads this {
      socket != 0
    }

    /** disconnect, and ~connection: close what is held, exactly once, and forget it. */
    method Disconnect(host: Host)
      modifies this, host`kernel
      ensures host.kernel == if old(socket) == 0 then old(host.kernel) else CloseFd(old(host.kernel), old(socket))
      ensures socket == 0
      ensures old(socket) != 0 ==> local == NoEndpoint && remote == NoEndpoint
      ensures old(socket) == 0 ==> local == old(local) && remote == old(remote)
    {
      if !IsConnected() { return; }
      host.kernel := CloseFd(host.kernel, socket);
      socket, local, remote := 0, NoEndpoint, NoEndpoint;
    }

    /**
     * Move assignment. The descriptor moves and the source forgets it, but what the target held
     * is dropped without being closed; moving a connection onto itself drops its own descriptor.
     */
    method MoveFrom(other: Connection)
      modifies this, other
      ensures this != other ==> socket == old(other.socket) && local == old(other.local) && remote == old(other.remote)
      ensures other.socket == 0 && other.local == NoEndpoint && other.remote == NoEndpoint
      ensures old(socket) != 0 ==>
                (old(socket) in {socket, other.socket} <==> this != other && old(socket) == old(other.socket))
    {
      socket, local, remote := other.socket, other.local, other.remote;
      other.socket, other.local, other.remote := 0, NoEndpoint, NoEndpoint;
    }

    /**
     * connect: the first endpoint that answers. The descriptors opened for the endpoints before it
     * stay open and nobody holds them, and neither does anybody a socket held before.
     */
    method Connect(host: Host, endpoints: seq<Try>, errno: ErrorCode, ec: ErrorCode, local: Endpoint, remote: Endpoint)
      returns (ec': ErrorCode, ghost n: nat)
      modifies this, host`kernel
      ensures FirstSuccess(endpoints, ConnectOutcomes(endpoints), n)
      ensures host.kernel == OpenAll(old(host.kernel), endpoints[..Tried(endpoints, n)])
      ensures n < |endpoints| && endpoints[n].fd != 0 ==>
                ec' == ec && socket == endpoints[n].fd && this.local == local && this.remote == remote &&
                (NewSockets(old(host.kernel), endpoints) ==>
                   host.kernel.server - old(host.kernel).server - {socket} == Sockets(endpoints, n))
      ensures n == |endpoints| || endpoints[n].fd == 0 ==>
                ec' == (if endpoints == [] then 1 else errno) && unchanged(this) &&
                (NewSockets(old(host.kernel), endpoints) ==>
                   host.kernel.server - old(host.kernel).server == Sockets(endpoints, Tried(endpoints, n)))
    {
      if endpoints == [] { return 1, 0; }
      var fd, tried := CreateConnectedSocket(host, endpoints);
      n := tried;
      if NewSockets(old(host.kernel), endpoints) {
        LeakedSet(old(host.kernel), endpoints, if n < |endpoints| then n else 0);
        assert endpoints[..|endpoints|] == endpoints;
      }
      if fd == 0 { ec' := errno; return; }
      ec' := ec;
      socket, this.local, this.remote := fd, local, remote;
    }

    /** send: the bytes the loop hands over go out on this connection's descriptor and no other. */
    method Send(host: Host, data: Bytes, ec: ErrorCode, answers: seq<Answer>) returns (ec': ErrorCode, ended: bool)
      modifies host`outbox
      ensures var r := Wire.Send(socket, data, ec, answers);
              ended == r.ended && ec' == r.ec && host.Outgoing(socket) == old(host.Outgoing(socket)) + r.wire
      ensures forall fd :: fd != socket ==> host.Outgoing(fd) == old(host.Outgoing(fd))
    {
      if !IsConnected() || |data| == 0 { return 1, true; }
      var r := RunSendLoop(data, ec, answers);
      host.outbox := host.outbox[socket := host.Outgoing(socket) + r.wire];
      return r.ec, r.ended;
    }

    /**
     * receive with and without peek. The count of bytes that arrived is narrowed to int: what it
     * becomes decides whether they are returned, taken for the end of the stream (which closes the
     * connection and stores errno) or for an error, or make resize throw.
     */
    method Receive(host: Host, size: nat, peek: bool, ec: ErrorCode, answer: RecvAnswer)
      returns (data: Bytes, ec': ErrorCode, threw: bool)
      requires socket != 0 && size > 0 && answer.Arrived? ==>
                 answer.count <= size && answer.count <= |host.Incoming(socket)|
      modifies this, host
      ensures old(socket) == 0 || size == 0 ==>
                data == [] && ec' == 1 && !threw && unchanged(this) && unchanged(host)
      ensures old(socket) != 0 && size > 0 && answer.Failed? ==>
                data == [] && ec' == answer.errno && !threw && unchanged(this) && unchanged(host)
      ensures old(socket) != 0 && size > 0 && answer.Arrived? ==>
                var n := ToInt(answer.count);
                data == old(host.Incoming(socket))[..if n > 0 then n else 0] &&
                ec' == (if n == 0 || n == -1 then answer.errno else ec) && (threw <==> n < -1) &&
                (if n == 0 then socket == 0 && local == NoEndpoint && remote == NoEndpoint else unchanged(this)) &&
                host.kernel == (if n == 0 then CloseFd(old(host.kernel), old(socket)) else old(host.kernel)) &&
                host.outbox == old(host.outbox) &&
                (forall fd :: host.Incoming(fd) ==
                   old(host.Incoming(fd))[if fd == old(socket) && !peek then answer.count else 0..])
      ensures old(socket) != 0 && 0 < size < TWO_31 && answer.Arrived? && answer.count > 0 ==>
                data == old(host.Incoming(socket))[..answer.count] && ec' == ec && !threw && unchanged(this)
    {
      threw := false;
      if !IsConnected() || size == 0 { return [], 1, false; }
      if answer.Failed? { return [], answer.errno, false; }
      var arrived := host.Incoming(socket);
      if !peek { host.inbox := host.inbox[socket := arrived[answer.count..]]; }
      var n := ToInt(answer.count);
      if n == 0 {
        Disconnect(host);
        return [], answer.errno, false;
      }
      if n == -1 { return [], answer.errno, false; }
      if n < 0 { return [], ec, true; }
      return arrived[..n], ec, false;
    }
  }

  /** The kernel's answer to ::accept. */
  datatype AcceptAnswer = NewSocket(fd: Fd) | AcceptError(errno: ErrorCode)

  class Acceptor {
    var socket: Fd
    var local: Endpoint

    constructor ()
      ensures socket == 0 && local == NoEndpoint
    {
      socket, local := 0, NoEndpoint;
    }

    /** open: error 1 for no endpoints, 32 if none can be listened on; ec is left alone on success. */
    method Open(host: Host, endpoints: seq<Try>, reuse: bool, ec: ErrorCode, local: Endpoint)
      returns (ec': ErrorCode, ghost n: nat)
      modifies this, host`kernel
      ensures FirstSuccess(endpoints, ListenOutcomes(endpoints, reuse), n)
      ensures host.kernel == OpenAll(old(host.kernel), endpoints[..Tried(endpoints, n)])
      ensures n < |endpoints| && endpoints[n].fd != 0 ==>
                ec' == ec && socket == endpoints[n].fd && this.local == local &&
                (NewSockets(old(host.kernel), endpoints) ==>
                   host.kernel.server - old(host.kernel).server - {socket} == Sockets(endpoints, n))
      ensures n == |endpoints| || endpoints[n].fd == 0 ==>
                ec' == (if endpoints == [] then 1 else 32) && unchanged(this) &&
                (NewSockets(old(host.kernel), endpoints) ==>
                   host.kernel.server - old(host.kernel).server == Sockets(endpoints, Tried(endpoints, n)))
    {
      if endpoints == [] { return 1, 0; }
      var fd, tried := CreateListeningSocket(host, endpoints, reuse);
      n := tried;
      if NewSockets(old(host.kernel), endpoints) {
        LeakedSet(old(host.kernel), endpoints, if n < |endpoints| then n else 0);
        assert endpoints[..|endpoints|] == endpoints;
      }
      if fd == 0 { ec' := 32; return; }
      ec' := ec;
      socket, this.local := fd, local;
    }

    /** close, and ~acceptor. */
    method Close(host: Host)
      modifies this, host`kernel
      ensures host.kernel == (if old(socket) == 0 then old(host.kernel) else CloseFd(old(host.kernel), old(socket)))
      ensures socket == 0 && local == if old(socket) == 0 then old(local) else NoEndpoint
    {
      if socket == 0 { return; }
      host.kernel := CloseFd(host.kernel, socket);
      socket, local := 0, NoEndpoint;
    }

    /** accept: success does not touch ec, so a caller's old error survives a good connection. */
    method Accept(host: Host, ec: ErrorCode, answer: AcceptAnswer, near: Endpoint, far: Endpoint)
      returns (conn: Connection, ec': ErrorCode)
      requires socket != 0 && answer.NewSocket? ==> Fresh(host.kernel, answer.fd)
      modifies host`kernel
      ensures fresh(conn)
      ensures socket != 0 && answer.NewSocket? ==>
                ec' == ec && conn.socket == answer.fd && conn.local == near && conn.remote == far &&
                host.kernel == OpenFd(old(host.kernel), answer.fd)
      ensures socket == 0 || answer.AcceptError? ==>
                ec' == (if socket == 0 then 1 else answer.errno) && conn.socket == 0 &&
                conn.local == NoEndpoint && conn.remote == NoEndpoint && host.kernel == old(host.kernel)
    {
      if socket == 0 {
        conn := new Connection();
        return conn, 1;
      }
      if answer.AcceptError? {
        conn := new Connection();
        return conn, answer.errno;
      }
      host.kernel := OpenFd(host.kernel, answer.fd);
      conn := new Connection.FromNativeSocket(answer.fd, near, far);
      ec' := ec;
    }
  }

  /**
   * The life of an accepted socket through the objects: accepted, moved into the client record,
   * and released once by disconnect; the destructor that follows finds nothing left to close.
   */
  method AcceptedSocketLife(acceptor: Acceptor, host: Host, ec: ErrorCode, fd: Fd, near: Endpoint, far: Endpoint)
    requires acceptor.socket != 0 && Fresh(host.kernel, fd)
    modifies host
    ensures host.kernel == CloseFd(OpenFd(old(host.kernel), fd), fd)
    ensures host.kernel.server == old(host.kernel.server) && host.kernel.foreign == old(host.kernel.foreign)
  {
    var conn, ec' := acceptor.Accept(host, ec, NewSocket(fd), near, far);
    var client := new Connection();
    client.MoveFrom(conn);
    conn.Disconnect(host);     // ~connection of the temporary
    client.Disconnect(host);   // the sweep
    client.Disconnect(host);   // ~connection of the erased client
  }
}
