/** The kernel as this process sees it: its descriptors and the bytes moved on each. */
module Hosts {
  import opened Types
  import opened Machine

  class Host {
    var kernel: Kernel
    var outbox: map<Fd, Bytes>    // handed to the kernel by send
    var inbox: map<Fd, Bytes>     // arrived and not yet received

    constructor (kernel: Kernel)
      ensures this.kernel == kernel && outbox == map[] && inbox == map[]
    {
      this.kernel, outbox, inbox := kernel, map[], map[];
    }

    function Outgoing(fd: Fd): Bytes reads this {
      if fd in outbox then outbox[fd] else []
    }

    function Incoming(fd: Fd): Bytes reads this {
      if fd in inbox then inbox[fd] else []
    }
  }
}
