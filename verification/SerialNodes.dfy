/** The heap records of the serial devices (src/serial.h). */
module SerialNodes {
  import opened Proxy

  datatype Kind = MasterNode | VirtualNode

  class SerialLink {
    var fd: nat
    var recvbuf: Buffer
    var recvbuflen: Count
    var node: SerialNode

    constructor (node: SerialNode, fd: nat)
      ensures this.node == node && this.fd == fd
      ensures recvbuf == Zeros() && recvbuflen == 0
    {
      this.node, this.fd := node, fd;
      recvbuf := Zeros();
      recvbuflen := 0;
    }
  }

  class SerialNode {
    var name: string
    const kind: Kind
    var writer: bool
    // The virtuals of a master, linked by next.
    var virtualHead: SerialNode?
    // The master of a virtual.
    var virtualOf: SerialNode?
    var baudrate: int
    var link: SerialLink?
    var next: SerialNode?

    constructor (name: string, kind: Kind)
      ensures this.name == name && this.kind == kind && !writer && baudrate == 9600
      ensures virtualHead == null && virtualOf == null && link == null && next == null
    {
      this.name, this.kind := name, kind;
      writer, baudrate := false, 9600;
      virtualHead, virtualOf, link, next := null, null, null, null;
    }
  }
}
