/** The client side of src/io/tcp.rs: the IPv4 address packing, the
    non-blocking socket, and `Tcp::connect`, where a connection still in
    progress counts as connected. */
module IoTcp {
  import opened Sys
  import opened Readiness
  import IoErrno

  const AF_INET: int := 2
  const SOCK_STREAM: int := 1
  const SOCK_NONBLOCK: int := 0x800

  /** `ip::IpAddr`. */
  datatype IpAddr =
    | Ipv4Addr(a: bv8, b: bv8, c: bv8, d: bv8)
    | Ipv6Addr(s0: bv16, s1: bv16, s2: bv16, s3: bv16, s4: bv16, s5: bv16, s6: bv16, s7: bv16)

  /** `libc::in_addr`: the address as one 32-bit word. */
  datatype InAddr = InAddr(sAddr: bv32)

  /** `ipaddr_to_inaddr`: the four octets, first one most significant;
      `None` is the `unimplemented!()` panic on an IPv6 address. */
  function IpAddrToInAddr(ip: IpAddr): (r: Option<InAddr>)
    ensures r.Some? <==> ip.Ipv4Addr?
  {
    match ip
    case Ipv4Addr(a, b, c, d) =>
      Some(InAddr(((a as bv32) << 24) | ((b as bv32) << 16) | ((c as bv32) << 8) | (d as bv32)))
    case Ipv6Addr(_, _, _, _, _, _, _, _) => None
  }

  /** Octet `k` of a word, counting from the most significant: shift it
      down and mask it off. */
  function Octet(w: bv32, k: nat): bv8
    requires k < 4
  {
    var shifted := if k == 0 then w >> 24 else if k == 1 then w >> 16 else if k == 2 then w >> 8 else w;
    (shifted & 0xFF) as bv8
  }

  /** Each octet is recovered from the packed word by shift-and-mask. */
  lemma OctetsRecovered(a: bv8, b: bv8, c: bv8, d: bv8)
    ensures var w := IpAddrToInAddr(Ipv4Addr(a, b, c, d)).value.sAddr;
      Octet(w, 0) == a && Octet(w, 1) == b && Octet(w, 2) == c && Octet(w, 3) == d
  {
  }

  /** Packing is injective on IPv4 addresses, and every word is the
      packing of its own octets. */
  lemma PackingIsBijective(x: IpAddr, y: IpAddr, w: bv32)
    requires x.Ipv4Addr? && y.Ipv4Addr?
    ensures IpAddrToInAddr(x) == IpAddrToInAddr(y) <==> x == y
    ensures IpAddrToInAddr(Ipv4Addr(Octet(w, 0), Octet(w, 1), Octet(w, 2), Octet(w, 3))).value.sAddr == w
  {
    OctetsRecovered(x.a, x.b, x.c, x.d);
    OctetsRecovered(y.a, y.b, y.c, y.d);
  }

  datatype Tcp = Tcp(fd: Fd, events: IoFlag)

  /** The system calls of `connect`, with the arguments the model keeps. */
  datatype Call =
    | Getaddrinfo(family: int, sockType: int)
    | Socket(domain: int, sockType: int, protocol: int)
    | Connect(fd: Fd)

  /** The `socket` call of `create_socket`: a non-blocking IPv4 stream. */
  const SOCKET: Call := Socket(AF_INET, SOCK_STREAM + SOCK_NONBLOCK, 0)

  /** `create_socket`, given what `socket` returned. */
  function CreateSocket(socket: Syscall): (r: Result<Fd, Errno>)
    ensures r.Err? <==> socket.ret < 0
    ensures r.Err? ==> r.error == Errno(socket.errno)
    ensures r.Ok? ==> r.value == socket.ret
  {
    if socket.ret < 0 then Err(Current(socket)) else Ok(socket.ret)
  }

  /** `Tcp::connect`, given what name resolution, `socket` and `connect`
      returned: the calls made, in order, and the result. */
  function DoConnect(resolve: Syscall, socket: Syscall, connect: Syscall)
    : (r: (seq<Call>, Result<Tcp, Errno>))
    ensures |r.0| >= 1 && r.0[0] == Getaddrinfo(AF_INET, SOCK_STREAM)
    ensures resolve.ret < 0 ==> r == ([r.0[0]], Err(Errno(resolve.errno)))
    ensures resolve.ret >= 0 && socket.ret < 0 ==> r == ([r.0[0], SOCKET], Err(Errno(socket.errno)))
    ensures resolve.ret >= 0 && socket.ret >= 0 ==> r.0 == [r.0[0], SOCKET, Connect(socket.ret)]
    ensures r.1.Ok? <==>
      resolve.ret >= 0 && socket.ret >= 0 && (connect.ret >= 0 || connect.errno == IoErrno.EINPROGRESS)
    ensures r.1.Ok? ==> r.1.value == Tcp(socket.ret, POLL_IN | POLL_OUT)
    ensures resolve.ret >= 0 && socket.ret >= 0 && !r.1.Ok? ==> r.1.error == Errno(connect.errno)
  {
    var c0 := Getaddrinfo(AF_INET, SOCK_STREAM);
    if resolve.ret < 0 then ([c0], Err(Current(resolve)))
    else match CreateSocket(socket)
      case Err(e) => ([c0, SOCKET], Err(e))
      case Ok(sockFd) =>
        var calls := [c0, SOCKET, Connect(sockFd)];
        if connect.ret < 0 && Current(connect).code != IoErrno.EINPROGRESS then (calls, Err(Current(connect)))
        else (calls, Ok(Tcp(sockFd, POLL_IN | POLL_OUT)))
  }

  /** A connection that comes back with `EINPROGRESS` yields the same
      `Tcp` as one that connected at once; it is registered for both
      reading and writing, so the loop hears when it completes. */
  lemma InProgressIsConnected(resolve: Syscall, socket: Syscall, now: Syscall, later: Syscall)
    requires resolve.ret >= 0 && socket.ret >= 0
    requires now.ret >= 0 && later.ret < 0 && later.errno == IoErrno.EINPROGRESS
    ensures DoConnect(resolve, socket, now).1 == DoConnect(resolve, socket, later).1
    ensures PollFd(DoConnect(resolve, socket, now).1.value) == socket.ret
    ensures Flags(DoConnect(resolve, socket, now).1.value) == POLL_STOP
    ensures FromIoFlags(Flags(DoConnect(resolve, socket, now).1.value)) == EPOLLIN | EPOLLOUT
  {
  }

  /** `poll_fd()`. */
  function PollFd(t: Tcp): Fd
  {
    t.fd
  }

  /** `flags()`. */
  function Flags(t: Tcp): IoFlag
  {
    t.events
  }
}
