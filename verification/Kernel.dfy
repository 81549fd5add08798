/**
  What the scanners get from outside: socket calls, the clock, the stop flag.
  Every answer is indexed by a tick that each call moves on, so any sequence of
  answers is some kernel.
*/
module Kernel {
  datatype Connect = Established | InProgress | Error(refused: bool)

  datatype SocketError = NoError | RefusedError | OtherError

  type Octet = b: int | 0 <= b < 256

  datatype Kernel = Kernel(
    // The clock in milliseconds, and the shared stop flag (or signal).
    now: nat -> int,
    stop: nat -> bool,
    // A descriptor, or -1; the second argument holds the descriptors in use.
    socket: (nat, set<int>) -> int,
    connect: nat -> Connect,
    // Whether a set-up call (epoll_ctl, CreateIoCompletionPort, bind, sendto) succeeds.
    accept: nat -> bool,
    // The descriptors one epoll_wait reports, of those it waits for.
    wait: (nat, set<int>) -> seq<int>,
    // SO_ERROR of a reported socket.
    error: nat -> SocketError,
    // The connection that a completion packet names; none: -1.
    packet: nat -> int,
    // The packets that one run of recvfrom calls yields, none if the socket is not
    // readable; there are finitely many, so every such run ends.
    frames: nat -> seq<seq<Octet>>)
  {
    // The clock never runs backwards and a raised stop flag stays up; socket()
    // answers a descriptor that is not open.
    ghost predicate Sane() {
      && (forall t: nat, u: nat :: t <= u ==> now(t) <= now(u))
      && (forall t: nat, u: nat :: t <= u && stop(t) ==> stop(u))
      && (forall t: nat, used :: socket(t, used) == -1 || socket(t, used) !in used)
    }

    // The clock passes every bound: no burst of events holds it back forever.
    ghost predicate Advances() { forall bound: int :: Reaches(bound) }

    ghost predicate Reaches(bound: int) { exists t: nat :: bound <= now(t) }
  }
}
