/**
 One connection attempt of the C++ version, with the system calls as inputs:
 the address-family hint handed to getaddrinfo, the select timeout built from
 the millisecond timeout, and the decision table that turns what getaddrinfo,
 socket, connect and select report into success or failure.
 */
module CppConnect {
  import opened Options

  // ---------------------------------------------------------------- timeout

  /** C++ integer division by a positive divisor: the quotient is truncated toward zero. */
  function CDiv(a: int, b: int): int
    requires b > 0
  {
    if a >= 0 then a / b else -((-a) / b)
  }

  /** C++ `%`: the remainder has the sign of the dividend. */
  function CMod(a: int, b: int): int
    requires b > 0
  {
    a - b * CDiv(a, b)
  }

  /** `struct timeval`: seconds and microseconds. */
  datatype Timeval = Timeval(sec: int, usec: int)

  /** A timeval select accepts: non-negative, with the microseconds below one second. */
  predicate WellFormed(tv: Timeval) {
    tv.sec >= 0 && 0 <= tv.usec < 1_000_000
  }

  /** The select timeout built from a timeout in milliseconds: the whole seconds,
      and the remaining milliseconds as microseconds, both by C++ truncating division. */
  function ToTimeval(timeoutMs: int): (tv: Timeval)
    ensures tv.sec * 1000 + CDiv(tv.usec, 1000) == timeoutMs
    ensures CMod(tv.usec, 1000) == 0
    ensures WellFormed(tv) <==> timeoutMs >= 0
    ensures timeoutMs < 0 ==> -1_000_000 < tv.usec <= 0
  {
    Timeval(CDiv(timeoutMs, 1000), CMod(timeoutMs, 1000) * 1000)
  }

  // ---------------------------------------------------------------- family hint

  /** `hints.ai_family`. */
  datatype Family = Unspec | Inet | Inet6

  /** The family getaddrinfo is asked for: -6 wins over -4, neither means any. */
  predicate Requested(family: Family, forceV4: bool, forceV6: bool) {
    && (family == Inet6 <==> forceV6)
    && (family == Inet <==> forceV4 && !forceV6)
    && (family == Unspec <==> !forceV4 && !forceV6)
  }

  method ChooseFamily(forceV4: bool, forceV6: bool) returns (family: Family)
    ensures Requested(family, forceV4, forceV6)
  {
    family := Unspec;
    if forceV4 { family := Inet; }
    if forceV6 { family := Inet6; }
  }

  // ---------------------------------------------------------------- classification

  /** SOCKET_ERROR on POSIX. */
  const SocketError: int := -1

  /** IS_VALID_SOCKET on POSIX: a descriptor is valid when it is not negative. */
  predicate IsValidSocket(sock: int) {
    sock >= 0
  }

  /** What the system calls of one attempt report. */
  datatype Syscalls = Syscalls(
    resolved: bool,       // getaddrinfo(...) == 0
    sock: int,            // socket(...)
    connectResult: int,   // connect(...) on the non-blocking socket
    pending: bool,        // after connect failed: errno == EINPROGRESS (WSAEWOULDBLOCK on Windows)
    selectResult: int,    // select(...) waiting for writability
    peerIp: string)       // inet_ntop of the resolved address

  /** What the attempt did: its outcome, the timeout handed to select when it
      waited, whether it closed a socket, and the address it reports. */
  datatype Attempt = Attempt(success: bool, waitedWith: Option<Timeval>, closed: bool, remoteIp: string)

  /** One attempt: resolve, open a socket, connect without blocking and, when the
      connect is pending, wait for writability for at most `timeoutMs`. */
  function Connect(host: string, timeoutMs: int, sys: Syscalls): (a: Attempt)
    ensures a.success <==>
      sys.resolved && IsValidSocket(sys.sock) &&
      (sys.connectResult != SocketError || (sys.pending && sys.selectResult > 0))
    ensures a.waitedWith.Some? <==>
      sys.resolved && IsValidSocket(sys.sock) && sys.connectResult == SocketError && sys.pending
    ensures a.waitedWith.Some? ==> a.waitedWith.value == ToTimeval(timeoutMs)
    ensures a.closed <==> sys.resolved && IsValidSocket(sys.sock)
    ensures a.remoteIp == if a.success then sys.peerIp else host
  {
    if !sys.resolved || !IsValidSocket(sys.sock) then
      Attempt(false, None, false, host)
    else if sys.connectResult != SocketError then
      Attempt(true, None, true, sys.peerIp)
    else if sys.pending then
      var success := sys.selectResult > 0;
      Attempt(success, Some(ToTimeval(timeoutMs)), true, if success then sys.peerIp else host)
    else
      Attempt(false, None, true, host)
  }

  /** The select result matters only to an attempt that waited: for every other
      attempt, any select result gives the same outcome. */
  lemma SelectOnlyDecidesPending(host: string, timeoutMs: int, sys: Syscalls, selectResult: int)
    requires Connect(host, timeoutMs, sys).waitedWith.None?
    ensures Connect(host, timeoutMs, sys.(selectResult := selectResult)) == Connect(host, timeoutMs, sys)
  {
  }

  /** A wait that expires (select returns 0) or fails (select returns -1) is a failure. */
  lemma ExpiredWaitFails(host: string, timeoutMs: int, sys: Syscalls)
    requires Connect(host, timeoutMs, sys).waitedWith.Some? && sys.selectResult <= 0
    ensures !Connect(host, timeoutMs, sys).success && Connect(host, timeoutMs, sys).remoteIp == host
  {
  }
}
