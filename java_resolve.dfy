/**
 `resolveAddress` of the Java version: with neither -4 nor -6 the host is
 handed over by name; otherwise the first address of the requested family
 among those the resolver returned, in the resolver's order.
 */
module JavaResolve {
  import opened Options

  datatype IpFamily = V4 | V6

  /** A resolved address (`Inet4Address` or `Inet6Address`) and its textual form. */
  datatype InetAddress = InetAddress(family: IpFamily, ip: string)

  datatype SocketAddress =
    | ByName(host: string, port: int)        // an InetSocketAddress built from the host name
    | Direct(addr: InetAddress, port: int)   // an InetSocketAddress built from a resolved address

  datatype Resolution =
    | Found(endpoint: SocketAddress)
    | UnknownHost   // UnknownHostException, an IOException: the attempt fails
    | IllegalPort   // IllegalArgumentException from InetSocketAddress: the program ends

  /** InetSocketAddress accepts ports 0 to 65535. */
  predicate ValidPort(port: int) {
    0 <= port <= 0xFFFF
  }

  /** The address is of a family the flags ask for. */
  predicate Wanted(a: InetAddress, forceV4: bool, forceV6: bool) {
    (forceV4 && a.family == V4) || (forceV6 && a.family == V6)
  }

  /** `addrs[k]` is the first address of a requested family. */
  predicate FirstWanted(addrs: seq<InetAddress>, k: int, forceV4: bool, forceV6: bool) {
    && 0 <= k < |addrs|
    && Wanted(addrs[k], forceV4, forceV6)
    && forall j :: 0 <= j < k ==> !Wanted(addrs[j], forceV4, forceV6)
  }

  /** `resolveAddress(host, port)`; `lookup` is what `InetAddress.getAllByName(host)`
      returns, `None` when it throws UnknownHostException. */
  method ResolveAddress(host: string, port: int, forceV4: bool, forceV6: bool, lookup: Option<seq<InetAddress>>)
    returns (r: Resolution)
    ensures !forceV4 && !forceV6 ==> r == if ValidPort(port) then Found(ByName(host, port)) else IllegalPort
    ensures (forceV4 || forceV6) && lookup.None? ==> r == UnknownHost
    ensures (forceV4 || forceV6) && lookup.Some? ==>
      && (r == UnknownHost <==> forall k :: 0 <= k < |lookup.value| ==> !Wanted(lookup.value[k], forceV4, forceV6))
      && (r == IllegalPort <==> !ValidPort(port) && exists k :: 0 <= k < |lookup.value| && Wanted(lookup.value[k], forceV4, forceV6))
      && (r.Found? ==> exists k :: FirstWanted(lookup.value, k, forceV4, forceV6) && r.endpoint == Direct(lookup.value[k], port))
  {
    if !forceV4 && !forceV6 {
      if !ValidPort(port) {
        return IllegalPort;
      }
      return Found(ByName(host, port));
    }
    if lookup.None? {
      return UnknownHost;
    }
    var addrs := lookup.value;
    for k := 0 to |addrs|
      invariant forall j :: 0 <= j < k ==> !Wanted(addrs[j], forceV4, forceV6)
    {
      var addr := addrs[k];
      if forceV4 && addr.family == V4 {
        if !ValidPort(port) {
          return IllegalPort;
        }
        return Found(Direct(addr, port));
      }
      if forceV6 && addr.family == V6 {
        if !ValidPort(port) {
          return IllegalPort;
        }
        return Found(Direct(addr, port));
      }
    }
    return UnknownHost;
  }
}
