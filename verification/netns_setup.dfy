/**
 * SetNameMACAndUpInterface: the unit of work run inside a node's network
 * namespace. It renames the link, sets its hardware address when a 6-byte
 * one is given, and brings it up; the first step that fails ends it. The
 * netlink calls are foreign, so each step's outcome comes from an oracle and
 * the method reports the steps it attempted.
 */
module NetnsSetup {
  import opened Wrappers
  import opened LinkTypes

  type byte = x: int | 0 <= x < 256

  /** Endpt, as far as this unit of work reads it: the target interface name and an optional hardware address. */
  datatype Endpt = Endpt(iface: string, mac: seq<byte>)

  /** One netlink call on the link. */
  datatype Step =
    | LinkSetName(name: string)
    | LinkSetHardwareAddr(addr: seq<byte>)
    | LinkSetUp

  /** The calls to make, in order, when none of them fails. */
  function Plan(e: Endpt): (p: seq<Step>)
    ensures 2 <= |p| <= 3
    ensures p[0] == LinkSetName(e.iface) && p[|p| - 1] == LinkSetUp
    ensures |p| == 3 <==> |e.mac| == 6
    ensures |p| == 3 ==> p[1] == LinkSetHardwareAddr(e.mac)
  {
    [LinkSetName(e.iface)] + (if |e.mac| == 6 then [LinkSetHardwareAddr(e.mac)] else []) + [LinkSetUp]
  }

  /**
   * The error reported when step `s` fails with `cause`: each step has its
   * own wrapping, the cause is carried unchanged, and only the set-up error
   * names the interface.
   */
  function Report(s: Step, cause: string, iface: string): (r: Error)
    ensures r.RenameFailed? <==> s.LinkSetName?
    ensures r.Netlink? <==> s.LinkSetHardwareAddr?
    ensures r.SetUpFailed? <==> s.LinkSetUp?
    ensures r.cause == cause
    ensures r.SetUpFailed? ==> r.iface == iface
  {
    match s
    case LinkSetName(_) => RenameFailed(cause)
    case LinkSetHardwareAddr(_) => Netlink(cause)
    case LinkSetUp => SetUpFailed(iface, cause)
  }

  /**
   * The returned function of SetNameMACAndUpInterface, run once. `netlink`
   * gives each call's error (None for success). The attempted calls are a
   * prefix of the plan that stops right after the first failure, and the
   * error is that failure's, wrapped as the source wraps it.
   */
  method SetNameMACAndUpInterface(endpt: Endpt, netlink: Step -> Option<string>)
    returns (trace: seq<Step>, err: Option<Error>)
    ensures 1 <= |trace| <= |Plan(endpt)| && trace == Plan(endpt)[..|trace|]
    ensures forall k :: 0 <= k < |trace| - 1 ==> netlink(trace[k]).None?
    ensures err.None? <==> trace == Plan(endpt) && netlink(trace[|trace| - 1]).None?
    ensures err.Some? ==> (netlink(trace[|trace| - 1]).Some?
      && err.value == Report(trace[|trace| - 1], netlink(trace[|trace| - 1]).value, endpt.iface))
  {
    // rename the given link
    trace := [LinkSetName(endpt.iface)];
    var e := netlink(LinkSetName(endpt.iface));
    if e.Some? {
      return trace, Some(RenameFailed(e.value));
    }
    // set the hardware address only when it has exactly 6 bytes
    if |endpt.mac| == 6 {
      trace := trace + [LinkSetHardwareAddr(endpt.mac)];
      e := netlink(LinkSetHardwareAddr(endpt.mac));
      if e.Some? {
        return trace, Some(Netlink(e.value));
      }
    }
    // bring the given link up
    trace := trace + [LinkSetUp];
    e := netlink(LinkSetUp);
    if e.Some? {
      return trace, Some(SetUpFailed(endpt.iface, e.value));
    }
    err := None;
  }

  /**
   * What a run of the plan promises: renaming comes first, the hardware
   * address is attempted only for a 6-byte address, and a failed rename ends
   * the run before anything else is attempted.
   */
  lemma {:induction false} RunOrder(endpt: Endpt, netlink: Step -> Option<string>, trace: seq<Step>)
    requires 1 <= |trace| <= |Plan(endpt)| && trace == Plan(endpt)[..|trace|]
    requires forall k :: 0 <= k < |trace| - 1 ==> netlink(trace[k]).None?
    ensures trace[0] == LinkSetName(endpt.iface)
    ensures LinkSetHardwareAddr(endpt.mac) in trace ==> |endpt.mac| == 6
    ensures netlink(LinkSetName(endpt.iface)).Some? ==> trace == [LinkSetName(endpt.iface)]
    ensures LinkSetUp in trace ==> trace == Plan(endpt)
  {
    var p := Plan(endpt);
    if LinkSetHardwareAddr(endpt.mac) in trace {
      var k :| 0 <= k < |trace| && trace[k] == LinkSetHardwareAddr(endpt.mac);
      assert p[k] == trace[k];
    }
    if LinkSetUp in trace {
      var k :| 0 <= k < |trace| && trace[k] == LinkSetUp;
      assert p[k] == LinkSetUp;
      assert k == |p| - 1;
    }
  }
}
