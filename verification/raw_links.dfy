/**
 * The values a link definition decodes into. The four variant shapes and
 * the constructors that build them from the brief notation live outside
 * types/link.go, so their contents are abstract here and the constructors
 * are parameters that may fail.
 */
module RawLinks {
  import opened Wrappers
  import opened LinkTypes

  /** LinkCommonParams: an MTU override and free-form labels, carried through without logic. */
  datatype LinkCommonParams = LinkCommonParams(mtu: int, labels: map<string, string>)

  /** LinkConfig, the brief notation: endpoint strings `node:interface` and the common parameters. */
  datatype LinkConfig = LinkConfig(endpoints: seq<string>, common: LinkCommonParams)

  // The decoded contents of each variant (LinkVEthRaw, LinkMgmtNetRaw, LinkHostRaw, LinkMACVLANRaw).
  type VEthRaw
  type MgmtNetRaw
  type HostRaw
  type MacVLanRaw

  /** RawLink: one of the four concrete variants a link definition holds. */
  datatype RawLink =
    | VEthLink(veth: VEthRaw)
    | MgmtNetLink(mgmtNet: MgmtNetRaw)
    | HostLink(host: HostRaw)
    | MacVLanLink(macVlan: MacVLanRaw)

  /** The link type each variant stands for; never the brief marker. */
  function VariantType(l: RawLink): (t: LinkType)
    ensures t != Brief
    ensures Name(t) in Names
  {
    match l
    case VEthLink(_) => VEth
    case MgmtNetLink(_) => MgmtNet
    case HostLink(_) => Host
    case MacVLanLink(_) => MacVLan
  }

  /**
   * vEthFromLinkConfig, mgmtNetFromLinkConfig, hostFromLinkConfig and
   * macVlanFromLinkConfig: each builds its variant from a brief link, the
   * last three also from the index of the endpoint that names the special role.
   */
  datatype Constructors = Constructors(
    vEth: LinkConfig -> Result<VEthRaw, Error>,
    mgmtNet: (LinkConfig, int) -> Result<MgmtNetRaw, Error>,
    host: (LinkConfig, int) -> Result<HostRaw, Error>,
    macVlan: (LinkConfig, int) -> Result<MacVLanRaw, Error>)

  function VEthFrom(c: Constructors, lc: LinkConfig): Result<RawLink, Error> {
    match c.vEth(lc)
    case Ok(v) => Ok(VEthLink(v))
    case Err(e) => Err(e)
  }

  function MgmtNetFrom(c: Constructors, lc: LinkConfig, x: int): Result<RawLink, Error> {
    match c.mgmtNet(lc, x)
    case Ok(v) => Ok(MgmtNetLink(v))
    case Err(e) => Err(e)
  }

  function HostFrom(c: Constructors, lc: LinkConfig, x: int): Result<RawLink, Error> {
    match c.host(lc, x)
    case Ok(v) => Ok(HostLink(v))
    case Err(e) => Err(e)
  }

  function MacVLanFrom(c: Constructors, lc: LinkConfig, x: int): Result<RawLink, Error> {
    match c.macVlan(lc, x)
    case Ok(v) => Ok(MacVLanLink(v))
    case Err(e) => Err(e)
  }

  /** The constructor a special endpoint of type `t` at index `x` selects; anything else builds a veth link. */
  function Route(c: Constructors, t: LinkType, lc: LinkConfig, x: int): Result<RawLink, Error> {
    match t
    case MacVLan => MacVLanFrom(c, lc, x)
    case MgmtNet => MgmtNetFrom(c, lc, x)
    case Host => HostFrom(c, lc, x)
    case _ => VEthFrom(c, lc)
  }

  /** Each special type goes to its own constructor with the endpoint index, any other type to the veth constructor. */
  lemma RouteSpec(c: Constructors, t: LinkType, lc: LinkConfig, x: int)
    ensures t == MacVLan ==> Route(c, t, lc, x) == MacVLanFrom(c, lc, x)
    ensures t == MgmtNet ==> Route(c, t, lc, x) == MgmtNetFrom(c, lc, x)
    ensures t == Host ==> Route(c, t, lc, x) == HostFrom(c, lc, x)
    ensures t !in {MacVLan, MgmtNet, Host} ==> Route(c, t, lc, x) == VEthFrom(c, lc)
  {
  }

  /** A link `Route` builds is always of the selected type, or veth for a type that is not special. */
  lemma RouteType(c: Constructors, t: LinkType, lc: LinkConfig, x: int)
    ensures Route(c, t, lc, x).Ok? ==>
      VariantType(Route(c, t, lc, x).value) == if t in {MacVLan, MgmtNet, Host} then t else VEth
  {
  }
}
