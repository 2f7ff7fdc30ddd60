/**
 * The brief notation: a link given only by its two endpoint strings, whose
 * variant is to be read off the endpoint tokens (`host:eth1`, `macvlan:enp0s3`,
 * `mgmt-net:eth2`), and the split of such a link into its special and its
 * ordinary endpoint.
 */
module BriefLinks {
  import opened Wrappers
  import opened GoStrings
  import opened LinkTypes
  import opened RawLinks

  /** The leading token of an endpoint: the text before its first colon, or the whole string. */
  function Token(ep: string): (tok: string)
    ensures ':' !in tok
    ensures ':' in ep ==> |tok| < |ep| && tok + [':'] + ep[|tok| + 1..] == ep
    ensures ':' !in ep ==> tok == ep
  {
    var parts := SplitFirst(ep, ':');
    if |parts| == 2 then
      assert ep[..|parts[0]|] == parts[0] && ep[|parts[0]| + 1..] == parts[1] by {
        assert ep == parts[0] + [':'] + parts[1];
      }
      parts[0]
    else parts[0]
  }

  /** The link types an endpoint token may name to mark its endpoint as special. */
  const SpecialTypes: set<LinkType> := {MacVLan, MgmtNet, Host}

  /**
   * The special role an endpoint names: the type its token parses to, when that is a special type.
   */
  function Marker(ep: string): Option<LinkType> {
    var parsed := ParseLinkType(Token(ep));
    if parsed.Ok? && parsed.value in SpecialTypes then Some(parsed.value) else None
  }

  /** An endpoint is special exactly when its normalised token is `macvlan`, `mgmt-net` or `host`, and its role is the type of that name. */
  lemma MarkerSpec(ep: string)
    ensures Marker(ep).Some? <==> Normalize(Token(ep)) in {"macvlan", "mgmt-net", "host"}
    ensures Marker(ep).Some? ==> Marker(ep).value in SpecialTypes && Name(Marker(ep).value) == Normalize(Token(ep))
  {
    var n := Normalize(Token(ep));
    var parsed := ParseLinkType(Token(ep));
    if parsed.Ok? {
      assert Name(parsed.value) == n;
      match parsed.value
      case VEth => assert n == "veth";
      case Brief => assert n == "brief";
      case _ =>
    } else {
      assert n !in Names;
    }
  }

  /**
   * briefLinkConversion as the source writes it. The `err == nil` test sends
   * every recognised token to `continue`, and a token that does not parse
   * leaves the empty link type, which no case matches; so two endpoints
   * always end in the veth constructor, whatever their tokens.
   */
  method BriefLinkConversion(lc: LinkConfig, c: Constructors) returns (r: Result<RawLink, Error>)
    ensures |lc.endpoints| != 2 ==> r == Err(EndpointCount(|lc.endpoints|))
    ensures |lc.endpoints| == 2 ==> r == VEthFrom(c, lc)
  {
    if |lc.endpoints| != 2 {
      return Err(EndpointCount(|lc.endpoints|));
    }
    for x := 0 to |lc.endpoints| {
      var parts := SplitFirst(lc.endpoints[x], ':');
      var node := parts[0];
      var parsed := ParseLinkType(node);
      // parseLinkType returns the empty LinkType alongside its error
      var lt := if parsed.Ok? then Name(parsed.value) else "";
      if parsed.Ok? {
        continue;
      }
      if lt == Name(MacVLan) {
        return Route(c, MacVLan, lc, x);
      } else if lt == Name(MgmtNet) {
        return Route(c, MgmtNet, lc, x);
      } else if lt == Name(Host) {
        return Route(c, Host, lc, x);
      }
    }
    r := VEthFrom(c, lc);
  }

  /**
   * The variant a brief link denotes: the first endpoint (index 0 before
   * index 1) whose token names a special role selects that role's
   * constructor with its index; with no such endpoint it is a veth link.
   */
  function InferredLink(lc: LinkConfig, c: Constructors): (r: Result<RawLink, Error>)
    ensures |lc.endpoints| != 2 ==> r == Err(EndpointCount(|lc.endpoints|))
  {
    if |lc.endpoints| != 2 then Err(EndpointCount(|lc.endpoints|))
    else if Marker(lc.endpoints[0]).Some? then Route(c, Marker(lc.endpoints[0]).value, lc, 0)
    else if Marker(lc.endpoints[1]).Some? then Route(c, Marker(lc.endpoints[1]).value, lc, 1)
    else VEthFrom(c, lc)
  }

  /**
   * The link the intended conversion builds is of the type the first marked
   * endpoint names, and a veth link only when neither endpoint is marked.
   */
  lemma InferredLinkType(lc: LinkConfig, c: Constructors)
    requires InferredLink(lc, c).Ok?
    ensures |lc.endpoints| == 2
    ensures var t := VariantType(InferredLink(lc, c).value);
      t != VEth ==> (Marker(lc.endpoints[0]) == Some(t)
        || (Marker(lc.endpoints[0]).None? && Marker(lc.endpoints[1]) == Some(t)))
    ensures VariantType(InferredLink(lc, c).value) == VEth ==>
      Marker(lc.endpoints[0]).None? && Marker(lc.endpoints[1]).None?
  {
    var eps := lc.endpoints;
    if Marker(eps[0]).Some? {
      RouteType(c, Marker(eps[0]).value, lc, 0);
    } else if Marker(eps[1]).Some? {
      RouteType(c, Marker(eps[1]).value, lc, 1);
    }
  }

  /**
   * briefLinkConversion with its test corrected to `err != nil`: tokens that
   * do not parse are skipped, and the first endpoint whose token is a
   * special type routes to that type's constructor.
   */
  method BriefLinkConversionCorrected(lc: LinkConfig, c: Constructors) returns (r: Result<RawLink, Error>)
    ensures r == InferredLink(lc, c)
  {
    if |lc.endpoints| != 2 {
      return Err(EndpointCount(|lc.endpoints|));
    }
    for x := 0 to |lc.endpoints|
      invariant forall k :: 0 <= k < x ==> Marker(lc.endpoints[k]).None?
    {
      var parts := SplitFirst(lc.endpoints[x], ':');
      var node := parts[0];
      var parsed := ParseLinkType(node);
      MarkerOfToken(lc.endpoints[x], parsed);
      if parsed.Err? {
        continue;
      }
      match parsed.value {
        case MacVLan =>
          FirstMarkerWins(lc, c, x, MacVLan);
          return Route(c, MacVLan, lc, x);
        case MgmtNet =>
          FirstMarkerWins(lc, c, x, MgmtNet);
          return Route(c, MgmtNet, lc, x);
        case Host =>
          FirstMarkerWins(lc, c, x, Host);
          return Route(c, Host, lc, x);
        case _ =>
      }
    }
    InferredWithoutMarkers(lc, c);
    r := VEthFrom(c, lc);
  }

  lemma MarkerOfToken(ep: string, parsed: Result<LinkType, Error>)
    requires parsed == ParseLinkType(SplitFirst(ep, ':')[0])
    ensures Marker(ep) == if parsed.Ok? && parsed.value in SpecialTypes then Some(parsed.value) else None
  {
    assert Token(ep) == SplitFirst(ep, ':')[0];
  }

  /** The first endpoint with a special token decides the variant, and passes its own index. */
  lemma FirstMarkerWins(lc: LinkConfig, c: Constructors, x: int, t: LinkType)
    requires |lc.endpoints| == 2 && 0 <= x < 2
    requires forall k :: 0 <= k < x ==> Marker(lc.endpoints[k]).None?
    requires Marker(lc.endpoints[x]) == Some(t)
    ensures InferredLink(lc, c) == Route(c, t, lc, x)
  {
    if x == 1 {
      assert Marker(lc.endpoints[0]).None?;
    }
  }

  /** Without special tokens the source's conversion and the intended one agree. */
  lemma InferredWithoutMarkers(lc: LinkConfig, c: Constructors)
    requires |lc.endpoints| == 2
    requires Marker(lc.endpoints[0]).None? && Marker(lc.endpoints[1]).None?
    ensures InferredLink(lc, c) == VEthFrom(c, lc)
  {
  }

  /**
   * With a special token the two differ: when endpoint 0 names the host and
   * the host constructor succeeds, the intended conversion builds a host link
   * for endpoint 0, which the veth constructor's result (all the source's
   * conversion can return) never is. `HostEndpointMarker` gives such an input.
   */
  lemma HostTokenIgnoredAsWritten(lc: LinkConfig, c: Constructors)
    requires |lc.endpoints| == 2 && Marker(lc.endpoints[0]) == Some(Host)
    requires c.host(lc, 0).Ok?
    ensures InferredLink(lc, c) == HostFrom(c, lc, 0)
    ensures InferredLink(lc, c) != VEthFrom(c, lc)
  {
    FirstMarkerWins(lc, c, 0, Host);
  }

  /** The concrete input: `["host:eth0", "node-a:eth1"]` is a host link, which the source turns into a veth link. */
  lemma HostPairAsWritten(lc: LinkConfig, c: Constructors)
    requires lc.endpoints == ["host:eth0", "node-a:eth1"]
    requires c.host(lc, 0).Ok?
    ensures InferredLink(lc, c) == HostFrom(c, lc, 0)
    ensures InferredLink(lc, c) != VEthFrom(c, lc)
  {
    HostEndpointMarker();
    HostTokenIgnoredAsWritten(lc, c);
  }

  /** The token of `a:b` is `a` when `a` has no colon. */
  lemma TokenOfJoined(a: string, b: string)
    requires ':' !in a
    ensures Token(a + ":" + b) == a
  {
    var ep := a + ":" + b;
    assert ep[|a|] == ':';
    var tok := Token(ep);
    SplitUnique(a, b, tok, ep[|tok| + 1..]);
  }

  /** `host:eth0` marks its endpoint as the host side. */
  lemma HostEndpointMarker()
    ensures Marker("host:eth0") == Some(Host)
  {
    assert "host:eth0" == "host" + ":" + "eth0";
    TokenOfJoined("host", "eth0");
    ParseName(Host);
  }

  lemma NodeAIsNormal() ensures Normalize("node-a") == "node-a" { NormalOfLower("node-a"); }
  lemma NodeBIsNormal() ensures Normalize("node-b") == "node-b" { NormalOfLower("node-b"); }

  /** `node-a:eth1` names an ordinary node. */
  lemma NodeAEndpointUnmarked()
    ensures Marker("node-a:eth1").None?
  {
    assert "node-a:eth1" == "node-a" + ":" + "eth1";
    TokenOfJoined("node-a", "eth1");
    NodeAIsNormal();
  }

  /** `node-b:eth1` names an ordinary node. */
  lemma NodeBEndpointUnmarked()
    ensures Marker("node-b:eth1").None?
  {
    assert "node-b:eth1" == "node-b" + ":" + "eth1";
    TokenOfJoined("node-b", "eth1");
    NodeBIsNormal();
  }

  /** `["node-a:eth1", "node-b:eth1"]` is a veth link. */
  lemma PlainPairIsVEth(lc: LinkConfig, c: Constructors)
    requires lc.endpoints == ["node-a:eth1", "node-b:eth1"]
    ensures InferredLink(lc, c) == VEthFrom(c, lc)
  {
    NodeAEndpointUnmarked();
    NodeBEndpointUnmarked();
    InferredWithoutMarkers(lc, c);
  }

  // ---------------------------------------------------------------------
  // extractHostNodeInterfaceData
  // ---------------------------------------------------------------------

  /** The index of the ordinary endpoint, `(special + 1) % 2`: the other one of the pair. */
  function NodeIndex(special: int): (k: int)
    requires 0 <= special
    ensures 0 <= k < 2
    ensures special < 2 ==> k == 1 - special && k != special
  {
    (special + 1) % 2
  }

  /** The four fields of a link with one special endpoint. */
  datatype HostNodeData = HostNodeData(host: string, hostIf: string, node: string, nodeIf: string)

  /**
   * extractHostNodeInterfaceData: splits the special endpoint and the other
   * one on their first colon. Both must exist and hold a colon, or the Go
   * code indexes out of range.
   */
  function ExtractHostNodeInterfaceData(lc: LinkConfig, specialEPIndex: int): (d: HostNodeData)
    requires 0 <= specialEPIndex < |lc.endpoints| && NodeIndex(specialEPIndex) < |lc.endpoints|
    requires ':' in lc.endpoints[specialEPIndex] && ':' in lc.endpoints[NodeIndex(specialEPIndex)]
    ensures d.host + ":" + d.hostIf == lc.endpoints[specialEPIndex] && ':' !in d.host
    ensures d.node + ":" + d.nodeIf == lc.endpoints[NodeIndex(specialEPIndex)] && ':' !in d.node
  {
    var hostData := SplitFirst(lc.endpoints[specialEPIndex], ':');
    var nodeData := SplitFirst(lc.endpoints[NodeIndex(specialEPIndex)], ':');
    HostNodeData(hostData[0], hostData[1], nodeData[0], nodeData[1])
  }

  /** For `a:b` and `c:d` with colon-free heads and special index 0, the fields are a, b, c and d. */
  lemma ExtractJoined(lc: LinkConfig, a: string, b: string, c: string, d: string)
    requires lc.endpoints == [a + ":" + b, c + ":" + d]
    requires ':' !in a && ':' !in c
    ensures ExtractHostNodeInterfaceData(lc, 0) == HostNodeData(a, b, c, d)
  {
    assert (a + ":" + b)[|a|] == ':' && (c + ":" + d)[|c|] == ':';
    var r := ExtractHostNodeInterfaceData(lc, 0);
    SplitUnique(a, b, r.host, r.hostIf);
    SplitUnique(c, d, r.node, r.nodeIf);
  }

  /** The host example: endpoint 0 is the host side, endpoint 1 the node side. */
  lemma HostExampleFields(lc: LinkConfig)
    requires lc.endpoints == ["host:eth0", "node-a:eth1"]
    ensures ExtractHostNodeInterfaceData(lc, 0) == HostNodeData("host", "eth0", "node-a", "eth1")
  {
    assert "host:eth0" == "host" + ":" + "eth0";
    assert "node-a:eth1" == "node-a" + ":" + "eth1";
    ExtractJoined(lc, "host", "eth0", "node-a", "eth1");
  }

  /** Splitting on the first colon is unambiguous: a colon-free head determines head and tail. */
  lemma {:induction false} SplitUnique(a: string, b: string, a': string, b': string)
    requires ':' !in a && ':' !in a'
    requires a + ":" + b == a' + ":" + b'
    ensures a == a' && b == b'
  {
    var s := a + ":" + b;
    assert s[|a|] == ':' && s[|a'|] == ':';
    assert a == s[..|a|] && a' == s[..|a'|];
    assert b == s[|a| + 1..] && b' == s[|a'| + 1..];
  }
}
