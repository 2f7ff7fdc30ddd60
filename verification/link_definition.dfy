/**
 * LinkDefinition and its YAML decoding. The decoder reads the entry twice:
 * first only its `type` field, then the whole entry in the shape of the
 * variant that field selects, or, when it is empty, in the brief shape whose
 * variant is inferred from the endpoints.
 */
module LinkDecoding {
  import opened Wrappers
  import opened GoStrings
  import opened LinkTypes
  import opened RawLinks
  import opened BriefLinks

  /**
   * The `unmarshal` callback for one link entry, given by what it yields for
   * each target shape. It reads the same document every time, so each shape
   * has one outcome, which may be a decoding error.
   */
  datatype Unmarshal = Unmarshal(
    typeField: Result<string, Error>,   // the first pass: `type`, "" when absent; `endpoints` is read and dropped
    veth: Result<VEthRaw, Error>,
    mgmtNet: Result<MgmtNetRaw, Error>,
    host: Result<HostRaw, Error>,
    macVlan: Result<MacVLanRaw, Error>,
    brief: Result<LinkConfig, Error>)

  /**
   * The link type the first pass selects: brief for an empty `type`,
   * otherwise the parsed type, or the parse error naming the raw string.
   */
  function DeclaredType(raw: string): (r: Result<LinkType, Error>)
    ensures raw == "" ==> r == Ok(Brief)
    ensures raw != "" ==> (r.Ok? <==> Normalize(raw) in Names)
    ensures raw != "" && r.Ok? ==> Name(r.value) == Normalize(raw)
    ensures r.Err? ==> r.error == UnparsableLinkType(raw)
  {
    if raw == "" then Ok(Brief) else ParseLinkType(raw)
  }

  /** The second pass for an explicitly typed link, wrapped as the variant it decodes, which is always of type `t`. */
  function VariantPass(u: Unmarshal, t: LinkType): (r: Result<RawLink, Error>)
    requires t != Brief
    ensures r.Ok? ==> VariantType(r.value) == t
  {
    match t
    case VEth => (match u.veth case Ok(v) => Ok(VEthLink(v)) case Err(e) => Err(e))
    case MgmtNet => (match u.mgmtNet case Ok(v) => Ok(MgmtNetLink(v)) case Err(e) => Err(e))
    case Host => (match u.host case Ok(v) => Ok(HostLink(v)) case Err(e) => Err(e))
    case MacVLan => (match u.macVlan case Ok(v) => Ok(MacVLanLink(v)) case Err(e) => Err(e))
  }

  /** A link definition entry of the topology file. `Link` is None while no variant is stored (Go's nil). */
  class LinkDefinition {
    var Type: string
    var Link: Option<RawLink>

    /** The zero value the YAML decoder fills. */
    constructor ()
      ensures Type == "" && Link == None
    {
      Type := "";
      Link := None;
    }

    /**
     * The state a successful decode leaves: a variant is stored and `Type`
     * parses; either to that variant's link type, or to brief, in which case
     * `Type` is exactly "brief" whatever variant the endpoints selected.
     */
    predicate Decoded()
      reads this
    {
      Link.Some? && ParseLinkType(Type).Ok?
      && (ParseLinkType(Type).value == Brief ==> Type == "brief")
      && (ParseLinkType(Type).value != Brief ==> VariantType(Link.value) == ParseLinkType(Type).value)
    }

    /**
     * UnmarshalYAML. `Type` is written before the type is parsed, so an
     * explicit type is kept as written (untrimmed, any case) and stays
     * written when parsing fails; brief links get "brief". `Link` is written
     * only by a successful second pass, or by the brief conversion, which
     * leaves nil behind when it fails. The brief conversion used is the
     * corrected one, which reads the variant off the endpoint tokens.
     */
    method UnmarshalYAML(unmarshal: Unmarshal, c: Constructors) returns (err: Option<Error>)
      modifies this
      // the first pass fails: nothing is written
      ensures unmarshal.typeField.Err? ==>
        err == Some(unmarshal.typeField.error) && Type == old(Type) && Link == old(Link)
      // an unknown type fails before the second pass, with the raw string already in Type
      ensures unmarshal.typeField.Ok? && DeclaredType(unmarshal.typeField.value).Err? ==>
        err == Some(UnparsableLinkType(unmarshal.typeField.value))
        && Type == unmarshal.typeField.value && Link == old(Link)
      // an explicit variant: Type keeps the raw string, the second pass decides Link
      ensures (unmarshal.typeField.Ok? && DeclaredType(unmarshal.typeField.value).Ok?
        && DeclaredType(unmarshal.typeField.value).value != Brief) ==>
        var pass := VariantPass(unmarshal, DeclaredType(unmarshal.typeField.value).value);
        Type == unmarshal.typeField.value
        && (pass.Err? ==> err == Some(pass.error) && Link == old(Link))
        && (pass.Ok? ==> err == None && Link == Some(pass.value))
      // brief, second pass fails: Type is "brief" only if `type` was empty
      ensures (unmarshal.typeField.Ok? && DeclaredType(unmarshal.typeField.value) == Ok(Brief)
        && unmarshal.brief.Err?) ==>
        err == Some(unmarshal.brief.error) && Link == old(Link)
        && Type == (if unmarshal.typeField.value == "" then "brief" else unmarshal.typeField.value)
      // brief, second pass succeeds: Type is "brief" and Link is the variant the endpoints denote
      ensures (unmarshal.typeField.Ok? && DeclaredType(unmarshal.typeField.value) == Ok(Brief)
        && unmarshal.brief.Ok?) ==>
        var lc := unmarshal.brief.value;
        var v := InferredLink(lc, c);
        Type == "brief"
        && (|lc.endpoints| != 2 ==> err == Some(EndpointCount(|lc.endpoints|)) && Link == None)
        && (v.Ok? ==> err == None && Link == Some(v.value))
        && (v.Err? ==> err == Some(v.error) && Link == None)
      ensures err.None? ==> Decoded()
    {
      var a := unmarshal.typeField;
      if a.Err? {
        return Some(a.error);
      }

      var lt: LinkType;
      // if no type is specified, the brief notation is used
      if a.value == "" {
        lt := Brief;
        Type := Name(Brief);
      } else {
        Type := a.value;
        var parsed := ParseLinkType(a.value);
        if parsed.Err? {
          return Some(parsed.error);
        }
        lt := parsed.value;
      }

      match lt {
        case VEth =>
          var l := unmarshal.veth;
          if l.Err? {
            return Some(l.error);
          }
          Link := Some(VEthLink(l.value));
        case MgmtNet =>
          var l := unmarshal.mgmtNet;
          if l.Err? {
            return Some(l.error);
          }
          Link := Some(MgmtNetLink(l.value));
        case Host =>
          var l := unmarshal.host;
          if l.Err? {
            return Some(l.error);
          }
          Link := Some(HostLink(l.value));
        case MacVLan =>
          var l := unmarshal.macVlan;
          if l.Err? {
            return Some(l.error);
          }
          Link := Some(MacVLanLink(l.value));
        case Brief =>
          var l := unmarshal.brief;
          if l.Err? {
            return Some(l.error);
          }
          Type := Name(Brief);
          ParseName(Brief);
          // the conversion with its marker test corrected (see BriefLinkConversion)
          var converted := BriefLinkConversionCorrected(l.value, c);
          Link := if converted.Ok? then Some(converted.value) else None;
          if converted.Err? {
            return Some(converted.error);
          }
      }
      err := None;
    }
  }

  /** An explicit type is matched after trimming and lower-casing: " VETH " selects veth (and is stored as " VETH "). */
  lemma PaddedUpperCaseVEth()
    ensures DeclaredType(" VETH ") == Ok(VEth)
  {
    UpperVEthLowers();
    ParseName(VEth);
    ParseIgnoresCase("VETH");
    assert ParseLinkType("VETH") == Ok(VEth);
    PaddedVEth();
    ParseIgnoresPadding(" ", "VETH", " ");
  }

  lemma UpperVEthLowers() ensures ToLower("VETH") == "veth" {}
  lemma PaddedVEth() ensures " VETH " == " " + "VETH" + " " && AllSpace(" ") {}

  /** A type of only white space is not empty, so it does not select brief: it fails to parse. */
  lemma BlankTypeFails(raw: string)
    requires raw != [] && AllSpace(raw)
    ensures DeclaredType(raw) == Err(UnparsableLinkType(raw))
  {
    ParseBlankFails(raw);
  }
}
