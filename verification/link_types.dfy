/**
 * The closed set of link types, the errors the link layer reports, and
 * `parseLinkType`, which classifies a user-supplied type string.
 */
module LinkTypes {
  import opened Wrappers
  import opened GoStrings

  /** One constructor per error message the link layer formats or passes on. */
  datatype Error =
    | Decode(detail: string)              // reported by the YAML decoder and returned unchanged
    | UnparsableLinkType(input: string)   // "unable to parse %q as LinkType", quoting the raw input
    | EndpointCount(provided: nat)        // "endpoint definition should consist of exactly 2 entries. %d provided"
    | Constructor(detail: string)         // reported by a variant constructor that this model does not contain
    | RenameFailed(cause: string)         // "failed to rename link: %v"
    | Netlink(cause: string)              // a netlink error returned without wrapping
    | SetUpFailed(iface: string, cause: string)  // "failed to set %q up: %v"

  /** LinkType. `Brief` marks a link whose variant is read off its endpoint strings. */
  datatype LinkType = VEth | MgmtNet | MacVLan | Host | Brief

  /** The string constant of each link type. */
  function Name(t: LinkType): string {
    match t
    case VEth => "veth"
    case MgmtNet => "mgmt-net"
    case MacVLan => "macvlan"
    case Host => "host"
    case Brief => "brief"
  }

  /** The five strings that parse as a link type. */
  const Names: set<string> := {"macvlan", "veth", "mgmt-net", "host", "brief"}

  /** The form a type string is compared in: `strings.TrimSpace(strings.ToLower(s))`. */
  function Normalize(s: string): string {
    TrimSpace(ToLower(s))
  }

  /** The normal form is never longer than the input and neither starts nor ends with white space. */
  lemma {:induction false} NormalizeSpec(s: string)
    ensures |Normalize(s)| <= |s|
    ensures var r := Normalize(s); r == [] || (!IsSpace(r[0]) && !IsSpace(r[|r| - 1]))
  {
    ToLowerSpec(s);
    TrimSpaceSpec(ToLower(s));
  }

  /** The normal form holds no ASCII capitals. */
  lemma {:induction false} NormalHasNoCapitals(s: string)
    ensures NoUpper(Normalize(s))
  {
    ToLowerNoUpper(s);
    TrimSpaceNoUpper(ToLower(s));
  }

  /** Normalising twice is normalising once: the normal form has no capitals and no padding left. */
  lemma {:induction false} NormalizeIdempotent(s: string)
    ensures Normalize(Normalize(s)) == Normalize(s)
  {
    var t := Normalize(s);
    NormalizeSpec(s);
    NormalHasNoCapitals(s);
    ToLowerOfLower(t);
    TrimSpaceOfTrimmed(t);
  }

  /** The link type whose constant is exactly `n`, if any. */
  function NamedLinkType(n: string): (r: Option<LinkType>)
    ensures r.Some? <==> n in Names
    ensures r.Some? ==> Name(r.value) == n
  {
    if n == "macvlan" then Some(MacVLan)
    else if n == "veth" then Some(VEth)
    else if n == "mgmt-net" then Some(MgmtNet)
    else if n == "host" then Some(Host)
    else if n == "brief" then Some(Brief)
    else None
  }

  /**
   * parseLinkType: succeeds exactly when the normalised input is one of the
   * five constants, and then yields the type with that constant; every other
   * input is an error that quotes the input as given.
   */
  function ParseLinkType(s: string): (r: Result<LinkType, Error>)
    ensures r.Ok? <==> Normalize(s) in Names
    ensures r.Ok? ==> Name(r.value) == Normalize(s)
    ensures r.Err? ==> r.error == UnparsableLinkType(s)
  {
    match NamedLinkType(Normalize(s))
    case Some(t) => Ok(t)
    case None => Err(UnparsableLinkType(s))
  }

  /** Every link type has a distinct name, and the names are exactly `Names`. */
  lemma NameBijective(a: LinkType, b: LinkType)
    ensures Name(a) in Names
    ensures Name(a) == Name(b) ==> a == b
    ensures forall n :: n in Names ==> exists t :: Name(t) == n
  {
    forall n | n in Names ensures exists t :: Name(t) == n {
      if n == "macvlan" {
        assert Name(MacVLan) == n;
      } else if n == "veth" {
        assert Name(VEth) == n;
      } else if n == "mgmt-net" {
        assert Name(MgmtNet) == n;
      } else if n == "host" {
        assert Name(Host) == n;
      } else {
        assert Name(Brief) == n;
      }
    }
  }

  /** Each constant parses back to its own link type. */
  lemma {:induction false} ParseName(t: LinkType)
    ensures ParseLinkType(Name(t)) == Ok(t)
  {
    NameIsNormal(t);
    NameBijective(t, ParseLinkType(Name(t)).value);
  }

  /** The constants are already in normal form. */
  lemma NameIsNormal(t: LinkType)
    ensures Normalize(Name(t)) == Name(t)
  {
    match t
    case VEth => VEthIsNormal();
    case MgmtNet => MgmtNetIsNormal();
    case MacVLan => MacVLanIsNormal();
    case Host => HostIsNormal();
    case Brief => BriefIsNormal();
  }

  /** A string without capitals and without white space at its ends is its own normal form. */
  lemma NormalOfLower(s: string)
    requires NoUpper(s) && (s == [] || (!IsSpace(s[0]) && !IsSpace(s[|s| - 1])))
    ensures Normalize(s) == s
  {
    ToLowerOfLower(s);
    TrimSpaceOfTrimmed(s);
  }

  lemma VEthIsNormal() ensures Normalize("veth") == "veth" { NormalOfLower("veth"); }
  lemma MgmtNetIsNormal() ensures Normalize("mgmt-net") == "mgmt-net" { NormalOfLower("mgmt-net"); }
  lemma MacVLanIsNormal() ensures Normalize("macvlan") == "macvlan" { NormalOfLower("macvlan"); }
  lemma HostIsNormal() ensures Normalize("host") == "host" { NormalOfLower("host"); }
  lemma BriefIsNormal() ensures Normalize("brief") == "brief" { NormalOfLower("brief"); }

  /** Surrounding white space never changes the outcome of parsing (only the quoted input of the error). */
  lemma {:induction false} ParseIgnoresPadding(p: string, s: string, q: string)
    requires AllSpace(p) && AllSpace(q)
    ensures ParseLinkType(p + s + q).Ok? == ParseLinkType(s).Ok?
    ensures ParseLinkType(s).Ok? ==> ParseLinkType(p + s + q) == ParseLinkType(s)
  {
    ToLowerAppend(p + s, q);
    ToLowerAppend(p, s);
    ToLowerAllSpace(p);
    ToLowerAllSpace(q);
    TrimSpacePadded(p, ToLower(s), q);
    assert Normalize(p + s + q) == Normalize(s);
    if ParseLinkType(s).Ok? {
      NameBijective(ParseLinkType(s).value, ParseLinkType(p + s + q).value);
    }
  }

  /** Parsing is case-insensitive on ASCII letters. */
  lemma {:induction false} ParseIgnoresCase(s: string)
    ensures ParseLinkType(ToLower(s)).Ok? == ParseLinkType(s).Ok?
    ensures ParseLinkType(s).Ok? ==> ParseLinkType(ToLower(s)) == ParseLinkType(s)
  {
    ToLowerIdempotent(s);
    if ParseLinkType(s).Ok? {
      NameBijective(ParseLinkType(s).value, ParseLinkType(ToLower(s)).value);
    }
  }

  /** A type string made only of white space (the empty one included) is not a link type. */
  lemma {:induction false} ParseBlankFails(s: string)
    requires AllSpace(s)
    ensures ParseLinkType(s) == Err(UnparsableLinkType(s))
  {
    ToLowerAllSpace(s);
    TrimSpaceSpec(s);
  }
}
