/**
 * genRandomIfName: a temporary interface name made of the prefix "clab-"
 * and the first eight characters of a random UUID's text form. The UUID
 * source is random, so its text is a parameter here.
 */
module IfNames {

  const Prefix: string := "clab-"

  /** The longest interface name Linux accepts (IFNAMSIZ is 16, counting the terminating NUL). */
  const MaxIfNameLen: nat := 15

  predicate IsLowerHex(c: char) {
    '0' <= c <= '9' || 'a' <= c <= 'f'
  }

  /**
   * The text form of a UUID as uuid.UUID.MarshalText writes it (RFC 4122,
   * section 3): 36 characters, lower-case hexadecimal digits in groups of
   * 8-4-4-4-12 separated by hyphens.
   */
  predicate IsUuidText(u: string) {
    |u| == 36
    && (forall i :: 0 <= i < 36 && i in {8, 13, 18, 23} ==> u[i] == '-')
    && (forall i :: 0 <= i < 36 && i !in {8, 13, 18, 23} ==> IsLowerHex(u[i]))
  }

  /** What Linux accepts as an interface name (dev_valid_name): 1 to 15 characters, not "." or "..", no '/', ':' or white space. */
  predicate IsValidIfName(n: string) {
    0 < |n| <= MaxIfNameLen && n != "." && n != ".."
    && forall i :: 0 <= i < |n| ==> n[i] != '/' && n[i] != ':' && n[i] != ' ' && !('\t' <= n[i] <= '\r')
  }

  /** genRandomIfName: "clab-" followed by the first 8 characters of the UUID text; never fails. */
  function GenRandomIfName(uuidText: string): (name: string)
    requires |uuidText| >= 8
    ensures |name| == |Prefix| + 8
    ensures name[..|Prefix|] == Prefix && name[|Prefix|..] == uuidText[..8]
  {
    Prefix + uuidText[..8]
  }

  /** Two names coincide exactly when the UUIDs agree on their first eight characters. */
  lemma {:induction false} IfNameInjective(u: string, v: string)
    requires |u| >= 8 && |v| >= 8
    ensures GenRandomIfName(u) == GenRandomIfName(v) <==> u[..8] == v[..8]
  {
    if GenRandomIfName(u) == GenRandomIfName(v) {
      assert u[..8] == GenRandomIfName(u)[|Prefix|..];
    }
  }

  /** A name made from a well-formed UUID is a valid Linux interface name whose suffix is 8 hex digits. */
  lemma {:induction false} IfNameIsValid(u: string)
    requires IsUuidText(u)
    ensures IsValidIfName(GenRandomIfName(u))
    ensures forall i :: |Prefix| <= i < |Prefix| + 8 ==> IsLowerHex(GenRandomIfName(u)[i])
  {
    var n := GenRandomIfName(u);
    forall i | |Prefix| <= i < |Prefix| + 8 ensures IsLowerHex(n[i]) {
      assert n[i] == u[i - |Prefix|];
      assert i - |Prefix| !in {8, 13, 18, 23};
    }
    forall i | 0 <= i < |n| ensures n[i] != '/' && n[i] != ':' && n[i] != ' ' && !('\t' <= n[i] <= '\r') {
      if i < |Prefix| {
        assert n[i] == Prefix[i];
      }
    }
  }
}
