# Link definitions of a container-network topology (types/link.go)

This project models the link layer of containerlab in Dafny. A topology file lists links. Each entry is a
`LinkDefinition`: a `type` tag and one of four raw link variants (veth, mgmt-net, host, macvlan).
An entry without a `type` uses the *brief* notation: two endpoint strings `token:interface`, from which
the variant is meant to be inferred.

The model covers:

- `parseLinkType`: Go's `strings.TrimSpace(strings.ToLower(s))` followed by a match against the five constants.
- `LinkDefinition.UnmarshalYAML`: a class whose `Type` and `Link` fields are written in the source's order.
  - The YAML `unmarshal` callback is a record holding one possibly failing outcome per target shape.
- `briefLinkConversion`:
  - modelled as written;
  - as it is evidently intended, proved against a reference definition (see Findings).
- `extractHostNodeInterfaceData`.
- `genRandomIfName`: the UUID text is a parameter.
- The unit of work returned by `SetNameMACAndUpInterface`: each netlink call's outcome comes from an oracle, and the method returns the calls it attempted.

Modules:

| module | file | what it holds |
|---|---|---|
| `Wrappers` | `wrappers.dfy` | `Option`, `Result` |
| `GoStrings` | `go_strings.dfy` | The Go string functions the core calls: `TrimSpace` with Unicode white space, ASCII `ToLower`, and `SplitN(s, ":", 2)`. |
| `LinkTypes` | `link_types.dfy` | Link types, error values and `parseLinkType`. |
| `RawLinks` | `raw_links.dfy` | `LinkConfig` and the raw variants. The variant constructors are abstract. |
| `BriefLinks` | `brief_links.dfy` | Brief-notation conversion and `extractHostNodeInterfaceData`. |
| `LinkDecoding` | `link_definition.dfy` | The `LinkDefinition` class and `UnmarshalYAML`. |
| `IfNames` | `if_names.dfy` | `genRandomIfName` |
| `NetnsSetup` | `netns_setup.dfy` | `SetNameMACAndUpInterface` |

Behaviour of the code that the model keeps, and the one place where it departs from it:

- **Type is kept raw.** An explicit `type` is stored exactly as written, before it is parsed (types/link.go:85).
  - `" VETH "` is accepted and stored untrimmed, in upper case.
  - It also stays stored when parsing fails (types/link.go:87-89).
- **`type: brief` is accepted.** An explicit `type: brief` is a valid tag (types/link.go:53-54). It leads to the brief path just like an absent type.
- **A brief link's Type does not name its variant.** A brief decode overwrites `Type` with `"brief"` (types/link.go:148), whatever variant `Link` then holds.
  - `LinkDecoding.LinkDefinition.Decoded` states the invariant that does hold.
- **Brief inference never happens in the code.** The comment at types/link.go:36-38 says a brief link encodes its link type in the endpoint strings, and the switch at types/link.go:175-182 routes `macvlan`, `mgmt-net` and `host` tokens to their constructors. The inverted test at types/link.go:171 makes every case of that switch unreachable: the switch runs only for tokens that fail to parse, when `lt` is `""` (see Findings).
  - The conversion as written is modelled on its own (`BriefLinks.BriefLinkConversion`), with the input that shows the defect.
  - **Departure:** the decoder's brief path calls the corrected conversion, not the one at types/link.go:150 (see "## Left out").
  - When both endpoints carry a marker, the corrected conversion prefers index 0, as the loop order implies.

## Model

| member | source | states |
|---|---|---|
| `LinkTypes.NormalizeSpec` | types/link.go:44 | The switch compares `Normalize(s)`, that is `TrimSpace(ToLower(s))`. The normal form is never longer than the input and neither starts nor ends with white space. |
| `LinkTypes.NormalizeIdempotent` | types/link.go:44 | Normalising an already normalised string changes nothing. |
| `LinkTypes.NamedLinkType` | types/link.go:44-54 | The switch arms. A string maps to a link type exactly when it is one of the five constants, and then to the type with that constant. |
| `LinkTypes.ParseLinkType` | types/link.go:43-57 | Parsing succeeds exactly when `TrimSpace(ToLower(s))` is one of the five constants. The result's constant is that normalised string. Any other input fails with an error quoting the input as given. |
| `LinkTypes.NameBijective` | types/link.go:30-40 | The five constants are distinct, and they are exactly the recognised names. |
| `LinkTypes.ParseName` | types/link.go:43-57 | Each constant parses back to its own link type. This is the round trip between the constant and the parser. |
| `LinkTypes.NameIsNormal` | types/link.go:30-40 | Every constant is already lower-case and trimmed. |
| `LinkTypes.ParseIgnoresPadding` | types/link.go:44 | Surrounding white space never changes whether or to what a string parses. |
| `LinkTypes.ParseIgnoresCase` | types/link.go:44 | ASCII lower-casing never changes whether or to what a string parses. |
| `LinkTypes.ParseBlankFails` | types/link.go:55-56 | A string of white space only, the empty one included, is rejected with the error quoting it. |
| `GoStrings.TrimSpaceSpec` | types/link.go:44 | `TrimSpace(s)` is a contiguous slice of `s`. It has only white space on either side of it and does not itself start or end with white space. |
| `GoStrings.ToLowerSpec` | types/link.go:44 | `ToLower` keeps the length and maps each character on its own, changing exactly the ASCII capitals. |
| `GoStrings.TrimSpacePadded` | types/link.go:44 | Trimming ignores any white-space padding added around a string. |
| `GoStrings.ToLowerIdempotent` | types/link.go:44 | Lower-casing twice is lower-casing once. |
| `GoStrings.IndexByte` | types/link.go:167 | Returns -1 exactly when the separator is absent; otherwise returns its first position. |
| `GoStrings.SplitFirst` | types/link.go:167 | `SplitN(s, ":", 2)` gives one part, `s` itself, exactly when `s` has no colon. Otherwise it gives a colon-free head and a tail that rejoin to `s` around the colon. |
| `RawLinks.RouteSpec` | types/link.go:175-184 | `macvlan`, `mgmt-net` and `host` go to their own constructor with the endpoint index; any other type goes to the veth constructor. |
| `RawLinks.RouteType` | types/link.go:175-184 | A link the switch builds is of the selected type (veth for a type that is not special). |
| `RawLinks.VariantType` | types/link.go:94-135 | Each stored variant stands for one of the four concrete link types, never for `brief`. |
| `BriefLinks.Token` | types/link.go:167-168 | The endpoint token is colon-free. With a colon it is the text before the first colon. Without one it is the whole endpoint. |
| `BriefLinks.MarkerSpec` | types/link.go:167-182 | An endpoint is special exactly when its normalised token is `macvlan`, `mgmt-net` or `host`, and its role is the type with that name. |
| `BriefLinks.InferredLink` | types/link.go:163-165 | The intended conversion, used as the reference for the corrected loop. A count other than 2 fails with the count. |
| `BriefLinks.InferredLinkType` | types/link.go:166-184 | A link the intended conversion builds needs two endpoints. A non-veth result is of the type endpoint 0 names, or of the type endpoint 1 names when endpoint 0 names none. A veth result means neither endpoint is special. |
| `BriefLinks.BriefLinkConversion` | types/link.go:161-185 | As written: a count other than 2 fails with the count. With 2 endpoints the result is always the veth constructor's, whatever the tokens. |
| `BriefLinks.BriefLinkConversionCorrected` | types/link.go:161-185 | With the test read as `err != nil`, the result equals `InferredLink`. |
| `BriefLinks.MarkerOfToken` | types/link.go:167-170 | The loop's parse of `SplitN(v, ":", 2)[0]` decides the endpoint's special role. |
| `BriefLinks.FirstMarkerWins` | types/link.go:166-183 | The first endpoint with a special token selects that role's constructor, called with its own index. With two markers, index 0 wins. |
| `BriefLinks.InferredWithoutMarkers` | types/link.go:184 | With no special token on either endpoint, the link is the veth constructor's. |
| `BriefLinks.HostTokenIgnoredAsWritten` | types/link.go:170-173 | If endpoint 0 names the host and the host constructor succeeds, the intended result is a host link at index 0. That result differs from the veth result the code returns. |
| `BriefLinks.HostPairAsWritten` | types/link.go:170-173 | On `["host:eth0", "node-a:eth1"]` the intended result is the host link. That differs from what the code returns. |
| `BriefLinks.TokenOfJoined` | types/link.go:167-168 | The token of `a:b` is `a` when `a` is colon-free. |
| `BriefLinks.HostEndpointMarker` | types/link.go:167-181 | `host:eth0` marks the host side. |
| `BriefLinks.PlainPairIsVEth` | types/link.go:184 | `["node-a:eth1", "node-b:eth1"]` denotes a veth link. |
| `BriefLinks.NodeIndex` | types/link.go:197-198 | `(i + 1) % 2` is 0 or 1. For a special index within the pair, it is the other endpoint. |
| `BriefLinks.ExtractHostNodeInterfaceData` | types/link.go:196-209 | The host pair rejoins around a colon to the special endpoint, with a colon-free host. The node pair does the same with the other endpoint. The requires is exactly what the Go indexing demands. |
| `BriefLinks.ExtractJoined` | types/link.go:200-206 | For `a:b` and `c:d` with colon-free heads, the fields are a, b, c and d. |
| `BriefLinks.HostExampleFields` | types/link.go:196-209 | `["host:eth0", "node-a:eth1"]` with special index 0 gives `host`, `eth0`, `node-a` and `eth1`. |
| `BriefLinks.SplitUnique` | types/link.go:200-201 | Splitting on the first colon is unambiguous. |
| `LinkDecoding.DeclaredType` | types/link.go:78-91 | An empty `type` selects brief. Otherwise the result is what `parseLinkType` gives, and an error quotes the raw string. |
| `LinkDecoding.VariantPass` | types/link.go:93-135 | The second pass for an explicit type decodes that type's shape; a variant it yields is of that type. |
| `LinkDecoding.LinkDefinition.constructor` | types/link.go:21-25 | The zero value has an empty `Type` and a nil `Link`. |
| `LinkDecoding.LinkDefinition.UnmarshalYAML` | types/link.go:64-159 | For each outcome of the two passes: the returned error, the final `Type` (raw string, or "brief") and the final `Link` (untouched, the decoded variant, the variant the corrected conversion infers, or nil). On success `Decoded` holds. The cases are listed below. |
| `LinkDecoding.PaddedUpperCaseVEth` | types/link.go:81-91 | `" VETH "` selects veth. By `UnmarshalYAML`'s contract, it is stored untrimmed. |
| `LinkDecoding.BlankTypeFails` | types/link.go:81-91 | A non-empty blank `type` does not select brief; it fails to parse. |
| `IfNames.GenRandomIfName` | types/link.go:211-214 | The name is `clab-` followed by the first eight characters of the UUID text, 13 characters in all. |
| `IfNames.IfNameInjective` | types/link.go:213 | Two names are equal exactly when their UUIDs share the first eight characters. |
| `IfNames.IfNameIsValid` | types/link.go:211-214 | For a well-formed UUID text, the name is a valid Linux interface name (at most 15 characters, no `/`, `:` or white space) and ends in eight hex digits. |
| `NetnsSetup.Plan` | types/link.go:231-251 | The calls are rename first and set-up last. The hardware-address call sits between them exactly when the address has 6 bytes. |
| `NetnsSetup.Report` | types/link.go:233-249 | A rename failure becomes "failed to rename link", an address failure is returned bare, and a set-up failure becomes "failed to set %q up" with the interface name. The cause is always carried unchanged. |
| `NetnsSetup.SetNameMACAndUpInterface` | types/link.go:229-252 | The attempted calls are a prefix of `Plan` that stops at the first failure. The result is success exactly when the whole plan succeeded; otherwise it is the failed call's error, wrapped as the source wraps it. Details below. |
| `NetnsSetup.RunOrder` | types/link.go:231-251 | A run always renames first. It attempts the hardware address only for a 6-byte address. A failed rename ends it. It reaches set-up only after every other planned call. |

`LinkDecoding.LinkDefinition.UnmarshalYAML` states its outcome case by case:

- **The first pass fails:** the error is returned and nothing is written.
- **An unknown type:** it fails with the raw string, which has already been stored in `Type`; `Link` is untouched.
- **An explicit variant:** `Type` keeps the raw string. A successful second pass stores the variant; a failed one leaves `Link` unchanged.
- **Brief, second pass fails:** the error is returned. `Type` is `"brief"` only if `type` was empty.
- **Brief, second pass succeeds:** `Type` is `"brief"`.
  - A wrong endpoint count fails and leaves `Link` nil.
  - Otherwise `Link` is the variant the corrected conversion infers (`BriefLinks.InferredLink`), or nil together with its error.
- **On success:** `Decoded` holds.

`NetnsSetup.SetNameMACAndUpInterface` guarantees:

- The attempted calls are a non-empty prefix of `Plan`.
- Every call before the last one succeeded.
- The result is success exactly when the whole plan ran and its last call succeeded.
- Otherwise the last call failed, and its error is wrapped as the source wraps it:
  - a rename error becomes "failed to rename link";
  - an address error is returned bare;
  - a set-up error becomes "failed to set %q up", with the interface name.

## Left out

- YAML decoding itself: strict field checking, `omitempty` and the `,inline` embedding. The decoder is an abstract callback that gives one outcome per target shape.
- `LinkCommonParams.Vars` (`map[string]interface{}`): Dafny has no untyped values. `Mtu` and `Labels` are kept.
- The contents of `LinkVEthRaw`, `LinkMgmtNetRaw`, `LinkHostRaw` and `LinkMACVLANRaw`, and the four `*FromLinkConfig` constructors: these are not part of this model. They are abstract types and possibly failing function parameters.
- `RawLink.Resolve`, `LinkInterf.Deploy`/`GetType` and `LinkNode.AddLink`: interfaces whose implementations are not part of this model.
- The `default` arm of the decoder's switch (types/link.go:154-155): unreachable, because `LinkType` is a closed datatype and only the five constants parse.
- `LinkDecoding.LinkDefinition.UnmarshalYAML`: the brief path calls the corrected conversion (`BriefLinks.BriefLinkConversionCorrected`), whereas types/link.go:150 calls the one as written. For two endpoints the code stores the veth constructor's result whatever the tokens. For example, `["host:eth0", "node-a:eth1"]` is stored as a veth link where the model stores the host link (`BriefLinks.HostPairAsWritten`).
- `BriefLinks.ExtractHostNodeInterfaceData`: requires both endpoint indices in range and a colon in both endpoints. Where the Go code indexes out of range and panics (types/link.go:200-206), the model promises nothing. `hostFromLinkConfig` and its siblings are not part of this model, so whether a marked endpoint without a colon (e.g. `["host", "node-a:eth1"]`) reaches this function is not modelled.
- `LinkDecoding.LinkDefinition.UnmarshalYAML`: a failed brief conversion is modelled as a nil `Link`. In Go the constructor may instead return a typed nil pointer, which makes the interface non-nil; the model does not tell the two apart.
- `GoStrings.ToLower`: lowers only ASCII capitals. Go's `strings.ToLower` also maps non-ASCII letters, such as 'Ä' to 'ä' and 'İ' to 'i'.
- `IfNames.GenRandomIfName`: the UUID text is a parameter. UUID generation and its randomness are not modelled, so two calls may collide exactly when the UUIDs share a prefix (`IfNames.IfNameInjective`).
- `NetnsSetup.SetNameMACAndUpInterface`:
  - The netlink calls and the network namespace are not modelled. Each call's error comes from a deterministic oracle.
  - The closure is modelled as a single run.
  - The link handle `l` and the namespace argument are dropped.

## Findings

| source | as written | input that shows it | evidently intended | confidence | as-written member | corrected member |
|---|---|---|---|---|---|---|
| types/link.go:170-173 | `if err == nil { continue }` skips every token that parses, and a token that fails leaves `lt == ""`, which no case matches; every two-endpoint brief link becomes a veth link | endpoints `["host:eth0", "node-a:eth1"]`: the host token is skipped and the veth constructor is called | `if err != nil { continue }`: the first endpoint whose token is `macvlan`, `mgmt-net` or `host` selects that constructor with its index | high; not executed | `BriefLinks.BriefLinkConversion`, `BriefLinks.HostPairAsWritten` | `BriefLinks.BriefLinkConversionCorrected` |

`BriefLinks.BriefLinkConversionCorrected` is proved equal to the reference inference `BriefLinks.InferredLink`. `LinkDecoding.LinkDefinition.UnmarshalYAML` calls the corrected conversion. With the code as written, its brief case would instead always store the veth constructor's result, as `BriefLinks.BriefLinkConversion` states.
