/**
  The IPFS gateway used to show uploaded images (frontend/src/App.tsx):
  the configured gateway, or the Pinata default, with one trailing `/`
  removed, and `buildGatewayUrl(cid)` joining it to a content identifier.
*/
module Gateway {
  import opened Wrappers
  import opened JsString

  const DefaultGateway := "https://gateway.pinata.cloud/ipfs"

  /** `s.replace(/\/$/, "")`: removes one `/` at the very end, if there is one. */
  function DropTrailingSlash(s: string): (r: string)
    ensures EndsWith(s, "/") ==> r + "/" == s
    ensures !EndsWith(s, "/") ==> r == s
  {
    if EndsWith(s, "/") then s[..|s| - 1] else s
  }

  /**
    `PINATA_GATEWAY`: the configured value when it is set and not empty
    (`||` falls back on both), otherwise the default; then one trailing `/` dropped.
  */
  function ResolveGateway(configured: Option<string>): (gateway: string)
    ensures configured == None || configured == Some("") ==> gateway == DefaultGateway
    ensures configured.Some? && configured.value != "" ==>
      gateway == configured.value || gateway + "/" == configured.value
    ensures configured.Some? && configured.value != "" && EndsWith(configured.value, "/") ==>
      gateway + "/" == configured.value
    ensures configured.Some? && configured.value != "" && !EndsWith(configured.value, "/") ==>
      gateway == configured.value
  {
    var base := if configured.Some? && configured.value != "" then configured.value else DefaultGateway;
    DropTrailingSlash(base)
  }

  /** `buildGatewayUrl(cid)`. */
  function BuildGatewayUrl(gateway: string, cid: string): (url: string)
    ensures |url| == |gateway| + 1 + |cid|
    ensures StartsWith(url, gateway) && url[|gateway|] == '/' && url[|gateway| + 1..] == cid
  {
    gateway + "/" + cid
  }

  /** Without a configured gateway, or with an empty one, images are served from the default gateway. */
  lemma DefaultGatewayUsed(configured: Option<string>)
    requires configured == None || configured == Some("")
    ensures ResolveGateway(configured) == DefaultGateway
    ensures BuildGatewayUrl(ResolveGateway(configured), "Qm") == "https://gateway.pinata.cloud/ipfs/Qm"
  {
  }

  /** A configured gateway written with or without one trailing `/` gives the same image URLs. */
  lemma TrailingSlashIgnored(gateway: string, cid: string)
    requires gateway != "" && !EndsWith(gateway, "/")
    ensures ResolveGateway(Some(gateway + "/")) == ResolveGateway(Some(gateway)) == gateway
    ensures BuildGatewayUrl(ResolveGateway(Some(gateway + "/")), cid) == gateway + "/" + cid
  {
    assert (gateway + "/")[..|gateway|] == gateway;
  }

  /** Only one `/` is dropped: a gateway ending in `//` keeps one, so its URLs hold `//` before the CID. */
  lemma OnlyOneSlashDropped(gateway: string, cid: string)
    requires gateway != ""
    ensures ResolveGateway(Some(gateway + "//")) == gateway + "/"
    ensures BuildGatewayUrl(ResolveGateway(Some(gateway + "//")), cid) == gateway + "//" + cid
  {
    assert (gateway + "//")[..|gateway| + 1] == gateway + "/";
  }
}
