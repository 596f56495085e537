/** The `OIDCProvider` component: Vault acting as an OpenID Connect provider
    for one relying party. Its `vault_address` setter checks the address; the
    issuer host and the https flag are then derived from the accepted address. */
module OidcProvider {
  import opened Common
  import opened Text
  import opened Patterns

  const TypeToken := "ggl:shared/vault:OIDCProvider"
  const SchemeSeparator := "://"

  /** The Vault identity resources the component declares with itself as
      parent. Provider-computed values (key name, client id, scope name) are
      references by construction and not represented. */
  datatype Resource =
    | OidcKey(resourceName: string, allowedClientIds: seq<string>)
    | OidcClient(resourceName: string, name: string, redirectUris: seq<string>,
                 assignments: seq<string>, idTokenTtl: int, accessTokenTtl: int)
    | OidcScope(resourceName: string, name: string, description: string)
    | OidcProviderResource(resourceName: string, name: string, httpsEnabled: bool, issuerHost: string)

  /** `vault_address.split("://")[1]`; `None` stands for the IndexError a
      string without `://` would raise. */
  function IssuerHost(vaultAddress: string): Option<string> {
    var parts := Split(vaultAddress, SchemeSeparator);
    if |parts| >= 2 then Some(parts[1]) else None
  }

  /** `vault_address.startswith("https")` */
  function HttpsEnabled(vaultAddress: string): bool {
    StartsWith(vaultAddress, "https")
  }

  /** For every accepted address the split yields exactly two parts, `https`
      and the host, so the issuer host is the address without its `https://`
      prefix: non-empty, drawn from `[a-z0-9.-]`, and `https://` in front of it
      gives the address back. The https flag is always set. */
  lemma AcceptedAddressDerivations(vaultAddress: string)
    requires IsVaultAddress(vaultAddress)
    ensures Split(vaultAddress, SchemeSeparator) == ["https", vaultAddress[|HttpsPrefix|..]]
    ensures IssuerHost(vaultAddress) == Some(vaultAddress[|HttpsPrefix|..])
    ensures IsHostRun(IssuerHost(vaultAddress).value)
    ensures HttpsPrefix + IssuerHost(vaultAddress).value == vaultAddress
    ensures HttpsEnabled(vaultAddress)
  {
    var s, host := vaultAddress, vaultAddress[|HttpsPrefix|..];
    assert s[..8] == "https://";
    assert "https" + SchemeSeparator == s[..8];
    // no ':' before the separator, and none in the host
    forall k | 0 <= k < 5 ensures !OccursAt(s, SchemeSeparator, k) {
      assert s[k] == "https"[k] != ':';
      assert s[k..k + 3][0] == s[k];
    }
    forall k | 8 <= k <= |s| ensures !OccursAt(s, SchemeSeparator, k) {
      if k + 3 <= |s| {
        assert IsHostChar(host[k - 8]) && host[k - 8] == s[k];
        assert s[k..k + 3][0] == s[k];
      }
    }
    assert OccursAt(s, SchemeSeparator, 5) && s[..5] == "https";
    SplitAtOnlyOccurrence(s, SchemeSeparator, 5);
    assert s == s[..8] + host;
  }

  const ProviderPathSegment := "/v1/identity/oidc/provider/"

  /** `f"{self.vault_address}/v1/identity/oidc/provider/{provider.name}"` AS
      WRITTEN. `provider.name` is a resource output of the deployment runtime,
      not a string, so the f-string inserts the text that output object
      renders to, here `renderedName`, and not the provider's name. */
  function IssuerBase(vaultAddress: string, renderedName: string): string {
    vaultAddress + ProviderPathSegment + renderedName
  }

  /** The issuer base as evidently intended: the provider's endpoint under the
      Vault address, named by the provider's name (the `name` argument, which
      the provider is declared with). */
  function IntendedIssuerBase(vaultAddress: string, name: string): (r: string)
    ensures StartsWith(r, vaultAddress + ProviderPathSegment)
    ensures r[|vaultAddress + ProviderPathSegment|..] == name
  {
    var prefix := vaultAddress + ProviderPathSegment;
    var r := prefix + name;
    assert r[..|prefix|] == prefix;
    r
  }

  /** The intended issuer base names its provider: two providers under one
      Vault address share an issuer base only if they share a name. */
  lemma IntendedIssuerBaseInjective(vaultAddress: string, name1: string, name2: string)
    requires IntendedIssuerBase(vaultAddress, name1) == IntendedIssuerBase(vaultAddress, name2)
    ensures name1 == name2
  {
  }

  /** As written, the issuer base differs from the intended one whenever the
      output object's text is not the provider's name. */
  lemma IssuerBaseMissesProviderName(vaultAddress: string, name: string, renderedName: string)
    requires renderedName != name
    ensures IssuerBase(vaultAddress, renderedName) != IntendedIssuerBase(vaultAddress, name)
  {
    var prefix := vaultAddress + ProviderPathSegment;
    assert IssuerBase(vaultAddress, renderedName)[|prefix|..] == renderedName;
  }

  /** The resources declared for an accepted address, in order: signing key,
      client, scope, provider. */
  function Children(name: string, redirectUris: seq<string>, vaultAddress: string): seq<Resource>
    requires IsVaultAddress(vaultAddress)
  {
    AcceptedAddressDerivations(vaultAddress);
    [ OidcKey(name, ["*"]),
      OidcClient(name, name, redirectUris, ["allow_all"], 2400, 7200),
      OidcScope(name, name, "Scope for the " + name + " oidc provider"),
      OidcProviderResource(name, name, HttpsEnabled(vaultAddress), IssuerHost(vaultAddress).value) ]
  }

  /** The declared provider always has https enabled and an issuer host from
      which `https://` rebuilds the configured address. */
  lemma ProviderResourceFromAddress(name: string, redirectUris: seq<string>, vaultAddress: string)
    requires IsVaultAddress(vaultAddress)
    ensures Children(name, redirectUris, vaultAddress)[3].httpsEnabled
    ensures HttpsPrefix + Children(name, redirectUris, vaultAddress)[3].issuerHost == vaultAddress
  {
    AcceptedAddressDerivations(vaultAddress);
  }

  class OIDCProvider {
    var registration: Option<Registration>
    /** The private attribute `__vault_address`. */
    var vaultAddress: Option<string>
    var issuerBase: Option<string>
    var children: seq<Resource>

    /** A fresh object, before `__init__` has run. */
    constructor ()
      ensures registration == None && vaultAddress == None && issuerBase == None && children == []
    {
      registration, vaultAddress, issuerBase, children := None, None, None, [];
    }

    /** The `vault_address` getter. */
    function VaultAddress(): (r: Option<string>)
      reads this
      ensures r == vaultAddress
    {
      vaultAddress
    }

    /** The `vault_address` setter: `https://` and a non-empty run of
        `[a-z0-9.-]`, or an AssertionError. */
    method SetVaultAddress(value: string) returns (r: Outcome)
      modifies this`vaultAddress
      ensures r.Pass? <==> IsVaultAddress(value)
      ensures r.Fail? ==> r.error.message == MustMatch("vault_address " + value, VaultAddressPattern)
      ensures vaultAddress == if r.Pass? then Some(value) else old(vaultAddress)
    {
      r := Assert(IsVaultAddress(value), MustMatch("vault_address " + value, VaultAddressPattern));
      if r.Pass? {
        vaultAddress := Some(value);
      }
    }

    /** `__init__`: registers the component, checks the configured address,
        and declares its resources only if the address was accepted.
        `vaultAddress` is the value the source reads from the stack configuration;
        `renderedProviderName` is the text the f-string gets from the runtime
        output `provider.name`. */
    method Init(name: string, redirectUris: seq<string>, vaultAddress: string, renderedProviderName: string)
      returns (r: Outcome)
      modifies this
      ensures registration == Some(Registration(TypeToken, name))
      ensures r.Pass? <==> IsVaultAddress(vaultAddress)
      ensures r.Fail? ==> r.error.message == MustMatch("vault_address " + vaultAddress, VaultAddressPattern)
      ensures this.vaultAddress == if r.Pass? then Some(vaultAddress) else old(this.vaultAddress)
      ensures r.Pass? ==> children == old(children) + Children(name, redirectUris, vaultAddress)
      ensures r.Pass? ==> issuerBase == Some(IssuerBase(vaultAddress, renderedProviderName))
      ensures r.Fail? ==> children == old(children) && issuerBase == old(issuerBase)
    {
      registration := Some(Registration(TypeToken, name));
      r := SetVaultAddress(vaultAddress);
      if r.Fail? {
        return;
      }
      var parts := Split(vaultAddress, SchemeSeparator);
      AcceptedAddressDerivations(vaultAddress);
      var issuerHost := parts[1];
      children := children + [ OidcKey(name, ["*"]),
                               OidcClient(name, name, redirectUris, ["allow_all"], 2400, 7200),
                               OidcScope(name, name, "Scope for the " + name + " oidc provider"),
                               OidcProviderResource(name, name, HttpsEnabled(vaultAddress), issuerHost) ];
      issuerBase := Some(IssuerBase(vaultAddress, renderedProviderName));
    }
  }
}
