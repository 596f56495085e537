/** The `AuthMethodJWT` component: a Vault OIDC auth mount backed by a Google
    Workspace directory, its default role, and the lab-administrators group.
    Its `name`, `path` and `vault_address` are properties whose setters check
    a pattern and either store the value or fail an assertion. */
module AuthMethod {
  import opened Common
  import opened Text
  import opened Patterns

  const TypeToken := "ggl:shared/vault:AuthMethodJWT"
  const DefaultRole := "user"
  const AuthPathSegment := "/ui/vault/auth/"
  const CallbackSuffix := "/oidc/callback"
  /** The redirect the Vault CLI listens on during `vault login -method=oidc`. */
  const LocalhostCallback := "http://localhost:8250/oidc/callback"
  const LabAdminsGroup := "labadmins@hul.to"

  /** The Vault resources the component declares with itself as parent.
      Values the provider computes (the mount accessor, the group id) are not
      represented: the alias refers to the group and mount by construction. */
  datatype Resource =
    | JwtAuthBackend(resourceName: string, description: string, discoveryUrl: string,
                     path: string, kind: string, defaultRole: string,
                     clientId: string, clientSecret: string)
    | JwtAuthBackendRole(resourceName: string, backend: string, userClaim: string,
                         groupsClaim: string, roleName: string, tokenPolicies: seq<string>,
                         oidcScopes: seq<string>, allowedRedirectUris: seq<string>)
    | IdentityGroup(resourceName: string, groupName: string, kind: string,
                    policies: seq<string>, organization: string)
    | IdentityGroupAlias(resourceName: string, aliasName: string)

  /** `f"{vault_address}/ui/vault/auth/{path}/oidc/callback"` */
  function OidcRedirectUri(vaultAddress: string, path: string): string {
    vaultAddress + AuthPathSegment + path + CallbackSuffix
  }

  /** The redirect URIs the default role allows, in the source's order. */
  function AllowedRedirectUris(vaultAddress: string, path: string): seq<string> {
    [OidcRedirectUri(vaultAddress, path), LocalhostCallback]
  }

  /** Index of the last `/` in `s`, if any. */
  function LastSlash(s: string): (r: Option<nat>)
    ensures r.Some? ==> r.value < |s| && s[r.value] == '/'
    ensures forall i | 0 <= i < |s| && (r.None? || r.value < i) :: s[i] != '/'
  {
    if s == [] then None
    else if s[|s| - 1] == '/' then Some(|s| - 1)
    else LastSlash(s[..|s| - 1])
  }

  /** Reads a redirect URI back into the Vault address and mount path it was
      built from: the path is the last `/`-free segment before the callback
      suffix, and the address is what precedes `/ui/vault/auth/`. */
  function ParseRedirectUri(uri: string): Option<(string, string)> {
    if !EndsWith(uri, CallbackSuffix) then None
    else
      var body := uri[..|uri| - |CallbackSuffix|];
      match LastSlash(body)
      case None => None
      case Some(j) =>
        var head := body[..j + 1];
        if EndsWith(head, AuthPathSegment)
        then Some((head[..|head| - |AuthPathSegment|], body[j + 1..]))
        else None
  }

  /** The redirect URI determines the mount path and the Vault address it was
      built from, so two auth mounts with different paths never share a
      callback URI. A validated path holds no `/`; the address can be anything. */
  lemma RedirectUriRoundTrip(vaultAddress: string, path: string)
    requires IsNameToken(path)
    ensures ParseRedirectUri(OidcRedirectUri(vaultAddress, path)) == Some((vaultAddress, path))
  {
    var uri := OidcRedirectUri(vaultAddress, path);
    var head := vaultAddress + AuthPathSegment;
    var body := head + path;
    assert uri == body + CallbackSuffix;
    assert uri[..|uri| - |CallbackSuffix|] == body;
    var j := |head| - 1;
    assert body[j] == AuthPathSegment[14] == '/';
    forall i | j < i < |body| ensures body[i] != '/' {
      assert body[i] == path[i - |head|];
      assert IsNameChar(path[i - |head|]);
    }
    assert LastSlash(body) == Some(j);
    assert body[..j + 1] == head;
    assert body[j + 1..] == path;
  }

  /** Different paths, or different addresses, give different redirect URIs. */
  lemma RedirectUriInjective(a1: string, p1: string, a2: string, p2: string)
    requires IsNameToken(p1) && IsNameToken(p2)
    requires OidcRedirectUri(a1, p1) == OidcRedirectUri(a2, p2)
    ensures a1 == a2 && p1 == p2
  {
    RedirectUriRoundTrip(a1, p1);
    RedirectUriRoundTrip(a2, p2);
  }

  /** For a validated address the allowed redirect URIs are two distinct
      entries: the https callback on the Vault host, then the CLI's localhost
      callback. */
  lemma AllowedRedirectUrisShape(vaultAddress: string, path: string)
    requires IsVaultAddress(vaultAddress)
    ensures |AllowedRedirectUris(vaultAddress, path)| == 2
    ensures AllowedRedirectUris(vaultAddress, path)[0] == OidcRedirectUri(vaultAddress, path)
    ensures StartsWith(AllowedRedirectUris(vaultAddress, path)[0], vaultAddress + AuthPathSegment)
    ensures AllowedRedirectUris(vaultAddress, path)[1] == LocalhostCallback
    ensures AllowedRedirectUris(vaultAddress, path)[0] != AllowedRedirectUris(vaultAddress, path)[1]
  {
    var uri := OidcRedirectUri(vaultAddress, path);
    assert uri[..|vaultAddress + AuthPathSegment|] == vaultAddress + AuthPathSegment;
    assert uri[4] == vaultAddress[4] == 's';
    assert LocalhostCallback[4] == ':';
  }

  /** What the three validating assignments at the start of `__init__` raise:
      name first, then path, then vault_address; the first failure wins. */
  function CheckInputs(name: string, path: string, vaultAddress: string): (r: Outcome)
    ensures r.Pass? <==> IsNameToken(name) && IsNameToken(path) && IsVaultAddress(vaultAddress)
    ensures !IsNameToken(name) ==> r.error.message == MustMatch("name", NamePattern)
    ensures IsNameToken(name) && !IsNameToken(path) ==>
      r.error.message == MustMatch("path", NamePattern)
    ensures IsNameToken(name) && IsNameToken(path) && !IsVaultAddress(vaultAddress) ==>
      r.error.message == MustMatch("vault_address " + vaultAddress, VaultAddressPattern)
  {
    if !IsNameToken(name) then Assert(false, MustMatch("name", NamePattern))
    else if !IsNameToken(path) then Assert(false, MustMatch("path", NamePattern))
    else Assert(IsVaultAddress(vaultAddress), MustMatch("vault_address " + vaultAddress, VaultAddressPattern))
  }

  /** The resources `__init__` declares once its inputs are valid, in order:
      the auth mount, its default role, the admin group and the group alias. */
  function Children(name: string, path: string, desc: string, discoverUrl: string,
                    vaultAddress: string, clientId: string, clientSecret: string,
                    oidcScopes: seq<string>): seq<Resource>
  {
    [ JwtAuthBackend(name, desc, discoverUrl, path, "oidc", DefaultRole, clientId, clientSecret),
      JwtAuthBackendRole(name, path, "email", "groups", DefaultRole, ["default"], oidcScopes,
                         AllowedRedirectUris(vaultAddress, path)),
      IdentityGroup(name, LabAdminsGroup, "external", ["admin", "default"], "Lab administrators"),
      IdentityGroupAlias(name + "-alias", LabAdminsGroup) ]
  }

  /** How the declared resources refer to each other: the role sits on the
      mount's path and is its default role, it allows the component's two
      redirect URIs, and the alias names the group it is attached to; every
      resource is named after the component. */
  lemma ChildrenLinks(name: string, path: string, desc: string, discoverUrl: string,
                      vaultAddress: string, clientId: string, clientSecret: string,
                      oidcScopes: seq<string>)
    ensures var c := Children(name, path, desc, discoverUrl, vaultAddress, clientId,
                              clientSecret, oidcScopes);
      |c| == 4 &&
      c[0].JwtAuthBackend? && c[1].JwtAuthBackendRole? && c[2].IdentityGroup? &&
      c[3].IdentityGroupAlias? &&
      c[1].backend == c[0].path == path &&
      c[1].roleName == c[0].defaultRole &&
      c[1].allowedRedirectUris == AllowedRedirectUris(vaultAddress, path) &&
      c[3].aliasName == c[2].groupName &&
      (forall i | 0 <= i < |c| :: StartsWith(c[i].resourceName, name))
  {
    var c := Children(name, path, desc, discoverUrl, vaultAddress, clientId,
                      clientSecret, oidcScopes);
    assert c[3].resourceName[..|name|] == name;
  }

  class AuthMethodJWT {
    /** The component registration `super().__init__` makes. */
    var registration: Option<Registration>
    /** The private attributes `__name`, `__path`, `__vault_address`. */
    var name: Option<string>
    var path: Option<string>
    var vaultAddress: Option<string>
    var oidcRedirectUri: Option<string>
    /** Resources declared with this component as parent, in order. */
    var children: seq<Resource>

    /** A fresh object, before `__init__` has run. */
    constructor ()
      ensures registration == None && name == None && path == None && vaultAddress == None
      ensures oidcRedirectUri == None && children == []
    {
      registration, name, path, vaultAddress := None, None, None, None;
      oidcRedirectUri, children := None, [];
    }

    /** The `name` getter; `None` stands for the AttributeError of an unset attribute. */
    function Name(): (r: Option<string>)
      reads this
      ensures r == name
    {
      name
    }

    function Path(): (r: Option<string>)
      reads this
      ensures r == path
    {
      path
    }

    function VaultAddress(): (r: Option<string>)
      reads this
      ensures r == vaultAddress
    {
      vaultAddress
    }

    /** The `name` setter: stores `value` when it matches `[a-z0-9-]+`,
        otherwise raises and leaves `__name` as it was. */
    method SetName(value: string) returns (r: Outcome)
      modifies this`name
      ensures r.Pass? <==> IsNameToken(value)
      ensures r.Fail? ==> r.error.message == MustMatch("name", NamePattern)
      ensures name == if r.Pass? then Some(value) else old(name)
    {
      r := Assert(IsNameToken(value), MustMatch("name", NamePattern));
      if r.Pass? {
        name := Some(value);
      }
    }

    /** The `path` setter, with the same rule as `name`. */
    method SetPath(value: string) returns (r: Outcome)
      modifies this`path
      ensures r.Pass? <==> IsNameToken(value)
      ensures r.Fail? ==> r.error.message == MustMatch("path", NamePattern)
      ensures path == if r.Pass? then Some(value) else old(path)
    {
      r := Assert(IsNameToken(value), MustMatch("path", NamePattern));
      if r.Pass? {
        path := Some(value);
      }
    }

    /** The `vault_address` setter: `https://` and a non-empty run of
        `[a-z0-9.-]`, nothing else. */
    method SetVaultAddress(value: string) returns (r: Outcome)
      modifies this`vaultAddress
      ensures r.Pass? <==> IsVaultAddress(value)
      ensures r.Fail? ==> r.error.message == MustMatch("vault_address " + value, VaultAddressPattern)
      ensures vaultAddress == if r.Pass? then Some(value) else old(vaultAddress)
    {
      r := Assert(IsVaultAddress(value), MustMatch("vault_address " + value, VaultAddressPattern));
      if r.Pass? {
        vaultAddress := Some(value);
      }
    }

    /** `__init__`: registers the component, validates name, path and the
        configured Vault address in that order, and only then declares its
        resources. `vaultAddress`, `clientId` and `clientSecret` are the values
        the source reads from the stack configuration. */
    method Init(name: string, path: string, desc: string, discoverUrl: string,
                vaultAddress: string, clientId: string, clientSecret: string,
                oidcScopes: seq<string>) returns (r: Outcome)
      modifies this
      ensures registration == Some(Registration(TypeToken, name))
      ensures r == CheckInputs(name, path, vaultAddress)
      ensures this.name == if IsNameToken(name) then Some(name) else old(this.name)
      ensures this.path == if IsNameToken(name) && IsNameToken(path) then Some(path) else old(this.path)
      ensures this.vaultAddress == if r.Pass? then Some(vaultAddress) else old(this.vaultAddress)
      ensures r.Pass? ==> oidcRedirectUri == Some(OidcRedirectUri(vaultAddress, path))
      ensures r.Pass? ==> children == old(children) + Children(name, path, desc, discoverUrl,
                                                               vaultAddress, clientId, clientSecret, oidcScopes)
      ensures r.Fail? ==> oidcRedirectUri == old(oidcRedirectUri) && children == old(children)
    {
      registration := Some(Registration(TypeToken, name));
      r := SetName(name);
      if r.Fail? {
        return;
      }
      r := SetPath(path);
      if r.Fail? {
        return;
      }
      r := SetVaultAddress(vaultAddress);
      if r.Fail? {
        return;
      }
      oidcRedirectUri := Some(OidcRedirectUri(vaultAddress, path));
      children := children + Children(name, path, desc, discoverUrl, vaultAddress,
                                      clientId, clientSecret, oidcScopes);
    }
  }
}
