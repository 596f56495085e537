# Lab infrastructure components: validators, derived names and the image catalogue

This project models the plain sequential logic inside the lab's infrastructure-as-code
components. Resource declarations are not modelled as calls into the deployment runtime.
A component's declarations are recorded instead, as datatype values in the order the
component makes them.

The modelled parts:

- **Validating components** (`AuthMethodJWT`, `Gitea`, `Vault`, `OIDCProvider`).
  - Each component is a class. Its private attributes are `Option<string>` fields, where `None` means the attribute was never set.
  - Each property setter either stores its value or fails its assertion. The failure is `Outcome.Fail`, carrying the source's message text, and it leaves the field as it was.
  - `Init` is the rest of `__init__`, with the source's order of checks and registration.
  - Every `re.fullmatch` pattern is written out as a character-class predicate (module `Patterns`).
  - The strings derived from validated values are modelled: the OIDC redirect URI, the issuer host and the https flag.
- **Lab-domain extraction in `PKI.create_cert`** (module `Pki`).
  - The `re.search` pattern's language is given twice: as an existential definition and as a decision procedure, proved equal.
  - Python's `$` pins the only place a match can end: the end of the string, or just before a final newline.
  - The extracted domain is the leftmost match: the longest suffix of the domain that is in the pattern's language.
  - Also modelled: the role and certificate that `create_cert` declares, and the mount's URL configuration.
- **DNS names in the Go entry program** (module `MainDns`).
  - The one-dot trims applied to the public Vault record name.
  - The closure that makes the private Cloud Run host absolute, i.e. ending in the root dot (section 3.1 of RFC 1034).
- **The Harvester image catalogue** (module `Images`).
  - The static table.
  - `create_image`, as a declaration record.
  - `create_all_images`, as a loop that fills the dictionary `IMAGES_PULUMI`, modelled as a `map` field. The loop is proved against the specification function `Declared`.

Shared modules:

- `Common` holds `Option`, `Result`, `Outcome` and the assertion model.
- `Text` holds Python's `str.split`/`str.join`, and Go's `strings.TrimSuffix`/`TrimPrefix`, which remove one occurrence only.

Values the source reads from the stack configuration are parameters: the Vault address, the OAuth client id and the client secret.

## Model

| member | source | states |
|---|---|---|
| Text.Split | src/shared/vault/oidc_provider.py:45 | `str.split` with a non-empty separator: at least one piece, and no piece contains the separator |
| Text.JoinSplit | src/shared/vault/oidc_provider.py:45 | joining the pieces of a split with the separator gives the original string back |
| Text.SplitAtOnlyOccurrence | src/shared/vault/oidc_provider.py:45 | a string with exactly one occurrence of the separator splits into the text before it and the text after it |
| Text.TrimSuffix | main.go:37 | `strings.TrimSuffix`: when the string ends with the suffix, the result plus the suffix is the string; otherwise the string is unchanged |
| Text.TrimPrefix | main.go:38 | `strings.TrimPrefix`: when the string starts with the prefix, the prefix plus the result is the string; otherwise the string is unchanged |
| Patterns.GcpZoneMatchesLanguage | src/shared/git/git.py:54-55 | the greedy check for `[a-z0-9]+-[a-z]+` accepts exactly the strings that split into an alphanumeric run, a `-` and a letter run |
| Patterns.GcpZoneShape | src/shared/vault/vault.py:56-57 | a zone name is accepted iff it has exactly one `-`, which is neither first nor last, with lower-case alphanumerics before it and lower-case letters only after it |
| Patterns.LabZoneAccepted | src/2_app/__main__.py:88-91 | the zone `galaxygridlabs-com` that the application passes is accepted |
| Patterns.DottedZoneNameRefused | src/shared/vault/vault.py:56-57 | a dotted domain such as `galaxygridlabs.com` is not a valid zone name |
| Patterns.TwoHyphenZoneNameRefused | src/shared/git/git.py:54-55 | a name with two hyphens is refused |
| Patterns.MisplacedDigitOrHyphenRefused | src/shared/git/git.py:54-55 | a digit after the hyphen, or a leading hyphen, is refused |
| Patterns.LabVaultAddressAccepted | src/shared/vault/auth_method.py:123-124 | the lab's address `https://vault.galaxygridlabs.com` is accepted |
| Patterns.VaultAddressesRefused | src/shared/vault/auth_method.py:123-124 | `http://`, upper case, a port, a trailing `/` and a bare `https://` are refused |
| Patterns.IsNameToken | src/shared/vault/auth_method.py:103-104 | `re.fullmatch(r"[a-z0-9-]+", s)` as a character-class predicate; `AuthMethod.RedirectUriRoundTrip` relies on it: a name token holds no `/` |
| Patterns.IsVaultAddress | src/shared/vault/auth_method.py:123-124 | `re.fullmatch(r"https:\/\/[a-z0-9-.]+", s)`; specified by `Patterns.LabVaultAddressAccepted`, `Patterns.VaultAddressesRefused` and `OidcProvider.AcceptedAddressDerivations` |
| Patterns.IsGcpZoneName | src/shared/vault/vault.py:56-57 | `re.fullmatch(r"[a-z0-9]+-[a-z]+", s)` decided greedily; specified by `Patterns.GcpZoneMatchesLanguage` and `Patterns.GcpZoneShape` |
| AuthMethod.RedirectUriRoundTrip | src/shared/vault/auth_method.py:46 | for a validated path, the redirect URI parses back into the Vault address and the path it was built from |
| AuthMethod.RedirectUriInjective | src/shared/vault/auth_method.py:46 | different addresses or validated paths never give the same redirect URI |
| AuthMethod.OidcRedirectUri | src/shared/vault/auth_method.py:46 | the redirect URI; specified by `AuthMethod.RedirectUriRoundTrip` (it parses back to its address and path) and `AuthMethod.RedirectUriInjective` |
| AuthMethod.AllowedRedirectUris | src/shared/vault/auth_method.py:55-58 | the role's redirect URI list; specified by `AuthMethod.AllowedRedirectUrisShape` |
| AuthMethod.AllowedRedirectUrisShape | src/shared/vault/auth_method.py:55-58 | the role allows exactly two distinct URIs: first the redirect URI `OidcRedirectUri(address, path)` under the Vault address, then the localhost CLI callback |
| AuthMethod.CheckInputs | src/shared/vault/auth_method.py:21-26 | passes iff name, path and address are all valid; otherwise the message is that of the first failing check, in the order name, path, vault_address |
| AuthMethod.Children | src/shared/vault/auth_method.py:34-94 | the auth mount, its default role, the lab-administrators group and the group alias, in the source's order; specified by `AuthMethod.ChildrenLinks` |
| AuthMethod.ChildrenLinks | src/shared/vault/auth_method.py:34-94 | the role sits on the mount's path and is its default role (`user`), allows the two redirect URIs, the alias names the group, and every resource is named after the component |
| AuthMethod.AuthMethodJWT.Name | src/shared/vault/auth_method.py:97-99 | the getter returns the stored `__name` |
| AuthMethod.AuthMethodJWT.Path | src/shared/vault/auth_method.py:107-109 | the getter returns the stored `__path` |
| AuthMethod.AuthMethodJWT.VaultAddress | src/shared/vault/auth_method.py:117-119 | the getter returns the stored `__vault_address` |
| AuthMethod.AuthMethodJWT.SetName | src/shared/vault/auth_method.py:101-105 | passes iff the value is a non-empty `[a-z0-9-]` string; stores it only then, with the source's message on failure |
| AuthMethod.AuthMethodJWT.SetPath | src/shared/vault/auth_method.py:111-115 | the same rule and failure behaviour for `path` |
| AuthMethod.AuthMethodJWT.SetVaultAddress | src/shared/vault/auth_method.py:121-125 | passes iff the value is `https://` followed by a non-empty `[a-z0-9.-]` run; stores it only then |
| AuthMethod.AuthMethodJWT.Init | src/shared/vault/auth_method.py:18-94 | registers first; then sets name, path and address in order, stopping at the first failure; only when all pass does it set the redirect URI and declare the backend, role, group and alias |
| Git.CheckInputs | src/shared/git/git.py:14-16 | passes iff name, subdomain and zone are all valid; otherwise the message is that of the first failure, in the order name, subdomain, dns_zone |
| Git.ApplicationInputsAccepted | src/2_app/__main__.py:88-91 | the application's `Gitea("gitea", "git", "galaxygridlabs-com")` passes every check |
| Git.Gitea.Name | src/shared/git/git.py:28-30 | the getter returns the stored `__name` |
| Git.Gitea.Subdomain | src/shared/git/git.py:38-40 | the getter returns the stored `__subdomain` |
| Git.Gitea.DnsZone | src/shared/git/git.py:48-50 | the getter returns the stored `__dns_zone` |
| Git.Gitea.SetName | src/shared/git/git.py:32-36 | passes iff the name is a non-empty `[a-z0-9-]` string; stores it only then |
| Git.Gitea.SetSubdomain | src/shared/git/git.py:42-46 | the same rule for `subdomain` |
| Git.Gitea.SetDnsZone | src/shared/git/git.py:52-56 | passes iff the value is a GCP zone name; stores it only then |
| Git.Gitea.Init | src/shared/git/git.py:7-17 | the three setters in order, then registration; the component is registered iff all three checks pass |
| VaultServer.CheckInputs | src/shared/vault/vault.py:9-10 | passes iff the subdomain and the zone are valid; otherwise the message is that of the first failure |
| VaultServer.Vault.Subdomain | src/shared/vault/vault.py:40-42 | the getter returns the stored `__subdomain` |
| VaultServer.Vault.DnsZone | src/shared/vault/vault.py:50-52 | as written, the `dns_zone` getter returns the stored subdomain |
| VaultServer.Vault.IntendedDnsZone | src/shared/vault/vault.py:50-52 | the corrected getter returns the stored zone |
| VaultServer.Vault.SetSubdomain | src/shared/vault/vault.py:44-48 | passes iff the value is a non-empty `[a-z0-9-]` string; stores it only then |
| VaultServer.Vault.SetDnsZone | src/shared/vault/vault.py:54-58 | passes iff the value is a GCP zone name; stores it only then |
| VaultServer.Vault.Init | src/shared/vault/vault.py:5-12 | sets the subdomain, then the zone, and nothing else; the outcome is the first failing check |
| VaultServer.DnsZoneGetterMismatch | src/shared/vault/vault.py:50-52 | a Vault built from `vault` and `galaxygridlabs-com` reports `vault` as its dns_zone, while the stored zone is `galaxygridlabs-com` |
| OidcProvider.AcceptedAddressDerivations | src/shared/vault/oidc_provider.py:45-49 | for every accepted address: the split on `://` gives exactly `https` and the host; the issuer host is non-empty and drawn from `[a-z0-9.-]`; `https://` plus the host is the address; https is enabled |
| OidcProvider.ProviderResourceFromAddress | src/shared/vault/oidc_provider.py:45-53 | the declared provider has https enabled, and `https://` plus its issuer host is the configured address |
| OidcProvider.Children | src/shared/vault/oidc_provider.py:21-53 | the OIDC key, client, scope and provider, in the source's order and with its constants; the provider is specified by `OidcProvider.ProviderResourceFromAddress` |
| OidcProvider.IssuerHost | src/shared/vault/oidc_provider.py:45 | `vault_address.split("://")[1]`, or none for the IndexError; specified by `OidcProvider.AcceptedAddressDerivations` |
| OidcProvider.HttpsEnabled | src/shared/vault/oidc_provider.py:49 | `vault_address.startswith("https")`; `OidcProvider.AcceptedAddressDerivations` shows it holds for every accepted address |
| OidcProvider.IssuerBase | src/shared/vault/oidc_provider.py:57 | the issuer base as written, with the text of the runtime output `provider.name` in the last segment; `OidcProvider.IssuerBaseMissesProviderName` relates it to the intended one |
| OidcProvider.IntendedIssuerBase | src/shared/vault/oidc_provider.py:57 | corrected: the issuer base starts with `<address>/v1/identity/oidc/provider/` and the rest is exactly the provider's name |
| OidcProvider.IntendedIssuerBaseInjective | src/shared/vault/oidc_provider.py:57 | corrected: providers under one address share an issuer base only if they share a name |
| OidcProvider.IssuerBaseMissesProviderName | src/shared/vault/oidc_provider.py:57 | as written, the issuer base differs from the intended one whenever the output object's text is not the provider's name |
| OidcProvider.OIDCProvider.VaultAddress | src/shared/vault/oidc_provider.py:61-63 | the getter returns the stored `__vault_address` |
| OidcProvider.OIDCProvider.SetVaultAddress | src/shared/vault/oidc_provider.py:65-69 | passes iff the address is `https://` followed by a non-empty `[a-z0-9.-]` run; stores it only then |
| OidcProvider.OIDCProvider.Init | src/shared/vault/oidc_provider.py:16-57 | registers, then validates the address, failing with the `vault_address` setter's message when it is rejected; declares key, client, scope and provider, and sets the issuer base (as written, from the rendered `provider.name`), only when the address is accepted |
| Pki.MatchesLabDomainCorrect | src/shared/vault/pki.py:52 | the decision procedure accepts exactly the language of `([a-zA-Z0-9-]+)(\.[a-zA-Z]{2,5})?(\.[a-zA-Z]+)` |
| Pki.MatchEnd | src/shared/vault/pki.py:52 | `$` matches there; any position where `$` matches with a letter before it is this one |
| Pki.SearchFrom | src/shared/vault/pki.py:52 | returns the least start whose window is in the language, and none when there is no such start |
| Pki.LabDomain | src/shared/vault/pki.py:52-54 | the extracted lab domain; specified by `Pki.LabDomainIsLeftmostMatch` (it is what `re.search` returns) and `Pki.LabDomainIsLongestSuffix` |
| Pki.LanguageEndsInLetter | src/shared/vault/pki.py:52 | every word of the pattern's language ends in a letter |
| Pki.LabDomainIsLeftmostMatch | src/shared/vault/pki.py:52-54 | the extracted domain is absent iff the pattern matches nowhere; otherwise it is the text of the match with the leftmost start |
| Pki.LabDomainIsLongestSuffix | src/shared/vault/pki.py:52-54 | without a final newline, the lab domain is a suffix of the domain, is in the language, and no longer suffix is |
| Pki.LabDomainShape | src/shared/vault/pki.py:52-54 | the lab domain starts with a non-empty `[a-zA-Z0-9-]` label and a dot, and ends with a dot followed by letters |
| Pki.ExtendLeft | src/shared/vault/pki.py:52 | a label character in front of a word of the language gives another word of the language |
| Pki.LabDomainNotExtensible | src/shared/vault/pki.py:52 | the character before the lab domain, if any, is not in `[a-zA-Z0-9-]` |
| Pki.CreateCert | src/shared/vault/pki.py:52-71 | fails with `could not extract domain from <domain>` iff nothing matches; otherwise the role allows exactly the lab domain with subdomains, and the certificate has the full domain as common name under that role; role and certificate are on the given mount |
| Pki.CommonNameEndsWithLabDomain | src/shared/vault/pki.py:59-68 | without a final newline, the certificate's common name ends with the role's allowed domain |
| Pki.LabDomainCoversDomain | src/shared/vault/pki.py:51-54 | for a domain of labels and dots, the domain is its lab domain or ends with a dot followed by it |
| Pki.RoleCoversCommonName | src/shared/vault/pki.py:61-68 | for a domain of labels and dots, the common name is the allowed domain or a subdomain of it |
| Pki.ShortSecondLevelKeepsSubdomain | src/shared/vault/pki.py:51-54 | `git.lab.com` keeps its subdomain: `lab` fits group 2 |
| Pki.CountryCodeKeepsSubdomain | src/shared/vault/pki.py:51-54 | `x.co.uk` is kept whole |
| Pki.LongSecondLevelWindowRefused | src/shared/vault/pki.py:52 | no tail of `vault.galaxygridlabs.com` that starts before its first dot is in the language |
| Pki.LongSecondLevelDropsSubdomain | src/shared/vault/pki.py:51-54 | `vault.galaxygridlabs.com` gives `galaxygridlabs.com` |
| Pki.TrailingNewlineQuirk | src/shared/vault/pki.py:52-54 | `git.lab.com` plus a newline gives `git.lab.com`, which is not a suffix of that domain |
| Pki.UnderscoreCutsLabDomain | src/shared/vault/pki.py:52-54 | `a_b.com` gives `b.com` |
| Pki.UnderscoreDomainNotCovered | src/shared/vault/pki.py:61-68 | for `a_b.com` the role allows only `b.com`, and the common name is not a subdomain of it |
| Pki.ConfigUrlsSwapped | src/shared/vault/pki.py:42-43 | as written, the CRL distribution point is the mount's `/ca` URL; the two lists are the intended ones exchanged |
| Pki.IntendedConfigUrlsEndpoints | src/shared/vault/pki.py:42-43 | corrected: the CRL URL is the mount's `/crl` endpoint and the issuing URL its `/ca` endpoint, both under the Vault address |
| Pki.ConfigUrls | src/shared/vault/pki.py:42-43 | the URL configuration as written; specified by `Pki.ConfigUrlsSwapped` |
| Pki.IntendedConfigUrls | src/shared/vault/pki.py:42-43 | the corrected URL configuration; specified by `Pki.IntendedConfigUrlsEndpoints` and `Pki.ConfigUrlsSwapped` |
| Pki.IssuedUnderConfiguredMount | src/shared/vault/pki.py:15-43 | for a PKI mounted at its own name, the configured URLs (as written and as intended) are endpoints of the mount that `create_cert`'s role and certificate use |
| Images.CreateImageRoundTrip | src/shared/harvester/images.py:182-196 | a declaration gives back its key and every entry field except timeouts; its resource name, name and display name are the key; it is in namespace `harvester-public` with source type `download`, whatever the entry says; the tags are exactly `os-type` and `arch`; it is referenced as `harvester-public/<key>` |
| Images.TimeoutsIgnored | src/shared/harvester/images.py:182-196 | entries that differ only in `timeouts` give the same declaration |
| Images.CreateImage | src/shared/harvester/images.py:182-196 | `create_image` as a declaration record; specified by `Images.CreateImageRoundTrip` and `Images.TimeoutsIgnored` |
| Images.Declared | src/shared/harvester/images.py:199-202 | the dictionary after the entries are declared in order; specified by `Images.DeclaredKeys`, `Images.DeclaredUntouched` and `Images.DeclaredEntries` |
| Images.CatalogueKeysDistinct | src/shared/harvester/images.py:6-143 | the table's keys are pairwise distinct |
| Images.OnlyWindowsRunnerHasTimeouts | src/shared/harvester/images.py:133-142 | `windows25-runner` is the only entry with timeouts |
| Images.DeclaredKeys | src/shared/harvester/images.py:199-202 | declaring adds exactly the table's keys to the keys already present |
| Images.DeclaredUntouched | src/shared/harvester/images.py:199-202 | a key present before and absent from the table keeps its value |
| Images.DeclaredEntries | src/shared/harvester/images.py:199-202 | with distinct keys, each key ends up holding its own entry's declaration |
| Images.DeclaredReference | src/shared/harvester/images.py:184-189 | each declared key is referenced as `harvester-public/<key>` |
| Images.Reference | src/shared/harvester/images.py:3-4 | the `<namespace>/<name>` form in which images are referenced; specified by `Images.DeclaredReference` and `Images.DefaultImagesDeclared` |
| Images.AllImagesDeclared | src/shared/harvester/images.py:199-202 | after the loop over the real table: every table key is present with its declaration, and every other key keeps its value |
| Images.DefaultImageNamesFirstKey | src/shared/harvester/images.py:3 | `DEFAULT_IMAGE` is `harvester-public/` followed by the table's first key |
| Images.DefaultContainerImageNamesFlatcarKey | src/shared/harvester/images.py:4 | `DEFAULT_CONTAINER_IMAGE` is `harvester-public/` followed by the `flatcar-latest` key |
| Images.DefaultImagesDeclared | src/shared/harvester/images.py:3-4 | both defaults name images that `create_all_images` declares |
| Images.ImageRegistry.CreateAllImages | src/shared/harvester/images.py:199-202 | the loop leaves `IMAGES_PULUMI` equal to `Declared` of its old value and the table |
| MainDns.TrimDnsSlice | main.go:37-38 | the trim drops the final character when it is a dot, then the first remaining character when it is a dot, and leaves the rest untouched |
| MainDns.TrimDnsRemovesOneDotPerEnd | main.go:37-38 | a name wrapped in two dots on each side keeps one on each |
| MainDns.TrimmedVaultDomain | main.go:37-38 | for the record `vault.` plus a zone ending in a dot, the trim gives `vault.` plus the zone without its final dot |
| MainDns.RecordDnsName | internal/common/dns.go:29 | the record name `NewDnsRecord` reports: label, dot, zone DNS name; specified, for the vault record at main.go:32, by `MainDns.TrimmedVaultDomain` |
| MainDns.TrimDns | main.go:37-38 | `TrimPrefix(TrimSuffix(name, "."), ".")`; specified by `MainDns.TrimDnsSlice` and `MainDns.TrimDnsRemovesOneDotPerEnd` |
| MainDns.AbsoluteHost | main.go:59-64 | the result ends in a dot, starts with the host and is at most one character longer; a host already ending in a dot is unchanged |
| MainDns.AbsoluteHostIsShortest | main.go:59-64 | no extension of the host that ends in a dot is shorter than the result |
| MainDns.AbsoluteHostIdempotent | main.go:59-64 | applying the normalisation twice gives what applying it once gives |
| MainDns.AbsoluteHostTrimRoundTrip | main.go:59-64 | a host ending in exactly one dot survives trim then normalisation; a relative host survives normalisation then trim |

## Left out

- The deployment runtime is not modelled. This covers resource registration, deferred outputs (`apply`/`ApplyT`), dependency ordering and resource options. A declaration is a datatype value, and provider-computed outputs are not represented: accessors, group ids, client ids and secrets, key names, and the certificate and key that `create_cert` returns.
- `pulumi.Config(...).require(...)` is external. The address, client id and client secret are parameters.
- The TTL values built from `shared.constants` (`YEARS`, `DAYS`) are omitted, because `shared.constants` is not part of this model. The literal token TTLs of the OIDC client are kept.
- Pass-through arguments are not represented: `provider_config`, `claim_mappings`, `scope_template` and `opts`.
- `AuthMethod.AuthMethodJWT.Init`: the assigned `auth_accessor` is a provider output and is not modelled.
- `OidcProvider.OIDCProvider.Init`: the text that the f-string gets from the runtime output `provider.name` is the parameter `renderedProviderName`, because the runtime's output objects are not modelled. `client_id` and `client_secret` are provider outputs and are not modelled.
- `PKI.__init__`'s mount and root-certificate declarations are not modelled. Both carry the component's `name` (the mount as `resource_name` and `path`, the root certificate as `resource_name` and, through `mount.path`, as `backend`) besides constants.
- `Pki.CreateCert` takes the mount path as a parameter `mountPath` instead of reading `self.mount.path`. In the source that path is the PKI's `name`, the same name `Pki.ConfigUrls` puts in `/v1/<name>/`; the model does not tie the two within one component, and `Pki.IssuedUnderConfiguredMount` states the relation only for a caller that passes the PKI's name.
- Python's regex engine is not modelled. Only the four patterns the core uses are written out, as predicates.
- Every validator is a Python `assert`. The model assumes assertions are enabled: under `python -O` (or `PYTHONOPTIMIZE`) they are removed, and every setter would then store any value unchecked.
- The `Vault` constructor's steps after its first `return` are comments, never reached, and are not modelled.
- `Images.ImageRegistry.CreateAllImages`: `IMAGES_PULUMI` is a `map`, so the dictionary's insertion order is not represented. A second call re-declares the same resource names; the runtime would reject that, and the model does not.
- `CONTAINER_SYSEXT_COMPOSE` is a configuration text constant, not modelled.
- In the Go entry program, the host is an input string; `url.Parse` is not modelled. Its error is discarded in the source, so a parse failure would dereference a nil result; this is not modelled either.
- The Go entry program's other functions, the calls to `NewVault` and `SetupOidcAuthBackend`, and the Python entry programs only wire components together. They are not modelled.
- `create_image` does not pass the table's `timeouts` field on to the declaration; the model follows the code (`Images.TimeoutsIgnored`).

## Findings

| source | as written | input that shows it | evidently intended | confidence | as-written member | corrected member |
|---|---|---|---|---|---|---|
| src/shared/vault/vault.py:50-52 | the `dns_zone` getter returns `self.__subdomain` | `Vault("vault", "galaxygridlabs-com").dns_zone` is `"vault"` | return `self.__dns_zone`, the value its setter stores | high; not executed | VaultServer.DnsZoneGetterMismatch | VaultServer.Vault.IntendedDnsZone |
| src/shared/vault/pki.py:42-43 | the CRL distribution point is `<address>/v1/<mount>/ca` and the issuing-certificates URL is `<address>/v1/<mount>/crl` | any address and mount, e.g. mount `pki`: the CRL URL ends in `/pki/ca` | Vault serves the CRL at `/v1/<mount>/crl` and the CA certificate at `/v1/<mount>/ca`, so the two lists should be exchanged | high; not executed | Pki.ConfigUrlsSwapped | Pki.IntendedConfigUrlsEndpoints |
| src/shared/vault/oidc_provider.py:57 | `issuer_base` interpolates `provider.name`, a runtime output object, so it holds the text the object renders to rather than the provider's name | `OIDCProvider("lab", ...)`: `issuer_base` does not end in `/provider/lab` | insert the name itself (the `name` argument, or the output's value through `apply`) | medium; not executed | OidcProvider.IssuerBaseMissesProviderName | OidcProvider.IntendedIssuerBase |
