/** The `PKI` component's certificate issuance (`create_cert`) and its
    URL configuration.

    `create_cert` extracts a "lab domain" from the requested domain with

        re.search(r"([a-zA-Z0-9-]+)(\.[a-zA-Z]{2,5})?(\.[a-zA-Z]+$)", domain)

    and joins the groups that took part. The groups are adjacent, so the join
    is the whole matched text. `re.search` takes the leftmost start at which
    the pattern matches, and `$` fixes where a match can end: at the end of the
    string, or just before a final newline. So the lab domain is the longest
    tail of the domain (up to that end) that belongs to the pattern's language. */
module Pki {
  import opened Common
  import opened Text

  /** `[a-zA-Z]` */
  predicate IsAsciiLetter(c: char) { 'a' <= c <= 'z' || 'A' <= c <= 'Z' }

  /** `[a-zA-Z0-9-]` */
  predicate IsLabelChar(c: char) { IsAsciiLetter(c) || '0' <= c <= '9' || c == '-' }

  /** Every character of `s[lo..hi]` is in `[a-zA-Z0-9-]`. */
  function AllLabelChars(s: string, lo: nat, hi: nat): (b: bool)
    requires lo <= hi <= |s|
    ensures b <==> forall i | lo <= i < hi :: IsLabelChar(s[i])
    decreases hi - lo
  {
    lo == hi || (IsLabelChar(s[lo]) && AllLabelChars(s, lo + 1, hi))
  }

  /** Every character of `s[lo..hi]` is in `[a-zA-Z]`. */
  function AllLetters(s: string, lo: nat, hi: nat): (b: bool)
    requires lo <= hi <= |s|
    ensures b <==> forall i | lo <= i < hi :: IsAsciiLetter(s[i])
    decreases hi - lo
  {
    lo == hi || (IsAsciiLetter(s[lo]) && AllLetters(s, lo + 1, hi))
  }

  /** `s[lo..hi]` is a non-empty run of `[a-zA-Z0-9-]`. */
  predicate LabelSpan(s: string, lo: nat, hi: nat) {
    lo < hi <= |s| && AllLabelChars(s, lo, hi)
  }

  /** `s[lo..hi]` is a non-empty run of `[a-zA-Z]`. */
  predicate LetterSpan(s: string, lo: nat, hi: nat) {
    lo < hi <= |s| && AllLetters(s, lo, hi)
  }

  /** `s` parses with group 1 = `s[..p]` and group 3 = `s[p..]`, group 2 absent. */
  predicate OneDotSplit(s: string, p: nat) {
    p < |s| && LabelSpan(s, 0, p) && s[p] == '.' && LetterSpan(s, p + 1, |s|)
  }

  /** `s` parses with group 1 = `s[..p]`, group 2 = `s[p..q]` (a dot and two to
      five letters) and group 3 = `s[q..]`. */
  predicate TwoDotSplit(s: string, p: nat, q: nat) {
    && p < q < |s|
    && LabelSpan(s, 0, p) && s[p] == '.'
    && 2 <= q - p - 1 <= 5 && LetterSpan(s, p + 1, q)
    && s[q] == '.' && LetterSpan(s, q + 1, |s|)
  }

  /** The language of `([a-zA-Z0-9-]+)(\.[a-zA-Z]{2,5})?(\.[a-zA-Z]+)`. */
  ghost predicate InLabDomainLanguage(s: string) {
    (exists p: nat :: OneDotSplit(s, p)) || (exists p: nat, q: nat :: TwoDotSplit(s, p, q))
  }

  /** The first `.` in `s` at or after `from`, or `|s|` if there is none. */
  function DotFrom(s: string, from: nat): (d: nat)
    requires from <= |s|
    ensures from <= d <= |s|
    ensures d < |s| ==> s[d] == '.'
    ensures forall i | from <= i < d :: s[i] != '.'
    decreases |s| - from
  {
    if from == |s| || s[from] == '.' then from else DotFrom(s, from + 1)
  }

  /** Decides membership in the pattern's language. No group can hold a `.`
      except as its leading character, so in any parse the dots before groups
      2 and 3 are the string's first and second dots. */
  predicate MatchesLabDomain(s: string) {
    var p := DotFrom(s, 0);
    p < |s| &&
    var q := DotFrom(s, p + 1);
    if q == |s| then OneDotSplit(s, p) else TwoDotSplit(s, p, q)
  }

  /** The decision procedure accepts exactly the pattern's language. */
  lemma MatchesLabDomainCorrect(s: string)
    ensures MatchesLabDomain(s) <==> InLabDomainLanguage(s)
  {
    var p := DotFrom(s, 0);
    if exists p': nat :: OneDotSplit(s, p') {
      var p': nat :| OneDotSplit(s, p');
      assert forall i | 0 <= i < p' :: s[i] != '.';
      assert forall i | p' + 1 <= i < |s| :: s[i] != '.';
    }
    if exists p': nat, q': nat :: TwoDotSplit(s, p', q') {
      var p': nat, q': nat :| TwoDotSplit(s, p', q');
      assert forall i | 0 <= i < p' :: s[i] != '.';
      assert forall i | p' + 1 <= i < q' :: s[i] != '.';
    }
  }

  /** A parse with group 2 absent makes the decision procedure accept. */
  lemma OneDotSplitMatches(s: string, p: nat)
    requires OneDotSplit(s, p)
    ensures MatchesLabDomain(s)
  {
    MatchesLabDomainCorrect(s);
  }

  /** A parse with group 2 present makes the decision procedure accept. */
  lemma TwoDotSplitMatches(s: string, p: nat, q: nat)
    requires TwoDotSplit(s, p, q)
    ensures MatchesLabDomain(s)
  {
    MatchesLabDomainCorrect(s);
  }

  /** Where `$` matches without the MULTILINE flag: at the end of the string,
      or just before a newline that ends it. */
  predicate DollarAt(d: string, j: nat) {
    j == |d| || (j + 1 == |d| && d[j] == '\n')
  }

  /** The one place a match can end: the pattern's last character is a letter
      and must sit right before a position where `$` matches. */
  function MatchEnd(d: string): (e: nat)
    ensures e <= |d| && DollarAt(d, e)
    ensures forall j | 0 < j <= |d| && DollarAt(d, j) && IsAsciiLetter(d[j - 1]) :: j == e
  {
    if |d| > 0 && d[|d| - 1] == '\n' then |d| - 1 else |d|
  }

  /** `re.search` finds a match of the pattern starting at `i` and ending at `j`. */
  ghost predicate MatchAt(d: string, i: nat, j: nat) {
    i <= j <= |d| && DollarAt(d, j) && InLabDomainLanguage(d[i..j])
  }

  /** The least start in `[i, e]` at which `d[start..e]` is in the language. */
  function SearchFrom(d: string, i: nat, e: nat): (k: Option<nat>)
    requires i <= e <= |d|
    ensures k.Some? ==> i <= k.value <= e && MatchesLabDomain(d[k.value..e])
    ensures forall j | i <= j <= e && (k.None? || j < k.value) :: !MatchesLabDomain(d[j..e])
    decreases e - i
  {
    if MatchesLabDomain(d[i..e]) then Some(i)
    else if i == e then None
    else SearchFrom(d, i + 1, e)
  }

  /** The lab domain `create_cert` extracts, or `None` where `re.search`
      returns None and the assertion fails. */
  function LabDomain(domain: string): Option<string> {
    var e := MatchEnd(domain);
    match SearchFrom(domain, 0, e)
    case None => None
    case Some(k) => Some(domain[k..e])
  }

  /** Every word of the language ends in a letter. */
  lemma LanguageEndsInLetter(s: string)
    requires InLabDomainLanguage(s)
    ensures |s| > 0 && IsAsciiLetter(s[|s| - 1])
  {
    if p: nat :| OneDotSplit(s, p) {
    } else {
      var p: nat, q: nat :| TwoDotSplit(s, p, q);
    }
  }

  /** `LabDomain` is what `re.search` returns: `None` exactly when the pattern
      matches nowhere, and otherwise the text of the match with the leftmost
      start. */
  lemma LabDomainIsLeftmostMatch(domain: string)
    ensures LabDomain(domain).None? <==> forall i: nat, j: nat :: !MatchAt(domain, i, j)
    ensures LabDomain(domain).Some? ==>
      exists i: nat, j: nat :: MatchAt(domain, i, j) && LabDomain(domain).value == domain[i..j] &&
        forall i': nat, j': nat :: MatchAt(domain, i', j') ==> i <= i'
  {
    var e := MatchEnd(domain);
    var found := SearchFrom(domain, 0, e);
    // any match ends at e, and is a start the search looked at
    forall i: nat, j: nat | MatchAt(domain, i, j)
      ensures j == e && i <= e && MatchesLabDomain(domain[i..e])
    {
      LanguageEndsInLetter(domain[i..j]);
      assert domain[i..j][j - i - 1] == domain[j - 1];
      MatchesLabDomainCorrect(domain[i..j]);
    }
    match found
    case None =>
      assert forall i: nat, j: nat :: !MatchAt(domain, i, j);
    case Some(k) =>
      MatchesLabDomainCorrect(domain[k..e]);
      assert MatchAt(domain, k, e);
      forall i': nat, j': nat | MatchAt(domain, i', j') ensures k <= i' {
        assert j' == e && MatchesLabDomain(domain[i'..e]);
      }
  }

  /** When the domain does not end in a newline, the lab domain is a suffix of
      it, belongs to the language, and no longer suffix does: it is the longest
      suffix in the language. */
  lemma LabDomainIsLongestSuffix(domain: string)
    requires !EndsWith(domain, "\n")
    requires LabDomain(domain).Some?
    ensures EndsWith(domain, LabDomain(domain).value)
    ensures InLabDomainLanguage(LabDomain(domain).value)
    ensures forall i | 0 <= i < |domain| - |LabDomain(domain).value| :: !InLabDomainLanguage(domain[i..])
  {
    var e := MatchEnd(domain);
    assert e == |domain| by {
      if |domain| > 0 {
        assert domain[|domain| - 1..] == [domain[|domain| - 1]];
      }
    }
    var k := SearchFrom(domain, 0, e).value;
    assert domain[k..] == domain[k..e];
    MatchesLabDomainCorrect(domain[k..e]);
    forall i | 0 <= i < |domain| - |LabDomain(domain).value| ensures !InLabDomainLanguage(domain[i..]) {
      assert domain[i..] == domain[i..e];
      MatchesLabDomainCorrect(domain[i..]);
    }
  }

  /** The lab domain starts with a non-empty `[a-zA-Z0-9-]` label followed by
      a dot, and ends with a dot followed by one or more letters. */
  lemma LabDomainShape(domain: string)
    requires LabDomain(domain).Some?
    ensures var r := LabDomain(domain).value;
      && (exists p: nat :: LabelSpan(r, 0, p) && p < |r| && r[p] == '.')
      && (exists q: nat :: q < |r| && r[q] == '.' && LetterSpan(r, q + 1, |r|))
  {
    var r := LabDomain(domain).value;
    assert MatchesLabDomain(r);
    var p := DotFrom(r, 0);
    var q := DotFrom(r, p + 1);
    if q == |r| {
      assert LabelSpan(r, 0, p) && r[p] == '.' && LetterSpan(r, p + 1, |r|);
    } else {
      assert LabelSpan(r, 0, p) && r[q] == '.' && LetterSpan(r, q + 1, |r|);
    }
  }

  /** A label character in front of a word of the language gives another
      word of it: group 1 grows by one character. */
  lemma ExtendLeft(c: char, s: string)
    requires IsLabelChar(c) && InLabDomainLanguage(s)
    ensures InLabDomainLanguage([c] + s)
  {
    var t := [c] + s;
    forall i | 1 <= i < |t| ensures t[i] == s[i - 1] { }
    if p: nat :| OneDotSplit(s, p) {
      assert OneDotSplit(t, p + 1);
    } else {
      var p: nat, q: nat :| TwoDotSplit(s, p, q);
      assert TwoDotSplit(t, p + 1, q + 1);
    }
  }

  /** Because the search takes the leftmost start, the lab domain cannot be
      extended to the left: the character before it, if any, is outside
      `[a-zA-Z0-9-]`. */
  lemma LabDomainNotExtensible(domain: string, k: nat)
    requires 0 < k <= MatchEnd(domain)
    requires LabDomain(domain) == Some(domain[k..MatchEnd(domain)])
    ensures !IsLabelChar(domain[k - 1])
  {
    var e := MatchEnd(domain);
    var k0 := SearchFrom(domain, 0, e).value;
    assert |domain[k0..e]| == e - k0;
    assert k0 == k;
    if IsLabelChar(domain[k - 1]) {
      ExtendLeftMatches(domain, k, e);
    }
  }

  /** `ExtendLeft` for the window `d[k..e]` and the decision procedure. */
  lemma ExtendLeftMatches(d: string, k: nat, e: nat)
    requires 0 < k <= e <= |d|
    requires IsLabelChar(d[k - 1]) && MatchesLabDomain(d[k..e])
    ensures MatchesLabDomain(d[k - 1..e])
  {
    MatchesLabDomainCorrect(d[k..e]);
    ExtendLeft(d[k - 1], d[k..e]);
    assert [d[k - 1]] + d[k..e] == d[k - 1..e];
    MatchesLabDomainCorrect(d[k - 1..e]);
  }

  /** The role and certificate `create_cert` declares. */
  datatype Role = Role(resourceName: string, name: string, backend: string,
                       allowedDomains: seq<string>, allowSubdomains: bool)
  datatype Certificate = Certificate(resourceName: string, roleName: string,
                                     commonName: string, backend: string)
  datatype Issuance = Issuance(role: Role, certificate: Certificate)

  /** `create_cert(name, domain)` on a PKI mounted at `mountPath`: fails its
      assertion when the pattern matches nowhere, otherwise declares a role
      whose only allowed domain is the lab domain, with subdomains allowed, and
      a certificate for the full domain issued through that role. */
  function CreateCert(mountPath: string, name: string, domain: string): (r: Result<Issuance>)
    ensures r.Err? <==> LabDomain(domain).None?
    ensures r.Err? ==> r.error.message == "could not extract domain from " + domain
    ensures r.Ok? ==> r.value.role.allowedDomains == [LabDomain(domain).value]
    ensures r.Ok? ==> r.value.role.allowSubdomains
    ensures r.Ok? ==> r.value.certificate.commonName == domain
    ensures r.Ok? ==> r.value.certificate.roleName == r.value.role.name == name
    ensures r.Ok? ==> r.value.role.backend == r.value.certificate.backend == mountPath
  {
    match LabDomain(domain)
    case None => Err(AssertionError("could not extract domain from " + domain))
    case Some(labDomain) =>
      Ok(Issuance(Role(name, name, mountPath, [labDomain], true),
                  Certificate(name, name, domain, mountPath)))
  }

  /** Unless the domain ends in a newline, the certificate's common name ends
      with the role's only allowed domain. */
  lemma CommonNameEndsWithLabDomain(mountPath: string, name: string, domain: string)
    requires !EndsWith(domain, "\n")
    requires CreateCert(mountPath, name, domain).Ok?
    ensures var issued := CreateCert(mountPath, name, domain).value;
      EndsWith(issued.certificate.commonName, issued.role.allowedDomains[0])
  {
    LabDomainIsLongestSuffix(domain);
  }

  /** Without a final newline the lab domain is the tail of the domain that
      starts where the search stopped. */
  lemma LabDomainIsTail(domain: string)
    requires !EndsWith(domain, "\n")
    requires LabDomain(domain).Some?
    ensures MatchEnd(domain) == |domain|
    ensures |LabDomain(domain).value| <= |domain|
    ensures LabDomain(domain) == Some(domain[|domain| - |LabDomain(domain).value|..MatchEnd(domain)])
  {
    if |domain| > 0 {
      assert domain[|domain| - 1..] == [domain[|domain| - 1]];
    }
  }

  /** For a domain made of labels and dots with no final newline, the
      certificate's common name is within what the role allows: it is the
      role's allowed domain itself, or a subdomain of it. */
  lemma RoleCoversCommonName(mountPath: string, name: string, domain: string)
    requires forall i | 0 <= i < |domain| :: IsLabelChar(domain[i]) || domain[i] == '.'
    requires CreateCert(mountPath, name, domain).Ok?
    ensures var issued := CreateCert(mountPath, name, domain).value;
      var allowed := issued.role.allowedDomains[0];
      issued.certificate.commonName == allowed || EndsWith(issued.certificate.commonName, "." + allowed)
  {
    LabDomainCoversDomain(domain);
  }

  /** For a domain made of labels and dots, the domain is its lab domain or a
      subdomain of it. */
  lemma LabDomainCoversDomain(domain: string)
    requires forall i | 0 <= i < |domain| :: IsLabelChar(domain[i]) || domain[i] == '.'
    requires LabDomain(domain).Some?
    ensures var lab := LabDomain(domain).value;
      domain == lab || EndsWith(domain, "." + lab)
  {
    assert !EndsWith(domain, "\n") by {
      if |domain| > 0 {
        assert domain[|domain| - 1..][0] == domain[|domain| - 1];
      }
    }
    LabDomainIsTail(domain);
    var k := |domain| - |LabDomain(domain).value|;
    if k > 0 {
      DotBeforeLabDomain(domain, k);
      EndsWithDotTail(domain, k);
    }
  }

  /** In a domain of labels and dots, a lab domain that does not start the
      domain follows a dot. */
  lemma DotBeforeLabDomain(domain: string, k: nat)
    requires forall i | 0 <= i < |domain| :: IsLabelChar(domain[i]) || domain[i] == '.'
    requires 0 < k <= MatchEnd(domain)
    requires LabDomain(domain) == Some(domain[k..MatchEnd(domain)])
    ensures domain[k - 1] == '.'
  {
    LabDomainNotExtensible(domain, k);
  }

  /** A tail that follows a dot is, with that dot, a suffix. */
  lemma EndsWithDotTail(s: string, k: nat)
    requires 0 < k <= |s| && s[k - 1] == '.'
    ensures EndsWith(s, "." + s[k..])
  {
    assert s[k - 1..] == "." + s[k..];
  }

  /** The lab domain starts at `k` when the window from `k` is in the
      language and no window from an earlier start is. */
  lemma LabDomainStartsAt(domain: string, k: nat)
    requires k <= MatchEnd(domain)
    requires forall j | 0 <= j < k :: !MatchesLabDomain(domain[j..MatchEnd(domain)])
    requires MatchesLabDomain(domain[k..MatchEnd(domain)])
    ensures LabDomain(domain) == Some(domain[k..MatchEnd(domain)])
  {
  }

  /** `git.lab.com` parses as `git`, `.lab`, `.com`. */
  lemma GitLabComMatches()
    ensures MatchesLabDomain("git.lab.com")
  {
    TwoDotSplitMatches("git.lab.com", 3, 7);
  }

  /** The comment says the subdomains are dropped, but a next-to-last label of
      two to five letters is read as group 2, so one more label is kept. */
  lemma ShortSecondLevelKeepsSubdomain()
    ensures LabDomain("git.lab.com") == Some("git.lab.com")
  {
    var d := "git.lab.com";
    GitLabComMatches();
    assert d[0..11] == d;
    LabDomainStartsAt(d, 0);
  }

  /** The same for a two-letter second-level domain under a country code. */
  lemma CountryCodeKeepsSubdomain()
    ensures LabDomain("x.co.uk") == Some("x.co.uk")
  {
    var d := "x.co.uk";
    TwoDotSplitMatches(d, 1, 4);
    assert d[0..7] == d;
    LabDomainStartsAt(d, 0);
  }

  /** The tails of `vault.galaxygridlabs.com` that start before its first dot
      are refused: their dots are fourteen letters apart, too far for group 2,
      and group 3 cannot hold a dot. */
  lemma LongSecondLevelWindowRefused(i: nat)
    requires i < 5
    ensures !MatchesLabDomain("vault.galaxygridlabs.com"[i..24])
  {
    var d := "vault.galaxygridlabs.com";
    var s := d[i..24];
    assert d[5] == '.' && d[20] == '.';
    assert forall j | 0 <= j < 5 :: d[j] != '.';
    assert forall j | 6 <= j < 20 :: d[j] != '.';
    forall j | 0 <= j < 20 - i ensures s[j] == d[i + j] { }
    assert DotFrom(s, 0) == 5 - i;
    assert DotFrom(s, 6 - i) == 20 - i;
  }

  /** A long next-to-last label is not group 2, so the subdomain is dropped. */
  lemma LongSecondLevelDropsSubdomain()
    ensures LabDomain("vault.galaxygridlabs.com") == Some("galaxygridlabs.com")
  {
    var d := "vault.galaxygridlabs.com";
    assert MatchEnd(d) == 24;
    forall j | 0 <= j < 5 ensures !MatchesLabDomain(d[j..24]) {
      LongSecondLevelWindowRefused(j);
    }
    // the start at the dot has an empty first label
    assert DotFrom(d[5..24], 0) == 0 by { assert d[5..24][0] == d[5] == '.'; }
    var lab := d[6..24];
    assert lab == "galaxygridlabs.com";
    assert lab[14] == '.';
    assert forall i | 0 <= i < 14 :: lab[i] != '.' && IsLabelChar(lab[i]);
    assert DotFrom(lab, 0) == 14;
    assert forall i | 15 <= i < 18 :: lab[i] != '.' && IsAsciiLetter(lab[i]);
    assert DotFrom(lab, 15) == 18;
    LabDomainStartsAt(d, 6);
  }

  /** Python's `$` also matches before a final newline, so for a domain that
      ends in one the lab domain is not a suffix of it, and the certificate's
      common name is not within the role's allowed domain. */
  lemma TrailingNewlineQuirk()
    ensures LabDomain("git.lab.com\n") == Some("git.lab.com")
    ensures !EndsWith("git.lab.com\n", "git.lab.com")
  {
    var d := "git.lab.com\n";
    assert MatchEnd(d) == 11;
    GitLabComMatches();
    assert d[0..11] == "git.lab.com";
    LabDomainStartsAt(d, 0);
    assert d[1..][10] == '\n';
  }

  /** The tails of `a_b.com`: the ones that hold the underscore are refused,
      `b.com` is accepted. */
  lemma UnderscoreWindows()
    ensures !MatchesLabDomain("a_b.com") && !MatchesLabDomain("_b.com")
    ensures MatchesLabDomain("b.com")
  {
    OneDotSplitMatches("b.com", 1);
  }

  /** A character outside `[a-zA-Z0-9-]` before the last labels cuts the lab
      domain short: for `a_b.com` the lab domain is `b.com`. */
  lemma UnderscoreCutsLabDomain()
    ensures LabDomain("a_b.com") == Some("b.com")
  {
    var d := "a_b.com";
    UnderscoreWindows();
    assert MatchEnd(d) == 7;
    assert d[0..7] == d;
    assert d[1..7] == "_b.com";
    assert d[2..7] == "b.com";
    LabDomainStartsAt(d, 2);
  }

  /** So the certificate `create_cert` requests for `a_b.com` is neither the
      role's allowed domain nor a subdomain of it. */
  lemma UnderscoreDomainNotCovered(mountPath: string, name: string)
    ensures CreateCert(mountPath, name, "a_b.com").Ok?
    ensures CreateCert(mountPath, name, "a_b.com").value.role.allowedDomains == ["b.com"]
    ensures !EndsWith("a_b.com", ".b.com")
  {
    UnderscoreCutsLabDomain();
    assert "a_b.com"[1..][0] == '_';
  }

  /** The URL configuration the constructor declares for the mount. */
  datatype UrlConfig = UrlConfig(crlDistributionPoints: seq<string>, issuingCertificates: seq<string>)

  /** `f"{vault_address}/v1/{mount}/{endpoint}"`: an endpoint of the PKI mount. */
  function MountUrl(vaultAddress: string, mount: string, endpoint: string): string {
    vaultAddress + "/v1/" + mount + "/" + endpoint
  }

  /** The URLs AS WRITTEN: the CRL distribution point names the mount's `ca`
      endpoint and the issuing-certificates URL its `crl` endpoint. */
  function ConfigUrls(vaultAddress: string, name: string): UrlConfig {
    UrlConfig([MountUrl(vaultAddress, name, "ca")], [MountUrl(vaultAddress, name, "crl")])
  }

  /** The URLs as evidently intended: CRLs from `crl`, the issuer from `ca`. */
  function IntendedConfigUrls(vaultAddress: string, name: string): UrlConfig {
    UrlConfig([MountUrl(vaultAddress, name, "crl")], [MountUrl(vaultAddress, name, "ca")])
  }

  /** As written, each list names the other kind's endpoint: the two lists are
      the intended ones exchanged. */
  lemma ConfigUrlsSwapped(vaultAddress: string, name: string)
    ensures EndsWith(ConfigUrls(vaultAddress, name).crlDistributionPoints[0], "/ca")
    ensures ConfigUrls(vaultAddress, name).crlDistributionPoints
         == IntendedConfigUrls(vaultAddress, name).issuingCertificates
    ensures ConfigUrls(vaultAddress, name).issuingCertificates
         == IntendedConfigUrls(vaultAddress, name).crlDistributionPoints
    ensures ConfigUrls(vaultAddress, name) != IntendedConfigUrls(vaultAddress, name)
  {
    var crl := ConfigUrls(vaultAddress, name).crlDistributionPoints[0];
    assert crl[|crl| - 3..] == "/ca";
    var ca := MountUrl(vaultAddress, name, "ca");
    var intended := MountUrl(vaultAddress, name, "crl");
    assert |ca| != |intended|;
  }

  /** `PKI.__init__` mounts the engine at the component's `name`, so a
      certificate `create_cert` issues on that mount is served under the same
      `/v1/<name>/` prefix the configured URLs use; with the intended URLs its
      issuer is the mount's `ca` endpoint. */
  lemma IssuedUnderConfiguredMount(vaultAddress: string, pkiName: string, name: string, domain: string)
    requires CreateCert(pkiName, name, domain).Ok?
    ensures var issued := CreateCert(pkiName, name, domain).value;
      && ConfigUrls(vaultAddress, pkiName).issuingCertificates
         == [MountUrl(vaultAddress, issued.certificate.backend, "crl")]
      && IntendedConfigUrls(vaultAddress, pkiName).issuingCertificates
         == [MountUrl(vaultAddress, issued.certificate.backend, "ca")]
      && IntendedConfigUrls(vaultAddress, pkiName).crlDistributionPoints
         == [MountUrl(vaultAddress, issued.role.backend, "crl")]
  {
  }

  /** In the intended configuration each URL is the mount endpoint of its own
      kind, under the configured Vault address. */
  lemma IntendedConfigUrlsEndpoints(vaultAddress: string, name: string)
    ensures var urls := IntendedConfigUrls(vaultAddress, name);
      && |urls.crlDistributionPoints| == 1 && |urls.issuingCertificates| == 1
      && StartsWith(urls.crlDistributionPoints[0], vaultAddress + "/v1/" + name + "/")
      && EndsWith(urls.crlDistributionPoints[0], "/crl")
      && StartsWith(urls.issuingCertificates[0], vaultAddress + "/v1/" + name + "/")
      && EndsWith(urls.issuingCertificates[0], "/ca")
  {
    var urls := IntendedConfigUrls(vaultAddress, name);
    var prefix := vaultAddress + "/v1/" + name + "/";
    var crl, ca := urls.crlDistributionPoints[0], urls.issuingCertificates[0];
    assert crl == prefix + "crl" && ca == prefix + "ca";
    assert crl[..|prefix|] == prefix && ca[..|prefix|] == prefix;
    assert crl[|crl| - 4..] == "/crl" && ca[|ca| - 3..] == "/ca";
  }
}
