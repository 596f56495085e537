/** The regular expressions the component setters pass to `re.fullmatch`,
    each written out as a predicate on strings. All of them are built from
    character classes, so no regex engine is needed:

      `[a-z0-9-]+`             names, mount paths and subdomains
      `[a-z0-9]+-[a-z]+`       GCP managed-zone names
      `https:\/\/[a-z0-9-.]+`  Vault addresses

    Inside `[a-z0-9-.]` the `-` that follows the range `0-9` is a literal, so the
    class is lower-case letters, digits, `-` and `.`. */
module Patterns {
  import opened Text

  /** The patterns as the source spells them, for the assertion messages. */
  const NamePattern := "[a-z0-9-]+"
  const ZonePattern := "[a-z0-9]+-[a-z]+"
  const VaultAddressPattern := "https:\\/\\/[a-z0-9-.]+"

  /** The message `f"{subject} must match {regex}"` of a failed setter check. */
  function MustMatch(subject: string, pattern: string): string {
    subject + " must match " + pattern
  }

  predicate IsLower(c: char) { 'a' <= c <= 'z' }

  predicate IsDigit(c: char) { '0' <= c <= '9' }

  /** `[a-z0-9]` */
  predicate IsLowerAlnum(c: char) { IsLower(c) || IsDigit(c) }

  /** `[a-z0-9-]` */
  predicate IsNameChar(c: char) { IsLowerAlnum(c) || c == '-' }

  /** `[a-z0-9-.]` */
  predicate IsHostChar(c: char) { IsLowerAlnum(c) || c == '-' || c == '.' }

  /** `re.fullmatch(r"[a-z0-9-]+", s) is not None` */
  predicate IsNameToken(s: string) {
    |s| > 0 && forall i | 0 <= i < |s| :: IsNameChar(s[i])
  }

  /** A full match of `[a-z0-9-.]+`. */
  predicate IsHostRun(s: string) {
    |s| > 0 && forall i | 0 <= i < |s| :: IsHostChar(s[i])
  }

  const HttpsPrefix := "https://"

  /** `re.fullmatch(r"https:\/\/[a-z0-9-.]+", s) is not None` */
  predicate IsVaultAddress(s: string) {
    StartsWith(s, HttpsPrefix) && IsHostRun(s[|HttpsPrefix|..])
  }

  /** How far the greedy `[a-z0-9]+` runs from index `from` of `s`: the end of
      the longest run of `[a-z0-9]` characters starting there. */
  function AlnumRunFrom(s: string, from: nat): (n: nat)
    requires from <= |s|
    ensures from <= n <= |s|
    ensures forall i | from <= i < n :: IsLowerAlnum(s[i])
    ensures n < |s| ==> !IsLowerAlnum(s[n])
    decreases |s| - from
  {
    if from == |s| || !IsLowerAlnum(s[from]) then from else AlnumRunFrom(s, from + 1)
  }

  /** The greedy run from the start of `s`. */
  function AlnumRun(s: string): (n: nat)
    ensures n <= |s|
    ensures forall i | 0 <= i < n :: IsLowerAlnum(s[i])
    ensures n < |s| ==> !IsLowerAlnum(s[n])
  {
    AlnumRunFrom(s, 0)
  }

  /** `re.fullmatch(r"[a-z0-9]+-[a-z]+", s) is not None`, decided the way the
      matcher does it: the greedy `[a-z0-9]+` never has to give characters
      back, because the `-` that must follow is outside `[a-z0-9]`. */
  predicate IsGcpZoneName(s: string) {
    var n := AlnumRun(s);
    0 < n && n + 1 < |s| && s[n] == '-' && forall i | n < i < |s| :: IsLower(s[i])
  }

  /** The language of `[a-z0-9]+-[a-z]+`: some split of `s` into a non-empty
      `[a-z0-9]` run, one `-`, and a non-empty `[a-z]` run. */
  ghost predicate InGcpZoneLanguage(s: string) {
    exists n | 0 < n < |s| - 1 ::
      && (forall i | 0 <= i < n :: IsLowerAlnum(s[i]))
      && s[n] == '-'
      && (forall i | n < i < |s| :: IsLower(s[i]))
  }

  /** The greedy decision procedure accepts exactly the pattern's language. */
  lemma GcpZoneMatchesLanguage(s: string)
    ensures IsGcpZoneName(s) <==> InGcpZoneLanguage(s)
  {
    var n := AlnumRun(s);
    if IsGcpZoneName(s) {
      assert 0 < n < |s| - 1;
    }
    if InGcpZoneLanguage(s) {
      var m :| 0 < m < |s| - 1
        && (forall i | 0 <= i < m :: IsLowerAlnum(s[i]))
        && s[m] == '-'
        && (forall i | m < i < |s| :: IsLower(s[i]));
      // the run stops at the hyphen, and cannot stop earlier
      assert !IsLowerAlnum(s[m]);
      assert n == m;
    }
  }

  /** Accepted zone names, described without the pattern: only `[a-z0-9-]`
      characters, exactly one `-` which is neither first nor last, and no digit
      after it. */
  lemma GcpZoneShape(s: string)
    ensures IsGcpZoneName(s) <==>
      (exists h | 0 < h < |s| - 1 ::
        && s[h] == '-'
        && (forall i | 0 <= i < |s| && i != h :: IsLowerAlnum(s[i]))
        && (forall i | h < i < |s| :: !IsDigit(s[i])))
  {
    var n := AlnumRun(s);
    if IsGcpZoneName(s) {
      assert 0 < n < |s| - 1 && s[n] == '-';
      assert forall i | 0 <= i < |s| && i != n :: IsLowerAlnum(s[i]);
    }
    if h :| (0 < h < |s| - 1
        && s[h] == '-'
        && (forall i | 0 <= i < |s| && i != h :: IsLowerAlnum(s[i]))
        && (forall i | h < i < |s| :: !IsDigit(s[i]))) {
      assert !IsLowerAlnum(s[h]);
      assert n == h;
      assert forall i | n < i < |s| :: IsLower(s[i]);
    }
  }

  /** The zone name the application stack passes to Gitea is accepted. */
  lemma LabZoneAccepted()
    ensures IsGcpZoneName("galaxygridlabs-com")
  {
    var s := "galaxygridlabs-com";
    assert s[14] == '-';
    assert forall i | 0 <= i < 14 :: IsLowerAlnum(s[i]);
    assert forall i | 14 < i < |s| :: IsLower(s[i]);
    GcpZoneMatchesLanguage(s);
  }

  /** The greedy run over `[a-z0-9]` stops exactly at the first character
      outside the class. */
  lemma AlnumRunStopsAt(s: string, k: nat)
    requires k <= |s|
    requires forall i | 0 <= i < k :: IsLowerAlnum(s[i])
    requires k < |s| ==> !IsLowerAlnum(s[k])
    ensures AlnumRun(s) == k
  {
  }

  /** A DNS name with a dot in place of the hyphen is refused. */
  lemma DottedZoneNameRefused()
    ensures !IsGcpZoneName("galaxygridlabs.com")
  {
    AlnumRunStopsAt("galaxygridlabs.com", 14);
  }

  /** A zone name with a second hyphen is refused. */
  lemma TwoHyphenZoneNameRefused()
    ensures !IsGcpZoneName("galaxy-grid-labs")
  {
    var s := "galaxy-grid-labs";
    AlnumRunStopsAt(s, 6);
    assert !IsLower(s[11]);
  }

  /** A digit after the hyphen, or a hyphen in first place, is refused. */
  lemma MisplacedDigitOrHyphenRefused()
    ensures !IsGcpZoneName("lab-c0m")
    ensures !IsGcpZoneName("-com")
  {
    var s := "lab-c0m";
    AlnumRunStopsAt(s, 3);
    assert !IsLower(s[5]);
    AlnumRunStopsAt("-com", 0);
  }

  /** The lab's Vault address is accepted. */
  lemma LabVaultAddressAccepted()
    ensures IsVaultAddress("https://vault.galaxygridlabs.com")
  {
    var host := "https://vault.galaxygridlabs.com"[8..];
    assert host == "vault.galaxygridlabs.com";
  }

  /** The Vault address pattern refuses plain http, upper case, ports, paths
      and a bare scheme. */
  lemma VaultAddressesRefused()
    ensures !IsVaultAddress("http://vault.galaxygridlabs.com")
    ensures !IsVaultAddress("https://Vault.galaxygridlabs.com")
    ensures !IsVaultAddress("https://vault.galaxygridlabs.com:8200")
    ensures !IsVaultAddress("https://vault.galaxygridlabs.com/")
    ensures !IsVaultAddress("https://")
  {
    assert "http://vault.galaxygridlabs.com"[4] == ':';
    assert "https://Vault.galaxygridlabs.com"[8..][0] == 'V';
    assert "https://vault.galaxygridlabs.com:8200"[8..][24] == ':';
    assert "https://vault.galaxygridlabs.com/"[8..][24] == '/';
  }
}
