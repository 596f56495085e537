/** The DNS-name handling of the Go entry program's `setupVault`: the public
    record name is trimmed of one trailing and then one leading dot before it
    is handed on as a domain, and the private Cloud Run host is made absolute
    (section 3.1 of RFC 1034: an absolute name ends in the root label's dot).
    The host comes from `url.Parse(u).Host`, which is an input here. */
module MainDns {
  import opened Text

  const Dot := "."

  /** The `DnsName` of a record `NewDnsRecord` creates: the record's label, a
      dot, and the managed zone's DNS name. */
  function RecordDnsName(recordName: string, zoneDnsName: string): string {
    recordName + Dot + zoneDnsName
  }

  /** `strings.TrimPrefix(strings.TrimSuffix(dnsName, "."), ".")` */
  function TrimDns(dnsName: string): string {
    TrimPrefix(TrimSuffix(dnsName, Dot), Dot)
  }

  /** The trim keeps one contiguous slice: it drops the last character when it
      is a dot, then the first remaining character when that is a dot, and
      leaves everything in between as it was. */
  lemma TrimDnsSlice(dnsName: string)
    ensures var trail := if EndsWith(dnsName, Dot) then 1 else 0;
      var lead := if StartsWith(dnsName[..|dnsName| - trail], Dot) then 1 else 0;
      lead + trail <= |dnsName| &&
      TrimDns(dnsName) == dnsName[lead..|dnsName| - trail]
  {
    var trail := if EndsWith(dnsName, Dot) then 1 else 0;
    var mid := TrimSuffix(dnsName, Dot);
    assert mid == dnsName[..|dnsName| - trail];
    if StartsWith(mid, Dot) {
      assert TrimDns(dnsName) == mid[1..];
    }
  }

  /** At most one dot goes at each end: a name wrapped in two dots on both
      sides keeps one on each. */
  lemma TrimDnsRemovesOneDotPerEnd(inner: string)
    ensures TrimDns(".." + inner + "..") == "." + inner + "."
  {
    var s := ".." + inner + "..";
    assert TrimSuffix(s, Dot) == ".." + inner + "." by {
      assert s[|s| - 1..] == Dot;
      assert (".." + inner + ".") + Dot == s;
    }
    var mid := ".." + inner + ".";
    assert mid[..1] == Dot;
    assert Dot + ("." + inner + ".") == mid;
  }

  /** For the Vault record, `vault.` in a zone whose DNS name ends in a dot,
      the trim gives `vault.` and the zone without its final dot. */
  lemma TrimmedVaultDomain(zoneDnsName: string)
    requires EndsWith(zoneDnsName, Dot)
    ensures TrimDns(RecordDnsName("vault", zoneDnsName)) == "vault." + zoneDnsName[..|zoneDnsName| - 1]
  {
    var s := RecordDnsName("vault", zoneDnsName);
    var zone := zoneDnsName[..|zoneDnsName| - 1];
    assert zoneDnsName == zone + Dot;
    assert s == ("vault." + zone) + Dot;
    assert s[|s| - 1..] == Dot;
    assert TrimSuffix(s, Dot) == "vault." + zone;
    assert ("vault." + zone)[0] == 'v';
  }

  /** The `ApplyT` closure: a host that already ends in a dot is kept, any
      other host gets one dot appended. */
  function AbsoluteHost(host: string): (r: string)
    ensures EndsWith(r, Dot)
    ensures StartsWith(r, host) && |r| <= |host| + 1
    ensures EndsWith(host, Dot) ==> r == host
  {
    if !EndsWith(host, Dot) then host + Dot else host
  }

  /** Making a host absolute is the shortest way to extend it to a name ending
      in a dot: every other such extension is at least as long. */
  lemma AbsoluteHostIsShortest(host: string, other: string)
    requires StartsWith(other, host) && EndsWith(other, Dot)
    ensures |AbsoluteHost(host)| <= |other|
  {
    if !EndsWith(host, Dot) {
      // `other` ends in a dot and `host` does not, so `other` is strictly longer
      assert other != host;
      assert other[..|other|] == other;
    }
  }

  /** Applying the closure twice gives what applying it once gives. */
  lemma AbsoluteHostIdempotent(host: string)
    ensures AbsoluteHost(AbsoluteHost(host)) == AbsoluteHost(host)
  {
  }

  /** The closure and the trailing-dot trim undo each other: trimming a host
      that ends in exactly one dot and making it absolute again gives it
      back, and making a relative host absolute and trimming gives the
      relative host back. */
  lemma AbsoluteHostTrimRoundTrip(host: string)
    ensures EndsWith(host, Dot) && !EndsWith(host, "..") ==> AbsoluteHost(TrimSuffix(host, Dot)) == host
    ensures !EndsWith(host, Dot) ==> TrimSuffix(AbsoluteHost(host), Dot) == host
  {
    if EndsWith(host, Dot) && !EndsWith(host, "..") {
      var r := TrimSuffix(host, Dot);
      assert r + Dot == host;
      if |r| > 0 {
        assert host[|host| - 2..] == [r[|r| - 1]] + Dot;
      }
    } else if !EndsWith(host, Dot) {
      assert (host + Dot)[|host + Dot| - 1..] == Dot;
    }
  }
}
