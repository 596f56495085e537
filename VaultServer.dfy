/** The `Vault` class of the core stack: a plain object (not a component)
    whose constructor only validates and stores a subdomain and a GCP
    managed-zone name; the deployment steps after its first `return` are
    unreachable comments. */
module VaultServer {
  import opened Common
  import opened Patterns

  /** The first assertion the constructor fails: subdomain, then dns_zone. */
  function CheckInputs(subdomain: string, dnsZone: string): (r: Outcome)
    ensures r.Pass? <==> IsNameToken(subdomain) && IsGcpZoneName(dnsZone)
    ensures !IsNameToken(subdomain) ==> r.error.message == MustMatch("subdomain", NamePattern)
    ensures IsNameToken(subdomain) && !IsGcpZoneName(dnsZone) ==>
      r.error.message == MustMatch("GCP dns_zone", ZonePattern)
  {
    if !IsNameToken(subdomain) then Assert(false, MustMatch("subdomain", NamePattern))
    else Assert(IsGcpZoneName(dnsZone), MustMatch("GCP dns_zone", ZonePattern))
  }

  class Vault {
    /** The private attributes `__subdomain` and `__dns_zone`. */
    var subdomain: Option<string>
    var dnsZone: Option<string>

    /** A fresh object, before `__init__` has run. */
    constructor ()
      ensures subdomain == None && dnsZone == None
    {
      subdomain, dnsZone := None, None;
    }

    /** The `subdomain` getter. */
    function Subdomain(): (r: Option<string>)
      reads this
      ensures r == subdomain
    {
      subdomain
    }

    /** The `dns_zone` getter AS WRITTEN: it reads `__subdomain`, so it
        returns the subdomain, never the stored zone. */
    function DnsZone(): (r: Option<string>)
      reads this
      ensures r == subdomain
    {
      subdomain
    }

    /** The `dns_zone` getter as evidently intended: the stored zone. */
    function IntendedDnsZone(): (r: Option<string>)
      reads this
      ensures r == dnsZone
    {
      dnsZone
    }

    /** The `subdomain` setter: `[a-z0-9-]+` or an AssertionError. */
    method SetSubdomain(value: string) returns (r: Outcome)
      modifies this`subdomain
      ensures r.Pass? <==> IsNameToken(value)
      ensures r.Fail? ==> r.error.message == MustMatch("subdomain", NamePattern)
      ensures subdomain == if r.Pass? then Some(value) else old(subdomain)
    {
      r := Assert(IsNameToken(value), MustMatch("subdomain", NamePattern));
      if r.Pass? {
        subdomain := Some(value);
      }
    }

    /** The `dns_zone` setter: `[a-z0-9]+-[a-z]+` or an AssertionError. */
    method SetDnsZone(value: string) returns (r: Outcome)
      modifies this`dnsZone
      ensures r.Pass? <==> IsGcpZoneName(value)
      ensures r.Fail? ==> r.error.message == MustMatch("GCP dns_zone", ZonePattern)
      ensures dnsZone == if r.Pass? then Some(value) else old(dnsZone)
    {
      r := Assert(IsGcpZoneName(value), MustMatch("GCP dns_zone", ZonePattern));
      if r.Pass? {
        dnsZone := Some(value);
      }
    }

    /** `__init__`: the two setters in order, and nothing else. */
    method Init(subdomain: string, dnsZone: string) returns (r: Outcome)
      modifies this
      ensures r == CheckInputs(subdomain, dnsZone)
      ensures this.subdomain == if IsNameToken(subdomain) then Some(subdomain) else old(this.subdomain)
      ensures this.dnsZone == if r.Pass? then Some(dnsZone) else old(this.dnsZone)
    {
      r := SetSubdomain(subdomain);
      if r.Fail? {
        return;
      }
      r := SetDnsZone(dnsZone);
    }
  }

  /** A Vault built from the subdomain "vault" and the lab's zone reports
      "vault" as its dns_zone, while the zone it stored is "galaxygridlabs-com". */
  method DnsZoneGetterMismatch() returns (reported: Option<string>, stored: Option<string>)
    ensures reported == Some("vault")
    ensures stored == Some("galaxygridlabs-com")
    ensures reported != stored
  {
    var sub, zone := "vault", "galaxygridlabs-com";
    LabZoneAccepted();
    assert IsNameToken(sub) && IsGcpZoneName(zone);
    var v := new Vault();
    var r := v.Init(sub, zone);
    assert r == Pass;
    reported := v.DnsZone();
    stored := v.IntendedDnsZone();
  }
}
