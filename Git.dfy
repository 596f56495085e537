/** The `Gitea` component. Unlike the Vault components it validates its three
    inputs BEFORE calling `super().__init__`, so an invalid input means the
    component is never registered. */
module Git {
  import opened Common
  import opened Patterns

  const TypeToken := "ggl:shared/git:Gitea"

  /** The first assertion `__init__` fails, checking name, subdomain and
      dns_zone in that order; `Pass` when all three are accepted. */
  function CheckInputs(name: string, subdomain: string, dnsZone: string): (r: Outcome)
    ensures r.Pass? <==> IsNameToken(name) && IsNameToken(subdomain) && IsGcpZoneName(dnsZone)
    ensures !IsNameToken(name) ==> r.error.message == MustMatch("name", NamePattern)
    ensures IsNameToken(name) && !IsNameToken(subdomain) ==>
      r.error.message == MustMatch("subdomain", NamePattern)
    ensures IsNameToken(name) && IsNameToken(subdomain) && !IsGcpZoneName(dnsZone) ==>
      r.error.message == MustMatch("GCP dns_zone", ZonePattern)
  {
    if !IsNameToken(name) then Assert(false, MustMatch("name", NamePattern))
    else if !IsNameToken(subdomain) then Assert(false, MustMatch("subdomain", NamePattern))
    else Assert(IsGcpZoneName(dnsZone), MustMatch("GCP dns_zone", ZonePattern))
  }

  /** The arguments the application stack passes (`Gitea("gitea", "git",
      "galaxygridlabs-com")`) pass every check. */
  lemma ApplicationInputsAccepted()
    ensures CheckInputs("gitea", "git", "galaxygridlabs-com") == Pass
  {
    assert IsNameToken("gitea") && IsNameToken("git");
    LabZoneAccepted();
  }

  class Gitea {
    var registration: Option<Registration>
    /** The private attributes `__name`, `__subdomain`, `__dns_zone`. */
    var name: Option<string>
    var subdomain: Option<string>
    var dnsZone: Option<string>

    /** A fresh object, before `__init__` has run. */
    constructor ()
      ensures registration == None && name == None && subdomain == None && dnsZone == None
    {
      registration, name, subdomain, dnsZone := None, None, None, None;
    }

    function Name(): (r: Option<string>)
      reads this
      ensures r == name
    {
      name
    }

    function Subdomain(): (r: Option<string>)
      reads this
      ensures r == subdomain
    {
      subdomain
    }

    function DnsZone(): (r: Option<string>)
      reads this
      ensures r == dnsZone
    {
      dnsZone
    }

    /** The `name` setter: `[a-z0-9-]+` or an AssertionError. */
    method SetName(value: string) returns (r: Outcome)
      modifies this`name
      ensures r.Pass? <==> IsNameToken(value)
      ensures r.Fail? ==> r.error.message == MustMatch("name", NamePattern)
      ensures name == if r.Pass? then Some(value) else old(name)
    {
      r := Assert(IsNameToken(value), MustMatch("name", NamePattern));
      if r.Pass? {
        name := Some(value);
      }
    }

    /** The `subdomain` setter, with the same rule as `name`. */
    method SetSubdomain(value: string) returns (r: Outcome)
      modifies this`subdomain
      ensures r.Pass? <==> IsNameToken(value)
      ensures r.Fail? ==> r.error.message == MustMatch("subdomain", NamePattern)
      ensures subdomain == if r.Pass? then Some(value) else old(subdomain)
    {
      r := Assert(IsNameToken(value), MustMatch("subdomain", NamePattern));
      if r.Pass? {
        subdomain := Some(value);
      }
    }

    /** The `dns_zone` setter: a GCP managed-zone name `[a-z0-9]+-[a-z]+`. */
    method SetDnsZone(value: string) returns (r: Outcome)
      modifies this`dnsZone
      ensures r.Pass? <==> IsGcpZoneName(value)
      ensures r.Fail? ==> r.error.message == MustMatch("GCP dns_zone", ZonePattern)
      ensures dnsZone == if r.Pass? then Some(value) else old(dnsZone)
    {
      r := Assert(IsGcpZoneName(value), MustMatch("GCP dns_zone", ZonePattern));
      if r.Pass? {
        dnsZone := Some(value);
      }
    }

    /** `__init__`: the three setters in order, then the registration. A value
        accepted before a later check fails stays stored, but the component is
        registered only when all three pass. */
    method Init(name: string, subdomain: string, dnsZone: string) returns (r: Outcome)
      modifies this
      ensures r == CheckInputs(name, subdomain, dnsZone)
      ensures registration == if r.Pass? then Some(Registration(TypeToken, name)) else old(registration)
      ensures this.name == if IsNameToken(name) then Some(name) else old(this.name)
      ensures this.subdomain ==
        if IsNameToken(name) && IsNameToken(subdomain) then Some(subdomain) else old(this.subdomain)
      ensures this.dnsZone == if r.Pass? then Some(dnsZone) else old(this.dnsZone)
    {
      r := SetName(name);
      if r.Fail? {
        return;
      }
      r := SetSubdomain(subdomain);
      if r.Fail? {
        return;
      }
      r := SetDnsZone(dnsZone);
      if r.Fail? {
        return;
      }
      registration := Some(Registration(TypeToken, name));
    }
  }
}
