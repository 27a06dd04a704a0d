/** The pod's host aliases, parsed from a container's "hostname:ip" extra
    hosts. */
module HostAliases {
  import opened Wrappers
  import opened Strings
  import opened Rancher
  import opened Kube

  /** One extra-hosts entry cut at its first ':' into a hostname and an IP; an
      entry without ':' gives no alias. */
  function ParseHostAlias(entry: string): Option<HostAlias>
  {
    match Cut(entry, ':')
    case None => None
    case Some((hostname, ip)) => Some(HostAlias(ip := ip, hostnames := [hostname]))
  }

  /** The extra-hosts entry an alias is written as. */
  function FormatHostAlias(hostname: string, ip: string): string
  {
    hostname + ":" + ip
  }

  /** Parsing and formatting are inverse: an alias parsed from an entry formats
      back to that entry with a hostname free of ':', and every such entry
      parses to its one hostname and its IP. */
  lemma HostAliasRoundTrip(entry: string, hostname: string, ip: string)
    ensures ParseHostAlias(entry) == Some(HostAlias(ip, [hostname]))
        <==> entry == FormatHostAlias(hostname, ip) && ':' !in hostname
  {
    if entry == FormatHostAlias(hostname, ip) && ':' !in hostname {
      CutOfJoin(hostname, ':', ip);
    }
  }

  /** The aliases of the container's extra-hosts entries, in order: each alias
      has one ':'-free hostname and formats back to one of the entries. */
  function GetHostAliases(c: Container): (r: seq<HostAlias>)
    ensures forall a :: a in r ==>
      |a.hostnames| == 1 && ':' !in a.hostnames[0] && FormatHostAlias(a.hostnames[0], a.ip) in c.extraHosts
  {
    AliasesOfSpec(c.extraHosts);
    AliasesOf(c.extraHosts)
  }

  function AliasesOf(entries: seq<string>): (r: seq<HostAlias>)
    ensures |r| <= |entries|
    ensures (forall i :: 0 <= i < |entries| ==> ':' in entries[i]) ==>
      |r| == |entries| && forall i :: 0 <= i < |r| ==> Some(r[i]) == ParseHostAlias(entries[i])
  {
    if entries == [] then []
    else
      var rest := AliasesOf(entries[1..]);
      match ParseHostAlias(entries[0])
      case None => rest
      case Some(alias) => [alias] + rest
  }

  /** Every alias has one hostname and comes from an entry, and every entry
      with a ':' yields its alias. */
  lemma {:induction false} AliasesOfSpec(entries: seq<string>)
    ensures forall alias :: alias in AliasesOf(entries) <==>
      exists e :: e in entries && ParseHostAlias(e) == Some(alias)
  {
    if entries != [] {
      AliasesOfSpec(entries[1..]);
      assert forall e :: e in entries <==> e == entries[0] || e in entries[1..];
    }
  }
}
