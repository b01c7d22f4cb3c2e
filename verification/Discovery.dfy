/** Merging the records mDNS and SSDP found into one device per address
    (src/discovery.rs, `merge`). */
module Discovery {
  /** `endpoint` stands for host, port, identifier and control URLs. */
  datatype Device = Device(ip: string, protocol: string, name: string, model: string, endpoint: int,
                           alternates: set<string>) {
    /** A name someone gave it, not just its address. */
    predicate Named() {
      name != "" && name != ip
    }

    function Speaks(): set<string> {
      {protocol} + alternates
    }
  }

  function Preference(protocol: string): nat {
    match protocol case "dlna" => 3 case "cast" => 2 case "airplay" => 1 case _ => 0
  }

  // ---- What a merged device has to be ---------------------------------------------------

  function Records(all: seq<Device>, ip: string): seq<Device> {
    if all == [] then []
    else
      var before := Records(all[..|all| - 1], ip);
      if all[|all| - 1].ip == ip then before + [all[|all| - 1]] else before
  }

  function AllSpoken(records: seq<Device>): set<string> {
    if records == [] then {} else AllSpoken(records[..|records| - 1]) + records[|records| - 1].Speaks()
  }

  /** The first of the records whose protocol is preferred most. */
  predicate FirstBest(records: seq<Device>, i: nat) {
    i < |records|
    && (forall j :: 0 <= j < |records| ==> Preference(records[j].protocol) <= Preference(records[i].protocol))
    && (forall j :: 0 <= j < i ==> Preference(records[j].protocol) < Preference(records[i].protocol))
  }

  predicate SameEndpoint(d: Device, e: Device) {
    d.ip == e.ip && d.protocol == e.protocol && d.endpoint == e.endpoint
  }

  /** `d` stands for all of `records`: it is reached the preferred way, knows every
      other way, and has a name and a model if any record had. */
  predicate StandsFor(d: Device, records: seq<Device>) {
    (exists i :: 0 <= i < |records| && FirstBest(records, i) && SameEndpoint(d, records[i]))
    && d.Speaks() == AllSpoken(records)
    && (d.Named() <==> exists i :: 0 <= i < |records| && records[i].Named())
    && (d.name != "" ==> exists i :: 0 <= i < |records| && records[i].name == d.name)
    && (d.model != "" <==> exists i :: 0 <= i < |records| && records[i].model != "")
  }

  predicate Found(records: seq<Device>, protocol: string) {
    exists i :: 0 <= i < |records| && records[i].protocol == protocol
  }

  /** Over DLNA if it can be, then over Cast, then over AirPlay. */
  predicate ReachedBest(d: Device, records: seq<Device>) {
    (Found(records, "dlna") ==> d.protocol == "dlna")
    && (Found(records, "cast") && !Found(records, "dlna") ==> d.protocol == "cast")
    && (Found(records, "airplay") && !Found(records, "cast") && !Found(records, "dlna") ==> d.protocol == "airplay")
  }

  lemma BestIsReached(d: Device, records: seq<Device>)
    requires StandsFor(d, records)
    ensures ReachedBest(d, records)
  {
    hide AllSpoken;
    var i :| 0 <= i < |records| && FirstBest(records, i) && SameEndpoint(d, records[i]);
    assert Found(records, d.protocol);
  }

  // ---- The loop ---------------------------------------------------------------------------

  method Merge(mdns: seq<Device>, dlna: seq<Device>) returns (byIp: map<string, Device>)
    ensures forall ip :: ip in byIp <==> Records(mdns + dlna, ip) != []
    ensures forall ip :: ip in byIp ==> StandsFor(byIp[ip], Records(mdns + dlna, ip))
    ensures forall ip :: ip in byIp ==> ReachedBest(byIp[ip], Records(mdns + dlna, ip))
  {
    hide StandsFor, Preference, ReachedBest;
    byIp := map[];
    var all := mdns + dlna;
    for i := 0 to |all|
      invariant forall ip :: ip in byIp <==> Records(all[..i], ip) != []
      invariant forall ip :: ip in byIp ==> StandsFor(byIp[ip], Records(all[..i], ip))
    {
      var device := all[i];
      var ip := device.ip;
      RecordsNext(all, i);
      if ip !in byIp {
        StandsForOne(device);
        byIp := byIp[ip := device];
      } else {
        var existing := byIp[ip];
        RecordsHaveIp(all[..i], ip);
        KeepsIp(existing, Records(all[..i], ip), ip);
        byIp := byIp - {ip};
        var better := Preference(device.protocol) > Preference(existing.protocol);
        var keep, drop := if better then device else existing, if better then existing else device;
        keep := keep.(alternates := keep.alternates + drop.alternates + {drop.protocol});
        if (keep.name == "" || keep.name == keep.ip) && drop.name != "" {
          keep := keep.(name := drop.name);
        }
        if keep.model == "" && drop.model != "" {
          keep := keep.(model := drop.model);
        }
        StandsForMore(existing, device, keep, Records(all[..i], ip));
        byIp := byIp[ip := keep];
      }
    }
    assert all[..|all|] == all;
    forall ip | ip in byIp ensures ReachedBest(byIp[ip], Records(all, ip)) {
      BestIsReached(byIp[ip], Records(all, ip));
    }
  }

  lemma RecordsNext(all: seq<Device>, i: nat)
    requires i < |all|
    ensures forall ip :: Records(all[..i + 1], ip)
                      == (if all[i].ip == ip then Records(all[..i], ip) + [all[i]] else Records(all[..i], ip))
  {
    assert all[..i + 1][..i] == all[..i];
  }

  lemma {:induction false} RecordsHaveIp(all: seq<Device>, ip: string)
    ensures forall i :: 0 <= i < |Records(all, ip)| ==> Records(all, ip)[i].ip == ip
  {
    if all != [] {
      RecordsHaveIp(all[..|all| - 1], ip);
    }
  }

  lemma KeepsIp(d: Device, records: seq<Device>, ip: string)
    requires StandsFor(d, records) && forall i :: 0 <= i < |records| ==> records[i].ip == ip
    ensures d.ip == ip
  {
    hide AllSpoken, Preference;
  }

  lemma StandsForOne(d: Device)
    ensures StandsFor(d, [d]) && [] + [d] == [d]
  {
    hide Preference;
    var r := [d];
    assert FirstBest(r, 0) && r[0] == d;
    assert r[..0] == [] && AllSpoken([]) == {};
  }

  /** What one round of the loop makes of two devices with one address. */
  predicate Merged(existing: Device, device: Device, keep: Device) {
    var better := Preference(device.protocol) > Preference(existing.protocol);
    var best, other := if better then device else existing, if better then existing else device;
    keep == best.(alternates := best.alternates + other.alternates + {other.protocol},
                  name := if !best.Named() && other.name != "" then other.name else best.name,
                  model := if best.model == "" then other.model else best.model)
  }

  lemma StandsForMore(existing: Device, device: Device, keep: Device, records: seq<Device>)
    requires StandsFor(existing, records) && existing.ip == device.ip && Merged(existing, device, keep)
    ensures StandsFor(keep, records + [device])
  {
    hide Preference, FirstBest, AllSpoken;
    var more := records + [device];
    assert more[|records|] == device && forall i :: 0 <= i < |records| ==> more[i] == records[i];
    assert more[..|records|] == records;
    BestOfMore(existing, device, keep, records);
    SpokenMore(records, device);
  }

  lemma SpokenMore(records: seq<Device>, d: Device)
    ensures AllSpoken(records + [d]) == AllSpoken(records) + d.Speaks()
  {
    assert (records + [d])[..|records|] == records;
  }

  lemma BestOfMore(existing: Device, device: Device, keep: Device, records: seq<Device>)
    requires Merged(existing, device, keep) && existing.ip == device.ip
    requires exists i :: 0 <= i < |records| && FirstBest(records, i) && SameEndpoint(existing, records[i])
    ensures var more := records + [device];
      exists i :: 0 <= i < |more| && FirstBest(more, i) && SameEndpoint(keep, more[i])
  {
    hide Preference;
    var more := records + [device];
    var i :| 0 <= i < |records| && FirstBest(records, i) && SameEndpoint(existing, records[i]);
    var best := if Preference(device.protocol) > Preference(existing.protocol) then |records| else i;
    assert FirstBest(more, best) && SameEndpoint(keep, more[best]);
  }

  // ---- The order of discovery does not matter --------------------------------------------------

  lemma {:induction false} SpokenBySome(records: seq<Device>, p: string)
    ensures p in AllSpoken(records) <==> exists i :: 0 <= i < |records| && p in records[i].Speaks()
  {
    if records != [] {
      var before := records[..|records| - 1];
      SpokenBySome(before, p);
      assert forall i :: 0 <= i < |before| ==> before[i] == records[i];
    }
  }

  lemma SameMembers(a: seq<Device>, b: seq<Device>, i: nat) returns (j: nat)
    requires multiset(a) == multiset(b) && i < |a|
    ensures j < |b| && b[j] == a[i]
  {
    assert a[i] in multiset(b);
    j :| j < |b| && b[j] == a[i];
  }

  /** Two orders of the same records give devices that are reached equally well, speak
      the same protocols, and both have a name and a model or neither has. */
  lemma OrderDoesNotMatter(a: seq<Device>, b: seq<Device>, d: Device, e: Device)
    requires multiset(a) == multiset(b) && StandsFor(d, a) && StandsFor(e, b)
    ensures Preference(d.protocol) == Preference(e.protocol) && d.Speaks() == e.Speaks()
    ensures d.Named() == e.Named() && (d.model != "") == (e.model != "")
    ensures Preference(d.protocol) > 0 ==> d.protocol == e.protocol
  {
    hide Preference, AllSpoken;
    OneWay(a, b, d, e);
    OneWay(b, a, e, d);
    Preferred(d.protocol, e.protocol);
  }

  lemma OneWay(a: seq<Device>, b: seq<Device>, d: Device, e: Device)
    requires multiset(a) == multiset(b) && StandsFor(d, a) && StandsFor(e, b)
    ensures Preference(d.protocol) <= Preference(e.protocol) && d.Speaks() <= e.Speaks()
    ensures d.Named() ==> e.Named()
    ensures d.model != "" ==> e.model != ""
  {
    hide Preference, AllSpoken;
    forall i | 0 <= i < |a| ensures exists j :: 0 <= j < |b| && b[j] == a[i] {
      var j := SameMembers(a, b, i);
    }
    forall p | p in d.Speaks() ensures p in e.Speaks() {
      SpokenBySome(a, p);
      SpokenBySome(b, p);
    }
  }

  lemma Preferred(p: string, q: string)
    ensures Preference(p) == Preference(q) > 0 ==> p == q
  {
  }
}
