/** The in-memory tunnel store of src/lib/mock-db.ts: a module-level list changed in place, no commands. */
module MockDb {
  import opened Wrappers
  import opened TunnelTypes
  import opened TunnelLists

  /** The three records the store starts with. */
  function SeedTunnels(): (seeds: seq<Tunnel>)
    ensures forall j, k :: 0 <= j < k < |seeds| ==> seeds[j].id != seeds[k].id
    ensures forall j, k :: 0 <= j < k < |seeds| ==> seeds[j].interfaceName != seeds[k].interfaceName
    ensures forall j :: 0 <= j < |seeds| ==> Creation(seeds[j]).None?
  {
    [ Tunnel("1", "Main Office IPv6", LegacyIpv6, "2001:db8:abcd:0001::1", Some("2001:db8:abcd:0002::1"),
             None, None, "he-ipv6", Active),
      Tunnel("2", "Branch Office 6to4", SixToFour, "192.0.2.10", None,
             None, None, "sit1", Inactive),
      Tunnel("3", "Development Server IPv6", LegacyIpv6, "2001:db8:efgh:0003::1", Some("2001:db8:efgh:0004::1"),
             None, None, "tun0", Error) ]
  }

  /**
   * Adding a record whose interface name is already in use leaves at least two records with that
   * name: the store does not reject the duplicate.
   */
  lemma AddKeepsDuplicateInterface(s: seq<Tunnel>, data: TunnelCreationData, freshId: string)
    requires exists j :: 0 <= j < |s| && s[j].interfaceName == data.interfaceName
    ensures CountInterface(s + [NewTunnel(data, freshId)], data.interfaceName) >= 2
  {
    CountInterfaceAppend(s, NewTunnel(data, freshId), data.interfaceName);
  }

  class MockStore {
    /** `tunnels`. */
    var tunnels: seq<Tunnel>

    constructor ()
      ensures tunnels == SeedTunnels()
    {
      tunnels := SeedTunnels();
    }

    /** `getTunnels`: the whole list, in order. */
    method GetTunnels() returns (r: seq<Tunnel>)
      ensures r == tunnels
    {
      r := tunnels;
    }

    /** `getTunnelById`: the first record with the id; `JSON.parse(undefined)` throws when there is none. */
    method GetTunnelById(id: string) returns (r: Outcome<Tunnel>)
      ensures r.Returned? <==> exists j :: 0 <= j < |tunnels| && tunnels[j].id == id
      ensures r.Returned? ==> r.value == tunnels[FindIndex(tunnels, id)]
      ensures r.Threw? ==> r.error == InvalidJson
    {
      FindAtFindIndex(tunnels, id);
      match Find(tunnels, id)
      case Some(t) => r := Returned(t);
      case None => r := Threw(InvalidJson);
    }

    /** `addTunnel`: appends a new inactive record; nothing is checked against the records already held. */
    method AddTunnel(data: TunnelCreationData, freshId: string) returns (r: Tunnel)
      modifies this
      ensures r == NewTunnel(data, freshId)
      ensures tunnels == old(tunnels) + [r]
      ensures CountInterface(tunnels, data.interfaceName) == CountInterface(old(tunnels), data.interfaceName) + 1
    {
      r := NewTunnel(data, freshId);
      CountInterfaceAppend(tunnels, r, data.interfaceName);
      tunnels := tunnels + [r];
    }

    /** `updateTunnel`: for a known id the first record with it becomes `{...old, ...data}`. */
    method UpdateTunnel(id: string, data: TunnelUpdateData) returns (r: Option<Tunnel>)
      modifies this
      ensures var i := FindIndex(old(tunnels), id);
              if i == -1 then r == None && tunnels == old(tunnels)
              else r == Some(Merge(old(tunnels)[i], data)) && tunnels == old(tunnels)[i := r.value]
    {
      var i := FindIndex(tunnels, id);
      if i == -1 {
        return None;
      }
      tunnels := tunnels[i := Merge(tunnels[i], data)];
      r := Some(tunnels[i]);
    }

    /** `deleteTunnel`: drops every record with the id and reports whether the list got shorter. */
    method DeleteTunnel(id: string) returns (r: bool)
      modifies this
      ensures tunnels == RemoveById(old(tunnels), id)
      ensures r <==> |tunnels| < |old(tunnels)|
      ensures r <==> exists j :: 0 <= j < |old(tunnels)| && old(tunnels)[j].id == id
    {
      var initialLength := |tunnels|;
      RemoveByIdShrinks(tunnels, id);
      tunnels := RemoveById(tunnels, id);
      r := |tunnels| < initialLength;
    }
  }
}
