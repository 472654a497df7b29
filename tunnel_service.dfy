/**
 * The simulated Ubuntu tunnel service (src/services/ubuntuTunnelService.ts): a module-level list of
 * tunnels changed in place, where every change first hands an iproute2-style command line to a
 * simulated executor.
 */
module UbuntuTunnelService {
  import opened Wrappers
  import opened TunnelTypes
  import opened TunnelLists
  import opened Text

  // ----- the simulated executor -----

  /** The text whose presence makes the simulated executor fail. */
  const FailureMarker := "error_test"

  datatype CommandResult = CommandResult(success: bool, message: string)

  /** `executeSimulatedCommand` without its delay and logging: it fails exactly on the marker text. */
  function Simulate(command: string): (r: CommandResult)
    ensures r.success <==> forall i :: !OccursAt(command, FailureMarker, i)
  {
    if Contains(command, FailureMarker) then
      CommandResult(false, "Simulated error executing: " + command)
    else
      CommandResult(true, "Simulated success for: " + command)
  }

  // ----- command lines -----

  const NetplanApply := " && sudo netplan apply"

  /** A template literal's rendering of a possibly undefined string. */
  function Interpolate(v: Option<string>): (text: string)
    ensures v.Some? ==> text == v.value
    ensures v.None? ==> text == "undefined"
  {
    match v
    case Some(s) => s
    case None => "undefined"
  }

  /** The tunnel creation command for a type; only '6to4' and the legacy 'ipv6' have one. */
  function AddPrefix(tunnelType: TunnelType, interfaceName: string, localIp: string, remoteIp: Option<string>): (p: string)
    ensures p == "" <==> tunnelType == Ipip6 || tunnelType == Gre6
    ensures p != "" ==> "sudo ip tunnel add " + interfaceName + " mode " <= p
  {
    match tunnelType
    case SixToFour =>
      "sudo ip tunnel add " + interfaceName + " mode sit local " + localIp + " ttl 64"
    case LegacyIpv6 =>
      "sudo ip tunnel add " + interfaceName + " mode ip6tnl local " + localIp + " remote "
        + Interpolate(remoteIp) + " encaplimit none"
    case _ => ""
  }

  /** The command line executed to create a tunnel. */
  function AddCommand(tunnelType: TunnelType, interfaceName: string, localIp: string, remoteIp: Option<string>): (c: string)
    ensures |c| >= |NetplanApply| && c[|c| - |NetplanApply|..] == NetplanApply
    ensures c == NetplanApply <==> tunnelType == Ipip6 || tunnelType == Gre6
  {
    var p := AddPrefix(tunnelType, interfaceName, localIp, remoteIp);
    assert (p + NetplanApply)[|p|..] == NetplanApply;
    p + NetplanApply
  }

  /** The teardown run before an update re-creates a tunnel (no netplan step). */
  function RemoveCommand(interfaceName: string): (c: string)
    ensures "sudo ip tunnel del " <= c
    ensures |c| == 19 + |interfaceName| && c[19..] == interfaceName
  {
    "sudo ip tunnel del " + interfaceName
  }

  /** The command line executed to delete a tunnel. */
  function DeleteCommand(interfaceName: string): (c: string)
    ensures c == RemoveCommand(interfaceName) + NetplanApply
  {
    "sudo ip tunnel del " + interfaceName + NetplanApply
  }

  /** The command line executed to bring a tunnel up (`Active`) or down. */
  function LinkCommand(interfaceName: string, status: Status): (c: string)
    ensures |c| >= |NetplanApply| && c[|c| - |NetplanApply|..] == NetplanApply
    ensures "sudo ip link set dev " + interfaceName <= c
    ensures c[21 + |interfaceName|..] == (if status == Active then " up" else " down") + NetplanApply
  {
    (if status == Active then "sudo ip link set dev " + interfaceName + " up"
     else "sudo ip link set dev " + interfaceName + " down") + NetplanApply
  }

  /** Tunnels of the types without a command template always succeed: only the netplan step runs. */
  lemma TemplateLessAddSucceeds(tunnelType: TunnelType, interfaceName: string, localIp: string, remoteIp: Option<string>)
    requires tunnelType == Ipip6 || tunnelType == Gre6
    ensures AddCommand(tunnelType, interfaceName, localIp, remoteIp) == " && sudo netplan apply"
    ensures Simulate(AddCommand(tunnelType, interfaceName, localIp, remoteIp)).success
  {
    NetplanAloneSucceeds();
  }

  /** The netplan step on its own never carries the failure marker. */
  lemma NetplanAloneSucceeds()
    ensures Simulate(NetplanApply).success
  {
    if Contains(NetplanApply, FailureMarker) {
      ContainsOnlyIfChar(NetplanApply, FailureMarker, 5);
      assert false;
    }
  }

  /** A command line that embeds a marked interface name fails. */
  lemma MarkedNameFails(before: string, interfaceName: string, after: string)
    requires Contains(interfaceName, FailureMarker)
    ensures !Simulate(before + interfaceName + after).success
  {
    ContainsWithin(before, interfaceName, after, FailureMarker);
  }

  /** The teardown and delete commands of a marked interface name fail. */
  lemma MarkedInterfaceDeleteFails(interfaceName: string)
    requires Contains(interfaceName, FailureMarker)
    ensures !Simulate(RemoveCommand(interfaceName)).success
    ensures !Simulate(DeleteCommand(interfaceName)).success
  {
    MarkedNameFails("sudo ip tunnel del ", interfaceName, "");
    assert RemoveCommand(interfaceName) == "sudo ip tunnel del " + interfaceName + "";
    MarkedNameFails("sudo ip tunnel del ", interfaceName, NetplanApply);
  }

  /** The link up/down command of a marked interface name fails. */
  lemma MarkedInterfaceLinkFails(interfaceName: string, status: Status)
    requires Contains(interfaceName, FailureMarker)
    ensures !Simulate(LinkCommand(interfaceName, status)).success
  {
    var updown := if status == Active then " up" else " down";
    var c := "sudo ip link set dev " + interfaceName + (updown + NetplanApply);
    assert LinkCommand(interfaceName, status) == c by {
      assert ("sudo ip link set dev " + interfaceName + updown) + NetplanApply == c;
    }
    MarkedNameFails("sudo ip link set dev ", interfaceName, updown + NetplanApply);
  }

  /** The creation command of a templated type fails for a marked interface name. */
  lemma MarkedInterfaceAddFails(tunnelType: TunnelType, interfaceName: string, localIp: string, remoteIp: Option<string>)
    requires tunnelType == SixToFour || tunnelType == LegacyIpv6
    requires Contains(interfaceName, FailureMarker)
    ensures !Simulate(AddCommand(tunnelType, interfaceName, localIp, remoteIp)).success
  {
    var head := "sudo ip tunnel add " + interfaceName;
    ContainsWithin("sudo ip tunnel add ", interfaceName, "", FailureMarker);
    assert head + "" == head;
    if tunnelType == SixToFour {
      ContainsAppend(head, " mode sit local ", FailureMarker);
      ContainsAppend(head + " mode sit local ", localIp, FailureMarker);
      ContainsAppend(head + " mode sit local " + localIp, " ttl 64", FailureMarker);
      ContainsAppend(head + " mode sit local " + localIp + " ttl 64", NetplanApply, FailureMarker);
    } else {
      var s1 := head + " mode ip6tnl local " + localIp;
      ContainsAppend(head, " mode ip6tnl local ", FailureMarker);
      ContainsAppend(head + " mode ip6tnl local ", localIp, FailureMarker);
      ContainsAppend(s1, " remote ", FailureMarker);
      ContainsAppend(s1 + " remote ", Interpolate(remoteIp), FailureMarker);
      ContainsAppend(s1 + " remote " + Interpolate(remoteIp), " encaplimit none", FailureMarker);
      ContainsAppend(s1 + " remote " + Interpolate(remoteIp) + " encaplimit none", NetplanApply, FailureMarker);
    }
  }

  // ----- the initial state -----

  /** The two records the service starts with. */
  function SeedTunnels(): (seeds: seq<Tunnel>)
    ensures forall j, k :: 0 <= j < k < |seeds| ==> seeds[j].id != seeds[k].id
    ensures forall j, k :: 0 <= j < k < |seeds| ==> seeds[j].interfaceName != seeds[k].interfaceName
    ensures forall j :: 0 <= j < |seeds| ==> Creation(seeds[j]).None?
  {
    [ Tunnel("1", "Initial Mock IPv6", LegacyIpv6, "2001:db8:abcd:0001::1", Some("2001:db8:abcd:0002::1"),
             None, None, "sim-ipv6-0", Active),
      Tunnel("2", "Initial Mock 6to4", SixToFour, "192.0.2.10", None,
             None, None, "sim-6to4-0", Inactive) ]
  }

  // ----- the service -----

  class TunnelService {
    /** `tunnelsState`. */
    var tunnels: seq<Tunnel>
    /** Every command line handed to the simulated executor, in order. */
    ghost var executed: seq<string>

    constructor ()
      ensures tunnels == SeedTunnels() && executed == []
    {
      tunnels := SeedTunnels();
      executed := [];
    }

    /** Hands one command line to the simulated executor. */
    method Execute(command: string) returns (r: CommandResult)
      modifies this`executed
      ensures executed == old(executed) + [command]
      ensures r == Simulate(command)
    {
      executed := executed + [command];
      r := Simulate(command);
    }

    /** `getTunnels`: the whole list, in order. */
    method GetTunnels() returns (r: seq<Tunnel>)
      ensures r == tunnels
    {
      r := tunnels;
    }

    /** `getTunnelById`: the first record with the id; `JSON.parse(undefined)` throws when there is none. */
    method GetTunnelById(id: string) returns (r: Outcome<Tunnel>)
      ensures r.Returned? <==> exists j :: 0 <= j < |tunnels| && tunnels[j].id == id
      ensures r.Returned? ==> r.value == tunnels[FindIndex(tunnels, id)]
      ensures r.Threw? ==> r.error == InvalidJson
    {
      FindAtFindIndex(tunnels, id);
      match Find(tunnels, id)
      case Some(t) => r := Returned(t);
      case None => r := Threw(InvalidJson);
    }

    /** `addTunnel`: runs the creation command; on success appends a new inactive record. */
    method AddTunnel(data: TunnelCreationData, freshId: string) returns (r: Outcome<Tunnel>)
      modifies this
      ensures var command := AddCommand(data.tunnelType, data.interfaceName, data.localIp, Some(data.remoteIp));
              && executed == old(executed) + [command]
              && if Simulate(command).success then
                   && r == Returned(NewTunnel(data, freshId)) && tunnels == old(tunnels) + [NewTunnel(data, freshId)]
                   && CountInterface(tunnels, data.interfaceName) == CountInterface(old(tunnels), data.interfaceName) + 1
                 else
                   r == Threw(Failed("Failed to add tunnel: " + Simulate(command).message)) && tunnels == old(tunnels)
    {
      var command := AddCommand(data.tunnelType, data.interfaceName, data.localIp, Some(data.remoteIp));
      var result := Execute(command);
      if !result.success {
        r := Threw(Failed("Failed to add tunnel: " + result.message));
        return;
      }
      var t := NewTunnel(data, freshId);
      CountInterfaceAppend(tunnels, t, data.interfaceName);
      tunnels := tunnels + [t];
      r := Returned(t);
    }

    /**
     * `updateTunnel`: for a known id, tears the old interface down (ignoring the outcome), then runs
     * the creation command of the merged record; on success that record replaces the old one.
     */
    method UpdateTunnel(id: string, data: TunnelUpdateData) returns (r: Outcome<Option<Tunnel>>)
      modifies this
      ensures var i := FindIndex(old(tunnels), id);
              if i == -1 then
                r == Returned(None) && tunnels == old(tunnels) && executed == old(executed)
              else
                var merged := Merge(old(tunnels)[i], data);
                var command := AddCommand(merged.tunnelType, merged.interfaceName, merged.localIp, merged.remoteIp);
                && executed == old(executed) + [RemoveCommand(old(tunnels)[i].interfaceName), command]
                && if Simulate(command).success then
                     r == Returned(Some(merged)) && tunnels == old(tunnels)[i := merged]
                   else
                     r == Threw(Failed("Failed to update tunnel: " + Simulate(command).message))
                     && tunnels == old(tunnels)
    {
      var i := FindIndex(tunnels, id);
      if i == -1 {
        return Returned(None);
      }
      var oldTunnel := tunnels[i];
      var _ := Execute(RemoveCommand(oldTunnel.interfaceName));
      var updated := Merge(oldTunnel, data);
      var result := Execute(AddCommand(updated.tunnelType, updated.interfaceName, updated.localIp, updated.remoteIp));
      if !result.success {
        r := Threw(Failed("Failed to update tunnel: " + result.message));
        return;
      }
      tunnels := tunnels[i := updated];
      r := Returned(Some(updated));
    }

    /**
     * `deleteTunnel`: for a known id, runs the delete command and, whatever its outcome, drops every
     * record with the id.
     */
    method DeleteTunnel(id: string) returns (r: bool)
      modifies this
      ensures var i := FindIndex(old(tunnels), id);
              if i == -1 then
                !r && tunnels == old(tunnels) && executed == old(executed)
              else
                && r
                && executed == old(executed) + [DeleteCommand(old(tunnels)[i].interfaceName)]
                && tunnels == RemoveById(old(tunnels), id)
    {
      var i := FindIndex(tunnels, id);
      if i == -1 {
        return false;
      }
      var _ := Execute(DeleteCommand(tunnels[i].interfaceName));
      tunnels := RemoveById(tunnels, id);
      r := true;
    }

    /**
     * `setTunnelStatus`: for a known id, always runs the link up/down command; on success the first
     * record with the id takes the new status.
     */
    method SetTunnelStatus(id: string, status: Status) returns (r: Outcome<bool>)
      requires status != Error
      modifies this
      ensures var i := FindIndex(old(tunnels), id);
              if i == -1 then
                r == Returned(false) && tunnels == old(tunnels) && executed == old(executed)
              else
                var command := LinkCommand(old(tunnels)[i].interfaceName, status);
                && executed == old(executed) + [command]
                && if Simulate(command).success then
                     r == Returned(true) && tunnels == old(tunnels)[i := old(tunnels)[i].(status := status)]
                   else
                     r == Threw(Failed("Failed to set tunnel status: " + Simulate(command).message))
                     && tunnels == old(tunnels)
    {
      var i := FindIndex(tunnels, id);
      if i == -1 {
        return Returned(false);
      }
      var result := Execute(LinkCommand(tunnels[i].interfaceName, status));
      if !result.success {
        r := Threw(Failed("Failed to set tunnel status: " + result.message));
        return;
      }
      tunnels := tunnels[i := tunnels[i].(status := status)];
      r := Returned(true);
    }
  }
}
