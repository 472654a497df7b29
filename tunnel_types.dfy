/** The records of src/types/index.ts. */
module TunnelTypes {
  import opened Wrappers

  /** The tunnel kinds. `LegacyIpv6` is the older 'ipv6' value still carried by the seed records. */
  datatype TunnelType = SixToFour | Ipip6 | Gre6 | LegacyIpv6

  datatype Status = Active | Inactive | Error

  /** A stored tunnel. `remoteIp` and `assignedIp` are optional because the seed records omit them. */
  datatype Tunnel = Tunnel(
    id: string,
    name: string,
    tunnelType: TunnelType,
    localIp: string,
    remoteIp: Option<string>,
    assignedIp: Option<string>,
    mtu: Option<int>,
    interfaceName: string,
    status: Status)

  /** A tunnel without `id` and `status`. */
  datatype TunnelCreationData = TunnelCreationData(
    name: string,
    tunnelType: TunnelType,
    localIp: string,
    remoteIp: string,
    assignedIp: string,
    mtu: Option<int>,
    interfaceName: string)

  /**
   * A partial tunnel without `id` and `status`: `None` is an absent key. For `mtu` a present key
   * may hold `undefined` (`Some(None)`), which the object spread copies like any other value.
   */
  datatype TunnelUpdateData = TunnelUpdateData(
    name: Option<string>,
    tunnelType: Option<TunnelType>,
    localIp: Option<string>,
    remoteIp: Option<string>,
    assignedIp: Option<string>,
    mtu: Option<Option<int>>,
    interfaceName: Option<string>)

  const NoChanges := TunnelUpdateData(None, None, None, None, None, None, None)

  function Pick<T>(given: Option<T>, kept: T): T {
    match given
    case Some(v) => v
    case None => kept
  }

  /** `{...data, id, status: 'inactive'}`: a new record built from creation data. */
  function NewTunnel(data: TunnelCreationData, id: string): (t: Tunnel)
    ensures t.id == id && t.status == Inactive
    ensures Creation(t) == Some(data)
  {
    Tunnel(id, data.name, data.tunnelType, data.localIp, Some(data.remoteIp), Some(data.assignedIp),
           data.mtu, data.interfaceName, Inactive)
  }

  /** The creation data a record holds, when it has every field creation data requires. */
  function Creation(t: Tunnel): Option<TunnelCreationData> {
    if t.remoteIp.Some? && t.assignedIp.Some? then
      Some(TunnelCreationData(t.name, t.tunnelType, t.localIp, t.remoteIp.value, t.assignedIp.value,
                              t.mtu, t.interfaceName))
    else None
  }

  /** `{...t, ...data}`: the fields present in `data` overwrite those of `t`. */
  function Merge(t: Tunnel, data: TunnelUpdateData): (r: Tunnel)
    ensures r.id == t.id && r.status == t.status
  {
    Tunnel(t.id,
           Pick(data.name, t.name),
           Pick(data.tunnelType, t.tunnelType),
           Pick(data.localIp, t.localIp),
           if data.remoteIp.Some? then data.remoteIp else t.remoteIp,
           if data.assignedIp.Some? then data.assignedIp else t.assignedIp,
           Pick(data.mtu, t.mtu),
           Pick(data.interfaceName, t.interfaceName),
           t.status)
  }

  /** Every field of creation data as a present key of update data. */
  function AsUpdate(data: TunnelCreationData): TunnelUpdateData {
    TunnelUpdateData(Some(data.name), Some(data.tunnelType), Some(data.localIp), Some(data.remoteIp),
                     Some(data.assignedIp), Some(data.mtu), Some(data.interfaceName))
  }

  /** Merging no keys leaves a record as it was. */
  lemma MergeNothing(t: Tunnel)
    ensures Merge(t, NoChanges) == t
  {
  }

  /** Merging complete data yields the record that data would create, with the old id and status. */
  lemma MergeComplete(t: Tunnel, data: TunnelCreationData)
    ensures Merge(t, AsUpdate(data)) == NewTunnel(data, t.id).(status := t.status)
  {
  }
}
