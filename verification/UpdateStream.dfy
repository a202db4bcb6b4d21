/// The update stream of one gateway: commands for all locations are broadcast, and the handler of a
/// gateway turns those that concern its own location into peer and firewall updates.
module UpdateStream {
  import opened Common

  type Id = nat

  // ---------------------------------------------------------------------------------------------
  // Commands and updates
  // ---------------------------------------------------------------------------------------------

  type i32 = x: int | -0x8000_0000 <= x < 0x8000_0000

  /// `cast_unsigned`.
  function CastUnsigned(x: i32): nat {
    if x < 0 then x + 0x1_0000_0000 else x
  }

  /// What of a location the updates depend on; `interface` stands for its name, key, addresses,
  /// port, MTU and mark, which are passed through.
  datatype Network = Network(interface: string, mfaMode: MfaMode, keepalive: i32)
  {
    predicate MfaEnabled() {
      mfaMode != Disabled
    }
  }

  datatype FirewallConfig = FirewallConfig(rules: seq<string>)

  datatype Peer = Peer(pubkey: string, allowedIps: seq<string>, presharedKey: Option<string>, keepalive: Option<nat>)

  datatype Device = Device(name: string, pubkey: string)

  datatype NetworkInfo = NetworkInfo(network: Id, ips: seq<string>, presharedKey: Option<string>, isAuthorized: bool)

  datatype DeviceInfo = DeviceInfo(device: Device, networks: seq<NetworkInfo>)

  datatype Command =
    | NetworkCreated(location: Id, network: Network)
    | NetworkModified(location: Id, network: Network, peers: seq<Peer>, firewall: Option<FirewallConfig>)
    | NetworkDeleted(location: Id, name: string)
    | DeviceCreated(details: DeviceInfo)
    | DeviceModified(details: DeviceInfo)
    | DeviceDeleted(details: DeviceInfo)
    | FirewallConfigChanged(location: Id, config: FirewallConfig)
    | FirewallDisabled(location: Id)
    | VpnSessionAuthorized(location: Id, device: Device, info: NetworkInfo)
    | VpnSessionDeauthorized(location: Id, device: Device)

  datatype UpdateType = Create | Modify | Delete

  datatype Update =
    | NetworkUpdate(updateType: UpdateType, interface: string, peers: seq<Peer>, firewall: Option<FirewallConfig>)
    | PeerUpdate(updateType: UpdateType, peer: Peer)
    | FirewallUpdate(config: FirewallConfig)
    | DisableFirewall

  /// The first entry for a location, if there is one.
  function FindNetwork(networks: seq<NetworkInfo>, location: Id): Option<NetworkInfo> {
    if networks == [] then None
    else if networks[0].network == location then Some(networks[0])
    else FindNetwork(networks[1..], location)
  }

  // ---------------------------------------------------------------------------------------------
  // One command
  // ---------------------------------------------------------------------------------------------

  /// What the handler remembers: its location's data, and whether peers need an authorized session.
  datatype Held = Held(network: Network, required: bool)

  /// Peers are authorized at runtime where there is multi-factor authentication or a posture
  /// check; a failed look-up of postures counts as none.
  function AuthorizationRequired(network: Network, postures: Option<bool>): bool {
    network.MfaEnabled() || (postures.Some? && postures.value)
  }

  /// The peer to send for a device, if one may be sent.
  function RuntimePeer(held: Held, device: Device, info: NetworkInfo): Option<Peer> {
    var keepalive := Some(CastUnsigned(held.network.keepalive));
    if !held.required then Some(Peer(device.pubkey, info.ips, None, keepalive))
    else if !info.isAuthorized || info.presharedKey.None? then None
    else Some(Peer(device.pubkey, info.ips, info.presharedKey, keepalive))
  }

  function DeviceUpdate(held: Held, device: Device, info: NetworkInfo, updateType: UpdateType): seq<Update> {
    var peer := RuntimePeer(held, device, info);
    if peer.None? then [] else [PeerUpdate(updateType, peer.value)]
  }

  function DeletedPeer(pubkey: string): Peer {
    Peer(pubkey, [], None, None)
  }

  /// What the handler of a location sends for a command: at most one update.
  function Respond(location: Id, held: Held, command: Command): seq<Update> {
    match command
    case NetworkCreated(l, network) =>
      if l == location then [NetworkUpdate(Create, network.interface, [], None)] else []
    case NetworkModified(l, network, peers, firewall) =>
      if l == location then [NetworkUpdate(Modify, network.interface, peers, firewall)] else []
    case NetworkDeleted(l, name) =>
      if l == location then [NetworkUpdate(Delete, name, [], None)] else []
    case DeviceCreated(d) =>
      var info := FindNetwork(d.networks, location);
      if info.Some? then DeviceUpdate(held, d.device, info.value, Create) else []
    case DeviceModified(d) =>
      var info := FindNetwork(d.networks, location);
      if info.Some? then DeviceUpdate(held, d.device, info.value, Modify) else []
    case DeviceDeleted(d) =>
      if FindNetwork(d.networks, location).Some? then [PeerUpdate(Delete, DeletedPeer(d.device.pubkey))] else []
    case FirewallConfigChanged(l, config) =>
      if l == location then [FirewallUpdate(config)] else []
    case FirewallDisabled(l) =>
      if l == location then [DisableFirewall] else []
    case VpnSessionAuthorized(l, device, info) =>
      if l == location && info.network == l then DeviceUpdate(held, device, info, Create) else []
    case VpnSessionDeauthorized(l, device) =>
      if l == location then [PeerUpdate(Delete, DeletedPeer(device.pubkey))] else []
  }

  /// A command as it is received, with the answer a posture look-up gives at that moment and
  /// whether the gateway's stream still takes messages.
  datatype Arrival = Arrival(command: Command, postures: Option<bool>, open: bool)

  /// What the handler remembers before the first command, with the answer of its first look-up.
  function Initially(network: Network, postures: Option<bool>): Held {
    Held(network, AuthorizationRequired(network, postures))
  }

  /// What the handler remembers after a command.
  function Remember(location: Id, held: Held, a: Arrival): Held {
    if a.command.NetworkModified? && a.command.location == location then
      Held(a.command.network, AuthorizationRequired(a.command.network, a.postures))
    else
      held
  }

  function HeldAfter(location: Id, held: Held, arrivals: seq<Arrival>): Held {
    if arrivals == [] then held
    else
      var n := |arrivals| - 1;
      Remember(location, HeldAfter(location, held, arrivals[..n]), arrivals[n])
  }

  function Responses(location: Id, held: Held, arrivals: seq<Arrival>): seq<Update> {
    if arrivals == [] then []
    else
      var n := |arrivals| - 1;
      Responses(location, held, arrivals[..n]) + Respond(location, HeldAfter(location, held, arrivals[..n]), arrivals[n].command)
  }

  /// What is sent for the command with this number.
  function Answer(location: Id, held: Held, arrivals: seq<Arrival>, i: nat): seq<Update>
    requires i < |arrivals|
  {
    Respond(location, HeldAfter(location, held, arrivals[..i]), arrivals[i].command)
  }

  lemma NoCommands(location: Id, held: Held)
    ensures HeldAfter(location, held, []) == held && Responses(location, held, []) == []
  {
  }

  lemma OneMoreCommand(location: Id, held: Held, arrivals: seq<Arrival>, n: nat)
    requires n < |arrivals|
    ensures var before := HeldAfter(location, held, arrivals[..n]);
            && HeldAfter(location, held, arrivals[..n + 1]) == Remember(location, before, arrivals[n])
            && Responses(location, held, arrivals[..n + 1])
            == Responses(location, held, arrivals[..n]) + Respond(location, before, arrivals[n].command)
  {
    assert arrivals[..n + 1][..n] == arrivals[..n];
  }

  // ---------------------------------------------------------------------------------------------
  // The handler
  // ---------------------------------------------------------------------------------------------

  class UpdatesHandler {
    const location: Id
    var network: Network
    var required: bool
    var sent: seq<Update>

    constructor (location: Id, network: Network)
      ensures this.location == location && this.network == network && !required && sent == []
    {
      this.location, this.network, required, sent := location, network, false, [];
    }

    function Remembered(): Held
      reads this
    {
      Held(network, required)
    }

    method RefreshAuthorizationRequired(postures: Option<bool>)
      modifies this`required
      ensures required == AuthorizationRequired(network, postures)
    {
      if network.MfaEnabled() {
        required := true;
      } else if postures.None? {
        required := false;
      } else {
        required := postures.value;
      }
    }

    method Send(update: Update, open: bool) returns (ok: bool)
      modifies this`sent
      ensures ok == open && sent == old(sent) + if open then [update] else []
    {
      ok := open;
      if open {
        sent := sent + [update];
      }
    }

    method SendRuntimeDeviceUpdate(device: Device, info: NetworkInfo, updateType: UpdateType, open: bool)
      returns (ok: bool)
      modifies this`sent
      ensures var response := DeviceUpdate(Remembered(), device, info, updateType);
              && ok == (response == [] || open)
              && sent == old(sent) + if open then response else []
    {
      var peer := RuntimePeer(Remembered(), device, info);
      if peer.None? {
        return true;
      }
      ok := Send(PeerUpdate(updateType, peer.value), open);
    }

    /// One received command. The location's data are replaced even when the update about them
    /// could not be sent.
    method Handle(a: Arrival) returns (ok: bool)
      modifies this
      ensures ok <==> a.open || Respond(location, old(Remembered()), a.command) == []
      ensures Remembered() == Remember(location, old(Remembered()), a)
      ensures sent == old(sent) + if ok then Respond(location, old(Remembered()), a.command) else []
    {
      ok := true;
      match a.command {
        case NetworkCreated(l, created) =>
          if l == location {
            ok := Send(NetworkUpdate(Create, created.interface, [], None), a.open);
          }
        case NetworkModified(l, modified, peers, firewall) =>
          if l == location {
            ok := Send(NetworkUpdate(Modify, modified.interface, peers, firewall), a.open);
            network := modified;
            RefreshAuthorizationRequired(a.postures);
          }
        case NetworkDeleted(l, name) =>
          if l == location {
            ok := Send(NetworkUpdate(Delete, name, [], None), a.open);
          }
        case DeviceCreated(d) =>
          var info := FindNetwork(d.networks, location);
          if info.Some? {
            ok := SendRuntimeDeviceUpdate(d.device, info.value, Create, a.open);
          }
        case DeviceModified(d) =>
          var info := FindNetwork(d.networks, location);
          if info.Some? {
            ok := SendRuntimeDeviceUpdate(d.device, info.value, Modify, a.open);
          }
        case DeviceDeleted(d) =>
          var info := FindNetwork(d.networks, location);
          if info.Some? {
            ok := Send(PeerUpdate(Delete, DeletedPeer(d.device.pubkey)), a.open);
          }
        case FirewallConfigChanged(l, config) =>
          if l == location {
            ok := Send(FirewallUpdate(config), a.open);
          }
        case FirewallDisabled(l) =>
          if l == location {
            ok := Send(DisableFirewall, a.open);
          }
        case VpnSessionDeauthorized(l, device) =>
          if l == location {
            ok := Send(PeerUpdate(Delete, DeletedPeer(device.pubkey)), a.open);
          }
        case VpnSessionAuthorized(l, device, info) =>
          if l == location {
            if info.network != l {
              return;
            }
            ok := SendRuntimeDeviceUpdate(device, info, Create, a.open);
          }
      }
    }

    /// Handles commands in turn, up to the first whose response cannot be sent.
    method Run(postures: Option<bool>, arrivals: seq<Arrival>) returns (handled: nat)
      modifies this
      ensures handled <= |arrivals|
      ensures var held := Initially(old(network), postures);
              && sent == old(sent) + Responses(location, held, arrivals[..handled])
              && (forall i :: 0 <= i < handled ==> arrivals[i].open || Answer(location, held, arrivals, i) == [])
              && (handled < |arrivals| ==> !arrivals[handled].open && Answer(location, held, arrivals, handled) != [])
    {
      hide Respond, Remember, HeldAfter, Responses;
      assert arrivals[..0] == [];
      NoCommands(location, Initially(network, postures));
      RefreshAuthorizationRequired(postures);
      ghost var held := Remembered();
      handled := 0;
      while handled < |arrivals|
        invariant handled <= |arrivals|
        invariant Remembered() == HeldAfter(location, held, arrivals[..handled])
        invariant sent == old(sent) + Responses(location, held, arrivals[..handled])
        invariant forall i :: 0 <= i < handled ==> arrivals[i].open || Answer(location, held, arrivals, i) == []
      {
        var ok := Handle(arrivals[handled]);
        if !ok {
          break;
        }
        OneMoreCommand(location, held, arrivals, handled);
        handled := handled + 1;
      }
    }
  }
}
