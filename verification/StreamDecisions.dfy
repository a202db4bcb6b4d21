/// Which peers a handler sends, told by the commands and the answers of the posture look-ups alone.
module StreamDecisions {
  import opened Common
  import opened UpdateStream
  import opened PeerTable

  // ---------------------------------------------------------------------------------------------
  // The network data in force
  // ---------------------------------------------------------------------------------------------

  predicate Changes(location: Id, command: Command) {
    command.NetworkModified? && command.location == location
  }

  /// Before the command with this number the handler goes by these data of its location, and this
  /// answer of the look-up that came with them: those of the last change, or those it started with.
  ghost predicate InForce(location: Id, first: Network, answered: Option<bool>, arrivals: seq<Arrival>, i: nat,
                          network: Network, postures: Option<bool>)
    requires i <= |arrivals|
  {
    || (network == first && postures == answered && forall j :: 0 <= j < i ==> !Changes(location, arrivals[j].command))
    || (exists j ::
          && 0 <= j < i && Changes(location, arrivals[j].command)
          && network == arrivals[j].command.network && postures == arrivals[j].postures
          && forall k :: j < k < i ==> !Changes(location, arrivals[k].command))
  }

  /// Peers need an authorized session: there is multi-factor authentication, or a posture check was found.
  predicate NeedsSession(network: Network, postures: Option<bool>) {
    network.mfaMode != Disabled || postures == Some(true)
  }

  lemma InForceBefore(location: Id, first: Network, answered: Option<bool>, arrivals: seq<Arrival>, i: nat,
                      network: Network, postures: Option<bool>)
    requires i < |arrivals| && InForce(location, first, answered, arrivals, i + 1, network, postures)
    ensures if Changes(location, arrivals[i].command)
            then network == arrivals[i].command.network && postures == arrivals[i].postures
            else InForce(location, first, answered, arrivals, i, network, postures)
  {
  }

  lemma NothingBefore(location: Id, first: Network, answered: Option<bool>, arrivals: seq<Arrival>,
                      network: Network, postures: Option<bool>)
    requires InForce(location, first, answered, arrivals, 0, network, postures)
    ensures network == first && postures == answered
  {
  }

  lemma RulesAgree(network: Network, postures: Option<bool>)
    ensures Initially(network, postures) == Held(network, NeedsSession(network, postures))
  {
  }

  /// The handler goes by what is in force.
  lemma {:induction false} HeldExactly(location: Id, first: Network, answered: Option<bool>, arrivals: seq<Arrival>, i: nat,
                                       network: Network, postures: Option<bool>)
    requires i <= |arrivals| && InForce(location, first, answered, arrivals, i, network, postures)
    ensures HeldAfter(location, Initially(first, answered), arrivals[..i]) == Held(network, NeedsSession(network, postures))
  {
    hide InForce, HeldAfter, Initially, NeedsSession;
    var held := Initially(first, answered);
    RulesAgree(network, postures);
    if i == 0 {
      NothingBefore(location, first, answered, arrivals, network, postures);
      NoCommands(location, held);
      assert arrivals[..0] == [];
    } else {
      InForceBefore(location, first, answered, arrivals, i - 1, network, postures);
      OneMoreCommand(location, held, arrivals, i - 1);
      if Changes(location, arrivals[i - 1].command) {
        RulesAgreeOnChange(location, HeldAfter(location, held, arrivals[..i - 1]), arrivals[i - 1]);
      } else {
        HeldExactly(location, first, answered, arrivals, i - 1, network, postures);
      }
    }
  }

  lemma RulesAgreeOnChange(location: Id, held: Held, a: Arrival)
    requires Changes(location, a.command)
    ensures Remember(location, held, a) == Initially(a.command.network, a.postures)
  {
  }

  lemma {:induction false} SomethingInForce(location: Id, first: Network, answered: Option<bool>, arrivals: seq<Arrival>, i: nat)
    returns (network: Network, postures: Option<bool>)
    requires i <= |arrivals|
    ensures InForce(location, first, answered, arrivals, i, network, postures)
  {
    network, postures := first, answered;
    if i > 0 {
      network, postures := SomethingInForce(location, first, answered, arrivals, i - 1);
      var last := arrivals[i - 1];
      if Changes(location, last.command) {
        network, postures := last.command.network, last.postures;
      }
    }
  }

  // ---------------------------------------------------------------------------------------------
  // Runtime peers
  // ---------------------------------------------------------------------------------------------

  predicate FirstOf(networks: seq<NetworkInfo>, location: Id, info: NetworkInfo) {
    exists k :: 0 <= k < |networks| && networks[k] == info && info.network == location
                && forall j :: 0 <= j < k ==> networks[j].network != location
  }

  /// The command offers this device for the location, by its first entry for it.
  predicate Offers(location: Id, command: Command, device: Device, info: NetworkInfo, updateType: UpdateType) {
    match command
    case DeviceCreated(d) => d.device == device && updateType == Create && FirstOf(d.networks, location, info)
    case DeviceModified(d) => d.device == device && updateType == Modify && FirstOf(d.networks, location, info)
    case VpnSessionAuthorized(l, authorized, entry) =>
      l == location && authorized == device && entry == info && info.network == l && updateType == Create
    case _ => false
  }

  lemma {:induction false} FirstIsFound(networks: seq<NetworkInfo>, location: Id, info: NetworkInfo)
    ensures FirstOf(networks, location, info) <==> FindNetwork(networks, location) == Some(info)
  {
    if networks != [] {
      var rest := networks[1..];
      FirstIsFound(rest, location, info);
      if networks[0].network != location {
        assert FirstOf(networks, location, info) <==> FirstOf(rest, location, info) by {
          if k :| 0 <= k < |rest| && rest[k] == info && info.network == location
                  && forall j :: 0 <= j < k ==> rest[j].network != location {
            assert networks[k + 1] == info;
            forall j | 0 <= j < k + 1 ensures networks[j].network != location {
              assert j > 0 ==> networks[j] == rest[j - 1];
            }
          }
          if k :| 0 <= k < |networks| && networks[k] == info && info.network == location
                  && forall j :: 0 <= j < k ==> networks[j].network != location {
            assert rest[k - 1] == info;
            forall j | 0 <= j < k - 1 ensures rest[j].network != location {
              assert rest[j] == networks[j + 1];
            }
          }
        }
      } else {
        assert FirstOf(networks, location, networks[0]);
      }
    }
  }

  /// The peer for an offered device: where sessions are needed that of an authorized session with its
  /// key, or none; elsewhere always one, and without a key. It has the entry's addresses and the
  /// keep-alive time in force, read as unsigned 32 bits.
  lemma RuntimePeersExactly(location: Id, first: Network, answered: Option<bool>, arrivals: seq<Arrival>, i: nat,
                            network: Network, postures: Option<bool>,
                            device: Device, info: NetworkInfo, updateType: UpdateType)
    requires i < |arrivals| && InForce(location, first, answered, arrivals, i, network, postures)
    requires Offers(location, arrivals[i].command, device, info, updateType)
    ensures var response := Answer(location, Initially(first, answered), arrivals, i);
            var keepalive := Some(network.keepalive % 0x1_0000_0000);
            if !NeedsSession(network, postures) then
              response == [PeerUpdate(updateType, Peer(device.pubkey, info.ips, None, keepalive))]
            else if info.isAuthorized && info.presharedKey.Some? then
              response == [PeerUpdate(updateType, Peer(device.pubkey, info.ips, info.presharedKey, keepalive))]
            else response == []
  {
    HeldExactly(location, first, answered, arrivals, i, network, postures);
    match arrivals[i].command
    case DeviceCreated(d) => FirstIsFound(d.networks, location, info);
    case DeviceModified(d) => FirstIsFound(d.networks, location, info);
    case _ =>
  }

  /// And no other command sends a runtime peer: what else concerns single peers removes them.
  lemma PeersAreOffered(location: Id, held: Held, command: Command, update: Update)
    requires update in Respond(location, held, command) && update.PeerUpdate?
    ensures if update.updateType == Delete then update.peer == Peer(update.peer.pubkey, [], None, None)
            else exists device, info :: Offers(location, command, device, info, update.updateType) && device.pubkey == update.peer.pubkey
  {
    match command
    case DeviceCreated(d) =>
      FirstIsFound(d.networks, location, FindNetwork(d.networks, location).value);
      assert Offers(location, command, d.device, FindNetwork(d.networks, location).value, Create);
    case DeviceModified(d) =>
      FirstIsFound(d.networks, location, FindNetwork(d.networks, location).value);
      assert Offers(location, command, d.device, FindNetwork(d.networks, location).value, Modify);
    case VpnSessionAuthorized(l, device, info) => assert Offers(location, command, device, info, Create);
    case _ =>
  }

  /// An update tells which command of its location it answers, and says what that does.
  lemma UpdatesTell(location: Id, held: Held, command: Command, update: Update)
    requires update in Respond(location, held, command)
    ensures Concerns(location, command)
    ensures match update
            case NetworkUpdate(updateType, interface, peers, firewall) =>
              (match updateType
               case Create => command.NetworkCreated? && interface == command.network.interface && peers == [] && firewall.None?
               case Modify => command.NetworkModified? && interface == command.network.interface
                              && peers == command.peers && firewall == command.firewall
               case Delete => command.NetworkDeleted? && interface == command.name && peers == [] && firewall.None?)
            case PeerUpdate(updateType, peer) =>
              (match updateType
               case Create => || (command.DeviceCreated? && peer.pubkey == command.details.device.pubkey)
                              || (command.VpnSessionAuthorized? && peer.pubkey == command.device.pubkey)
               case Modify => command.DeviceModified? && peer.pubkey == command.details.device.pubkey
               case Delete => || (command.DeviceDeleted? && peer.pubkey == command.details.device.pubkey)
                              || (command.VpnSessionDeauthorized? && peer.pubkey == command.device.pubkey))
            case FirewallUpdate(config) => command.FirewallConfigChanged? && config == command.config
            case DisableFirewall => command.FirewallDisabled?
  {
    match command
    case DeviceCreated(d) => FoundIsOwn(d.networks, location);
    case DeviceModified(d) => FoundIsOwn(d.networks, location);
    case DeviceDeleted(d) => FoundIsOwn(d.networks, location);
    case _ =>
  }

  /// A command of the location is answered exactly once, unless it offers a device that may not be
  /// sent; commands for other locations are not answered.
  lemma AnsweredExactly(location: Id, held: Held, command: Command)
    ensures |Respond(location, held, command)| <= 1
    ensures Respond(location, held, command) == [] <==>
              || !Concerns(location, command)
              || (exists device, info, updateType ::
                    Offers(location, command, device, info, updateType) && held.required
                    && !(info.isAuthorized && info.presharedKey.Some?))
              || (command.VpnSessionAuthorized? && command.info.network != location)
  {
    match command
    case DeviceCreated(d) =>
      FoundIsOwn(d.networks, location);
      forall info { FirstIsFound(d.networks, location, info); }
      assert forall info :: FirstOf(d.networks, location, info) <==> Offers(location, command, d.device, info, Create);
    case DeviceModified(d) =>
      FoundIsOwn(d.networks, location);
      forall info { FirstIsFound(d.networks, location, info); }
      assert forall info :: FirstOf(d.networks, location, info) <==> Offers(location, command, d.device, info, Modify);
    case DeviceDeleted(d) => FoundIsOwn(d.networks, location);
    case VpnSessionAuthorized(l, device, info) =>
      assert Offers(location, command, device, info, Create) <==> l == location && info.network == location;
    case _ =>
  }

  /// Where sessions are needed at the start and after every change, each peer at the gateway came from
  /// a command authorizing it, with its key, from a full network update or from the initial table.
  lemma PeersNeedSessions(location: Id, first: Network, answered: Option<bool>, arrivals: seq<Arrival>, g: Gateway, key: string)
    requires NeedsSession(first, answered)
    requires forall i :: 0 <= i < |arrivals| && Changes(location, arrivals[i].command) ==>
               NeedsSession(arrivals[i].command.network, arrivals[i].postures)
    requires key in Replay(g, Responses(location, Initially(first, answered), arrivals)).peers
    ensures var peer := Replay(g, Responses(location, Initially(first, answered), arrivals)).peers[key];
            || (key in g.peers && g.peers[key] == peer)
            || exists i :: 0 <= i < |arrivals| && GrantedBy(location, arrivals[i].command, key, peer)
  {
    forall i | 0 <= i < |arrivals| ensures HeldAfter(location, Initially(first, answered), arrivals[..i]).required {
      var network, postures := SomethingInForce(location, first, answered, arrivals, i);
      HeldExactly(location, first, answered, arrivals, i, network, postures);
    }
    PeersAreAuthorized(location, Initially(first, answered), arrivals, g, key);
  }
}
