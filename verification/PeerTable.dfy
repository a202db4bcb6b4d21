/// What the updates of a stream add up to at the gateway, key by key.
module PeerTable {
  import opened Common
  import opened UpdateStream

  // ---------------------------------------------------------------------------------------------
  // The gateway's side
  // ---------------------------------------------------------------------------------------------

  /// The peers and the firewall of a gateway: a network update replaces both, a peer update or
  /// deletion concerns one key.
  datatype Gateway = Gateway(peers: map<string, Peer>, firewall: Option<FirewallConfig>)

  function PeersOf(peers: seq<Peer>): map<string, Peer> {
    if peers == [] then map[]
    else
      var n := |peers| - 1;
      PeersOf(peers[..n])[peers[n].pubkey := peers[n]]
  }

  function Apply(g: Gateway, update: Update): Gateway {
    match update
    case NetworkUpdate(updateType, _, peers, firewall) =>
      if updateType == Delete then Gateway(map[], None) else Gateway(PeersOf(peers), firewall)
    case PeerUpdate(updateType, peer) =>
      if updateType == Delete then g.(peers := g.peers - {peer.pubkey})
      else g.(peers := g.peers[peer.pubkey := peer])
    case FirewallUpdate(config) => g.(firewall := Some(config))
    case DisableFirewall => g.(firewall := None)
  }

  function Replay(g: Gateway, updates: seq<Update>): Gateway {
    if updates == [] then g
    else
      var n := |updates| - 1;
      Apply(Replay(g, updates[..n]), updates[n])
  }

  lemma {:induction false} ReplayConcat(g: Gateway, first: seq<Update>, second: seq<Update>)
    ensures Replay(g, first + second) == Replay(Replay(g, first), second)
  {
    if second == [] {
      assert first + second == first;
    } else {
      var n := |second| - 1;
      assert (first + second)[..|first| + n] == first + second[..n];
      ReplayConcat(g, first, second[..n]);
    }
  }

  // ---------------------------------------------------------------------------------------------
  // The commands' side
  // ---------------------------------------------------------------------------------------------

  /// What one command means for one key.
  datatype Effect = Keeps | Removes | Sets(peer: Peer)

  function FromPeer(peer: Option<Peer>): Effect {
    if peer.None? then Keeps else Sets(peer.value)
  }

  function Replaced(peers: map<string, Peer>, key: string): Effect {
    if key in peers then Sets(peers[key]) else Removes
  }

  function EffectOn(location: Id, held: Held, command: Command, key: string): Effect {
    match command
    case NetworkCreated(l, _) => if l == location then Removes else Keeps
    case NetworkModified(l, _, peers, _) => if l == location then Replaced(PeersOf(peers), key) else Keeps
    case NetworkDeleted(l, _) => if l == location then Removes else Keeps
    case DeviceCreated(d) => DeviceEffect(location, held, d, key)
    case DeviceModified(d) => DeviceEffect(location, held, d, key)
    case DeviceDeleted(d) =>
      if d.device.pubkey == key && FindNetwork(d.networks, location).Some? then Removes else Keeps
    case FirewallConfigChanged(_, _) => Keeps
    case FirewallDisabled(_) => Keeps
    case VpnSessionAuthorized(l, device, info) =>
      if l == location && info.network == location && device.pubkey == key then FromPeer(RuntimePeer(held, device, info))
      else Keeps
    case VpnSessionDeauthorized(l, device) => if l == location && device.pubkey == key then Removes else Keeps
  }

  function DeviceEffect(location: Id, held: Held, d: DeviceInfo, key: string): Effect {
    var info := FindNetwork(d.networks, location);
    if d.device.pubkey == key && info.Some? then FromPeer(RuntimePeer(held, d.device, info.value)) else Keeps
  }

  /// What a run of commands means for one key: its last effect other than keeping it.
  function Verdict(location: Id, held: Held, arrivals: seq<Arrival>, key: string): Effect {
    if arrivals == [] then Keeps
    else
      var n := |arrivals| - 1;
      var effect := EffectAt(location, held, arrivals, n, key);
      if effect.Keeps? then Verdict(location, held, arrivals[..n], key) else effect
  }

  function EffectAt(location: Id, held: Held, arrivals: seq<Arrival>, i: nat, key: string): Effect
    requires i < |arrivals|
  {
    EffectOn(location, HeldAfter(location, held, arrivals[..i]), arrivals[i].command, key)
  }

  function Resolve(effect: Effect, before: Option<Peer>): Option<Peer> {
    match effect
    case Keeps => before
    case Removes => None
    case Sets(peer) => Some(peer)
  }

  /// The firewall after a command, if it says anything about it.
  function FirewallOn(location: Id, command: Command, before: Option<FirewallConfig>): Option<FirewallConfig> {
    match command
    case NetworkCreated(l, _) => if l == location then None else before
    case NetworkModified(l, _, _, firewall) => if l == location then firewall else before
    case NetworkDeleted(l, _) => if l == location then None else before
    case FirewallConfigChanged(l, config) => if l == location then Some(config) else before
    case FirewallDisabled(l) => if l == location then None else before
    case _ => before
  }

  function FirewallAfter(location: Id, arrivals: seq<Arrival>, before: Option<FirewallConfig>): Option<FirewallConfig> {
    if arrivals == [] then before
    else
      var n := |arrivals| - 1;
      FirewallOn(location, arrivals[n].command, FirewallAfter(location, arrivals[..n], before))
  }

  lemma RespondEffect(location: Id, held: Held, command: Command, g: Gateway, key: string)
    ensures var g' := Replay(g, Respond(location, held, command));
            && Lookup(g'.peers, key) == Resolve(EffectOn(location, held, command, key), Lookup(g.peers, key))
            && g'.firewall == FirewallOn(location, command, g.firewall)
  {
    var response := Respond(location, held, command);
    if response != [] {
      assert response == [response[0]];
      assert response[..0] == [];
      assert Replay(g, response) == Apply(g, response[0]);
    }
  }

  /// Replaying what the handler sent gives, for every key, the last effect the commands had on it,
  /// and the firewall the commands last asked for.
  lemma {:induction false} ReplayGivesVerdict(location: Id, held: Held, arrivals: seq<Arrival>, g: Gateway, key: string)
    ensures var g' := Replay(g, Responses(location, held, arrivals));
            && Lookup(g'.peers, key) == Resolve(Verdict(location, held, arrivals, key), Lookup(g.peers, key))
            && g'.firewall == FirewallAfter(location, arrivals, g.firewall)
  {
    if arrivals != [] {
      var n := |arrivals| - 1;
      var before := HeldAfter(location, held, arrivals[..n]);
      ReplayGivesVerdict(location, held, arrivals[..n], g, key);
      ReplayConcat(g, Responses(location, held, arrivals[..n]), Respond(location, before, arrivals[n].command));
      RespondEffect(location, before, arrivals[n].command, Replay(g, Responses(location, held, arrivals[..n])), key);
    }
  }

  /// A verdict is the effect of one command after which none concerned the key.
  lemma {:induction false} VerdictIsLast(location: Id, held: Held, arrivals: seq<Arrival>, key: string, effect: Effect)
    requires !effect.Keeps?
    ensures Verdict(location, held, arrivals, key) == effect <==>
            exists i :: 0 <= i < |arrivals| && LastEffect(location, held, arrivals, key, i, effect)
  {
    if arrivals != [] {
      var n := |arrivals| - 1;
      var init := arrivals[..n];
      VerdictIsLast(location, held, init, key, effect);
      forall i | 0 <= i < n
        ensures EffectAt(location, held, init, i, key) == EffectAt(location, held, arrivals, i, key)
      {
        assert init[..i] == arrivals[..i];
      }
      if EffectAt(location, held, arrivals, n, key) == effect {
        assert LastEffect(location, held, arrivals, key, n, effect);
      } else if Verdict(location, held, arrivals, key) == effect {
        var i :| 0 <= i < n && LastEffect(location, held, init, key, i, effect);
        assert LastEffect(location, held, arrivals, key, i, effect);
      }
      if i :| 0 <= i < n && LastEffect(location, held, arrivals, key, i, effect) {
        assert LastEffect(location, held, init, key, i, effect);
      }
    }
  }

  predicate LastEffect(location: Id, held: Held, arrivals: seq<Arrival>, key: string, i: nat, effect: Effect)
    requires i < |arrivals|
  {
    && EffectAt(location, held, arrivals, i, key) == effect
    && (forall j :: i < j < |arrivals| ==> EffectAt(location, held, arrivals, j, key).Keeps?)
  }

  /// Once a command has removed a key, the gateway does not have it until a later command sets it.
  lemma AbsentUntilGranted(location: Id, held: Held, arrivals: seq<Arrival>, g: Gateway, key: string, i: nat)
    requires i < |arrivals| && EffectAt(location, held, arrivals, i, key).Removes?
    requires forall j :: i < j < |arrivals| ==> !EffectAt(location, held, arrivals, j, key).Sets?
    ensures key !in Replay(g, Responses(location, held, arrivals)).peers
  {
    ReplayGivesVerdict(location, held, arrivals, g, key);
    RemovedFrom(location, held, arrivals, key, i);
  }

  lemma {:induction false} RemovedFrom(location: Id, held: Held, arrivals: seq<Arrival>, key: string, i: nat)
    requires i < |arrivals| && EffectAt(location, held, arrivals, i, key).Removes?
    requires forall j :: i < j < |arrivals| ==> !EffectAt(location, held, arrivals, j, key).Sets?
    ensures Verdict(location, held, arrivals, key).Removes?
  {
    var n := |arrivals| - 1;
    if i < n {
      var init := arrivals[..n];
      forall j | 0 <= j < n
        ensures EffectAt(location, held, init, j, key) == EffectAt(location, held, arrivals, j, key)
      {
        assert init[..j] == arrivals[..j];
      }
      RemovedFrom(location, held, init, key, i);
    }
  }

  // ---------------------------------------------------------------------------------------------
  // Preshared keys
  // ---------------------------------------------------------------------------------------------

  /// A runtime peer update carries a preshared key exactly when the location requires authorized
  /// sessions at that moment, and then it is the key of an authorized session.
  lemma RuntimePeersKeyed(location: Id, held: Held, arrivals: seq<Arrival>, i: nat, update: Update)
    requires i < |arrivals|
    requires update in Respond(location, HeldAfter(location, held, arrivals[..i]), arrivals[i].command)
    requires update.PeerUpdate? && update.updateType != Delete
    ensures update.peer.presharedKey.Some? <==> HeldAfter(location, held, arrivals[..i]).required
    ensures update.peer.presharedKey.Some? ==> Authorizes(location, arrivals[i].command, update.peer.pubkey, update.peer.presharedKey)
  {
    match arrivals[i].command
    case DeviceCreated(d) => FoundIsOwn(d.networks, location);
    case DeviceModified(d) => FoundIsOwn(d.networks, location);
    case _ =>
  }

  /// The command says that this key's device is authorized at the location, with this preshared key.
  predicate Authorizes(location: Id, command: Command, key: string, presharedKey: Option<string>) {
    match command
    case DeviceCreated(d) => d.device.pubkey == key && AuthorizedBy(FindNetwork(d.networks, location), location, presharedKey)
    case DeviceModified(d) => d.device.pubkey == key && AuthorizedBy(FindNetwork(d.networks, location), location, presharedKey)
    case VpnSessionAuthorized(l, device, info) => device.pubkey == key && AuthorizedBy(Some(info), location, presharedKey)
    case _ => false
  }

  predicate AuthorizedBy(info: Option<NetworkInfo>, location: Id, presharedKey: Option<string>) {
    info.Some? && info.value.network == location && info.value.isAuthorized && info.value.presharedKey == presharedKey
  }

  lemma {:induction false} FoundIsOwn(networks: seq<NetworkInfo>, location: Id)
    ensures var info := FindNetwork(networks, location);
            (info.None? <==> forall i :: 0 <= i < |networks| ==> networks[i].network != location)
            && (info.Some? ==> info.value in networks && info.value.network == location)
  {
    if networks != [] && networks[0].network != location {
      FoundIsOwn(networks[1..], location);
    }
  }

  /// Where authorization is required throughout, a key that is in the table came with a preshared
  /// key from a command authorizing it, from a full network update, or from the initial table.
  lemma PeersAreAuthorized(location: Id, held: Held, arrivals: seq<Arrival>, g: Gateway, key: string)
    requires forall i :: 0 <= i < |arrivals| ==> HeldAfter(location, held, arrivals[..i]).required
    requires key in Replay(g, Responses(location, held, arrivals)).peers
    ensures var peer := Replay(g, Responses(location, held, arrivals)).peers[key];
            || (key in g.peers && g.peers[key] == peer)
            || exists i :: 0 <= i < |arrivals| && GrantedBy(location, arrivals[i].command, key, peer)
  {
    var peer := Replay(g, Responses(location, held, arrivals)).peers[key];
    ReplayGivesVerdict(location, held, arrivals, g, key);
    var verdict := Verdict(location, held, arrivals, key);
    if !verdict.Keeps? {
      assert verdict == Sets(peer);
      VerdictIsLast(location, held, arrivals, key, verdict);
      var i :| 0 <= i < |arrivals| && LastEffect(location, held, arrivals, key, i, verdict);
      if !arrivals[i].command.NetworkModified? {
        SetsAuthorized(location, HeldAfter(location, held, arrivals[..i]), arrivals[i].command, key, peer);
      }
      assert GrantedBy(location, arrivals[i].command, key, peer);
    }
  }

  predicate GrantedBy(location: Id, command: Command, key: string, peer: Peer) {
    || (command.NetworkModified? && command.location == location && Replaced(PeersOf(command.peers), key) == Sets(peer))
    || (Authorizes(location, command, key, peer.presharedKey) && peer.presharedKey.Some?)
  }

  lemma SetsAuthorized(location: Id, held: Held, command: Command, key: string, peer: Peer)
    requires held.required && EffectOn(location, held, command, key) == Sets(peer) && !command.NetworkModified?
    ensures Authorizes(location, command, key, peer.presharedKey) && peer.presharedKey.Some?
  {
    match command
    case DeviceCreated(d) => FoundIsOwn(d.networks, location);
    case DeviceModified(d) => FoundIsOwn(d.networks, location);
    case _ =>
  }

  // ---------------------------------------------------------------------------------------------
  // Commands for other locations
  // ---------------------------------------------------------------------------------------------

  predicate Concerns(location: Id, command: Command) {
    match command
    case NetworkCreated(l, _) => l == location
    case NetworkModified(l, _, _, _) => l == location
    case NetworkDeleted(l, _) => l == location
    case DeviceCreated(d) => exists i :: 0 <= i < |d.networks| && d.networks[i].network == location
    case DeviceModified(d) => exists i :: 0 <= i < |d.networks| && d.networks[i].network == location
    case DeviceDeleted(d) => exists i :: 0 <= i < |d.networks| && d.networks[i].network == location
    case FirewallConfigChanged(l, _) => l == location
    case FirewallDisabled(l) => l == location
    case VpnSessionAuthorized(l, _, _) => l == location
    case VpnSessionDeauthorized(l, _) => l == location
  }

  function OwnCommands(location: Id, arrivals: seq<Arrival>): seq<Arrival> {
    if arrivals == [] then []
    else
      var n := |arrivals| - 1;
      OwnCommands(location, arrivals[..n]) + if Concerns(location, arrivals[n].command) then [arrivals[n]] else []
  }

  lemma OthersIgnored(location: Id, held: Held, a: Arrival)
    requires !Concerns(location, a.command)
    ensures Respond(location, held, a.command) == [] && Remember(location, held, a) == held
  {
    match a.command
    case DeviceCreated(d) => FoundIsOwn(d.networks, location);
    case DeviceModified(d) => FoundIsOwn(d.networks, location);
    case DeviceDeleted(d) => FoundIsOwn(d.networks, location);
    case _ =>
  }

  /// Dropping the commands for other locations changes nothing.
  lemma {:induction false} OthersDropped(location: Id, held: Held, arrivals: seq<Arrival>)
    ensures Responses(location, held, OwnCommands(location, arrivals)) == Responses(location, held, arrivals)
    ensures HeldAfter(location, held, OwnCommands(location, arrivals)) == HeldAfter(location, held, arrivals)
  {
    if arrivals != [] {
      var n := |arrivals| - 1;
      var init, a := arrivals[..n], arrivals[n];
      OthersDropped(location, held, init);
      if Concerns(location, a.command) {
        var own := OwnCommands(location, init);
        assert (own + [a])[..|own|] == own;
      } else {
        OthersIgnored(location, HeldAfter(location, held, init), a);
        assert OwnCommands(location, arrivals) == OwnCommands(location, init);
      }
    }
  }
}
