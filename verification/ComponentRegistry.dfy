/// The registry of incompatible components. Every operation looks at the registry under a read lock
/// and changes it, if that seems needed, under a write lock taken later; other threads may come in
/// between.
module ComponentRegistry {
  import opened Common

  /// Seconds.
  type Time = int

  const OUTDATED_COMPONENT_LIFETIME := 60 * 60

  datatype Version = Version(major: nat, minor: nat, patch: nat)

  datatype GatewayEntry = GatewayEntry(version: Option<Version>, hostname: Option<string>, network: Option<string>, created: Time)

  datatype ProxyEntry = ProxyEntry(version: Option<Version>, created: Time)

  /// Entries of gateways are equal, and hash alike, by version and network.
  predicate SameGateway(a: GatewayEntry, b: GatewayEntry) {
    a.version == b.version && a.network == b.network
  }

  datatype Registry = Registry(gateways: set<GatewayEntry>, proxy: Option<ProxyEntry>)

  predicate Contains(gateways: set<GatewayEntry>, e: GatewayEntry) {
    exists g :: g in gateways && SameGateway(g, e)
  }

  predicate Expired(created: Time, now: Time) {
    now - created > OUTDATED_COMPONENT_LIFETIME
  }

  /// More than an hour has passed.
  predicate Outlived(created: Time, now: Time) {
    created + 3_600 < now
  }

  predicate ProxyExpired(r: Registry, now: Time) {
    r.proxy.Some? && Expired(r.proxy.value.created, now)
  }

  predicate GatewayExpired(r: Registry, now: Time) {
    exists g :: g in r.gateways && Expired(g.created, now)
  }

  // ---------------------------------------------------------------------------------------------
  // Operations
  // ---------------------------------------------------------------------------------------------

  datatype Operation =
    | InsertGateway(gateway: GatewayEntry)
    | InsertProxy(proxy: ProxyEntry)
    | RemoveGateway(network: Option<string>)
    | RemoveProxy
    | RemoveExpired(now: Time)

  /// Looking for expired components takes the read lock twice; the others take it once.
  datatype Stage = Look | LookAgain | Write

  /// Where an operation goes from a look at the registry; None if there is nothing to do.
  function AfterLook(r: Registry, op: Operation, stage: Stage): Option<Stage>
    requires stage != Write
  {
    if stage == LookAgain then
      if op.RemoveExpired? && GatewayExpired(r, op.now) then Some(Write) else None
    else
      match op
      case InsertGateway(e) => if Contains(r.gateways, e) then None else Some(Write)
      case InsertProxy(p) => if r.proxy.Some? && r.proxy.value.version == p.version then None else Some(Write)
      case RemoveGateway(network) => if exists g :: g in r.gateways && g.network == network then Some(Write) else None
      case RemoveProxy => if r.proxy.None? then None else Some(Write)
      case RemoveExpired(now) => if ProxyExpired(r, now) then Some(Write) else Some(LookAgain)
  }

  /// The change under the write lock. It does not look again whether it is needed.
  function Change(r: Registry, op: Operation): Registry {
    match op
    case InsertGateway(e) => if Contains(r.gateways, e) then r else r.(gateways := r.gateways + {e})
    case InsertProxy(p) => r.(proxy := Some(p))
    case RemoveGateway(network) => r.(gateways := set g | g in r.gateways && g.network != network)
    case RemoveProxy => r.(proxy := None)
    case RemoveExpired(now) =>
      Registry(set g | g in r.gateways && !Expired(g.created, now), if ProxyExpired(r, now) then None else r.proxy)
  }

  /// An operation that nothing interrupts.
  function Atomically(r: Registry, op: Operation): Registry {
    var next := AfterLook(r, op, Look);
    if next.None? then r
    else if next.value == LookAgain && AfterLook(r, op, LookAgain).None? then r
    else Change(r, op)
  }

  /// The shared registry. The methods run without interruption; what they return tells whether they
  /// got as far as writing, except that an insertion of a gateway tells whether it was new.
  class SharedRegistry {
    var gateways: set<GatewayEntry>
    var proxy: Option<ProxyEntry>

    constructor ()
      ensures Snapshot() == Registry({}, None)
    {
      gateways, proxy := {}, None;
    }

    function Snapshot(): Registry
      reads this
    {
      Registry(gateways, proxy)
    }

    method AddGateway(e: GatewayEntry) returns (added: bool)
      modifies this
      ensures Snapshot() == Atomically(old(Snapshot()), InsertGateway(e))
      ensures added <==> forall g :: g in old(gateways) ==> g.version != e.version || g.network != e.network
    {
      if Contains(gateways, e) {
        return false;
      }
      gateways := gateways + {e};
      return true;
    }

    method AddProxy(p: ProxyEntry) returns (added: bool)
      modifies this
      ensures Snapshot() == Atomically(old(Snapshot()), InsertProxy(p))
      ensures added <==> old(proxy).None? || old(proxy).value.version != p.version
    {
      if proxy.Some? && proxy.value.version == p.version {
        return false;
      }
      proxy := Some(p);
      return true;
    }

    method DropGateway(network: Option<string>) returns (removed: bool)
      modifies this
      ensures Snapshot() == Atomically(old(Snapshot()), RemoveGateway(network))
      ensures removed <==> exists g :: g in old(gateways) && g.network == network
    {
      if !exists g :: g in gateways && g.network == network {
        return false;
      }
      gateways := set g | g in gateways && g.network != network;
      return true;
    }

    method DropProxy() returns (removed: bool)
      modifies this
      ensures Snapshot() == Atomically(old(Snapshot()), RemoveProxy)
      ensures removed == old(proxy).Some?
    {
      if proxy.None? {
        return false;
      }
      proxy := None;
      return true;
    }

    method DropExpired(now: Time) returns (removed: bool)
      modifies this
      ensures Snapshot() == Atomically(old(Snapshot()), RemoveExpired(now))
      ensures removed <==> || (old(proxy).Some? && Outlived(old(proxy).value.created, now))
                           || (exists g :: g in old(gateways) && Outlived(g.created, now))
    {
      if !ProxyExpired(Snapshot(), now) && !GatewayExpired(Snapshot(), now) {
        return false;
      }
      if proxy.Some? && Expired(proxy.value.created, now) {
        proxy := None;
      }
      gateways := set g | g in gateways && !Expired(g.created, now);
      return true;
    }
  }

  // ---------------------------------------------------------------------------------------------
  // Interleavings
  // ---------------------------------------------------------------------------------------------

  datatype Thread = Thread(op: Operation, stage: Stage)

  datatype System = System(registry: Registry, threads: map<nat, Thread>)

  datatype Event = Start(thread: nat, op: Operation) | Advance(thread: nat)

  predicate Enabled(s: System, e: Event) {
    match e
    case Start(t, _) => t !in s.threads
    case Advance(t) => t in s.threads
  }

  /// One thread takes one lock: it looks, or it writes and is done.
  function Next(s: System, e: Event): System
    requires Enabled(s, e)
  {
    match e
    case Start(t, op) => s.(threads := s.threads[t := Thread(op, Look)])
    case Advance(t) =>
      var thread := s.threads[t];
      if thread.stage == Write then System(Change(s.registry, thread.op), s.threads - {t})
      else
        var next := AfterLook(s.registry, thread.op, thread.stage);
        if next.None? then s.(threads := s.threads - {t}) else s.(threads := s.threads[t := thread.(stage := next.value)])
  }

  ghost predicate IsRun(states: seq<System>, events: seq<Event>) {
    && |states| == |events| + 1
    && (forall i :: 0 <= i < |events| ==> Enabled(states[i], events[i]) && states[i + 1] == Next(states[i], events[i]))
  }

  function AtomicallyAll(r: Registry, ops: seq<Operation>): Registry {
    if ops == [] then r
    else
      var n := |ops| - 1;
      Atomically(AtomicallyAll(r, ops[..n]), ops[n])
  }

  /// Everything but the time stamp of the proxy's entry.
  function WithoutStamp(r: Registry): Registry {
    r.(proxy := if r.proxy.Some? then Some(r.proxy.value.(created := 0)) else None)
  }

  /// The late write does what the whole operation would do at that moment, up to the time stamp of
  /// the proxy's entry, and exactly that unless it writes over an entry of the same version.
  lemma LateWriteIsAtomic(r: Registry, op: Operation)
    ensures WithoutStamp(Change(r, op)) == WithoutStamp(Atomically(r, op))
    ensures Change(r, op) == Atomically(r, op) <==>
            !(op.InsertProxy? && r.proxy.Some? && r.proxy.value.version == op.proxy.version && r.proxy.value != op.proxy)
  {
    if op.RemoveExpired? && !ProxyExpired(r, op.now) && !GatewayExpired(r, op.now) {
      assert Change(r, op).gateways == r.gateways;
    }
    if op.RemoveGateway? && AfterLook(r, op, Look).None? {
      assert Change(r, op).gateways == r.gateways;
    }
  }

  /// The operations whose writes are among the first events of a run, in the order of the writes.
  function Written(states: seq<System>, events: seq<Event>, i: nat): seq<Operation>
    requires i <= |events| < |states|
    requires forall k :: 0 <= k < i ==> Enabled(states[k], events[k])
  {
    if i == 0 then []
    else
      Written(states, events, i - 1) +
      if Writes(states[i - 1], events[i - 1]) then [states[i - 1].threads[events[i - 1].thread].op] else []
  }

  predicate Writes(s: System, e: Event)
    requires Enabled(s, e)
  {
    e.Advance? && s.threads[e.thread].stage == Write
  }

  /// The same operations, with the proxy's entry removed before each insertion of one.
  function Renewed(ops: seq<Operation>): seq<Operation> {
    if ops == [] then []
    else
      var n := |ops| - 1;
      Renewed(ops[..n]) + if ops[n].InsertProxy? then [RemoveProxy, ops[n]] else [ops[n]]
  }

  lemma OneMoreAtomically(r: Registry, ops: seq<Operation>, op: Operation)
    ensures AtomicallyAll(r, ops + [op]) == Atomically(AtomicallyAll(r, ops), op)
  {
    assert (ops + [op])[..|ops|] == ops;
  }

  lemma RemovedAndInserted(r: Registry, op: Operation)
    requires op.InsertProxy?
    ensures Atomically(Atomically(r, RemoveProxy), op) == Change(r, op)
  {
  }

  lemma ChangeAtomically(r: Registry, before: Registry, ops: seq<Operation>, op: Operation)
    requires AtomicallyAll(r, Renewed(ops)) == before
    ensures AtomicallyAll(r, Renewed(ops + [op])) == Change(before, op)
  {
    assert (ops + [op])[..|ops|] == ops;
    var renewed := Renewed(ops);
    hide AtomicallyAll, Atomically, Change;
    if op.InsertProxy? {
      assert renewed + [RemoveProxy, op] == renewed + [RemoveProxy] + [op];
      OneMoreAtomically(r, renewed, RemoveProxy);
      OneMoreAtomically(r, renewed + [RemoveProxy], op);
      RemovedAndInserted(before, op);
    } else {
      OneMoreAtomically(r, renewed, op);
      LateWriteIsAtomic(before, op);
    }
  }

  /// Whatever threads do, the registry is what the operations that got as far as writing make of it
  /// without interruption, in the order of their writes, time stamps included, if a proxy's entry
  /// written over counts as removed and inserted anew.
  lemma {:induction false} ReachedAtomically(states: seq<System>, events: seq<Event>, i: nat)
    requires IsRun(states, events) && i < |states|
    ensures states[i].registry == AtomicallyAll(states[0].registry, Renewed(Written(states, events, i)))
  {
    if i > 0 {
      ReachedAtomically(states, events, i - 1);
      var s, e := states[i - 1], events[i - 1];
      if Writes(s, e) {
        ChangeAtomically(states[0].registry, s.registry, Written(states, events, i - 1), s.threads[e.thread].op);
      } else {
        assert Written(states, events, i) == Written(states, events, i - 1);
      }
    }
  }

  /// No two entries are equal.
  ghost predicate Distinct(r: Registry) {
    forall a, b :: a in r.gateways && b in r.gateways && a.version == b.version && a.network == b.network ==> a == b
  }

  lemma {:induction false} RunKeepsDistinct(states: seq<System>, events: seq<Event>, i: nat)
    requires IsRun(states, events) && Distinct(states[0].registry) && i < |states|
    ensures Distinct(states[i].registry)
  {
    if i > 0 {
      RunKeepsDistinct(states, events, i - 1);
      var s, e := states[i - 1], events[i - 1];
      assert states[i] == Next(s, e);
      if e.Advance? && s.threads[e.thread].stage == Write {
        ChangeKeepsDistinct(s.registry, s.threads[e.thread].op);
      }
    }
  }

  lemma ChangeKeepsDistinct(r: Registry, op: Operation)
    requires Distinct(r)
    ensures Distinct(Change(r, op))
  {
  }

  /// After a write, whatever happened since the look: an inserted component is on record, a removed
  /// one is not, and nothing is left that had expired by the time the removal began.
  lemma WriteAchieves(r: Registry, op: Operation)
    ensures var r' := Change(r, op);
            match op
            case InsertGateway(e) =>
              && r'.proxy == r.proxy
              && r'.gateways == r.gateways + if Recorded(r, e.version, e.network) then {} else {e}
            case InsertProxy(p) => r'.proxy == Some(p) && r'.gateways == r.gateways
            case RemoveGateway(network) =>
              && (forall g :: g in r'.gateways <==> g in r.gateways && g.network != network) && r'.proxy == r.proxy
            case RemoveProxy => r'.proxy.None? && r'.gateways == r.gateways
            case RemoveExpired(now) =>
              && (forall g :: g in r'.gateways <==> g in r.gateways && !Outlived(g.created, now))
              && r'.proxy == if r.proxy.Some? && Outlived(r.proxy.value.created, now) then None else r.proxy
  {
    if op.InsertGateway? {
      assert Contains(r.gateways, op.gateway) <==> Recorded(r, op.gateway.version, op.gateway.network);
    }
  }

  predicate Recorded(r: Registry, version: Option<Version>, network: Option<string>) {
    exists g :: g in r.gateways && g.version == version && g.network == network
  }

  /// A thread goes for the write lock exactly if its change would make a difference at the time of the
  /// look, other than to the time stamp of the proxy's entry.
  lemma WritesExactlyIfNeeded(r: Registry, op: Operation)
    ensures var next := AfterLook(r, op, Look);
            (next == Some(Write) || (next == Some(LookAgain) && AfterLook(r, op, LookAgain) == Some(Write)))
            <==> WithoutStamp(Change(r, op)) != WithoutStamp(r)
    ensures AfterLook(r, op, Look) == Some(LookAgain) <==>
              op.RemoveExpired? && (r.proxy.Some? ==> !Outlived(r.proxy.value.created, op.now))
  {
    match op
    case InsertGateway(e) =>
      if !Contains(r.gateways, e) {
        assert e in Change(r, op).gateways && SameGateway(e, e);
      }
    case RemoveGateway(network) =>
      if g :| g in r.gateways && g.network == network {
        assert g !in Change(r, op).gateways;
      } else {
        assert Change(r, op).gateways == r.gateways;
      }
    case RemoveExpired(now) =>
      if g :| g in r.gateways && Expired(g.created, now) {
        assert g !in Change(r, op).gateways;
      } else {
        assert Change(r, op).gateways == r.gateways;
      }
    case _ =>
  }
}
