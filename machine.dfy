/** The per-machine Manager: its pingers, the reply timestamps they record,
    the polled status, and the rules that build, update, read and stop it. */
module Machine {
  import opened Wrappers
  import opened Liveness
  import opened Facts

  /** A machine's identity from the configuration. An address is None when
      the configuration gives none (a nil net.IP) and Some(text) otherwise. */
  datatype Spec = Spec(
    name: string,
    fqdn: string,
    ipmiAddr: Option<string>,
    ipv4Addr: Option<string>,
    ipv6Addr: Option<string>)

  /** net.IP.String(): a nil address prints as "<nil>", any other as its text. */
  function AddrString(a: Option<string>): (s: string)
    ensures a.None? ==> s == "<nil>"
    ensures a.Some? ==> s == a.value
  {
    match a
    case None => "<nil>"
    case Some(text) => text
  }

  /** The configured address a probe kind is sent to; a kind the manager
      does not probe has none. */
  function AddressOf(spec: Spec, kind: Kind): Option<string>
  {
    if kind == IPMI then spec.ipmiAddr
    else if kind == IPv4 then spec.ipv4Addr
    else if kind == IPv6 then spec.ipv6Addr
    else None
  }

  /** The addresses handed to the pingers, position by position with Kinds. */
  function Addresses(spec: Spec): (addrs: seq<string>)
    ensures |addrs| == |Kinds|
    ensures forall j | 0 <= j < |Kinds| :: addrs[j] == AddrString(AddressOf(spec, Kinds[j]))
  {
    [AddrString(spec.ipmiAddr), AddrString(spec.ipv4Addr), AddrString(spec.ipv6Addr)]
  }

  /** Why NewManager refused to build a manager. */
  datatype ManagerError =
    | SpecRequired
    | ClientRequired
    | AddPingerFailed(machine: string, kind: Kind)

  /** The position of the first address a pinger cannot be created for. */
  function FirstUnresolvable(addrs: seq<string>, resolvable: set<string>): (i: nat)
    ensures i <= |addrs|
    ensures forall j | 0 <= j < i :: addrs[j] in resolvable
    ensures i < |addrs| ==> addrs[i] !in resolvable
    decreases |addrs|
  {
    if addrs == [] || addrs[0] !in resolvable then 0
    else
      assert forall j | 1 <= j < |addrs| :: addrs[j] == addrs[1..][j - 1];
      1 + FirstUnresolvable(addrs[1..], resolvable)
  }

  /** FirstUnresolvable is the one position with only resolvable addresses
      before it and an unresolvable one (or the end) at it. */
  lemma FirstUnresolvableAt(addrs: seq<string>, resolvable: set<string>, n: nat)
    requires n <= |addrs|
    requires forall j | 0 <= j < n :: addrs[j] in resolvable
    requires n < |addrs| ==> addrs[n] !in resolvable
    ensures FirstUnresolvable(addrs, resolvable) == n
  {
  }

  /** The error NewManager reports, if any: arguments are checked first (spec,
      then client), then the three pingers are added in order and the first
      one that cannot be created ends construction. */
  function ConstructionError(hasClient: bool, spec: Option<Spec>, resolvable: set<string>): Option<ManagerError>
  {
    if spec.None? then Some(SpecRequired)
    else if !hasClient then Some(ClientRequired)
    else
      var i := FirstUnresolvable(Addresses(spec.value), resolvable);
      if i < |Kinds| then Some(AddPingerFailed(spec.value.name, Kinds[i])) else None
  }

  /** The outcomes of construction: "spec is required" exactly when there is
      no spec, "client is required" exactly when there is a spec but no
      client, a pinger failure names the machine and one of the probed
      kinds, and construction succeeds exactly when all three addresses
      resolve. */
  lemma ConstructionErrorCases(hasClient: bool, spec: Option<Spec>, resolvable: set<string>)
    ensures var e := ConstructionError(hasClient, spec, resolvable);
      && (e == Some(SpecRequired) <==> spec.None?)
      && (e == Some(ClientRequired) <==> spec.Some? && !hasClient)
      && (e.Some? && e.value.AddPingerFailed? ==>
            spec.Some? && hasClient && e.value.machine == spec.value.name && e.value.kind in Kinds)
      && (e.None? <==>
            && spec.Some? && hasClient
            && forall j | 0 <= j < |Kinds| :: Addresses(spec.value)[j] in resolvable)
  {
  }

  /** The failing kind is the first in probing order whose pinger cannot be
      created; every kind before it had its pinger created. */
  lemma FailingKindIsFirst(spec: Spec, resolvable: set<string>, i: nat)
    requires i < |Kinds|
    requires ConstructionError(true, Some(spec), resolvable) == Some(AddPingerFailed(spec.name, Kinds[i]))
    ensures Addresses(spec)[i] !in resolvable
    ensures forall j | 0 <= j < i :: Addresses(spec)[j] in resolvable
  {
    var f := FirstUnresolvable(Addresses(spec), resolvable);
    assert Kinds[f] == Kinds[i];
    assert f == i;
  }

  /** No kind is skipped: a machine with a missing address still gets a
      pinger for "<nil>", and construction fails unless that resolves. */
  lemma MissingAddressFails(spec: Spec, resolvable: set<string>)
    requires spec.ipmiAddr.None? || spec.ipv4Addr.None? || spec.ipv6Addr.None?
    requires "<nil>" !in resolvable
    ensures ConstructionError(true, Some(spec), resolvable).Some?
  {
    var addrs := Addresses(spec);
    var j := if spec.ipmiAddr.None? then 0 else if spec.ipv4Addr.None? then 1 else 2;
    assert addrs[j] == "<nil>";
    assert FirstUnresolvable(addrs, resolvable) <= j;
  }

  /** The node-agent RPC client. Only Close is modelled; the replies of its
      ServiceList and Version calls are parameters of the updates below. */
  class Client {
    var closeCalls: nat

    constructor ()
      ensures closeCalls == 0
    {
      closeCalls := 0;
    }

    method Close()
      modifies this
      ensures closeCalls == old(closeCalls) + 1
    {
      closeCalls := closeCalls + 1;
    }
  }

  /** An ICMP echo pinger for one address; `running` is whether its receive
      loop may still deliver replies. */
  class Pinger {
    const addr: string
    var running: bool

    constructor (addr: string)
      ensures this.addr == addr && !running
    {
      this.addr := addr;
      running := false;
    }

    method Run()
      modifies this
      ensures running
    {
      running := true;
    }

    method Stop()
      modifies this
      ensures !running
    {
      running := false;
    }
  }

  /** Status: the polled facts. The three flags are part of the record but
      nothing in the manager writes them. */
  class Status {
    var ipmi: bool
    var hostV4: bool
    var hostV6: bool
    var talosVersion: string
    var services: seq<ServiceInfo>

    /** new(Status): every field zero. */
    constructor ()
      ensures !ipmi && !hostV4 && !hostV6
      ensures talosVersion == "" && services == []
    {
      ipmi, hostV4, hostV6 := false, false, false;
      talosVersion := "";
      services := [];
    }
  }

  class Manager {
    const spec: Spec
    const status: Status
    const client: Client?
    var pingers: map<Kind, Pinger>
    var pingTimestamps: map<Kind, Time>

    /** The kinds whose pingers were added, in order, and those pingers. */
    ghost var added: seq<Kind>
    ghost var launched: seq<Pinger>

    /** Whether the periodic service/version poller has been started. */
    ghost var polling: bool

    /** The Version replies applied so far, oldest first. */
    ghost var versionPolls: seq<VersionResult>

    /** The manager NewManager builds: a zeroed status and no pingers yet. */
    constructor (c: Client?, spec: Spec)
      ensures this.spec == spec && client == c
      ensures fresh(status) && status.talosVersion == "" && status.services == []
      ensures !status.ipmi && !status.hostV4 && !status.hostV6
      ensures pingers == map[] && pingTimestamps == map[]
      ensures added == [] && launched == [] && !polling && versionPolls == []
    {
      this.spec := spec;
      client := c;
      status := new Status();
      pingers := map[];
      pingTimestamps := map[];
      added := [];
      launched := [];
      polling := false;
      versionPolls := [];
    }

    /** All three pingers are registered and running. */
    ghost predicate Running()
      reads this, pingers.Values
    {
      && pingers.Keys == {IPMI, IPv4, IPv6}
      && forall k | k in pingers :: pingers[k].running
    }

    /** The pingers launched so far are exactly the registered ones. */
    ghost predicate Registered()
      reads this
    {
      && |added| == |launched|
      && (forall k :: k in pingers <==> k in added)
      && forall i | 0 <= i < |added| :: added[i] in pingers && pingers[added[i]] == launched[i]
    }

    /** The stored version is what the polls applied so far give a manager
        that started with an empty version. */
    ghost predicate VersionTracked()
      reads this, status
    {
      status.talosVersion == ReplayVersion("", versionPolls)
    }

    /** addPinger: create a pinger for `addr` (it fails when the address
        cannot be resolved), register it under `kind` and start it. */
    method AddPinger(kind: Kind, addr: string, resolvable: set<string>) returns (ok: bool)
      modifies this
      ensures ok <==> addr in resolvable
      ensures !ok ==> pingers == old(pingers) && added == old(added) && launched == old(launched)
      ensures ok ==> kind in pingers && fresh(pingers[kind]) && pingers[kind].running
      ensures ok ==> pingers[kind].addr == addr && pingers == old(pingers)[kind := pingers[kind]]
      ensures ok ==> added == old(added) + [kind] && launched == old(launched) + [pingers[kind]]
      ensures ok && old(Registered()) && kind !in old(pingers) ==> Registered()
      ensures pingTimestamps == old(pingTimestamps) && polling == old(polling)
      ensures versionPolls == old(versionPolls)
    {
      if addr !in resolvable {
        return false;
      }
      var p := new Pinger(addr);
      pingers := pingers[kind := p];
      added := added + [kind];
      launched := launched + [p];
      p.Run();
      ok := true;
    }

    /** The three addPinger blocks of NewManager, for ipmi, ipv4 and ipv6 in
        turn (here a loop over Kinds), up to the first that fails: `n` is
        the number of pingers added, each running and probing the address
        configured for its kind. */
    method AddPingers(addrs: seq<string>, resolvable: set<string>) returns (n: nat)
      requires addrs == Addresses(spec)
      requires pingers == map[] && added == [] && launched == []
      modifies this
      ensures n == FirstUnresolvable(addrs, resolvable)
      ensures Registered() && added == Kinds[..n]
      ensures forall k | k in pingers ::
                && fresh(pingers[k]) && pingers[k].running
                && pingers[k].addr == AddrString(AddressOf(spec, k))
      ensures n == |Kinds| ==> Running()
      ensures pingTimestamps == old(pingTimestamps) && polling == old(polling)
      ensures versionPolls == old(versionPolls)
    {
      n := 0;
      while n < |Kinds|
        invariant 0 <= n <= |Kinds|
        invariant forall j | 0 <= j < n :: addrs[j] in resolvable
        invariant Registered() && added == Kinds[..n]
        invariant forall k | k in pingers ::
                    && fresh(pingers[k]) && pingers[k].running
                    && pingers[k].addr == AddrString(AddressOf(spec, k))
        invariant pingTimestamps == old(pingTimestamps) && polling == old(polling)
        invariant versionPolls == old(versionPolls)
      {
        var ok := AddNext(n, addrs, resolvable);
        if !ok {
          FirstUnresolvableAt(addrs, resolvable, n);
          return;
        }
        n := n + 1;
      }
      FirstUnresolvableAt(addrs, resolvable, n);
      AllAddedIsRunning();
    }

    /** Once every kind is registered and each pinger runs, the manager is
        Running. */
    lemma AllAddedIsRunning()
      requires Registered() && added == Kinds[..|Kinds|]
      requires forall k | k in pingers :: pingers[k].running
      ensures Running()
    {
      assert added == Kinds;
      assert pingers.Keys == {IPMI, IPv4, IPv6} by {
        assert forall k :: k in pingers <==> k in Kinds;
      }
    }

    /** One round of AddPingers: the addPinger block for the n-th kind. */
    method AddNext(n: nat, addrs: seq<string>, resolvable: set<string>) returns (ok: bool)
      requires n < |Kinds| && addrs == Addresses(spec)
      requires Registered() && added == Kinds[..n]
      requires forall k | k in pingers ::
                 pingers[k].running && pingers[k].addr == AddrString(AddressOf(spec, k))
      modifies this
      ensures ok <==> addrs[n] in resolvable
      ensures !ok ==> pingers == old(pingers) && added == old(added) && launched == old(launched)
      ensures ok ==> && Registered() && added == Kinds[..n + 1]
                     && pingers == old(pingers)[Kinds[n] := pingers[Kinds[n]]]
                     && fresh(pingers[Kinds[n]])
      ensures forall k | k in pingers ::
                pingers[k].running && pingers[k].addr == AddrString(AddressOf(spec, k))
      ensures pingTimestamps == old(pingTimestamps) && polling == old(polling)
      ensures versionPolls == old(versionPolls)
    {
      assert addrs[n] == AddrString(AddressOf(spec, Kinds[n]));
      assert Kinds[n] !in pingers by {
        assert forall i | 0 <= i < n :: added[i] == Kinds[i];
      }
      ok := AddPinger(Kinds[n], addrs[n], resolvable);
      if ok {
        assert added == Kinds[..n + 1];
      }
    }

    /** The OnRecv callback of the pinger for `kind`: record `now` as its
        last reply. Only a registered, running pinger delivers replies. */
    method OnReceive(kind: Kind, now: Time)
      requires kind in pingers && pingers[kind].running
      modifies this`pingTimestamps
      ensures pingTimestamps == Record(old(pingTimestamps), Reply(kind, now))
      ensures kind in pingTimestamps && pingTimestamps[kind] == now
      ensures forall k | k in old(pingTimestamps) && k != kind ::
                k in pingTimestamps && pingTimestamps[k] == old(pingTimestamps)[k]
    {
      pingTimestamps := pingTimestamps[kind := now];
    }

    /** updateServiceStatus: reset every listed state to unknown, then take
        the list of each message of a successful reply, so the last wins. */
    method UpdateServiceStatus(r: ServiceListResult)
      modifies status`services
      ensures status.services == AfterServiceList(old(status.services), r)
      ensures status.talosVersion == old(status.talosVersion)
    {
      var i := 0;
      while i < |status.services|
        invariant 0 <= i <= |status.services| == |old(status.services)|
        invariant forall j | 0 <= j < i ::
                    status.services[j] == ServiceInfo(old(status.services)[j].id, Unknown)
        invariant status.services[i..] == old(status.services)[i..]
        invariant status.talosVersion == old(status.talosVersion)
      {
        status.services := status.services[i := status.services[i].(state := Unknown)];
        i := i + 1;
      }
      assert status.services == Reset(old(status.services));
      if r.Success? {
        var msgs := r.value.messages;
        var j := 0;
        while j < |msgs|
          invariant 0 <= j <= |msgs|
          invariant status.services == if j == 0 then Reset(old(status.services)) else msgs[j - 1].services
          invariant status.talosVersion == old(status.talosVersion)
        {
          status.services := msgs[j].services;
          j := j + 1;
        }
      }
    }

    /** updateVersion: on success, take the tag of each message in turn, so
        the last wins; on failure, keep the version. */
    method UpdateVersion(r: VersionResult)
      modifies status`talosVersion, this`versionPolls
      ensures status.talosVersion == AfterVersion(old(status.talosVersion), r)
      ensures status.services == old(status.services)
      ensures versionPolls == old(versionPolls) + [r]
      ensures old(VersionTracked()) ==> VersionTracked()
    {
      versionPolls := versionPolls + [r];
      assert versionPolls[..|versionPolls| - 1] == old(versionPolls);
      if r.Success? {
        var msgs := r.value.messages;
        var i := 0;
        while i < |msgs|
          invariant 0 <= i <= |msgs|
          invariant status.talosVersion == if i == 0 then old(status.talosVersion) else Tag(msgs[i - 1])
          invariant status.services == old(status.services) && versionPolls == old(versionPolls) + [r]
        {
          status.talosVersion := Tag(msgs[i]);
          i := i + 1;
        }
      }
    }

    /** One tick of the poller: the service list, then the version. */
    method Tick(services: ServiceListResult, version: VersionResult)
      requires polling
      modifies status`services, status`talosVersion, this`versionPolls
      ensures status.services == AfterServiceList(old(status.services), services)
      ensures status.talosVersion == AfterVersion(old(status.talosVersion), version)
      ensures versionPolls == old(versionPolls) + [version]
      ensures old(VersionTracked()) ==> VersionTracked()
    {
      UpdateServiceStatus(services);
      UpdateVersion(version);
    }

    /** Stop: stop every registered pinger, drop the pinger table and close
        the client. Timestamps, status and the poller are left as they are. */
    method Stop()
      modifies this, pingers.Values, client
      ensures pingers == map[]
      ensures forall k | k in old(pingers) :: !old(pingers)[k].running
      ensures pingTimestamps == old(pingTimestamps)
      ensures added == old(added) && launched == old(launched) && polling == old(polling)
      ensures versionPolls == old(versionPolls)
      ensures client != null ==> client.closeCalls == old(client.closeCalls) + 1
    {
      var todo := pingers.Keys;
      while todo != {}
        invariant todo <= pingers.Keys
        invariant pingers == old(pingers) && pingTimestamps == old(pingTimestamps)
        invariant added == old(added) && launched == old(launched) && polling == old(polling)
        invariant versionPolls == old(versionPolls)
        invariant forall k | k in pingers.Keys - todo :: !pingers[k].running
        invariant client != null ==> client.closeCalls == old(client.closeCalls)
        decreases todo
      {
        var k :| k in todo;
        pingers[k].Stop();
        todo := todo - {k};
      }
      pingers := map[];
      if client != null {
        client.Close();
      }
    }

    /** PingUp(kind) at clock reading `now`: false for a kind with no
        recorded reply, otherwise whether its last reply is fresh. */
    predicate PingUp(kind: Kind, now: Time)
      reads this
      ensures kind !in pingTimestamps ==> !PingUp(kind, now)
      ensures kind in pingTimestamps ==> (PingUp(kind, now) <==> now - pingTimestamps[kind] < PingThreshold)
    {
      Up(pingTimestamps, kind, now)
    }

    /** ServiceState: scan the list for the first service named `name`. */
    method ServiceState(name: string) returns (state: string)
      ensures state == Lookup(status.services, name)
    {
      var i := 0;
      while i < |status.services|
        invariant 0 <= i <= |status.services|
        invariant Lookup(status.services, name) == Lookup(status.services[i..], name)
      {
        if status.services[i].id == name {
          return status.services[i].state;
        }
        assert status.services[i + 1..] == status.services[i..][1..];
        i := i + 1;
      }
      return Unknown;
    }

    /** Version: the stored version tag, which is the tag of the last poll
        that delivered one, and empty while none has. */
    function Version(): (v: string)
      reads this, status
      ensures VersionTracked() ==>
                v == match LastReportedTag(versionPolls)
                     case Some(t) => t
                     case None => ""
    {
      VersionIsLastReportedTag("", versionPolls);
      status.talosVersion
    }
  }

  /** NewManager: check the arguments, then add the ipmi, ipv4 and ipv6
      pingers in that order; when one cannot be added, Stop what was built
      and report the error; otherwise start the poller. `attempt` is the
      manager that was allocated, also when it is not returned. */
  method NewManager(c: Client?, spec: Option<Spec>, resolvable: set<string>)
    returns (m: Manager?, err: Option<ManagerError>, ghost attempt: Manager?)
    modifies c
    ensures err == ConstructionError(c != null, spec, resolvable)
    ensures m != null <==> err.None?
    ensures m != null ==> && fresh(m) && fresh(m.status) && m.spec == spec.value && m.client == c
                          && m.Running() && (forall k | k in m.pingers :: fresh(m.pingers[k]))
                          && (forall k | k in m.pingers :: m.pingers[k].addr == AddrString(AddressOf(spec.value, k)))
                          && m.added == Kinds && m.pingTimestamps == map[]
                          && m.status.services == [] && m.status.talosVersion == "" && m.polling
                          && !m.status.ipmi && !m.status.hostV4 && !m.status.hostV6
                          && m.versionPolls == [] && m.VersionTracked()
    ensures err.Some? && !err.value.AddPingerFailed? ==> c != null ==> c.closeCalls == old(c.closeCalls)
    ensures m != null ==> c.closeCalls == old(c.closeCalls)
    ensures err.Some? && err.value.AddPingerFailed? ==>
              && c != null && c.closeCalls == old(c.closeCalls) + 1
              && attempt != null && fresh(attempt) && attempt.pingers == map[] && !attempt.polling
              && attempt.added == Kinds[..FirstUnresolvable(Addresses(spec.value), resolvable)]
              && (forall p | p in attempt.launched :: !p.running)
  {
    if spec.None? {
      return null, Some(SpecRequired), null;
    }
    if c == null {
      return null, Some(ClientRequired), null;
    }
    var s := spec.value;
    var mgr := new Manager(c, s);
    attempt := mgr;
    var n := mgr.AddPingers(Addresses(s), resolvable);
    if n < |Kinds| {
      mgr.Stop();
      return null, Some(AddPingerFailed(s.name, Kinds[n])), mgr;
    }
    mgr.polling := true;
    return mgr, None, mgr;
  }
}
