/** The cross-record checks of `loadConfig` (src/config.ts:718-737, 814-925): which configurations they let
    through.
 */
module ConfigIsolation {
  import opened Options

  datatype Agent = Agent(id: string, endpoint: string, outward: bool)

  datatype Service = Service(
    id: string, workers: seq<string>, count: int, pinned: bool, machines: seq<string>, perMachine: int)

  /** Agents by distinct ids; the host an endpoint is spawned on, if any. */
  datatype Config = Config(agents: seq<Agent>, services: seq<Service>, hosts: map<string, string>)

  const LOCAL := "local"

  /** `machineIdOf`. */
  function MachineOf(c: Config, a: Agent): string { if a.endpoint in c.hosts then c.hosts[a.endpoint] else LOCAL }

  ghost predicate DistinctAgents(agents: seq<Agent>) {
    forall i, j | 0 <= i < j < |agents| :: agents[i].id != agents[j].id
  }

  // ---- What the checks are for ---------------------------------------------------------------

  ghost predicate OneAgentPerEndpoint(agents: seq<Agent>) {
    forall i, j | 0 <= i < j < |agents| :: agents[i].endpoint != agents[j].endpoint
  }

  /** No machine has an outward and an internal agent. */
  ghost predicate OneSidedMachines(c: Config) {
    forall a, b | a in c.agents && b in c.agents && MachineOf(c, a) == MachineOf(c, b) :: a.outward == b.outward
  }

  /** The service a worker is entered under: the last one that lists it. */
  function LastService(services: seq<Service>, worker: string): Option<string> {
    if services == [] then None
    else if worker in services[|services| - 1].workers then Some(services[|services| - 1].id)
    else LastService(services[..|services| - 1], worker)
  }

  /** The outward agents of a machine that are entered under a service are under the same one. */
  ghost predicate OneEntryPerMachine(c: Config) {
    forall a, b |
      && a in c.agents && b in c.agents && a.outward && b.outward && MachineOf(c, a) == MachineOf(c, b)
      && LastService(c.services, a.id).Some? && LastService(c.services, b.id).Some?
      :: LastService(c.services, a.id) == LastService(c.services, b.id)
  }

  ghost predicate Known(c: Config, worker: string) { exists a :: a in c.agents && a.id == worker && a.outward }

  ghost predicate ServiceSound(c: Config, s: Service) {
    && (forall w | w in s.workers :: Known(c, w))
    && (s.pinned <==> s.machines != [])
    && (s.pinned ==> s.count <= |s.machines| * s.perMachine)
    && s.count == |s.workers|
  }

  ghost predicate ServicesSound(c: Config) {
    && (forall i, j | 0 <= i < j < |c.services| :: c.services[i].id != c.services[j].id)
    && forall s | s in c.services :: ServiceSound(c, s)
  }

  ghost predicate Isolated(c: Config) {
    OneAgentPerEndpoint(c.agents) && ServicesSound(c) && OneSidedMachines(c) && OneEntryPerMachine(c)
  }

  // ---- The checks ----------------------------------------------------------------------------

  datatype Problem = SharedEndpoint | BadService | MixedMachine | TwoServices

  function AtEndpoint(agents: seq<Agent>, endpoint: string): seq<Agent> {
    if agents == [] then []
    else
      AtEndpoint(agents[..|agents| - 1], endpoint)
      + if agents[|agents| - 1].endpoint == endpoint then [agents[|agents| - 1]] else []
  }

  lemma {:induction false} ShortList(agents: seq<Agent>, endpoint: string)
    ensures |AtEndpoint(agents, endpoint)| < 2
            <==> forall i, j | 0 <= i < j < |agents| :: agents[i].endpoint != endpoint || agents[j].endpoint != endpoint
    ensures |AtEndpoint(agents, endpoint)| == 0 <==> forall i | 0 <= i < |agents| :: agents[i].endpoint != endpoint
  {
    if agents != [] {
      var n := |agents| - 1;
      var init := agents[..n];
      assert forall i | 0 <= i < n :: init[i] == agents[i];
      ShortList(init, endpoint);
      if agents[n].endpoint == endpoint && |AtEndpoint(init, endpoint)| > 0 {
        var i :| 0 <= i < n && init[i].endpoint == endpoint;
        assert agents[i].endpoint == endpoint && agents[n].endpoint == endpoint;
      }
    }
  }

  predicate Alone(agents: seq<Agent>, endpoint: string) { |AtEndpoint(agents, endpoint)| < 2 }

  lemma {:induction false} NotAlone(agents: seq<Agent>, endpoint: string)
    requires !Alone(agents, endpoint)
    ensures !OneAgentPerEndpoint(agents)
  {
    ShortList(agents, endpoint);
  }

  /** One agent at the endpoint of each: that is what keeps endpoints apart. */
  lemma {:induction false} AllAlone(agents: seq<Agent>)
    requires forall k | 0 <= k < |agents| :: Alone(agents, agents[k].endpoint)
    ensures OneAgentPerEndpoint(agents)
  {
    forall i, j | 0 <= i < j < |agents| ensures agents[i].endpoint != agents[j].endpoint {
      assert Alone(agents, agents[i].endpoint);
      ShortList(agents, agents[i].endpoint);
    }
  }

  function ListAt(byEndpoint: map<string, seq<Agent>>, endpoint: string): seq<Agent> {
    if endpoint in byEndpoint then byEndpoint[endpoint] else []
  }

  method GroupByEndpoint(agents: seq<Agent>) returns (byEndpoint: map<string, seq<Agent>>)
    ensures forall e :: ListAt(byEndpoint, e) == AtEndpoint(agents, e)
  {
    byEndpoint := map[];
    for i := 0 to |agents|
      invariant forall e :: ListAt(byEndpoint, e) == AtEndpoint(agents[..i], e)
    {
      assert agents[..i + 1][..i] == agents[..i];
      var endpoint := agents[i].endpoint;
      byEndpoint := byEndpoint[endpoint := ListAt(byEndpoint, endpoint) + [agents[i]]];
    }
    assert agents[..|agents|] == agents;
  }

  method CheckEndpoints(agents: seq<Agent>) returns (ok: bool)
    ensures ok <==> OneAgentPerEndpoint(agents)
  {
    var byEndpoint := GroupByEndpoint(agents);
    for i := 0 to |agents|
      invariant forall k | 0 <= k < i :: Alone(agents, agents[k].endpoint)
    {
      assert ListAt(byEndpoint, agents[i].endpoint) == AtEndpoint(agents, agents[i].endpoint);
      if |ListAt(byEndpoint, agents[i].endpoint)| >= 2 {
        NotAlone(agents, agents[i].endpoint);
        return false;
      }
    }
    AllAlone(agents);
    return true;
  }

  // ---- Services ------------------------------------------------------------------------------

  method KnownOutward(agents: seq<Agent>, worker: string) returns (known: bool)
    ensures known <==> exists a :: a in agents && a.id == worker && a.outward
  {
    for i := 0 to |agents|
      invariant forall k | 0 <= k < i :: !(agents[k].id == worker && agents[k].outward)
    {
      if agents[i].id == worker && agents[i].outward {
        return true;
      }
    }
    return false;
  }

  method CheckService(c: Config, s: Service) returns (ok: bool)
    ensures ok <==> ServiceSound(c, s)
  {
    for i := 0 to |s.workers|
      invariant forall k | 0 <= k < i :: Known(c, s.workers[k])
    {
      var known := KnownOutward(c.agents, s.workers[i]);
      if !known {
        assert !Known(c, s.workers[i]);
        return false;
      }
    }
    if s.pinned && |s.machines| == 0 { return false; }
    if !s.pinned && |s.machines| > 0 { return false; }
    if s.pinned && s.count > |s.machines| * s.perMachine { return false; }
    if s.count != |s.workers| { return false; }
    return true;
  }

  method CheckServices(c: Config) returns (ok: bool)
    ensures ok <==> ServicesSound(c)
  {
    var seen: set<string> := {};
    for i := 0 to |c.services|
      invariant seen == set k | 0 <= k < i :: c.services[k].id
      invariant forall j, k | 0 <= j < k < i :: c.services[j].id != c.services[k].id
      invariant forall k | 0 <= k < i :: ServiceSound(c, c.services[k])
    {
      var s := c.services[i];
      if s.id in seen {
        return false;
      }
      seen := seen + {s.id};
      var sound := CheckService(c, s);
      if !sound {
        assert s in c.services;
        return false;
      }
    }
    return true;
  }

  // ---- Machines ------------------------------------------------------------------------------

  method ServiceOfAgent(services: seq<Service>) returns (entered: map<string, string>)
    ensures forall w :: LastService(services, w) == if w in entered then Some(entered[w]) else None
  {
    entered := map[];
    for i := 0 to |services|
      invariant forall w :: LastService(services[..i], w) == if w in entered then Some(entered[w]) else None
    {
      assert services[..i + 1][..i] == services[..i];
      var workers := services[i].workers;
      ghost var before := entered;
      for j := 0 to |workers|
        invariant forall w :: w in entered <==> w in before || w in workers[..j]
        invariant forall w | w in entered :: entered[w] == if w in workers[..j] then services[i].id else before[w]
      {
        assert workers[..j + 1] == workers[..j] + [workers[j]];
        entered := entered[workers[j] := services[i].id];
      }
      assert workers[..|workers|] == workers;
    }
    assert services[..|services|] == services;
  }

  ghost predicate On(c: Config, machine: string, a: Agent) { a in c.agents && MachineOf(c, a) == machine }

  /** An outward agent of the machine that is entered under a service. */
  ghost predicate EnteredOn(c: Config, entered: map<string, string>, machine: string, a: Agent) {
    On(c, machine, a) && a.outward && a.id in entered
  }

  /** Two agents of one machine can be there together. */
  predicate Together(c: Config, a: Agent, b: Agent) {
    && a.outward == b.outward
    && (a.outward && LastService(c.services, a.id).Some? && LastService(c.services, b.id).Some? ==>
          LastService(c.services, a.id) == LastService(c.services, b.id))
  }

  /** What the loop over one machine's agents finds. */
  method CheckMachine(c: Config, entered: map<string, string>, machine: string) returns (problem: Option<Problem>)
    requires forall w :: LastService(c.services, w) == if w in entered then Some(entered[w]) else None
    ensures problem == Some(MixedMachine) ==> !OneSidedMachines(c)
    ensures problem == Some(TwoServices) ==> !OneEntryPerMachine(c)
    ensures problem.None? || problem == Some(MixedMachine) || problem == Some(TwoServices)
    ensures problem.None? ==> forall a, b | On(c, machine, a) && On(c, machine, b) :: Together(c, a, b)
  {
    var outward: Option<Agent>, internal: Option<Agent>, entry: Option<Agent> := None, None, None;
    var two: Option<Agent> := None;
    for i := 0 to |c.agents|
      invariant outward.Some? ==> On(c, machine, outward.value) && outward.value.outward
      invariant internal.Some? ==> On(c, machine, internal.value) && !internal.value.outward
      invariant forall k | 0 <= k < i && On(c, machine, c.agents[k]) ::
                  if c.agents[k].outward then outward.Some? else internal.Some?
      invariant entry.Some? ==> EnteredOn(c, entered, machine, entry.value)
      invariant two.Some? ==> entry.Some? && EnteredOn(c, entered, machine, two.value)
                              && entered[two.value.id] != entered[entry.value.id]
      invariant two.None? ==> forall k | 0 <= k < i && EnteredOn(c, entered, machine, c.agents[k]) ::
                                entry.Some? && entered[c.agents[k].id] == entered[entry.value.id]
    {
      var a := c.agents[i];
      if MachineOf(c, a) == machine {
        if a.outward { outward := Some(a); } else { internal := Some(a); }
        if a.outward && a.id in entered {
          if entry.None? {
            entry := Some(a);
          } else if entered[a.id] != entered[entry.value.id] {
            two := Some(a);
          }
        }
      }
    }
    if outward.Some? && internal.Some? {
      return Some(MixedMachine);
    }
    if two.Some? {
      return Some(TwoServices);
    }
    return None;
  }

  /** The checks in their order; the first problem is reported, and it is there. */
  method Check(c: Config) returns (problem: Option<Problem>)
    ensures problem.None? <==> Isolated(c)
    ensures problem == Some(SharedEndpoint) ==> !OneAgentPerEndpoint(c.agents)
    ensures problem == Some(BadService) ==> !ServicesSound(c)
    ensures problem == Some(MixedMachine) ==> !OneSidedMachines(c)
    ensures problem == Some(TwoServices) ==> !OneEntryPerMachine(c)
  {
    var endpoints := CheckEndpoints(c.agents);
    if !endpoints { return Some(SharedEndpoint); }
    var services := CheckServices(c);
    if !services { return Some(BadService); }
    var entered := ServiceOfAgent(c.services);
    for i := 0 to |c.agents|
      invariant forall a, b | a in c.agents[..i] && b in c.agents && MachineOf(c, a) == MachineOf(c, b) ::
                  Together(c, a, b)
    {
      var found := CheckMachine(c, entered, MachineOf(c, c.agents[i]));
      if found.Some? {
        return found;
      }
      assert c.agents[..i + 1] == c.agents[..i] + [c.agents[i]];
    }
    assert c.agents[..|c.agents|] == c.agents;
    return None;
  }

  // ---- What is let through -------------------------------------------------------------------

  /** No machine has agents of two services, however often a worker is listed. */
  ghost predicate OneServicePerMachine(c: Config) {
    forall a, b, s, t |
      && a in c.agents && b in c.agents && MachineOf(c, a) == MachineOf(c, b)
      && s in c.services && t in c.services && a.id in s.workers && b.id in t.workers
      :: s.id == t.id
  }

  ghost predicate ListedOnce(c: Config) {
    forall s, t, w | s in c.services && t in c.services && w in s.workers && w in t.workers :: s.id == t.id
  }

  lemma {:induction false} LastServiceLists(services: seq<Service>, worker: string)
    ensures LastService(services, worker).Some? <==> exists s :: s in services && worker in s.workers
    ensures LastService(services, worker).Some?
            ==> exists s :: s in services && worker in s.workers && s.id == LastService(services, worker).value
  {
    if services != [] {
      var init, last := services[..|services| - 1], services[|services| - 1];
      assert services == init + [last];
      LastServiceLists(init, worker);
      assert last in services;
      assert forall s :: s in services <==> s in init || s == last;
    }
  }

  lemma {:induction false} ListedUnder(c: Config, s: Service, worker: string)
    requires ListedOnce(c) && s in c.services && worker in s.workers
    ensures LastService(c.services, worker) == Some(s.id)
  {
    LastServiceLists(c.services, worker);
    var t :| t in c.services && worker in t.workers && t.id == LastService(c.services, worker).value;
    assert s.id == t.id;
  }

  /** A configuration let through keeps its machines to one service each if and only if no worker is listed
      by two. */
  lemma {:induction false} OneServiceExact(c: Config)
    requires DistinctAgents(c.agents) && Isolated(c)
    ensures OneServicePerMachine(c) <==> ListedOnce(c)
  {
    if ListedOnce(c) {
      forall a, b, s, t |
        && a in c.agents && b in c.agents && MachineOf(c, a) == MachineOf(c, b)
        && s in c.services && t in c.services && a.id in s.workers && b.id in t.workers
        ensures s.id == t.id
      {
        ListedUnder(c, s, a.id);
        ListedUnder(c, t, b.id);
        assert Known(c, a.id) && Known(c, b.id);
        OutwardAgent(c, a);
        OutwardAgent(c, b);
      }
    }
    if OneServicePerMachine(c) {
      forall s, t, w | s in c.services && t in c.services && w in s.workers && w in t.workers
        ensures s.id == t.id
      {
        assert Known(c, w);
        var a :| a in c.agents && a.id == w && a.outward;
        assert MachineOf(c, a) == MachineOf(c, a);
      }
    }
  }

  lemma {:induction false} OutwardAgent(c: Config, a: Agent)
    requires DistinctAgents(c.agents) && a in c.agents && Known(c, a.id)
    ensures a.outward
  {
  }

  ghost predicate NoRepeats(names: seq<string>) { forall i, j | 0 <= i < j < |names| :: names[i] != names[j] }

  function Names(names: seq<string>): set<string> { set n | n in names }

  lemma {:induction false} RepeatsShrink(names: seq<string>)
    ensures |Names(names)| <= |names|
    ensures |Names(names)| == |names| <==> NoRepeats(names)
  {
    if names != [] {
      var init, last := names[..|names| - 1], names[|names| - 1];
      RepeatsShrink(init);
      assert names == init + [last];
      assert Names(names) == Names(init) + {last};
      if last in init {
        assert Names(names) == Names(init);
        var i :| 0 <= i < |init| && init[i] == last;
        assert names[i] == names[|names| - 1];
      }
    }
  }

  /** A service of a configuration let through has as many distinct workers as it counts if and only if its
      list has no repeats; it never has more. */
  lemma {:induction false} CountExact(c: Config, s: Service)
    requires Isolated(c) && s in c.services
    ensures |Names(s.workers)| <= s.count
    ensures s.count == |Names(s.workers)| <==> NoRepeats(s.workers)
  {
    RepeatsShrink(s.workers);
  }

  /** And a pinned service that repeats no machine fits on the machines there are. */
  lemma {:induction false} FitExact(c: Config, s: Service)
    requires Isolated(c) && s in c.services && s.pinned
    requires s.count == |s.machines| * s.perMachine && s.perMachine > 0
    ensures s.count <= |Names(s.machines)| * s.perMachine <==> NoRepeats(s.machines)
  {
    RepeatsShrink(s.machines);
    if |Names(s.machines)| < |s.machines| {
      Fewer(|Names(s.machines)|, |s.machines|, s.perMachine);
    }
  }

  lemma {:induction false} Fewer(a: int, b: int, n: int)
    requires a < b && n > 0
    ensures a * n < b * n
  {
  }

  /** A worker listed twice by one service makes up its count twice. */
  lemma {:induction false} RepeatedWorkerAccepted(a: Agent, hosts: map<string, string>)
    requires a.outward
    ensures Isolated(Config([a], [Service("s", [a.id, a.id], 2, false, [], 4)], hosts))
  {
  }

  // ---- Machines by the hosts of endpoints ----------------------------------------------------

  predicate SpawnedOn(c: Config, a: Agent, host: string) { a.endpoint in c.hosts && c.hosts[a.endpoint] == host }

  /** An endpoint that is spawned nowhere is on this machine, as is one spawned on a host of that name. */
  predicate Here(c: Config, a: Agent) { a.endpoint !in c.hosts || SpawnedOn(c, a, "local") }

  ghost predicate SharesHost(c: Config, a: Agent, b: Agent) {
    (Here(c, a) && Here(c, b)) || exists host :: SpawnedOn(c, a, host) && SpawnedOn(c, b, host)
  }

  lemma {:induction false} SameMachine(c: Config, a: Agent, b: Agent)
    ensures MachineOf(c, a) == MachineOf(c, b) <==> SharesHost(c, a, b)
  {
    if MachineOf(c, a) == MachineOf(c, b) && a.endpoint in c.hosts && b.endpoint in c.hosts {
      assert SpawnedOn(c, a, MachineOf(c, a)) && SpawnedOn(c, b, MachineOf(c, a));
    }
  }

  /** A configuration is let through if and only if no two agents share an endpoint, every service is sound, and of
      agents that share a host none is outward beside an internal one, nor are two outward ones entered under
      different services. */
  lemma {:induction false} IsolatedByHosts(c: Config)
    ensures Isolated(c)
            <==> && OneAgentPerEndpoint(c.agents) && ServicesSound(c)
                 && (forall a, b | a in c.agents && b in c.agents && SharesHost(c, a, b) :: Together(c, a, b))
  {
    if Isolated(c) {
      forall a, b | a in c.agents && b in c.agents && SharesHost(c, a, b) ensures Together(c, a, b) {
        SameMachine(c, a, b);
      }
    }
    if forall a, b | a in c.agents && b in c.agents && SharesHost(c, a, b) :: Together(c, a, b) {
      forall a, b | a in c.agents && b in c.agents && MachineOf(c, a) == MachineOf(c, b) ensures Together(c, a, b) {
        SameMachine(c, a, b);
      }
    }
  }
}
