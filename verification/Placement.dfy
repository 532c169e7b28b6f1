/** The placement-group planner (tools/li_runtime_orchestration.py): binding tasks to
    nodes, building the group and validating its document. Task identities "task-i" are
    their index; a placement identity is the digest of its contents, which is injective. */
module Placement {
  import opened Text
  import opened Reachability

  datatype LinkKind = ConnectX | Ethernet | Wifi | Other

  datatype Connection = Connection(left: Node, right: Node, kind: LinkKind, speed: int, mtu: int, rdma: bool)

  datatype Scope = Scope(service: string, runtimeDigest: string, manifest: string, topology: string)

  datatype Contents = Contents(node: Node, address: string, task: nat, portBase: int, portCount: int,
                               devices: seq<string>, rdma: Option<string>)

  datatype Identity = Sha256(scope: Scope, contents: Contents)

  datatype Placement = Placement(id: Identity, contents: Contents)

  datatype Group = Group(scope: Scope, endpoint: Identity, startup: seq<seq<Identity>>,
                         connections: seq<Connection>, placements: seq<Placement>)

  // ---------------------------------------------------------------- projections

  function Flatten<T>(phases: seq<seq<T>>): seq<T> {
    if phases == [] then [] else phases[0] + Flatten(phases[1..])
  }

  function Ids(ps: seq<Placement>): (r: seq<Identity>)
    ensures |r| == |ps| && forall i :: 0 <= i < |r| ==> r[i] == ps[i].id
  {
    seq(|ps|, i requires 0 <= i < |ps| => ps[i].id)
  }

  function Nodes(ps: seq<Placement>): (r: seq<Node>)
    ensures |r| == |ps| && forall i :: 0 <= i < |r| ==> r[i] == ps[i].contents.node
  {
    seq(|ps|, i requires 0 <= i < |ps| => ps[i].contents.node)
  }

  function DeviceLists(ps: seq<Placement>): (r: seq<seq<string>>)
    ensures |r| == |ps| && forall i :: 0 <= i < |r| ==> r[i] == ps[i].contents.devices
  {
    seq(|ps|, i requires 0 <= i < |ps| => ps[i].contents.devices)
  }

  // ---------------------------------------------------------------- paths of links

  // These links lead from a to b, each a connection of the group that the check accepts, taken in
  // either direction.
  predicate LinkPath(cs: seq<Connection>, keep: Connection -> bool, a: Node, links: seq<Connection>, b: Node)
    decreases |links|
  {
    if links == [] then a == b
    else
      && links[0] in cs && keep(links[0])
      && ((links[0].left == a && LinkPath(cs, keep, links[0].right, links[1..], b))
          || (links[0].right == a && LinkPath(cs, keep, links[0].left, links[1..], b)))
  }

  ghost predicate Linked(cs: seq<Connection>, keep: Connection -> bool, a: Node, b: Node) {
    exists links :: LinkPath(cs, keep, a, links, b)
  }

  ghost predicate AllLinked(nodes: seq<Node>, cs: seq<Connection>, keep: Connection -> bool) {
    forall a, b :: a in nodes && b in nodes ==> Linked(cs, keep, a, b)
  }

  // The links a check keeps, in order.
  function PairsWhere(cs: seq<Connection>, keep: Connection -> bool): seq<Pair> {
    if cs == [] then []
    else (if keep(cs[0]) then [Pair(cs[0].left, cs[0].right)] else []) + PairsWhere(cs[1..], keep)
  }

  lemma {:induction false} PairsAreLinks(cs: seq<Connection>, keep: Connection -> bool, p: Pair)
    ensures p in PairsWhere(cs, keep) <==> exists c :: c in cs && keep(c) && c.left == p.left && c.right == p.right
  {
    if cs != [] {
      PairsAreLinks(cs[1..], keep, p);
      if c :| c in cs && keep(c) && c.left == p.left && c.right == p.right {
        assert c == cs[0] || c in cs[1..];
      }
    }
  }

  lemma {:induction false} PathToLinks(cs: seq<Connection>, keep: Connection -> bool, a: Node, steps: seq<Node>, b: Node)
    requires IsPath(PairsWhere(cs, keep), a, steps, b)
    ensures Linked(cs, keep, a, b)
    decreases |steps|
  {
    hide PairsWhere;
    if steps == [] {
      assert LinkPath(cs, keep, a, [], b);
    } else {
      PathToLinks(cs, keep, steps[0], steps[1..], b);
      var rest :| LinkPath(cs, keep, steps[0], rest, b);
      PairsAreLinks(cs, keep, Pair(a, steps[0]));
      PairsAreLinks(cs, keep, Pair(steps[0], a));
      var c :| c in cs && keep(c) && ((c.left == a && c.right == steps[0]) || (c.left == steps[0] && c.right == a));
      assert ([c] + rest)[1..] == rest;
      assert LinkPath(cs, keep, a, [c] + rest, b);
    }
  }

  lemma {:induction false} LinksToPath(cs: seq<Connection>, keep: Connection -> bool, a: Node, links: seq<Connection>, b: Node)
    requires LinkPath(cs, keep, a, links, b)
    ensures Joined(PairsWhere(cs, keep), a, b)
    decreases |links|
  {
    hide PairsWhere;
    var pairs := PairsWhere(cs, keep);
    if links == [] {
      JoinedReflexive(pairs, a);
    } else {
      var c := links[0];
      PairsAreLinks(cs, keep, Pair(c.left, c.right));
      var next := if c.left == a && LinkPath(cs, keep, c.right, links[1..], b) then c.right else c.left;
      LinksToPath(cs, keep, next, links[1..], b);
      JoinedReflexive(pairs, a);
      JoinedStep(pairs, a, a, next);
      JoinedTransitive(pairs, a, next, b);
    }
  }

  // Reachability over the kept pairs is reachability over accepted links.
  lemma JoinedIsLinked(nodes: seq<Node>, cs: seq<Connection>, keep: Connection -> bool)
    ensures AllJoined(nodes, PairsWhere(cs, keep)) <==> AllLinked(nodes, cs, keep)
  {
    hide PairsWhere, LinkPath, IsPath;
    forall a, b ensures Joined(PairsWhere(cs, keep), a, b) <==> Linked(cs, keep, a, b) {
      if Joined(PairsWhere(cs, keep), a, b) {
        var steps :| IsPath(PairsWhere(cs, keep), a, steps, b);
        PathToLinks(cs, keep, a, steps, b);
      }
      if Linked(cs, keep, a, b) {
        var links :| LinkPath(cs, keep, a, links, b);
        LinksToPath(cs, keep, a, links, b);
      }
    }
  }

  function AnyLink(c: Connection): bool { true }

  function RdmaLink(c: Connection): bool { c.rdma }

  // ---------------------------------------------------------------- the document's rules

  predicate ContentsValid(c: Contents) {
    && c.address != ""
    && 1024 <= c.portBase < 65536 && 1 <= c.portCount <= 32 && c.portBase + c.portCount <= 65536
    && c.devices != [] && Distinct(c.devices) && forall d :: d in c.devices ==> d != ""
  }

  predicate PairBelow(p: Pair, q: Pair) {
    Less(p.left, q.left) || (p.left == q.left && Less(p.right, q.right))
  }

  predicate LinksValid(nodes: seq<Node>, cs: seq<Connection>) {
    && (forall i :: 0 <= i < |cs| ==>
          && Less(cs[i].left, cs[i].right) && cs[i].left in nodes && cs[i].right in nodes
          && cs[i].speed >= 0 && cs[i].mtu > 0)
    && (forall i, j :: 0 <= i < j < |cs| ==>
          PairBelow(Pair(cs[i].left, cs[i].right), Pair(cs[j].left, cs[j].right)))
    && (|nodes| == 1 ==> cs == [])
  }

  // The same elements, each exactly once.
  predicate Permutes<T(==)>(a: seq<T>, b: seq<T>) {
    Distinct(a) && |a| == |b| && (forall x :: x in a ==> x in b) && forall x :: x in b ==> x in a
  }

  predicate StartupValid(startup: seq<seq<Identity>>, ids: seq<Identity>) {
    && startup != [] && (forall phase :: phase in startup ==> phase != [])
    && Permutes(Flatten(startup), ids)
  }

  ghost predicate Connected(ps: seq<Placement>, cs: seq<Connection>) {
    && (|ps| > 1 ==> AllLinked(Nodes(ps), cs, AnyLink))
    && ((exists p :: p in ps && p.contents.rdma.Some?) ==>
          && (forall p :: p in ps ==> p.contents.rdma.Some?)
          && AllLinked(Nodes(ps), cs, RdmaLink))
  }

  predicate IdentitiesValid(g: Group) {
    && (forall i :: 0 <= i < |g.placements| ==>
          && g.placements[i].id == Sha256(g.scope, g.placements[i].contents)
          && g.placements[i].contents.task == i)
    && Distinct(Ids(g.placements)) && Distinct(Nodes(g.placements))
    && g.endpoint in Ids(g.placements)
    && StartupValid(g.startup, Ids(g.placements))
  }

  predicate ResourcesValid(g: Group) {
    && (forall p :: p in g.placements ==> ContentsValid(p.contents))
    && Distinct(Flatten(DeviceLists(g.placements)))
    && LinksValid(Nodes(g.placements), g.connections)
  }

  ghost predicate GroupValid(g: Group) {
    && 1 <= |g.placements| <= 64
    && IdentitiesValid(g) && ResourcesValid(g)
    && Connected(g.placements, g.connections)
  }

  // ---------------------------------------------------------------- validation

  lemma {:induction false} PairsFromLinks(nodes: seq<Node>, cs: seq<Connection>, keep: Connection -> bool)
    requires forall i :: 0 <= i < |cs| ==> cs[i].left in nodes && cs[i].right in nodes
    ensures Within(nodes, PairsWhere(cs, keep))
  {
    if cs != [] { PairsFromLinks(nodes, cs[1..], keep); }
  }

  method CollectPairs(cs: seq<Connection>, keep: Connection -> bool) returns (pairs: seq<Pair>)
    ensures pairs == PairsWhere(cs, keep)
  {
    pairs := [];
    for n := 0 to |cs|
      invariant pairs + PairsWhere(cs[n..], keep) == PairsWhere(cs, keep)
    {
      assert cs[n..][1..] == cs[n + 1..];
      if keep(cs[n]) {
        pairs := pairs + [Pair(cs[n].left, cs[n].right)];
      }
    }
  }

  method ValidateGroup(g: Group) returns (ok: bool)
    ensures ok <==> GroupValid(g)
  {
    hide IdentitiesValid, AllJoined, AllLinked;
    if !(1 <= |g.placements| <= 64) || !IdentitiesValid(g) || !ResourcesValid(g) { return false; }
    hide ContentsValid, PairBelow, Less;
    var nodes := Nodes(g.placements);
    PairsFromLinks(nodes, g.connections, AnyLink);
    PairsFromLinks(nodes, g.connections, RdmaLink);
    JoinedIsLinked(nodes, g.connections, AnyLink);
    JoinedIsLinked(nodes, g.connections, RdmaLink);
    if |nodes| > 1 {
      var pairs := CollectPairs(g.connections, AnyLink);
      var joined := JoinsEveryNode(nodes, pairs);
      if !joined { return false; }
    }
    if exists p :: p in g.placements && p.contents.rdma.Some? {
      if exists p :: p in g.placements && p.contents.rdma.None? { return false; }
      var pairs := CollectPairs(g.connections, RdmaLink);
      var joined := JoinsEveryNode(nodes, pairs);
      return joined;
    }
    return true;
  }

  // ---------------------------------------------------------------- the release target

  datatype Interconnect = Interconnect(kind: Option<LinkKind>, rdmaRequired: bool, minimumSpeed: nat, minimumMtu: nat)

  predicate Qualifies(t: Interconnect, c: Connection) {
    && (t.kind.None? || c.kind == t.kind.value)
    && (t.rdmaRequired ==> c.rdma)
    && c.speed >= t.minimumSpeed && c.mtu >= t.minimumMtu
  }

  function Qualifying(t: Interconnect): Connection -> bool { c => Qualifies(t, c) }

  ghost predicate MeetsTarget(g: Group, nodeCount: int, t: Interconnect) {
    && |g.placements| == nodeCount
    && (|g.placements| > 1 ==> AllLinked(Nodes(g.placements), g.connections, Qualifying(t)))
    && (if t.rdmaRequired then forall p :: p in g.placements ==> p.contents.rdma.Some?
        else forall p :: p in g.placements ==> p.contents.rdma.None?)
  }

  // The loop over the connections, with its four conditions.
  method CollectMatching(cs: seq<Connection>, t: Interconnect) returns (pairs: seq<Pair>)
    ensures pairs == PairsWhere(cs, Qualifying(t))
  {
    pairs := [];
    for n := 0 to |cs|
      invariant pairs + PairsWhere(cs[n..], Qualifying(t)) == PairsWhere(cs, Qualifying(t))
    {
      assert cs[n..][1..] == cs[n + 1..];
      if (t.kind == None || t.kind == Some(cs[n].kind)) && (!t.rdmaRequired || cs[n].rdma)
         && cs[n].speed >= t.minimumSpeed && cs[n].mtu >= t.minimumMtu
      {
        pairs := pairs + [Pair(cs[n].left, cs[n].right)];
      }
    }
  }

  method ValidateTarget(g: Group, nodeCount: int, t: Interconnect) returns (ok: bool)
    ensures ok <==> GroupValid(g) && MeetsTarget(g, nodeCount, t)
  {
    hide AllJoined, AllLinked, IdentitiesValid, Connected, Qualifying, ContentsValid, PairBelow, Less;
    var valid := ValidateGroup(g);
    if !valid || |g.placements| != nodeCount { return false; }
    var nodes := Nodes(g.placements);
    PairsFromLinks(nodes, g.connections, Qualifying(t));
    JoinedIsLinked(nodes, g.connections, Qualifying(t));
    if |nodes| > 1 {
      var pairs := CollectMatching(g.connections, t);
      var joined := JoinsEveryNode(nodes, pairs);
      if !joined { return false; }
    }
    if t.rdmaRequired {
      return forall p :: p in g.placements ==> p.contents.rdma.Some?;
    }
    return forall p :: p in g.placements ==> p.contents.rdma.None?;
  }

  // ---------------------------------------------------------------- the link bound

  function Kept(cs: seq<Connection>, keep: Connection -> bool): set<Connection> { set c | c in cs && keep(c) }

  function PairSet(cs: seq<Connection>, keep: Connection -> bool): set<Pair> { set p | p in PairsWhere(cs, keep) }

  lemma KeptStep(cs: seq<Connection>, keep: Connection -> bool)
    requires cs != []
    ensures Kept(cs, keep) == if keep(cs[0]) then Kept(cs[1..], keep) + {cs[0]} else Kept(cs[1..], keep)
    ensures PairSet(cs, keep) ==
      if keep(cs[0]) then PairSet(cs[1..], keep) + {Pair(cs[0].left, cs[0].right)} else PairSet(cs[1..], keep)
    ensures cs[0] in Kept(cs[1..], keep) ==> Pair(cs[0].left, cs[0].right) in PairSet(cs[1..], keep)
  {
    PairsAreLinks(cs[1..], keep, Pair(cs[0].left, cs[0].right));
    assert forall c :: c in cs <==> c == cs[0] || c in cs[1..];
  }

  lemma {:induction false} PairsAreAtMostLinks(cs: seq<Connection>, keep: Connection -> bool)
    ensures |PairSet(cs, keep)| <= |Kept(cs, keep)| <= |cs|
  {
    if cs == [] {
      assert PairSet(cs, keep) == {} && Kept(cs, keep) == {};
    } else {
      hide *;
      KeptStep(cs, keep);
      PairsAreAtMostLinks(cs[1..], keep);
      AddedSizes(PairSet(cs[1..], keep), Pair(cs[0].left, cs[0].right), Kept(cs[1..], keep), cs[0]);
    }
  }

  lemma AddedSizes(pairs: set<Pair>, pair: Pair, kept: set<Connection>, c: Connection)
    requires |pairs| <= |kept| && (c in kept ==> pair in pairs)
    ensures |pairs + {pair}| <= |kept + {c}| <= |kept| + 1
  {
    assert pair in pairs ==> pairs + {pair} == pairs;
    assert c in kept ==> kept + {c} == kept;
  }

  // A valid group of n nodes has at least n - 1 links, and at least as many qualifying
  // ones when it meets a target.
  lemma GroupNeedsLinks(g: Group, nodeCount: int, t: Interconnect)
    requires GroupValid(g)
    ensures |g.connections| >= |g.placements| - 1
    ensures MeetsTarget(g, nodeCount, t) ==>
      |Kept(g.connections, c => Qualifies(t, c))| >= |g.placements| - 1
  {
    hide AllJoined, AllLinked, ContentsValid, PairBelow, Less, Qualifies, StartupValid, PairsWhere, Permutes;
    var nodes := Nodes(g.placements);
    if |g.placements| > 1 {
      JoinedIsLinked(nodes, g.connections, AnyLink);
      PairsFromLinks(nodes, g.connections, AnyLink);
      JoinedNeedsLinks(nodes, PairsWhere(g.connections, AnyLink));
      PairsAreAtMostLinks(g.connections, AnyLink);
      if MeetsTarget(g, nodeCount, t) {
        JoinedIsLinked(nodes, g.connections, Qualifying(t));
        PairsFromLinks(nodes, g.connections, Qualifying(t));
        JoinedNeedsLinks(nodes, PairsWhere(g.connections, Qualifying(t)));
        PairsAreAtMostLinks(g.connections, Qualifying(t));
        assert Kept(g.connections, Qualifying(t)) == Kept(g.connections, c => Qualifies(t, c));
      }
    }
  }

  // ---------------------------------------------------------------- task contracts

  datatype Contract = Contract(portCounts: seq<int>, owner: nat, startup: seq<seq<nat>>)

  function TaskIds(n: nat): (ids: seq<nat>)
    ensures |ids| == n && forall i :: 0 <= i < n ==> ids[i] == i
  {
    seq(n, i => i)
  }

  predicate ContractValid(c: Contract) {
    && 1 <= |c.portCounts| <= 64
    && (forall i :: 0 <= i < |c.portCounts| ==> 1 <= c.portCounts[i] <= 32)
    && c.owner < |c.portCounts|
    && c.startup != [] && (forall phase :: phase in c.startup ==> phase != [])
    && Permutes(Flatten(c.startup), TaskIds(|c.portCounts|))
  }

  predicate Bindable(c: Contract, members: seq<Node>, main: Node) {
    ContractValid(c) && |members| == |c.portCounts| && Distinct(members) && main in members
  }

  // The main node takes the endpoint owner's place, and the node that was there takes its place.
  function Bound(c: Contract, members: seq<Node>, main: Node): (b: seq<Node>)
    requires c.owner < |members|
    ensures |b| == |members|
  {
    seq(|members|, i requires 0 <= i < |members| =>
      if i == c.owner then main else if members[i] == main then members[c.owner] else members[i])
  }

  method BindEndpointNode(c: Contract, members: seq<Node>, main: Node) returns (r: Option<seq<Node>>)
    ensures r.Some? <==> Bindable(c, members, main)
    ensures r.Some? ==> Permutes(r.value, members) && r.value[c.owner] == main
    ensures r.Some? ==> r.value == Bound(c, members, main)
  {
    if !Bindable(c, members, main) { return None; }
    hide ContractValid;
    var current := 0;
    while members[current] != main
      invariant current < |members| && main in members[current..]
      decreases |members| - current
    {
      assert members[current..] == [members[current]] + members[current + 1..];
      current := current + 1;
    }
    var ordered := members;
    ordered := ordered[c.owner := members[current]][current := members[c.owner]];
    forall x | x in members ensures x in ordered {
      var i :| 0 <= i < |members| && members[i] == x;
      assert i != c.owner && i != current ==> ordered[i] == x;
      assert ordered[c.owner] == members[current] && ordered[current] == members[c.owner];
    }
    return Some(ordered);
  }

  // ---------------------------------------------------------------- building the group

  datatype Inputs = Inputs(members: seq<Node>, addresses: map<Node, string>, portBases: map<Node, int>,
                           devices: map<Node, seq<string>>, rdma: map<Node, string>, connections: seq<Connection>)

  predicate Complete(c: Contract, x: Inputs) {
    && ContractValid(c)
    && |x.members| == |c.portCounts| && Distinct(x.members)
    && x.addresses.Keys == SetOf(x.members) && x.portBases.Keys == SetOf(x.members)
    && x.devices.Keys == SetOf(x.members)
    && (x.rdma == map[] || x.rdma.Keys == SetOf(x.members))
  }

  function ContentsOf(c: Contract, x: Inputs, i: nat): Contents
    requires Complete(c, x) && i < |x.members|
  {
    var n := x.members[i];
    Contents(n, x.addresses[n], i, x.portBases[n], c.portCounts[i], x.devices[n],
             if n in x.rdma then Some(x.rdma[n]) else None)
  }

  function PlacementsOf(c: Contract, s: Scope, x: Inputs): (ps: seq<Placement>)
    requires Complete(c, x)
    ensures |ps| == |x.members|
    ensures forall i :: 0 <= i < |ps| ==> ps[i] == Placement(Sha256(s, ContentsOf(c, x, i)), ContentsOf(c, x, i))
  {
    seq(|x.members|, i requires 0 <= i < |x.members| =>
      Placement(Sha256(s, ContentsOf(c, x, i)), ContentsOf(c, x, i)))
  }

  predicate TasksBelow(phases: seq<seq<nat>>, n: nat) {
    forall k, i :: 0 <= k < |phases| && 0 <= i < |phases[k]| ==> phases[k][i] < n
  }

  lemma {:induction false} FlattenHolds<T>(phases: seq<seq<T>>, k: nat, i: nat)
    requires k < |phases| && i < |phases[k]|
    ensures phases[k][i] in Flatten(phases)
  {
    if k > 0 {
      FlattenHolds(phases[1..], k - 1, i);
    }
  }

  lemma TasksInRange(c: Contract)
    requires ContractValid(c)
    ensures TasksBelow(c.startup, |c.portCounts|)
  {
    hide Flatten;
    forall k, i | 0 <= k < |c.startup| && 0 <= i < |c.startup[k]|
      ensures c.startup[k][i] < |c.portCounts|
    {
      FlattenHolds(c.startup, k, i);
    }
  }

  // The contract's phases with every task replaced by its placement.
  function PhasesOf(ids: seq<Identity>, phases: seq<seq<nat>>): (r: seq<seq<Identity>>)
    requires TasksBelow(phases, |ids|)
    ensures |r| == |phases|
    ensures forall k :: 0 <= k < |r| ==> |r[k]| == |phases[k]|
    ensures forall k, i :: 0 <= k < |r| && 0 <= i < |r[k]| ==> r[k][i] == ids[phases[k][i]]
  {
    seq(|phases|, k requires 0 <= k < |phases| =>
      seq(|phases[k]|, i requires 0 <= i < |phases[k]| => ids[phases[k][i]]))
  }

  function PlanOf(c: Contract, s: Scope, x: Inputs): Group
    requires Complete(c, x)
  {
    var ps := PlacementsOf(c, s, x);
    TasksInRange(c);
    Group(s, ps[c.owner].id, PhasesOf(Ids(ps), c.startup), x.connections, ps)
  }

  // Building collects the placements flagged as endpoint and refuses unless there is one,
  // on the selected main node; then the document is validated.
  method BuildPlan(c: Contract, s: Scope, x: Inputs, main: Option<Node>) returns (r: Option<Group>)
    ensures r.Some? <==>
      Complete(c, x) && (main.Some? ==> x.members[c.owner] == main.value) && GroupValid(PlanOf(c, s, x))
    ensures r.Some? ==> r.value == PlanOf(c, s, x)
  {
    if !Complete(c, x) { return None; }
    TasksInRange(c);
    hide GroupValid, PhasesOf, TasksBelow, Permutes;
    var placements := PlacementsOf(c, s, x);
    var endpoints: seq<Placement> := [];
    for i := 0 to |placements|
      invariant endpoints == if i <= c.owner then [] else [placements[c.owner]]
    {
      if i == c.owner { endpoints := endpoints + [placements[i]]; }
    }
    if |endpoints| != 1 || (main.Some? && endpoints[0].contents.node != main.value) { return None; }
    var plan := Group(s, endpoints[0].id, PhasesOf(Ids(placements), c.startup), x.connections, placements);
    var valid := ValidateGroup(plan);
    return if valid then Some(plan) else None;
  }

  // ---------------------------------------------------------------- what planning guarantees

  predicate Mapped(ids: seq<Identity>, tasks: seq<nat>, mapped: seq<Identity>) {
    |mapped| == |tasks| && forall i :: 0 <= i < |tasks| ==> tasks[i] < |ids| && mapped[i] == ids[tasks[i]]
  }

  lemma {:induction false} FlattenPhases(ids: seq<Identity>, phases: seq<seq<nat>>)
    requires TasksBelow(phases, |ids|)
    ensures Mapped(ids, Flatten(phases), Flatten(PhasesOf(ids, phases)))
  {
    if phases != [] {
      var mapped := PhasesOf(ids, phases);
      FlattenPhases(ids, phases[1..]);
      assert mapped[1..] == PhasesOf(ids, phases[1..]);
      ConcatMapped(ids, phases[0], Flatten(phases[1..]), mapped[0], Flatten(mapped[1..]));
    }
  }

  lemma ConcatMapped(ids: seq<Identity>, a: seq<nat>, b: seq<nat>, a': seq<Identity>, b': seq<Identity>)
    requires Mapped(ids, a, a') && Mapped(ids, b, b')
    ensures Mapped(ids, a + b, a' + b')
  {
  }

  lemma PhasesPermute(ids: seq<Identity>, flat: seq<nat>, mapped: seq<Identity>)
    requires Distinct(ids) && Permutes(flat, TaskIds(|ids|)) && Mapped(ids, flat, mapped)
    ensures Permutes(mapped, ids)
  {
    forall x | x in ids ensures x in mapped {
      var k :| 0 <= k < |ids| && ids[k] == x;
      assert TaskIds(|ids|)[k] == k;
      assert k in flat;
      var i :| 0 <= i < |flat| && flat[i] == k;
      assert mapped[i] == x;
    }
  }

  // The contract's phases under the bijection from task i to placement i start every
  // placement exactly once.
  lemma StartupIsValid(c: Contract, ids: seq<Identity>)
    requires ContractValid(c) && |ids| == |c.portCounts| && Distinct(ids)
    ensures TasksBelow(c.startup, |ids|) && StartupValid(PhasesOf(ids, c.startup), ids)
  {
    hide Flatten, Permutes;
    TasksInRange(c);
    FlattenPhases(ids, c.startup);
    var started := PhasesOf(ids, c.startup);
    PhasesPermute(ids, Flatten(c.startup), Flatten(started));
    forall phase | phase in started ensures phase != [] {
      var k :| 0 <= k < |started| && started[k] == phase;
      assert c.startup[k] in c.startup;
    }
  }

  lemma PlacementsAreDistinct(c: Contract, s: Scope, x: Inputs)
    requires Complete(c, x)
    ensures Distinct(Ids(PlacementsOf(c, s, x))) && Nodes(PlacementsOf(c, s, x)) == x.members
  {
    hide ContractValid;
    var ps := PlacementsOf(c, s, x);
    forall i, j | 0 <= i < j < |ps| ensures Ids(ps)[i] != Ids(ps)[j] {
      assert ps[i].contents.node == x.members[i] && ps[j].contents.node == x.members[j];
    }
  }

  // Every plan meets the document's rules on identities, endpoint and startup order, its
  // placement i is on member i, and its one endpoint is the owner's placement.
  lemma PlanIdentitiesAreValid(c: Contract, s: Scope, x: Inputs)
    requires Complete(c, x)
    ensures IdentitiesValid(PlanOf(c, s, x))
    ensures Nodes(PlanOf(c, s, x).placements) == x.members
    ensures forall p :: p in PlanOf(c, s, x).placements ==>
      (p.id == PlanOf(c, s, x).endpoint <==> p.contents.node == x.members[c.owner])
  {
    hide Permutes, StartupValid, PhasesOf, TasksBelow;
    PlacementsAreDistinct(c, s, x);
    var ps := PlacementsOf(c, s, x);
    StartupIsValid(c, Ids(ps));
    assert Ids(ps)[c.owner] == PlanOf(c, s, x).endpoint;
    assert forall i :: 0 <= i < |ps| ==> Nodes(ps)[i] == x.members[i];
  }

  // Exactly one placement is on the node, and it is the endpoint.
  predicate SoleEndpointOn(g: Group, main: Node) {
    exists i :: 0 <= i < |g.placements| && OwnsEndpoint(g, main, i)
  }

  predicate OwnsEndpoint(g: Group, main: Node, i: nat)
    requires i < |g.placements|
  {
    && g.placements[i].id == g.endpoint
    && forall j :: 0 <= j < |g.placements| ==> (g.placements[j].contents.node == main <==> j == i)
  }

  // From members bound to the main node, planning yields one endpoint, on that node; it
  // is refused exactly when resources or links are.
  lemma BoundPlan(c: Contract, s: Scope, x: Inputs, main: Node)
    requires Complete(c, x) && x.members[c.owner] == main
    ensures GroupValid(PlanOf(c, s, x)) <==>
      ResourcesValid(PlanOf(c, s, x)) && Connected(PlanOf(c, s, x).placements, x.connections)
    ensures SoleEndpointOn(PlanOf(c, s, x), main)
  {
    PlanIdentitiesAreValid(c, s, x);
    hide IdentitiesValid, ResourcesValid, Connected, PhasesOf, Permutes, TasksBelow;
    var ps := PlacementsOf(c, s, x);
    forall j | 0 <= j < |x.members| ensures ps[j].contents.node == main <==> j == c.owner {
      assert Nodes(ps)[j] == x.members[j];
    }
    assert OwnsEndpoint(PlanOf(c, s, x), main, c.owner);
  }

  ghost predicate Plannable(c: Contract, s: Scope, x: Inputs) {
    Complete(c, x) && ResourcesValid(PlanOf(c, s, x)) && Connected(PlanOf(c, s, x).placements, x.connections)
  }

  // Every placement carries the inputs of its own node and the task of its own index.
  predicate CarriesInputs(c: Contract, x: Inputs, members: seq<Node>, g: Group) {
    && |g.placements| == |members| == |c.portCounts| && g.connections == x.connections
    && forall i :: 0 <= i < |members| ==>
         var p, n := g.placements[i].contents, members[i];
         && n in x.addresses && n in x.portBases && n in x.devices
         && p.node == n && p.task == i && p.address == x.addresses[n]
         && p.portBase == x.portBases[n] && p.portCount == c.portCounts[i] && p.devices == x.devices[n]
         && p.rdma == if n in x.rdma then Some(x.rdma[n]) else None
  }

  // Phase by phase, the placements of the tasks that the contract starts in that phase, in its order.
  predicate StartsAsContracted(c: Contract, g: Group) {
    && |g.startup| == |c.startup|
    && forall k :: 0 <= k < |c.startup| ==> StartsPhase(c.startup[k], g.startup[k], g.placements)
  }

  predicate StartsPhase(tasks: seq<nat>, ids: seq<Identity>, ps: seq<Placement>) {
    |ids| == |tasks| && forall i :: 0 <= i < |tasks| ==> tasks[i] < |ps| && ids[i] == ps[tasks[i]].id
  }

  lemma PlanCarriesInputs(c: Contract, s: Scope, x: Inputs)
    requires Complete(c, x)
    ensures CarriesInputs(c, x, x.members, PlanOf(c, s, x)) && StartsAsContracted(c, PlanOf(c, s, x))
    ensures PlanOf(c, s, x).scope == s
  {
    hide ContractValid, Permutes, PhasesOf, PlacementsOf;
    TasksInRange(c);
    assert forall i :: 0 <= i < |x.members| ==> x.members[i] in SetOf(x.members);
  }

  // Binding and building together, as the planner is used.
  method PlanOnMain(c: Contract, s: Scope, x: Inputs, main: Node) returns (r: Option<Group>)
    ensures r.Some? <==> Bindable(c, x.members, main) && Plannable(c, s, x.(members := Bound(c, x.members, main)))
    ensures r.Some? ==>
      && GroupValid(r.value) && SoleEndpointOn(r.value, main)
      && Permutes(Nodes(r.value.placements), x.members)
    ensures r.Some? ==>
      && CarriesInputs(c, x, Bound(c, x.members, main), r.value)
      && StartsAsContracted(c, r.value) && r.value.scope == s
  {
    hide GroupValid, SoleEndpointOn, PlanOf, Permutes, ContractValid, ResourcesValid, Connected, Complete;
    var bound := BindEndpointNode(c, x.members, main);
    if bound.None? { return None; }
    var y := x.(members := bound.value);
    r := BuildPlan(c, s, y, Some(main));
    if Complete(c, y) {
      PlanIdentitiesAreValid(c, s, y);
      BoundPlan(c, s, y, main);
      PlanCarriesInputs(c, s, y);
    }
  }
}
