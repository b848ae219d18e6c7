/** Load balancers for services: when a reconcile writes, and that it settles. */
module LoadBalancers {
  import opened Wrappers
  import opened Text
  import opened Answering
  import opened Lists
  import opened Sorting
  import Cluster

  const FINALIZER := "binarylane.com.au/load-balancer"

  datatype Rule = Rule(entryProtocol: string, entryPort: int, targetProtocol: string, targetPort: int)

  datatype LoadBalancer = LoadBalancer(name: string, ip: string, rules: seq<Rule>, serverIds: seq<int>)

  datatype Port = Port(protocol: Option<string>, port: int, nodePort: Option<int>)

  datatype Condition = Condition(kind: string, status: string)

  datatype Node = Node(providerId: Option<string>, conditions: seq<Condition>)

  /** A service that is not being deleted. `lbId` is the annotation naming its load balancer. */
  datatype Service = Service(
    ns: string,
    name: string,
    finalizers: seq<string>,
    lbId: Option<string>,
    ports: seq<Port>,
    ingress: Option<string>)

  /** The service and the provider's load balancers, whose ids are never reused and stay within i64. */
  datatype Site = Site(service: Service, lbs: map<int, LoadBalancer>, nextLb: int)

  // ---------- what a service asks for ----------

  function LbName(ns: string, name: string): string {
    "k8s-" + ns + "-" + name
  }

  function RuleFor(p: Port): Rule {
    var proto := Lower(Cluster.OrElse(p.protocol, "TCP"));
    Rule(proto, p.port, proto, Cluster.OrElse(p.nodePort, p.port))
  }

  function RulesFor(ports: seq<Port>): (rules: seq<Rule>)
    ensures |rules| == |ports| && forall i :: 0 <= i < |ports| ==> rules[i] == RuleFor(ports[i])
  {
    seq(|ports|, i requires 0 <= i < |ports| => RuleFor(ports[i]))
  }

  predicate Ready(n: Node) {
    exists c :: c in n.conditions && c == Condition("Ready", "True")
  }

  function ServerId(n: Node): Option<int> {
    Cluster.ParseProviderId(Cluster.OrElse(n.providerId, ""))
  }

  /** The servers behind the ready nodes, in the order listed. */
  function ReadyIds(nodes: seq<Node>): seq<int> {
    if nodes == [] then []
    else
      var (before, n) := (ReadyIds(nodes[..|nodes| - 1]), nodes[|nodes| - 1]);
      if ServerId(n).Some? && Ready(n) then before + [ServerId(n).value] else before
  }

  /** `get_ready_node_server_ids` */
  method GetReadyNodeServerIds(nodes: seq<Node>) returns (ids: seq<int>)
    ensures ids == ReadyIds(nodes)
  {
    ids := [];
    for i := 0 to |nodes|
      invariant ids == ReadyIds(nodes[..i])
    {
      assert nodes[..i + 1][..i] == nodes[..i];
      var id := ServerId(nodes[i]);
      if id.None? { continue; }
      if Ready(nodes[i]) { ids := ids + [id.value]; }
    }
    assert nodes[..|nodes|] == nodes;
  }

  /** The node has the condition `Ready` with status `True` and is bound to some server. */
  predicate Counts(n: Node) {
    ServerId(n).Some? && exists c :: c in n.conditions && c.kind == "Ready" && c.status == "True"
  }

  /** One id for each node that counts, its server's, in the order listed. */
  lemma {:induction false} ReadyIdsInOrder(nodes: seq<Node>) returns (at: seq<nat>)
    ensures Collected(nodes, ReadyIds(nodes), (n: Node) => Counts(n), (n: Node, id: int) => ServerId(n) == Some(id), at)
  {
    at := [];
    if nodes != [] {
      var (front, n) := (nodes[..|nodes| - 1], nodes[|nodes| - 1]);
      at := ReadyIdsInOrder(front);
      assert nodes == front + [n];
      ReadyCounts(n);
      var y := if Counts(n) then ServerId(n) else None;
      at := CollectedPlusOne(front, n, ReadyIds(front), y, (n: Node) => Counts(n),
          (n: Node, id: int) => ServerId(n) == Some(id), at);
      assert ReadyIds(nodes) == ReadyIds(front) + Listed(y);
    }
  }

  lemma ReadyCounts(n: Node)
    ensures Counts(n) <==> ServerId(n).Some? && Ready(n)
  {
    forall c | c in n.conditions && c.kind == "Ready" && c.status == "True" ensures c == Condition("Ready", "True") {}
  }

  /** A server is listed exactly when a ready node is bound to it. */
  lemma {:induction false} ReadyIdsExact(nodes: seq<Node>, id: int)
    ensures id in ReadyIds(nodes) <==> exists n :: n in nodes && ServerId(n) == Some(id) && Ready(n)
  {
    if nodes != [] {
      var (front, n) := (nodes[..|nodes| - 1], nodes[|nodes| - 1]);
      ReadyIdsExact(front, id);
      assert forall m :: m in nodes <==> m in front || m == n by {
        assert nodes == front + [n];
      }
    }
  }

  // ---------- drift ----------

  function EntryPort(r: Rule): int { r.entryPort }

  /** The update test, by comparing names, rules sorted by entry port, and sorted server ids: it spares the
      update exactly if the load balancer has this name, these rules in the same order port by port, and these
      servers, counting repetitions. */
  method NeedsUpdate(existing: LoadBalancer, name: string, rules: seq<Rule>, ids: seq<int>) returns (needsUpdate: bool)
    ensures !needsUpdate <==>
      && existing.name == name
      && AgreeAt(existing.rules, rules, EntryPort)
      && multiset(existing.serverIds) == multiset(ids)
  {
    DriftExact(existing, name, rules, ids);
    needsUpdate := false;
    needsUpdate := needsUpdate || existing.name != name;
    var existingRules, desiredRules := existing.rules, rules;
    existingRules := SortBy(existingRules, EntryPort);
    desiredRules := SortBy(desiredRules, EntryPort);
    needsUpdate := needsUpdate || existingRules != desiredRules;
    var existingIds, desiredIds := existing.serverIds, ids;
    existingIds := SortInts(existingIds);
    desiredIds := SortInts(desiredIds);
    needsUpdate := needsUpdate || existingIds != desiredIds;
  }

  predicate Drifted(existing: LoadBalancer, name: string, rules: seq<Rule>, ids: seq<int>) {
    existing.name != name
    || SortBy(existing.rules, EntryPort) != SortBy(rules, EntryPort)
    || SortInts(existing.serverIds) != SortInts(ids)
  }

  /** No update means exactly: the same name, the same rules in the same order port by port, and the
      same servers counting repetitions. */
  lemma DriftExact(existing: LoadBalancer, name: string, rules: seq<Rule>, ids: seq<int>)
    ensures !Drifted(existing, name, rules, ids) <==>
      && existing.name == name
      && AgreeAt(existing.rules, rules, EntryPort)
      && multiset(existing.serverIds) == multiset(ids)
  {
    SameSorted(existing.rules, rules, EntryPort);
    SameInts(existing.serverIds, ids);
  }

  /** Soundness: no update implies the same name, rules and servers, counting repetitions. */
  lemma NoUpdateIsSound(existing: LoadBalancer, name: string, rules: seq<Rule>, ids: seq<int>)
    requires !Drifted(existing, name, rules, ids)
    ensures existing.name == name
    ensures multiset(existing.rules) == multiset(rules) && multiset(existing.serverIds) == multiset(ids)
  {
    SameSorted(existing.rules, rules, EntryPort);
    SameInts(existing.serverIds, ids);
  }

  /** With distinct entry ports the converse holds too: order never causes an update. */
  lemma NoSpuriousUpdate(existing: LoadBalancer, name: string, rules: seq<Rule>, ids: seq<int>)
    requires DistinctKeys(rules, EntryPort)
    ensures Drifted(existing, name, rules, ids) <==>
      !(existing.name == name
        && multiset(existing.rules) == multiset(rules)
        && multiset(existing.serverIds) == multiset(ids))
  {
    if multiset(existing.rules) == multiset(rules) {
      SameElementsSameSorted(rules, existing.rules, EntryPort);
    }
    SameSorted(existing.rules, rules, EntryPort);
    SameInts(existing.serverIds, ids);
  }

  /** Without distinct ports it does not: one port for two protocols, listed the other way round. */
  lemma SpuriousUpdate() returns (existing: LoadBalancer, rules: seq<Rule>)
    ensures multiset(existing.rules) == multiset(rules) && existing.serverIds == []
    ensures Drifted(existing, existing.name, rules, [])
  {
    var tcp, udp := Rule("tcp", 53, "tcp", 53), Rule("udp", 53, "udp", 53);
    existing, rules := LoadBalancer("", "", [tcp, udp], []), [udp, tcp];
    assert At(existing.rules, EntryPort, 53)[0] == tcp && At(rules, EntryPort, 53)[0] == udp;
    DriftExact(existing, existing.name, rules, []);
  }

  // ---------- one reconcile ----------

  function WithFinalizer(s: Site): Site {
    s.(service := s.service.(finalizers := s.service.finalizers + [FINALIZER]))
  }

  function EnsureFinalizer(s: Site, answers: Answers): (Site, Answers, Status) {
    if FINALIZER in s.service.finalizers then (s, answers, Fine) else Write(s, WithFinalizer(s), answers)
  }

  /** `update_service_status` */
  function Publish(s: Site, lb: LoadBalancer, answers: Answers): (Site, Status) {
    if lb.ip == "" then (s, Fine)
    else
      var (v, _, status) := Write(s, s.(service := s.service.(ingress := Some(lb.ip))), answers);
      (v, status)
  }

  /** `create_load_balancer`; `ip` is the address the provider assigns. */
  function Create(s: Site, rules: seq<Rule>, ids: seq<int>, ip: string, answers: Answers): (Site, Status) {
    var lb := LoadBalancer(LbName(s.service.ns, s.service.name), ip, rules, ids);
    if !IsI64(s.nextLb) then (s, Internal)
    else
      var (v, a1, made) := Write(s, s.(lbs := s.lbs[s.nextLb := lb], nextLb := s.nextLb + 1), answers);
      if made != Fine then (v, made)
      else
        var (u, a2, noted) := Write(v, v.(service := v.service.(lbId := Some(PrintInt(s.nextLb)))), a1);
        if noted != Fine then (u, noted) else Publish(u, lb, a2)
  }

  /** The update, echoed back by the provider. */
  function Update(s: Site, id: int, rules: seq<Rule>, ids: seq<int>, answers: Answers): (Site, Status)
    requires id in s.lbs
  {
    var lb := s.lbs[id].(name := LbName(s.service.ns, s.service.name), rules := rules, serverIds := ids);
    var (v, rest, status) := Write(s, s.(lbs := s.lbs[id := lb]), answers);
    if status != Fine then (v, status) else Publish(v, lb, rest)
  }

  function Settle(s: Site, id: int, rules: seq<Rule>, ids: seq<int>, ip: string, answers: Answers): (Site, Status) {
    var (_, rest, got) := Write(s, s, answers);
    if got != Fine then (s, got)
    else if id !in s.lbs then Create(s, rules, ids, ip, rest)
    else if !Drifted(s.lbs[id], LbName(s.service.ns, s.service.name), rules, ids) then Publish(s, s.lbs[id], rest)
    else Update(s, id, rules, ids, rest)
  }

  /** `reconcile_service` for a service that is not being deleted. */
  function Reconcile(s: Site, nodes: seq<Node>, ip: string, answers: Answers): (Site, Status) {
    var (v, a1, held) := EnsureFinalizer(s, answers);
    if held != Fine then (v, held)
    else
      var (_, a2, listed) := Write(v, v, a1);
      if listed != Fine then (v, listed)
      else
        var (rules, ids) := (RulesFor(v.service.ports), ReadyIds(nodes));
        if v.service.lbId.None? then Create(v, rules, ids, ip, a2)
        else
          match ParseI64(v.service.lbId.value)
          case None => (v, Internal)
          case Some(id) => Settle(v, id, rules, ids, ip, a2)
  }

  class ServiceController {
    var site: Site
    var answers: Answers

    constructor (site: Site, answers: Answers)
      ensures this.site == site && this.answers == answers
    {
      this.site, this.answers := site, answers;
    }

    /** A call: makes the site `v` if it is answered. */
    method Send(v: Site) returns (status: Status)
      modifies this
      ensures (site, answers, status) == Write(old(site), v, old(answers))
    {
      if answers == [] { return Stopped; }
      if answers[0] { site, status := v, Fine; } else { status := Internal; }
      answers := answers[1..];
    }

    method UpdateServiceStatus(lb: LoadBalancer) returns (status: Status)
      modifies this
      ensures (site, status) == Publish(old(site), lb, old(answers))
    {
      if lb.ip == "" { return Fine; }
      status := Send(site.(service := site.service.(ingress := Some(lb.ip))));
    }

    method CreateLoadBalancer(rules: seq<Rule>, ids: seq<int>, ip: string) returns (status: Status)
      modifies this
      ensures (site, status) == Create(old(site), rules, ids, ip, old(answers))
    {
      if !IsI64(site.nextLb) { return Internal; }
      var id := site.nextLb;
      var lb := LoadBalancer(LbName(site.service.ns, site.service.name), ip, rules, ids);
      status := Send(site.(lbs := site.lbs[id := lb], nextLb := id + 1));
      if status != Fine { return; }
      status := Send(site.(service := site.service.(lbId := Some(PrintInt(id)))));
      if status != Fine { return; }
      status := UpdateServiceStatus(lb);
    }

    method SettleLoadBalancer(id: int, rules: seq<Rule>, ids: seq<int>, ip: string) returns (status: Status)
      modifies this
      ensures (site, status) == Settle(old(site), id, rules, ids, ip, old(answers))
    {
      status := Send(site);
      if status != Fine { return; }
      if id !in site.lbs {
        status := CreateLoadBalancer(rules, ids, ip);
        return;
      }
      var existing := site.lbs[id];
      var desiredName := LbName(site.service.ns, site.service.name);
      var needsUpdate := NeedsUpdate(existing, desiredName, rules, ids);
      DriftExact(existing, desiredName, rules, ids);
      if !needsUpdate {
        status := UpdateServiceStatus(existing);
        return;
      }
      var lb := existing.(name := desiredName, rules := rules, serverIds := ids);
      status := Send(site.(lbs := site.lbs[id := lb]));
      if status != Fine { return; }
      status := UpdateServiceStatus(lb);
    }

    method ReconcileService(nodes: seq<Node>, ip: string) returns (status: Status)
      modifies this
      ensures (site, status) == Reconcile(old(site), nodes, ip, old(answers))
    {
      if FINALIZER !in site.service.finalizers {
        status := Send(site.(service := site.service.(finalizers := site.service.finalizers + [FINALIZER])));
        if status != Fine { return; }
      }
      status := Send(site);
      if status != Fine { return; }
      var ids := GetReadyNodeServerIds(nodes);
      var rules := RulesFor(site.service.ports);
      if site.service.lbId.Some? {
        var parsed := ParseI64(site.service.lbId.value);
        if parsed.None? { return Internal; }
        status := SettleLoadBalancer(parsed.value, rules, ids, ip);
        return;
      }
      status := CreateLoadBalancer(rules, ids, ip);
    }
  }

  /** What a reconcile can do: to the load balancers nothing, make one, or change its own; to the service
      nothing but add our finalizer, note a load balancer just made, and set its ingress. */
  ghost predicate OnlyOwn(s: Site, v: Site, own: Option<int>) {
    && v.service.ns == s.service.ns && v.service.name == s.service.name && v.service.ports == s.service.ports
    && (v.service.finalizers == s.service.finalizers
        || (FINALIZER !in s.service.finalizers && v.service.finalizers == s.service.finalizers + [FINALIZER]))
    && (v.service.lbId == s.service.lbId || v.service.lbId == Some(PrintInt(s.nextLb)))
    && forall id :: id in s.lbs && id != s.nextLb && own != Some(id) ==> id in v.lbs && v.lbs[id] == s.lbs[id]
  }

  lemma CreateOnlyOwn(s: Site, rules: seq<Rule>, ids: seq<int>, ip: string, answers: Answers, own: Option<int>)
    ensures OnlyOwn(s, Create(s, rules, ids, ip, answers).0, own)
  {
  }

  lemma SettleOnlyOwn(s: Site, id: int, rules: seq<Rule>, ids: seq<int>, ip: string, answers: Answers)
    ensures OnlyOwn(s, Settle(s, id, rules, ids, ip, answers).0, Some(id))
  {
    CreateOnlyOwn(s, rules, ids, ip, Write(s, s, answers).1, Some(id));
  }

  /** However it ends, a reconcile touches no load balancer but its own and a newly made one, and does not
      change what the service asks for. */
  lemma OtherLoadBalancersUntouched(s: Site, nodes: seq<Node>, ip: string, answers: Answers)
    ensures OnlyOwn(s, Reconcile(s, nodes, ip, answers).0,
                    if s.service.lbId.Some? then ParseI64(s.service.lbId.value) else None)
  {
    var (v, a1, held) := EnsureFinalizer(s, answers);
    assert v.lbs == s.lbs && v.nextLb == s.nextLb && v.service.lbId == s.service.lbId;
    var a2 := Write(v, v, a1).1;
    var (rules, ids) := (RulesFor(v.service.ports), ReadyIds(nodes));
    if v.service.lbId.None? {
      CreateOnlyOwn(v, rules, ids, ip, a2, None);
    } else if ParseI64(v.service.lbId.value).Some? {
      SettleOnlyOwn(v, ParseI64(v.service.lbId.value).value, rules, ids, ip, a2);
    }
  }

  // ---------- reconciling settles ----------

  /** The service has a load balancer that needs no update for these rules and servers, and publishes its
      address, if it has one. */
  ghost predicate Settled(s: Site, ids: seq<int>) {
    && FINALIZER in s.service.finalizers
    && s.service.lbId.Some? && ParseI64(s.service.lbId.value).Some?
    && ParseI64(s.service.lbId.value).value in s.lbs
    && var lb := s.lbs[ParseI64(s.service.lbId.value).value];
      && !Drifted(lb, LbName(s.service.ns, s.service.name), RulesFor(s.service.ports), ids)
      && (lb.ip != "" ==> s.service.ingress == Some(lb.ip))
  }

  lemma UpdatedIsSettled(s: Site, rules: seq<Rule>, ids: seq<int>, ip: string, answers: Answers)
    requires FINALIZER in s.service.finalizers && rules == RulesFor(s.service.ports)
    requires s.service.lbId.Some? && ParseI64(s.service.lbId.value).Some?
    requires Settle(s, ParseI64(s.service.lbId.value).value, rules, ids, ip, answers).1 == Fine
    ensures Settled(Settle(s, ParseI64(s.service.lbId.value).value, rules, ids, ip, answers).0, ids)
  {
    var id := ParseI64(s.service.lbId.value).value;
    if id !in s.lbs { CreatedIsSettled(s, rules, ids, ip, Write(s, s, answers).1); }
  }

  lemma CreatedIsSettled(s: Site, rules: seq<Rule>, ids: seq<int>, ip: string, answers: Answers)
    requires FINALIZER in s.service.finalizers && rules == RulesFor(s.service.ports)
    requires Create(s, rules, ids, ip, answers).1 == Fine
    ensures Settled(Create(s, rules, ids, ip, answers).0, ids)
  {
    ParsePrint(s.nextLb);
  }

  /** A rule forwards a port: from its own number to its node port, if it has one, both ends by its protocol in
      lower case, TCP if it names none. */
  predicate Forwards(r: Rule, p: Port) {
    && r.entryPort == p.port
    && r.targetPort == (if p.nodePort.Some? then p.nodePort.value else p.port)
    && r.entryProtocol == (if p.protocol.Some? then Lower(p.protocol.value) else "tcp")
    && r.targetProtocol == r.entryProtocol
  }

  /** Rules and ports correspond one to one: `at` tells which rule is whose. */
  ghost predicate OneRuleEach(rules: seq<Rule>, ports: seq<Port>, at: seq<nat>) {
    && |at| == |rules| == |ports|
    && (forall i :: 0 <= i < |at| ==> at[i] < |rules|)
    && (forall i :: 0 <= i < |at| ==> Forwards(rules[at[i]], ports[i]))
    && (forall i, j :: 0 <= i < j < |at| ==> at[i] != at[j])
  }

  lemma RuleForwards(p: Port)
    ensures Forwards(RuleFor(p), p)
  {
    assert Lower("TCP") == "tcp";
  }

  lemma RulesCorrespond(rules: seq<Rule>, ports: seq<Port>) returns (at: seq<nat>)
    requires multiset(rules) == multiset(RulesFor(ports))
    ensures OneRuleEach(rules, ports, at)
  {
    at := SameElementsRearranged(rules, RulesFor(ports));
    forall i | 0 <= i < |at| ensures Forwards(rules[at[i]], ports[i]) {
      RuleForwards(ports[i]);
    }
  }

  /** The site after the first `k` calls of making a load balancer: the load balancer, the annotation that names it,
      and its address, if it has one. */
  function MakingOne(s: Site, rules: seq<Rule>, ids: seq<int>, ip: string, k: nat): Site {
    var lb := LoadBalancer("k8s-" + s.service.ns + "-" + s.service.name, ip, rules, ids);
    s.(lbs := if k >= 1 then s.lbs[s.nextLb := lb] else s.lbs,
       nextLb := if k >= 1 then s.nextLb + 1 else s.nextLb,
       service := s.service.(
         lbId := if k >= 2 then Some(PrintInt(s.nextLb)) else s.service.lbId,
         ingress := if k >= 3 && ip != "" then Some(ip) else s.service.ingress))
  }

  /** Making a load balancer gets as far as its calls are answered. */
  lemma CreateExact(s: Site, rules: seq<Rule>, ids: seq<int>, ip: string, answers: Answers)
    ensures Create(s, rules, ids, ip, answers).0 ==
      if IsI64(s.nextLb) then MakingOne(s, rules, ids, ip, Answered(answers)) else s
  {
    assert Answered(answers) >= 1 ==> Answered(answers[1..]) == Answered(answers) - 1;
    assert Answered(answers) >= 2 ==> Answered(answers[1..][1..]) == Answered(answers) - 2;
  }

  lemma CreateMakesOne(s: Site, rules: seq<Rule>, ids: seq<int>, ip: string, answers: Answers)
    requires Create(s, rules, ids, ip, answers).1 == Fine
    ensures var v := Create(s, rules, ids, ip, answers).0;
      v.service.lbId == Some(PrintInt(s.nextLb)) && v.nextLb == s.nextLb + 1
  {
  }

  lemma SettleMakesOneIfGone(s: Site, id: int, rules: seq<Rule>, ids: seq<int>, ip: string, answers: Answers)
    requires Settle(s, id, rules, ids, ip, answers).1 == Fine
    ensures var v := Settle(s, id, rules, ids, ip, answers).0;
      && v.service.lbId == (if id in s.lbs then s.service.lbId else Some(PrintInt(s.nextLb)))
      && v.nextLb == s.nextLb + if id in s.lbs then 0 else 1
  {
    if id !in s.lbs { CreateMakesOne(s, rules, ids, ip, Write(s, s, answers).1); }
  }

  /** A reconcile that succeeded keeps the load balancer the service names; only if there is none does it make one,
      and has the service name it. */
  lemma SuccessMakesOneIfGone(s: Site, nodes: seq<Node>, ip: string, answers: Answers)
    requires Reconcile(s, nodes, ip, answers).1 == Fine
    ensures var v := Reconcile(s, nodes, ip, answers).0;
      && v.service.lbId == (if MustCreate(s) then Some(PrintInt(s.nextLb)) else s.service.lbId)
      && v.nextLb == s.nextLb + if MustCreate(s) then 1 else 0
  {
    var (v, a1, held) := EnsureFinalizer(s, answers);
    var a2 := Write(v, v, a1).1;
    var (rules, ids) := (RulesFor(v.service.ports), ReadyIds(nodes));
    if v.service.lbId.None? {
      CreateMakesOne(v, rules, ids, ip, a2);
    } else {
      SettleMakesOneIfGone(v, ParseI64(v.service.lbId.value).value, rules, ids, ip, a2);
    }
  }

  /** The reconcile has to make a load balancer. */
  predicate MustCreate(s: Site) {
    s.service.lbId.None? || (ParseI64(s.service.lbId.value).Some? && ParseI64(s.service.lbId.value).value !in s.lbs)
  }

  /** A reconcile that succeeded leaves the service with a load balancer of its name, one rule for each of its ports
      and the ready servers, counting repetitions, and with that load balancer's address published, if it has one. */
  lemma SuccessSettles(s: Site, nodes: seq<Node>, ip: string, answers: Answers) returns (at: seq<nat>)
    requires Reconcile(s, nodes, ip, answers).1 == Fine
    ensures var v := Reconcile(s, nodes, ip, answers).0;
      && Settled(v, ReadyIds(nodes))
      && var lb := v.lbs[ParseI64(v.service.lbId.value).value];
        && lb.name == "k8s-" + s.service.ns + "-" + s.service.name
        && OneRuleEach(lb.rules, s.service.ports, at)
        && multiset(lb.serverIds) == multiset(ReadyIds(nodes))
        && (lb.ip != "" ==> v.service.ingress == Some(lb.ip))
  {
    var (v, a1, held) := EnsureFinalizer(s, answers);
    var a2 := Write(v, v, a1).1;
    var (rules, ids) := (RulesFor(v.service.ports), ReadyIds(nodes));
    if v.service.lbId.None? {
      CreatedIsSettled(v, rules, ids, ip, a2);
    } else {
      UpdatedIsSettled(v, rules, ids, ip, a2);
    }
    var u := Reconcile(s, nodes, ip, answers).0;
    OtherLoadBalancersUntouched(s, nodes, ip, answers);
    var lb := u.lbs[ParseI64(u.service.lbId.value).value];
    NoUpdateIsSound(lb, LbName(s.service.ns, s.service.name), rules, ids);
    at := RulesCorrespond(lb.rules, s.service.ports);
  }

  /** How many calls it takes to publish an address. */
  function ToPublish(ip: string): nat { if ip == "" then 0 else 1 }

  /** How many calls a reconcile takes: the finalizer, if it is missing; the list of nodes; then to make a load
      balancer, note it and publish it, or to update it, if it drifted, and publish it. */
  function CallsNeeded(s: Site, nodes: seq<Node>, ip: string): nat {
    var held := if FINALIZER in s.service.finalizers then 0 else 1;
    var got := if s.service.lbId.Some? then 1 else 0;
    held + 1 + got +
      if MustCreate(s) || ParseI64(s.service.lbId.value).None? then 2 + ToPublish(ip)
      else
        var lb := s.lbs[ParseI64(s.service.lbId.value).value];
        var drifted := Drifted(lb, LbName(s.service.ns, s.service.name), RulesFor(s.service.ports), ReadyIds(nodes));
        (if drifted then 1 else 0) + ToPublish(lb.ip)
  }

  /** A reconcile succeeds exactly if its calls are answered, the annotation, if there is one, is a number, and there
      is an id left if a load balancer has to be made. */
  lemma ReconcileSucceedsExactly(s: Site, nodes: seq<Node>, ip: string, answers: Answers)
    ensures Reconcile(s, nodes, ip, answers).1 == Fine <==>
      && Answered(answers) >= CallsNeeded(s, nodes, ip)
      && (s.service.lbId.Some? ==> ParseI64(s.service.lbId.value).Some?)
      && (MustCreate(s) ==> IsI64(s.nextLb))
  {
    var (v, a1, held) := EnsureFinalizer(s, answers);
    if held == Fine && Answered(a1) >= 1 {
      var a2 := a1[1..];
      assert Write(v, v, a1) == (v, a2, Fine) && Answered(a2) == Answered(a1) - 1;
      var (rules, ids) := (RulesFor(v.service.ports), ReadyIds(nodes));
      if v.service.lbId.None? {
        CreateSucceeds(v, rules, ids, ip, a2);
      } else if ParseI64(v.service.lbId.value).Some? {
        SettleSucceeds(v, ParseI64(v.service.lbId.value).value, rules, ids, ip, a2);
      }
    }
  }

  lemma CreateSucceeds(s: Site, rules: seq<Rule>, ids: seq<int>, ip: string, answers: Answers)
    ensures Create(s, rules, ids, ip, answers).1 == Fine <==>
      IsI64(s.nextLb) && Answered(answers) >= 2 + ToPublish(ip)
  {
    assert Answered(answers) >= 1 ==> Answered(answers[1..]) == Answered(answers) - 1;
    assert Answered(answers) >= 2 ==> Answered(answers[1..][1..]) == Answered(answers) - 2;
  }

  lemma SettleSucceeds(s: Site, id: int, rules: seq<Rule>, ids: seq<int>, ip: string, answers: Answers)
    ensures Settle(s, id, rules, ids, ip, answers).1 == Fine <==>
      if id !in s.lbs then IsI64(s.nextLb) && Answered(answers) >= 3 + ToPublish(ip)
      else
        var drifted := Drifted(s.lbs[id], LbName(s.service.ns, s.service.name), rules, ids);
        Answered(answers) >= 1 + (if drifted then 1 else 0) + ToPublish(s.lbs[id].ip)
  {
    if Answered(answers) >= 1 {
      var rest := answers[1..];
      assert Answered(rest) == Answered(answers) - 1;
      assert Answered(rest) >= 1 ==> Answered(rest[1..]) == Answered(rest) - 1;
      CreateSucceeds(s, rules, ids, ip, rest);
    }
  }

  /** Settling: after a reconcile that succeeded, whether by creating, updating or finding nothing to
      do, the next one on the same ports and ready servers, listed in any order, changes nothing at
      all, however its calls are answered. */
  lemma NextReconcileChangesNothing(s: Site, nodes: seq<Node>, ip: string, answers: Answers,
                                    again: seq<Node>, otherIp: string, otherAnswers: Answers)
    requires Reconcile(s, nodes, ip, answers).1 == Fine
    requires multiset(ReadyIds(again)) == multiset(ReadyIds(nodes))
    ensures var v := Reconcile(s, nodes, ip, answers).0;
      Reconcile(v, again, otherIp, otherAnswers).0 == v
  {
    var at := SuccessSettles(s, nodes, ip, answers);
    var v := Reconcile(s, nodes, ip, answers).0;
    SameInts(ReadyIds(again), ReadyIds(nodes));
    StaysSettled(v, again, otherIp, otherAnswers);
  }

  lemma StaysSettled(v: Site, nodes: seq<Node>, ip: string, answers: Answers)
    requires Settled(v, ReadyIds(nodes))
    ensures Reconcile(v, nodes, ip, answers).0 == v
  {
  }
}
