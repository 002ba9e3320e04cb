/** Bringing a classic load balancer from what it is to what is desired: subnets, listeners,
    proxy policies and instances. */
module LoadBalancers {
  import opened Common

  /** A listener as the SDK describes it: every field may be absent. */
  datatype Listener = Listener(
    protocol: Option<string>, instanceProtocol: Option<string>, instancePort: Option<int>,
    port: Option<int>, certificate: Option<string>)

  /** A listener with absent strings read as "" and absent numbers as 0. */
  datatype Plain = Plain(protocol: string, instanceProtocol: string, instancePort: int, port: int, certificate: string)

  function OrEmpty(s: Option<string>): string {
    if s.Some? then s.value else ""
  }

  function OrZero(n: Option<int>): int {
    if n.Some? then n.value else 0
  }

  function Read(l: Listener): Plain {
    Plain(OrEmpty(l.protocol), OrEmpty(l.instanceProtocol), OrZero(l.instancePort), OrZero(l.port),
          OrEmpty(l.certificate))
  }

  predicate SameText(a: Option<string>, b: Option<string>) {
    a == b || (a in {None, Some("")} && b in {None, Some("")})
  }

  predicate SameNumber(a: Option<int>, b: Option<int>) {
    a == b || (a in {None, Some(0)} && b in {None, Some(0)})
  }

  /** Two listeners differ in none of their five fields. */
  predicate SameListener(a: Listener, b: Listener) {
    && SameText(a.protocol, b.protocol)
    && SameText(a.instanceProtocol, b.instanceProtocol)
    && SameNumber(a.instancePort, b.instancePort)
    && SameNumber(a.port, b.port)
    && SameText(a.certificate, b.certificate)
  }

  /** The service's listener is the described one, field by field. */
  predicate Carries(l: Plain, d: Listener) {
    && (if d.protocol.Some? then l.protocol == d.protocol.value else l.protocol == "")
    && (if d.instanceProtocol.Some? then l.instanceProtocol == d.instanceProtocol.value else l.instanceProtocol == "")
    && (if d.instancePort.Some? then l.instancePort == d.instancePort.value else l.instancePort == 0)
    && (if d.port.Some? then l.port == d.port.value else l.port == 0)
    && (if d.certificate.Some? then l.certificate == d.certificate.value else l.certificate == "")
  }

  /** Reading loses exactly the difference between an absent field and an empty one. */
  lemma ReadExact(a: Listener, b: Listener, l: Plain)
    ensures Read(a) == Read(b) <==> SameListener(a, b)
    ensures Read(a) == l <==> Carries(l, a)
  {
  }

  datatype ElbError = DuplicateListener

  const PROXY_POLICY := "k8s-proxyprotocol-enabled"

  /** The service's side. It keeps one listener for each port, and the policies of a backend
      port until they are replaced. */
  class Elb {
    var subnets: set<string>
    var listeners: map<int, Plain>
    var policies: map<int, set<string>>
    var instances: set<string>
    ghost var calls: nat  // that ask for a change

    ghost predicate Valid()
      reads this
    {
      forall p :: p in listeners ==> listeners[p].port == p
    }

    constructor ()
      ensures Valid() && subnets == {} && listeners == map[] && policies == map[] && instances == {} && calls == 0
    {
      subnets, listeners, policies, instances, calls := {}, map[], map[], {}, 0;
    }

    method DetachSubnets(removals: set<string>)
      modifies this`subnets, this`calls
      ensures calls == old(calls) + 1
      ensures subnets == old(subnets) - removals
    {
      calls := calls + 1;
      subnets := subnets - removals;
    }

    method AttachSubnets(additions: set<string>)
      modifies this`subnets, this`calls
      ensures calls == old(calls) + 1
      ensures subnets == old(subnets) + additions
    {
      calls := calls + 1;
      subnets := subnets + additions;
    }

    method DeleteListeners(ports: set<int>)
      requires Valid()
      modifies this`listeners, this`calls
      ensures calls == old(calls) + 1
      ensures Valid() && listeners == old(listeners) - ports
    {
      calls := calls + 1;
      listeners := listeners - ports;
    }

    /** Refused as a whole if a port would get two different listeners. */
    method CreateListeners(additions: seq<Listener>) returns (r: Result<(), ElbError>)
      requires Valid()
      modifies this`listeners, this`calls
      ensures calls == old(calls) + 1
      ensures Valid()
      ensures r.Ok? <==> Consistent(additions) && Agrees(old(listeners), additions)
      ensures r.Ok? ==> listeners == Added(old(listeners), additions)
      ensures r.Err? ==> listeners == old(listeners)
    {
      calls := calls + 1;
      if !(Consistent(additions) && Agrees(listeners, additions)) {
        return Err(DuplicateListener);
      }
      AddedValid(listeners, additions);
      listeners := Added(listeners, additions);
      r := Ok(());
    }

    method SetBackendPolicies(port: int, names: set<string>)
      modifies this`policies, this`calls
      ensures calls == old(calls) + 1
      ensures policies == old(policies)[port := names]
    {
      calls := calls + 1;
      policies := policies[port := names];
    }

    method RegisterInstances(additions: set<string>)
      modifies this`instances, this`calls
      ensures calls == old(calls) + 1
      ensures instances == old(instances) + additions
    {
      calls := calls + 1;
      instances := instances + additions;
    }

    method DeregisterInstances(removals: set<string>)
      modifies this`instances, this`calls
      ensures calls == old(calls) + 1
      ensures instances == old(instances) - removals
    {
      calls := calls + 1;
      instances := instances - removals;
    }
  }

  /** Two listeners of the list on one port are the same. */
  predicate Consistent(ls: seq<Listener>) {
    forall i, j :: 0 <= i < |ls| && 0 <= j < |ls| && Read(ls[i]).port == Read(ls[j]).port ==> Read(ls[i]) == Read(ls[j])
  }

  /** Consistency, field by field. */
  lemma ConsistentIff(ls: seq<Listener>)
    ensures Consistent(ls) <==>
              forall i, j :: 0 <= i < |ls| && 0 <= j < |ls| && SameNumber(ls[i].port, ls[j].port) ==>
                SameListener(ls[i], ls[j])
  {
    forall i, j | 0 <= i < |ls| && 0 <= j < |ls|
      ensures Read(ls[i]).port == Read(ls[j]).port <==> SameNumber(ls[i].port, ls[j].port)
      ensures Read(ls[i]) == Read(ls[j]) <==> SameListener(ls[i], ls[j])
    {
      ReadExact(ls[i], ls[j], Read(ls[j]));
    }
  }

  predicate Agrees(m: map<int, Plain>, ls: seq<Listener>) {
    forall i :: 0 <= i < |ls| && Read(ls[i]).port in m ==> m[Read(ls[i]).port] == Read(ls[i])
  }

  function Added(m: map<int, Plain>, ls: seq<Listener>): map<int, Plain> {
    if ls == [] then m
    else
      var last := Read(ls[|ls| - 1]);
      Added(m, ls[..|ls| - 1])[last.port := last]
  }

  lemma {:induction false} AddedValid(m: map<int, Plain>, ls: seq<Listener>)
    requires forall p :: p in m ==> m[p].port == p
    ensures forall p :: p in Added(m, ls) ==> Added(m, ls)[p].port == p
  {
    if ls != [] {
      AddedValid(m, ls[..|ls| - 1]);
    }
  }

  /** Exactly what was there and what is in the list. */
  lemma {:induction false} AddedExact(m: map<int, Plain>, ls: seq<Listener>)
    requires Consistent(ls) && Agrees(m, ls)
    ensures forall i :: 0 <= i < |ls| ==>
              Read(ls[i]).port in Added(m, ls) && Added(m, ls)[Read(ls[i]).port] == Read(ls[i])
    ensures forall p :: p in m ==> p in Added(m, ls) && Added(m, ls)[p] == m[p]
    ensures forall p :: p in Added(m, ls) ==> p in m || exists i :: 0 <= i < |ls| && Read(ls[i]).port == p
  {
    if ls != [] {
      var rest, last := ls[..|ls| - 1], Read(ls[|ls| - 1]);
      assert forall i :: 0 <= i < |rest| ==> rest[i] == ls[i];
      AddedExact(m, rest);
      forall p | p in Added(m, ls)
        ensures p in m || exists i :: 0 <= i < |ls| && Read(ls[i]).port == p
      {
        if p == last.port {
          assert Read(ls[|ls| - 1]).port == p;
        } else if p !in m {
          var i :| 0 <= i < |rest| && Read(rest[i]).port == p;
          assert Read(ls[i]).port == p;
        }
      }
    }
  }

  // ---- the listener diff ----

  /** A description of the load balancer's listeners: each of them, in any order, perhaps with
      empty entries between them. */
  ghost predicate Describes(descriptions: seq<Option<Listener>>, m: map<int, Plain>) {
    && (forall i :: 0 <= i < |descriptions| && descriptions[i].Some? ==>
          var l := Read(descriptions[i].value); l.port in m && m[l.port] == l)
    && (forall p :: p in m ==>
          exists i :: 0 <= i < |descriptions| && descriptions[i].Some? && Read(descriptions[i].value) == m[p])
  }

  predicate Desired(listeners: seq<Listener>, l: Plain) {
    exists i :: 0 <= i < |listeners| && Read(listeners[i]) == l
  }

  /** The last desired listener that equals the actual one, or -1. */
  method FindLast(actual: Listener, listeners: seq<Listener>) returns (found: int)
    ensures -1 <= found < |listeners|
    ensures found >= 0 ==> SameListener(listeners[found], actual) && Read(listeners[found]) == Read(actual)
    ensures forall i :: found < i < |listeners| ==>
              !SameListener(listeners[i], actual) && Read(listeners[i]) != Read(actual)
  {
    found := -1;
    var i := 0;
    while i < |listeners|
      invariant i <= |listeners| && -1 <= found < i
      invariant found >= 0 ==> SameListener(listeners[found], actual) && Read(listeners[found]) == Read(actual)
      invariant forall j :: found < j < i ==>
                  !SameListener(listeners[j], actual) && Read(listeners[j]) != Read(actual)
    {
      var expected := listeners[i];
      ReadExact(expected, actual, Read(actual));
      if OrEmpty(actual.protocol) == OrEmpty(expected.protocol)
        && OrEmpty(actual.instanceProtocol) == OrEmpty(expected.instanceProtocol)
        && OrZero(actual.instancePort) == OrZero(expected.instancePort)
        && OrZero(actual.port) == OrZero(expected.port)
        && OrEmpty(actual.certificate) == OrEmpty(expected.certificate) {
        found := i;
      }
      i := i + 1;
    }
  }

  /** No later listener of the list is the same. */
  predicate LastAlike(listeners: seq<Listener>, i: int) {
    0 <= i < |listeners| && forall j :: i < j < |listeners| ==> Read(listeners[j]) != Read(listeners[i])
  }

  predicate NoneTwice(listeners: seq<Listener>) {
    forall i :: 0 <= i < |listeners| ==> LastAlike(listeners, i)
  }

  /** Ports of actual listeners that are not desired, and which desired ones were found. */
  method Compare(descriptions: seq<Option<Listener>>, listeners: seq<Listener>, ghost m: map<int, Plain>)
    returns (foundSet: set<int>, removals: set<int>)
    requires Describes(descriptions, m) && forall p :: p in m ==> m[p].port == p
    ensures forall p :: p in removals <==> p in m && !Desired(listeners, m[p])
    ensures forall i :: i in foundSet ==> 0 <= i < |listeners| && Read(listeners[i]).port in m
                                          && m[Read(listeners[i]).port] == Read(listeners[i])
    ensures forall p :: p in m && Desired(listeners, m[p]) ==> exists i :: i in foundSet && Read(listeners[i]) == m[p]
    ensures forall i :: i in foundSet ==> LastAlike(listeners, i)
  {
    foundSet, removals := {}, {};
    var n := 0;
    while n < |descriptions|
      invariant n <= |descriptions|
      invariant forall p :: p in removals ==> p in m && !Desired(listeners, m[p])
      invariant forall i :: i in foundSet ==> 0 <= i < |listeners| && Read(listeners[i]).port in m
                                              && m[Read(listeners[i]).port] == Read(listeners[i])
      invariant forall i :: i in foundSet ==> LastAlike(listeners, i)
      invariant forall j :: 0 <= j < n && descriptions[j].Some? ==>
                  Handled(Read(descriptions[j].value), listeners, foundSet, removals)
    {
      if descriptions[n].Some? {
        var actual := descriptions[n].value;
        var found := FindLast(actual, listeners);
        if found != -1 {
          foundSet := foundSet + {found};
          assert Handled(Read(actual), listeners, foundSet, removals);
        } else {
          removals := removals + {OrZero(actual.port)};
          assert Handled(Read(actual), listeners, foundSet, removals);
        }
      }
      n := n + 1;
    }
    forall p | p in m
      ensures Handled(m[p], listeners, foundSet, removals) && m[p].port == p
    {
      var i :| 0 <= i < |descriptions| && descriptions[i].Some? && Read(descriptions[i].value) == m[p];
    }
  }

  /** An actual listener has been found among the desired ones, or its port is to be removed. */
  ghost predicate Handled(l: Plain, listeners: seq<Listener>, foundSet: set<int>, removals: set<int>) {
    if Desired(listeners, l) then exists i :: i in foundSet && 0 <= i < |listeners| && Read(listeners[i]) == l
    else l.port in removals
  }

  ghost predicate IsMissing(l: Listener, listeners: seq<Listener>, foundSet: set<int>) {
    exists i :: 0 <= i < |listeners| && i !in foundSet && listeners[i] == l
  }

  /** The desired listeners that were not found, in order. */
  method Additions(listeners: seq<Listener>, foundSet: set<int>) returns (additions: seq<Listener>)
    ensures forall i :: 0 <= i < |listeners| && i !in foundSet ==> listeners[i] in additions
    ensures forall k :: 0 <= k < |additions| ==> IsMissing(additions[k], listeners, foundSet)
  {
    additions := [];
    var i := 0;
    while i < |listeners|
      invariant i <= |listeners|
      invariant forall j :: 0 <= j < i && j !in foundSet ==> listeners[j] in additions
      invariant forall k :: 0 <= k < |additions| ==> IsMissing(additions[k], listeners, foundSet)
    {
      if i !in foundSet {
        additions := additions + [listeners[i]];
      }
      i := i + 1;
    }
  }

  /** What the two steps rely on: kept listeners are desired, and every desired one is kept or
      to be added. */
  ghost predicate Split(kept: map<int, Plain>, additions: seq<Listener>, listeners: seq<Listener>) {
    && (forall p :: p in kept ==> kept[p].port == p && Desired(listeners, kept[p]))
    && (forall i :: 0 <= i < |listeners| ==> listeners[i] in additions || IsKept(kept, Read(listeners[i])))
    && (forall k :: 0 <= k < |additions| ==> additions[k] in listeners)
  }

  predicate IsKept(kept: map<int, Plain>, l: Plain) {
    l.port in kept && kept[l.port] == l
  }

  /** Creating the additions collides with nothing exactly when the desired list is consistent. */
  lemma CollisionFreeIff(kept: map<int, Plain>, additions: seq<Listener>, listeners: seq<Listener>)
    requires Split(kept, additions, listeners)
    ensures Consistent(additions) && Agrees(kept, additions) <==> Consistent(listeners)
  {
    if Consistent(listeners) {
      assert Consistent(additions);
      forall k | 0 <= k < |additions| && Read(additions[k]).port in kept
        ensures kept[Read(additions[k]).port] == Read(additions[k])
      {
        var l := kept[Read(additions[k]).port];
        var i :| 0 <= i < |listeners| && Read(listeners[i]) == l;
        var j :| 0 <= j < |listeners| && listeners[j] == additions[k];
      }
    }
    if Consistent(additions) && Agrees(kept, additions) {
      forall i, j | 0 <= i < |listeners| && 0 <= j < |listeners| && Read(listeners[i]).port == Read(listeners[j]).port
        ensures Read(listeners[i]) == Read(listeners[j])
      {
        assert listeners[i] in additions || IsKept(kept, Read(listeners[i]));
        assert listeners[j] in additions || IsKept(kept, Read(listeners[j]));
      }
    }
  }

  /** The load balancer has exactly the desired listeners. */
  ghost predicate ExactlyDesired(m: map<int, Plain>, listeners: seq<Listener>) {
    && (forall i :: 0 <= i < |listeners| ==> IsKept(m, Read(listeners[i])))
    && (forall p :: p in m ==> Desired(listeners, m[p]))
  }

  /** Listeners, field by field: each of the list is at its port, and each that is there is one of
      the list. */
  lemma ExactlyDesiredIff(m: map<int, Plain>, listeners: seq<Listener>)
    ensures ExactlyDesired(m, listeners) <==>
              && (forall i :: 0 <= i < |listeners| ==> IsThere(m, listeners[i]))
              && (forall p :: p in m ==> exists i :: 0 <= i < |listeners| && Carries(m[p], listeners[i]))
  {
    forall i | 0 <= i < |listeners|
      ensures IsKept(m, Read(listeners[i])) <==> IsThere(m, listeners[i])
    {
      ReadExact(listeners[i], listeners[i], Read(listeners[i]));
    }
    forall p | p in m
      ensures Desired(listeners, m[p]) <==> exists i :: 0 <= i < |listeners| && Carries(m[p], listeners[i])
    {
      DesiredIff(listeners, m[p]);
    }
  }

  predicate IsThere(m: map<int, Plain>, d: Listener) {
    var port := if d.port.Some? then d.port.value else 0;
    port in m && Carries(m[port], d)
  }

  lemma DesiredIff(listeners: seq<Listener>, l: Plain)
    ensures Desired(listeners, l) <==> exists i :: 0 <= i < |listeners| && Carries(l, listeners[i])
  {
    forall i | 0 <= i < |listeners|
      ensures Read(listeners[i]) == l <==> Carries(l, listeners[i])
    {
      ReadExact(listeners[i], listeners[i], l);
    }
  }

  lemma AddedIsDesired(kept: map<int, Plain>, additions: seq<Listener>, listeners: seq<Listener>)
    requires Split(kept, additions, listeners) && Consistent(additions) && Agrees(kept, additions)
    ensures ExactlyDesired(Added(kept, additions), listeners)
  {
    var m := Added(kept, additions);
    AddedExact(kept, additions);
    forall i | 0 <= i < |listeners|
      ensures IsKept(m, Read(listeners[i]))
    {
      if listeners[i] in additions {
        var k :| 0 <= k < |additions| && additions[k] == listeners[i];
        assert Read(additions[k]).port in m;
      }
    }
    forall p | p in m
      ensures Desired(listeners, m[p])
    {
      if p !in kept {
        var k :| 0 <= k < |additions| && Read(additions[k]).port == p;
        var i :| 0 <= i < |listeners| && listeners[i] == additions[k];
        assert Read(listeners[i]) == m[p];
      }
    }
  }

  lemma ComparisonSplits(m: map<int, Plain>, foundSet: set<int>, removals: set<int>, additions: seq<Listener>,
                         listeners: seq<Listener>)
    requires forall p :: p in m ==> m[p].port == p
    requires forall p :: p in removals <==> p in m && !Desired(listeners, m[p])
    requires forall i :: i in foundSet ==> 0 <= i < |listeners| && IsKept(m, Read(listeners[i]))
    requires forall i :: 0 <= i < |listeners| && i !in foundSet ==> listeners[i] in additions
    requires forall k :: 0 <= k < |additions| ==> additions[k] in listeners
    ensures Split(m - removals, additions, listeners)
  {
    forall i | 0 <= i < |listeners|
      ensures listeners[i] in additions || IsKept(m - removals, Read(listeners[i]))
    {
      if i in foundSet {
        assert Desired(listeners, Read(listeners[i]));
      }
    }
  }

  /** Nothing is to be asked for exactly when the listeners are the desired ones, and none is
      desired twice. */
  lemma NothingToAskIff(m: map<int, Plain>, foundSet: set<int>, removals: set<int>, additions: seq<Listener>,
                        listeners: seq<Listener>)
    requires forall p :: p in removals <==> p in m && !Desired(listeners, m[p])
    requires forall i :: i in foundSet ==> LastAlike(listeners, i) && IsKept(m, Read(listeners[i]))
    requires forall p :: p in m && Desired(listeners, m[p]) ==>
               exists i :: i in foundSet && 0 <= i < |listeners| && Read(listeners[i]) == m[p]
    requires forall i :: 0 <= i < |listeners| && i !in foundSet ==> listeners[i] in additions
    requires forall k :: 0 <= k < |additions| ==> IsMissing(additions[k], listeners, foundSet)
    ensures removals == {} && additions == [] <==> ExactlyDesired(m, listeners) && NoneTwice(listeners)
  {
    if ExactlyDesired(m, listeners) && NoneTwice(listeners) {
      forall i | 0 <= i < |listeners|
        ensures i in foundSet
      {
        var l := Read(listeners[i]);
        assert IsKept(m, l) && Desired(listeners, m[l.port]);
        var j :| j in foundSet && 0 <= j < |listeners| && Read(listeners[j]) == m[l.port];
        assert LastAlike(listeners, i) && LastAlike(listeners, j);
      }
      assert additions != [] ==> IsMissing(additions[0], listeners, foundSet);
      assert forall p :: p !in removals;
    }
    if removals == {} && additions == [] {
      forall p | p in m
        ensures Desired(listeners, m[p])
      {
        assert p !in removals;
      }
      forall i | 0 <= i < |listeners|
        ensures LastAlike(listeners, i) && IsKept(m, Read(listeners[i]))
      {
        assert listeners[i] !in additions;
        assert i in foundSet;
      }
    }
  }

  class Cloud {
    const elb: Elb

    constructor (elb: Elb)
      ensures this.elb == elb
    {
      this.elb := elb;
    }

    method SyncSubnets(subnetIDs: set<string>)
      modifies elb`subnets, elb`calls
      ensures elb.subnets == subnetIDs
      ensures old(elb.subnets) == subnetIDs ==> elb.calls == old(elb.calls)
    {
      var actual := elb.subnets;
      var additions, removals := subnetIDs - actual, actual - subnetIDs;
      if removals != {} {
        elb.DetachSubnets(removals);
      }
      if additions != {} {
        elb.AttachSubnets(additions);
      }
      assert elb.subnets == actual - removals + additions == subnetIDs;
    }

    /** Deleting what is not desired and creating what is missing leaves exactly the desired
        listeners; the creation is refused exactly when two desired listeners differ on a port. */
    method SyncListeners(descriptions: seq<Option<Listener>>, listeners: seq<Listener>)
      returns (r: Result<(), ElbError>)
      requires elb.Valid() && Describes(descriptions, elb.listeners)
      modifies elb`listeners, elb`calls
      ensures elb.Valid() && (r.Ok? <==> Consistent(listeners))
      ensures r.Ok? ==> ExactlyDesired(elb.listeners, listeners)
      ensures r.Err? ==> forall p ::
                p in elb.listeners <==> p in old(elb.listeners) && Desired(listeners, old(elb.listeners)[p])
      ensures r.Err? ==> forall p :: p in elb.listeners ==> elb.listeners[p] == old(elb.listeners)[p]
      ensures elb.calls == old(elb.calls) <==> ExactlyDesired(old(elb.listeners), listeners) && NoneTwice(listeners)
    {
      ghost var m := elb.listeners;
      var foundSet, removals := Compare(descriptions, listeners, m);
      var additions := Additions(listeners, foundSet);
      ComparisonSplits(m, foundSet, removals, additions, listeners);
      NothingToAskIff(m, foundSet, removals, additions, listeners);
      r := ReplaceListeners(removals, additions, listeners);
    }

    /** The calls that the comparison has led to. */
    method ReplaceListeners(removals: set<int>, additions: seq<Listener>, listeners: seq<Listener>)
      returns (r: Result<(), ElbError>)
      requires elb.Valid() && Split(elb.listeners - removals, additions, listeners)
      modifies elb`listeners, elb`calls
      ensures elb.Valid() && (r.Ok? <==> Consistent(listeners))
      ensures r.Ok? ==> ExactlyDesired(elb.listeners, listeners)
      ensures r.Err? ==> elb.listeners == old(elb.listeners) - removals
      ensures elb.calls == old(elb.calls) + (if removals != {} then 1 else 0) + if additions != [] then 1 else 0
    {
      ghost var m := elb.listeners;
      if removals != {} {
        elb.DeleteListeners(removals);
      } else {
        assert m - removals == m;
      }
      CollisionFreeIff(elb.listeners, additions, listeners);
      r := Ok(());
      if additions != [] {
        r := elb.CreateListeners(additions);
      }
      if Consistent(listeners) {
        AddedIsDesired(m - removals, additions, listeners);
      }
    }

    /** Sets or removes the proxy policy of desired instance ports whose state is not as
        requested. */
    method AdjustDesired(listeners: seq<Listener>, proxyProtocol: bool) returns (foundBackends: set<int>)
      requires HavePorts(listeners)
      modifies elb`policies, elb`calls
      ensures foundBackends == old(elb.policies).Keys * InstancePorts(listeners)
      ensures forall p ::
                Policies(elb.policies, p) == Adjusted(old(elb.policies), InstancePorts(listeners), proxyProtocol, p)
    {
      var described := elb.policies;
      foundBackends := {};
      var i := 0;
      while i < |listeners|
        invariant i <= |listeners|
        invariant foundBackends == described.Keys * InstancePorts(listeners[..i])
        invariant forall p ::
                    Policies(elb.policies, p) == Adjusted(described, InstancePorts(listeners[..i]), proxyProtocol, p)
      {
        var instancePort := listeners[i].instancePort.value;
        InstancePortsNext(listeners, i);
        var setPolicy := false;
        if instancePort !in described {
          setPolicy := proxyProtocol;
        } else {
          foundBackends := foundBackends + {instancePort};
          setPolicy := (PROXY_POLICY in described[instancePort]) != proxyProtocol;
        }
        ghost var before, ports := elb.policies, InstancePorts(listeners[..i]);
        if setPolicy {
          elb.SetBackendPolicies(instancePort, if proxyProtocol then {PROXY_POLICY} else {});
        }
        AdjustedNext(described, before, elb.policies, ports, instancePort, proxyProtocol);
        i := i + 1;
      }
      assert listeners[..i] == listeners;
    }

    /** Removes every policy of the given backends. */
    method ClearUnused(unused: set<int>)
      modifies elb`policies, elb`calls
      ensures forall p :: Policies(elb.policies, p) == if p in unused then Some({}) else Policies(old(elb.policies), p)
    {
      ghost var before := elb.policies;
      var rest := unused;
      while exists p :: p in rest
        invariant rest <= unused
        invariant forall p :: Policies(elb.policies, p) ==
                              if p in unused && p !in rest then Some({}) else Policies(before, p)
        decreases |rest|
      {
        var p :| p in rest;
        ghost var m := elb.policies;
        elb.SetBackendPolicies(p, {});
        forall q
          ensures Policies(elb.policies, q) == if q == p then Some({}) else Policies(m, q)
        {
        }
        rest := rest - {p};
      }
    }

    /** Every desired instance port ends with the proxy policy exactly if it is requested, every
        other backend that was described ends with no policy at all, and nothing else is touched. */
    method SyncProxyPolicies(listeners: seq<Listener>, proxyProtocol: bool)
      requires HavePorts(listeners)
      modifies elb`policies, elb`calls
      ensures forall p :: p in InstancePorts(listeners) ==> (HasProxy(elb.policies, p) <==> proxyProtocol)
      ensures forall p :: p in InstancePorts(listeners) && HasProxy(old(elb.policies), p) == proxyProtocol ==>
                Policies(elb.policies, p) == Policies(old(elb.policies), p)
      ensures forall p :: p in InstancePorts(listeners) && HasProxy(old(elb.policies), p) != proxyProtocol ==>
                Policies(elb.policies, p) == Some(if proxyProtocol then {PROXY_POLICY} else {})
      ensures forall p :: p !in InstancePorts(listeners) ==>
                Policies(elb.policies, p) == if p in old(elb.policies) then Some({}) else None
    {
      var described := elb.policies.Keys;
      var foundBackends := AdjustDesired(listeners, proxyProtocol);
      ClearUnused(described - foundBackends);
      assert forall p :: HasProxy(elb.policies, p) <==>
                           Policies(elb.policies, p).Some? && PROXY_POLICY in Policies(elb.policies, p).value;
    }

    /** An existing load balancer converges: subnets, listeners and proxy policies are exactly as
        desired, unless two desired listeners differ on a port; then no policy is touched. */
    method EnsureExisting(subnetIDs: set<string>, descriptions: seq<Option<Listener>>, listeners: seq<Listener>,
                          proxyProtocol: bool)
      returns (r: Result<(), ElbError>)
      requires elb.Valid() && Describes(descriptions, elb.listeners) && HavePorts(listeners)
      modifies elb`subnets, elb`listeners, elb`policies, elb`calls
      ensures elb.Valid() && elb.subnets == subnetIDs && (r.Ok? <==> Consistent(listeners))
      ensures r.Ok? ==> ExactlyDesired(elb.listeners, listeners)
      ensures r.Ok? ==> forall p :: p in InstancePorts(listeners) ==> (HasProxy(elb.policies, p) <==> proxyProtocol)
      ensures r.Ok? ==> forall p :: p !in InstancePorts(listeners) ==> !HasProxy(elb.policies, p)
      ensures r.Err? ==> elb.policies == old(elb.policies)
    {
      SyncSubnets(subnetIDs);
      r := SyncListeners(descriptions, listeners);
      if r.Err? {
        return;
      }
      SyncProxyPolicies(listeners, proxyProtocol);
      assert forall p :: HasProxy(elb.policies, p) ==>
                           Policies(elb.policies, p).Some? && Policies(elb.policies, p).value != {};
    }

    /** Exactly the given instances end up registered. */
    method EnsureInstances(instances: set<string>)
      modifies elb`instances, elb`calls
      ensures elb.instances == instances
      ensures old(elb.instances) == instances ==> elb.calls == old(elb.calls)
    {
      var actual := elb.instances;
      var additions, removals := instances - actual, actual - instances;
      if additions != {} {
        elb.RegisterInstances(additions);
      }
      if removals != {} {
        elb.DeregisterInstances(removals);
      }
      assert elb.instances == actual + additions - removals == instances;
    }
  }

  predicate HasProxy(policies: map<int, set<string>>, port: int) {
    port in policies && PROXY_POLICY in policies[port]
  }

  function Policies(policies: map<int, set<string>>, port: int): Option<set<string>> {
    if port in policies then Some(policies[port]) else None
  }

  predicate HavePorts(listeners: seq<Listener>) {
    forall i :: 0 <= i < |listeners| ==> listeners[i].instancePort.Some?
  }

  function InstancePorts(listeners: seq<Listener>): set<int>
    requires HavePorts(listeners)
  {
    set i | 0 <= i < |listeners| :: listeners[i].instancePort.value
  }

  lemma InstancePortsNext(listeners: seq<Listener>, i: nat)
    requires HavePorts(listeners) && i < |listeners|
    ensures InstancePorts(listeners[..i + 1]) == InstancePorts(listeners[..i]) + {listeners[i].instancePort.value}
  {
    forall p | p in InstancePorts(listeners[..i])
      ensures p in InstancePorts(listeners[..i + 1])
    {
      var j :| 0 <= j < i && listeners[..i][j].instancePort.value == p;
      assert listeners[..i + 1][j].instancePort.value == p;
    }
    assert listeners[..i + 1][i].instancePort.value == listeners[i].instancePort.value;
    forall p | p in InstancePorts(listeners[..i + 1])
      ensures p in InstancePorts(listeners[..i]) || p == listeners[i].instancePort.value
    {
      var j :| 0 <= j < i + 1 && listeners[..i + 1][j].instancePort.value == p;
      assert j < i ==> listeners[..i][j].instancePort.value == p;
    }
  }

  /** The proxy policy of this backend port is not as requested. */
  predicate ToChange(policies: map<int, set<string>>, p: int, proxyProtocol: bool) {
    if p in policies then (PROXY_POLICY in policies[p]) != proxyProtocol else proxyProtocol
  }

  function Adjusted(policies: map<int, set<string>>, ports: set<int>, proxyProtocol: bool,
                    p: int): Option<set<string>> {
    if p in ports && ToChange(policies, p, proxyProtocol) then Some(if proxyProtocol then {PROXY_POLICY} else {})
    else Policies(policies, p)
  }

  lemma AdjustedNext(described: map<int, set<string>>, before: map<int, set<string>>, after: map<int, set<string>>,
                     ports: set<int>, port: int, proxyProtocol: bool)
    requires forall p :: Policies(before, p) == Adjusted(described, ports, proxyProtocol, p)
    requires after == if !ToChange(described, port, proxyProtocol) then before
                      else before[port := if proxyProtocol then {PROXY_POLICY} else {}]
    ensures forall p :: Policies(after, p) == Adjusted(described, ports + {port}, proxyProtocol, p)
  {
    forall p
      ensures Policies(after, p) == Adjusted(described, ports + {port}, proxyProtocol, p)
    {
      assert Policies(before, p) == Adjusted(described, ports, proxyProtocol, p);
    }
  }
}
