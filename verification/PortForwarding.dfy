/** The engine's table of port forwarders against the published ports and the interfaces they are forwarded on. */
module PortForwarding {
  import opened Text

  datatype Protocol = Tcp | Udp

  datatype PortAndProtocol = PortAndProtocol(port: nat, protocol: Protocol)

  /** A network interface of the host with its IPv4 addresses. */
  datatype NetworkInterface = NetworkInterface(id: string, loopback: bool, addresses: seq<string>)

  /** What the outside answers during one call: whether the address of the WSL machine is found, and for each key whether
      a forwarder process starts and whether it can be killed. */
  datatype Environment = Environment(wslAddress: bool, starts: string -> bool, kills: string -> bool)

  // ---------------------------------------------------------------- keys

  function Digits(n: nat): string {
    if n < 10 then ['0' + n as char] else Digits(n / 10) + ['0' + (n % 10) as char]
  }

  function NameOf(protocol: Protocol): string {
    match protocol case Tcp => "tcp" case Udp => "udp"
  }

  function KeyOf(address: string, p: PortAndProtocol): string {
    Join([address, Digits(p.port), NameOf(p.protocol)], ':')
  }

  lemma {:induction false} DigitsHaveNoColon(n: nat)
    ensures ':' !in Digits(n)
  {
    if n >= 10 { DigitsHaveNoColon(n / 10); }
  }

  lemma {:induction false} DigitsInjective(m: nat, n: nat)
    requires Digits(m) == Digits(n)
    ensures m == n
  {
    var dm, dn := Digits(m), Digits(n);
    DigitsNonempty(m / 10);
    DigitsNonempty(n / 10);
    assert dm[|dm| - 1] == dn[|dn| - 1];
    if m >= 10 && n >= 10 {
      assert dm[..|dm| - 1] == Digits(m / 10) && dn[..|dn| - 1] == Digits(n / 10);
      DigitsInjective(m / 10, n / 10);
    }
  }

  lemma DigitsNonempty(n: nat)
    ensures |Digits(n)| > 0
  {}

  /** A key tells the address, the port and the protocol it was made from. */
  lemma KeysAreDistinct(a: string, p: PortAndProtocol, b: string, q: PortAndProtocol)
    requires ':' !in a && ':' !in b && KeyOf(a, p) == KeyOf(b, q)
    ensures a == b && p == q
  {
    DigitsHaveNoColon(p.port);
    DigitsHaveNoColon(q.port);
    SplitJoin([a, Digits(p.port), NameOf(p.protocol)], ':');
    SplitJoin([b, Digits(q.port), NameOf(q.protocol)], ':');
    assert Digits(p.port) == Digits(q.port) by {
      assert [a, Digits(p.port), NameOf(p.protocol)][1] == [b, Digits(q.port), NameOf(q.protocol)][1];
    }
    assert NameOf(p.protocol) == NameOf(q.protocol) by {
      assert [a, Digits(p.port), NameOf(p.protocol)][2] == [b, Digits(q.port), NameOf(q.protocol)][2];
    }
    assert a == b by {
      assert [a, Digits(p.port), NameOf(p.protocol)][0] == [b, Digits(q.port), NameOf(q.protocol)][0];
    }
    DigitsInjective(p.port, q.port);
    assert "tcp"[0] != "udp"[0];
  }

  // ---------------------------------------------------------------- effect on the table

  /** The table as far as it matters: which keys are present, and whether their forwarder still runs. */
  type Table = map<string, bool>

  /** One address and one port: an existing forwarder is stopped and dropped, and a new one started when enabling.  When it
      cannot be killed the entry stays. */
  function VisitKey(t: Table, k: string, enabled: bool, env: Environment): Table {
    if k in t && t[k] && !env.kills(k) then t
    else if enabled && env.starts(k) then t[k := true]
    else t - {k}
  }

  function VisitAll(t: Table, keys: seq<string>, enabled: bool, env: Environment): Table {
    if keys == [] then t
    else VisitKey(VisitAll(t, keys[..|keys| - 1], enabled, env), keys[|keys| - 1], enabled, env)
  }

  /** Keys of some addresses for one port. */
  function KeysOn(addresses: seq<string>, p: PortAndProtocol): (r: seq<string>)
    ensures |r| == |addresses|
    ensures forall i :: 0 <= i < |addresses| ==> r[i] == KeyOf(addresses[i], p)
  {
    seq(|addresses|, i requires 0 <= i < |addresses| => KeyOf(addresses[i], p))
  }

  function KeysOf(addresses: seq<string>, ports: seq<PortAndProtocol>): seq<string> {
    if ports == [] then [] else KeysOf(addresses, ports[..|ports| - 1]) + KeysOn(addresses, ports[|ports| - 1])
  }

  /** The interfaces a port is forwarded on: the configured ones, and for udp the first loopback interface besides. */
  function ConfiguredKeys(interfaces: seq<NetworkInterface>, configured: seq<string>, p: PortAndProtocol): seq<string> {
    if interfaces == [] then []
    else
      var last := interfaces[|interfaces| - 1];
      ConfiguredKeys(interfaces[..|interfaces| - 1], configured, p) + if last.id in configured then KeysOn(last.addresses, p) else []
  }

  function FirstLoopback(interfaces: seq<NetworkInterface>): (n: nat)
    ensures n <= |interfaces|
    ensures n < |interfaces| ==> interfaces[n].loopback
    ensures forall i :: 0 <= i < n ==> !interfaces[i].loopback
  {
    if interfaces == [] || interfaces[0].loopback then 0 else 1 + FirstLoopback(interfaces[1..])
  }

  function LoopbackKeys(interfaces: seq<NetworkInterface>, p: PortAndProtocol): seq<string> {
    var n := FirstLoopback(interfaces);
    if p.protocol == Udp && n < |interfaces| then KeysOn(interfaces[n].addresses, p) else []
  }

  // ---------------------------------------------------------------- the engine as a state machine

  datatype State = State(ports: seq<PortAndProtocol>, configured: seq<string>, table: Table)

  datatype Event =
    | Message(ipv6: bool, p: PortAndProtocol, enabled: bool, env: Environment)
    | Toggle(interface: nat, forwarded: bool, env: Environment)
    | ProcessExits(key: string)
    | StopAll

  function Remove<T(==)>(s: seq<T>, x: T): seq<T> {
    if s == [] then [] else if s[0] == x then s[1..] else [s[0]] + Remove(s[1..], x)
  }

  function Included<T(==)>(s: seq<T>, x: T, present: bool): seq<T> {
    if !present then Remove(s, x) else if x in s then s else s + [x]
  }

  function Step(interfaces: seq<NetworkInterface>, s: State, e: Event): State {
    match e
    case Message(ipv6, p, enabled, env) =>
      if ipv6 then s
      else
        var ports := Included(s.ports, p, enabled);
        if !env.wslAddress then s.(ports := ports)
        else s.(ports := ports,
                table := VisitAll(s.table, ConfiguredKeys(interfaces, s.configured, p) + LoopbackKeys(interfaces, p), enabled, env))
    case Toggle(n, forwarded, env) =>
      if n >= |interfaces| || interfaces[n].loopback || !env.wslAddress then s
      else s.(configured := Included(s.configured, interfaces[n].id, forwarded),
              table := VisitAll(s.table, KeysOf(interfaces[n].addresses, s.ports), forwarded, env))
    case ProcessExits(k) => if k in s.table then s.(table := s.table[k := false]) else s
    case StopAll => s.(table := map[])
  }

  function Run(interfaces: seq<NetworkInterface>, s: State, events: seq<Event>): State {
    if events == [] then s
    else Step(interfaces, Run(interfaces, s, events[..|events| - 1]), events[|events| - 1])
  }

  // ---------------------------------------------------------------- what the table should hold

  predicate NoDuplicates<T(==)>(s: seq<T>) {
    forall i, j :: 0 <= i < j < |s| ==> s[i] != s[j]
  }

  predicate Serves(interfaces: seq<NetworkInterface>, configured: seq<string>, n: nat, protocol: Protocol)
    requires n < |interfaces|
  {
    interfaces[n].id in configured || (protocol == Udp && n == FirstLoopback(interfaces))
  }

  /** `k` is the key of `p` on an address of interface `n`. */
  predicate OnInterface(interfaces: seq<NetworkInterface>, n: nat, p: PortAndProtocol, k: string)
    requires n < |interfaces|
  {
    k in KeysOn(interfaces[n].addresses, p)
  }

  ghost predicate OnPort(interfaces: seq<NetworkInterface>, configured: seq<string>, p: PortAndProtocol, k: string) {
    exists n :: 0 <= n < |interfaces| && OnInterface(interfaces, n, p, k) && Serves(interfaces, configured, n, p.protocol)
  }

  /** A published port on an address of an interface it is to be forwarded on. */
  ghost predicate Wanted(interfaces: seq<NetworkInterface>, s: State, k: string) {
    exists p :: p in s.ports && OnPort(interfaces, s.configured, p, k)
  }

  /** Interfaces have different ids and share no address; an IPv4 address has no colon. */
  predicate Distinct(interfaces: seq<NetworkInterface>) {
    && (forall i, j :: 0 <= i < j < |interfaces| ==> interfaces[i].id != interfaces[j].id)
    && (forall i, a :: 0 <= i < |interfaces| && a in interfaces[i].addresses ==> ':' !in a)
    && (forall i, j, a :: 0 <= i < j < |interfaces| && a in interfaces[i].addresses ==> a !in interfaces[j].addresses)
  }

  /** Every entry of the table is wanted; when `exact`, everything wanted is there. */
  ghost predicate Agrees(interfaces: seq<NetworkInterface>, s: State, exact: bool) {
    && NoDuplicates(s.ports) && NoDuplicates(s.configured)
    && (forall k :: k in s.table ==> Wanted(interfaces, s, k))
    && (exact ==> forall k :: Wanted(interfaces, s, k) ==> k in s.table)
  }

  /** The WSL address is found and every forwarder can be killed; when `exact`, every forwarder starts as well. */
  ghost predicate Cooperative(env: Environment, exact: bool) {
    env.wslAddress && forall k :: env.kills(k) && (exact ==> env.starts(k))
  }

  ghost predicate Granted(e: Event, exact: bool) {
    match e
    case Message(_, _, _, env) => Cooperative(env, exact)
    case Toggle(_, _, env) => Cooperative(env, exact)
    case ProcessExits(_) => true
    case StopAll => !exact
  }

  // ---------------------------------------------------------------- lists

  lemma {:induction false} RemoveFrom<T>(s: seq<T>, x: T)
    requires NoDuplicates(s)
    ensures NoDuplicates(Remove(s, x))
    ensures forall y :: y in Remove(s, x) <==> y in s && y != x
  {
    if s != [] {
      var rest := s[1..];
      assert s == [s[0]] + rest;
      assert forall i :: 0 <= i < |rest| ==> rest[i] == s[i + 1];
      assert NoDuplicates(rest) && s[0] !in rest;
      RemoveFrom(rest, x);
      var removed := Remove(s, x);
      assert s[0] != x ==> removed == [s[0]] + Remove(rest, x) && s[0] !in Remove(rest, x);
    }
  }

  lemma IncludedHolds<T>(s: seq<T>, x: T, present: bool)
    requires NoDuplicates(s)
    ensures NoDuplicates(Included(s, x, present))
    ensures forall y :: y in Included(s, x, present) <==> if y == x then present else y in s
  {
    RemoveFrom(s, x);
  }

  lemma {:induction false} VisitAllAt(t: Table, keys: seq<string>, enabled: bool, env: Environment, k: string)
    ensures var after := VisitAll(t, keys, enabled, env);
            if k !in keys then (k in after <==> k in t) && (k in t ==> after[k] == t[k])
            else if k in t && t[k] && !env.kills(k) then k in after && after[k]
            else k in after <==> enabled && env.starts(k)
    ensures k in keys && k in VisitAll(t, keys, enabled, env) ==> VisitAll(t, keys, enabled, env)[k]
  {
    if keys != [] {
      VisitAllAt(t, keys[..|keys| - 1], enabled, env, k);
      assert keys == keys[..|keys| - 1] + [keys[|keys| - 1]];
    }
  }

  lemma {:induction false} VisitAppended(t: Table, a: seq<string>, b: seq<string>, enabled: bool, env: Environment)
    ensures VisitAll(t, a + b, enabled, env) == VisitAll(VisitAll(t, a, enabled, env), b, enabled, env)
  {
    if b == [] {
      assert a + b == a;
    } else {
      assert (a + b)[..|a + b| - 1] == a + b[..|b| - 1];
      VisitAppended(t, a, b[..|b| - 1], enabled, env);
    }
  }

  lemma {:induction false} InKeysOf(addresses: seq<string>, ports: seq<PortAndProtocol>, k: string)
    ensures k in KeysOf(addresses, ports) <==> exists p :: p in ports && k in KeysOn(addresses, p)
  {
    if ports != [] {
      InKeysOf(addresses, ports[..|ports| - 1], k);
      assert ports == ports[..|ports| - 1] + [ports[|ports| - 1]];
    }
  }

  lemma {:induction false} InConfiguredKeys(interfaces: seq<NetworkInterface>, configured: seq<string>, p: PortAndProtocol, k: string)
    ensures k in ConfiguredKeys(interfaces, configured, p)
       <==> exists n :: 0 <= n < |interfaces| && OnInterface(interfaces, n, p, k) && interfaces[n].id in configured
  {
    if interfaces != [] {
      var rest, n := interfaces[..|interfaces| - 1], |interfaces| - 1;
      InConfiguredKeys(rest, configured, p, k);
      assert forall m :: 0 <= m < n ==> OnInterface(rest, m, p, k) == OnInterface(interfaces, m, p, k);
      assert OnInterface(interfaces, n, p, k) == (k in KeysOn(interfaces[n].addresses, p));
    }
  }

  /** The addresses a message about `p` touches are those on which `p` is to be forwarded. */
  lemma TouchedByMessage(interfaces: seq<NetworkInterface>, configured: seq<string>, p: PortAndProtocol, k: string)
    ensures k in ConfiguredKeys(interfaces, configured, p) + LoopbackKeys(interfaces, p) <==> OnPort(interfaces, configured, p, k)
  {
    InConfiguredKeys(interfaces, configured, p, k);
    var n := FirstLoopback(interfaces);
    assert k in LoopbackKeys(interfaces, p) <==> n < |interfaces| && p.protocol == Udp && OnInterface(interfaces, n, p, k);
  }

  /** With distinct interfaces, a key belongs to one interface and one port. */
  lemma KeyHasOneOwner(interfaces: seq<NetworkInterface>, m: nat, p: PortAndProtocol, n: nat, q: PortAndProtocol, k: string)
    requires Distinct(interfaces) && m < |interfaces| && n < |interfaces|
    requires OnInterface(interfaces, m, p, k) && OnInterface(interfaces, n, q, k)
    ensures m == n && p == q
  {
    var i :| 0 <= i < |interfaces[m].addresses| && KeysOn(interfaces[m].addresses, p)[i] == k;
    var j :| 0 <= j < |interfaces[n].addresses| && KeysOn(interfaces[n].addresses, q)[j] == k;
    var a, b := interfaces[m].addresses[i], interfaces[n].addresses[j];
    assert a in interfaces[m].addresses && b in interfaces[n].addresses;
    KeysAreDistinct(a, p, b, q);
  }

  // ---------------------------------------------------------------- agreement over runs

  lemma MessageAt(interfaces: seq<NetworkInterface>, s: State, e: Event, exact: bool, k: string)
    requires Distinct(interfaces) && Agrees(interfaces, s, exact)
    requires e.Message? && !e.ipv6 && Cooperative(e.env, exact)
    ensures var after := Step(interfaces, s, e);
            && (k in after.table ==> Wanted(interfaces, after, k))
            && (exact && Wanted(interfaces, after, k) ==> k in after.table)
  {
    hide OnPort, ConfiguredKeys, LoopbackKeys, Included, VisitAll, NoDuplicates, Distinct;
    var after := Step(interfaces, s, e);
    TouchedByMessage(interfaces, s.configured, e.p, k);
    IncludedHolds(s.ports, e.p, e.enabled);
    VisitAllAt(s.table, ConfiguredKeys(interfaces, s.configured, e.p) + LoopbackKeys(interfaces, e.p), e.enabled, e.env, k);
    if k in after.table {
      if OnPort(interfaces, s.configured, e.p, k) {
        assert e.p in after.ports;
      } else {
        var q :| q in s.ports && OnPort(interfaces, s.configured, q, k);
        assert q in after.ports;
      }
    }
    if exact && Wanted(interfaces, after, k) {
      var q :| q in after.ports && OnPort(interfaces, s.configured, q, k);
      if OnPort(interfaces, s.configured, e.p, k) {
        PortsShareNoKey(interfaces, s.configured, e.p, q, k);
      } else {
        assert q in s.ports;
      }
    }
  }

  lemma PortsShareNoKey(interfaces: seq<NetworkInterface>, configured: seq<string>, p: PortAndProtocol, q: PortAndProtocol, k: string)
    requires Distinct(interfaces) && OnPort(interfaces, configured, p, k) && OnPort(interfaces, configured, q, k)
    ensures p == q
  {
    hide Distinct, OnInterface, Serves;
    var m :| 0 <= m < |interfaces| && OnInterface(interfaces, m, p, k);
    var n :| 0 <= n < |interfaces| && OnInterface(interfaces, n, q, k);
    KeyHasOneOwner(interfaces, m, p, n, q, k);
  }

  lemma ToggleAt(interfaces: seq<NetworkInterface>, s: State, e: Event, exact: bool, k: string)
    requires Distinct(interfaces) && Agrees(interfaces, s, exact)
    requires e.Toggle? && Cooperative(e.env, exact)
    requires e.interface < |interfaces| && !interfaces[e.interface].loopback
    ensures var after := Step(interfaces, s, e);
            && (k in after.table ==> Wanted(interfaces, after, k))
            && (exact && Wanted(interfaces, after, k) ==> k in after.table)
  {
    hide KeysOf, Included, VisitAll, NoDuplicates, FirstLoopback, OnInterface;
    var after := Step(interfaces, s, e);
    var n := e.interface;
    var keys := KeysOf(interfaces[n].addresses, s.ports);
    InKeysOf(interfaces[n].addresses, s.ports, k);
    TouchedByToggle(interfaces, n, s.ports, k);
    IncludedHolds(s.configured, interfaces[n].id, e.forwarded);
    VisitAllAt(s.table, keys, e.forwarded, e.env, k);
    if k in after.table {
      if k in keys {
        var p :| p in s.ports && OnInterface(interfaces, n, p, k);
        assert Serves(interfaces, after.configured, n, p.protocol);
        assert OnPort(interfaces, after.configured, p, k);
      } else {
        var q :| q in s.ports && OnPort(interfaces, s.configured, q, k);
        var m :| 0 <= m < |interfaces| && OnInterface(interfaces, m, q, k) && Serves(interfaces, s.configured, m, q.protocol);
        assert m != n;
        assert Serves(interfaces, after.configured, m, q.protocol);
        assert OnPort(interfaces, after.configured, q, k);
      }
    }
    if exact && Wanted(interfaces, after, k) {
      var q :| q in s.ports && OnPort(interfaces, after.configured, q, k);
      var m :| 0 <= m < |interfaces| && OnInterface(interfaces, m, q, k) && Serves(interfaces, after.configured, m, q.protocol);
      if k in keys {
        var p :| p in s.ports && OnInterface(interfaces, n, p, k);
        KeyHasOneOwner(interfaces, m, q, n, p, k);
        assert FirstLoopback(interfaces) != n;
      } else {
        assert m != n;
        assert Serves(interfaces, s.configured, m, q.protocol);
        assert OnPort(interfaces, s.configured, q, k);
      }
    }
  }

  lemma TouchedByToggle(interfaces: seq<NetworkInterface>, n: nat, ports: seq<PortAndProtocol>, k: string)
    requires n < |interfaces|
    ensures k in KeysOf(interfaces[n].addresses, ports) <==> exists p :: p in ports && OnInterface(interfaces, n, p, k)
  {
    InKeysOf(interfaces[n].addresses, ports, k);
    assert forall p :: OnInterface(interfaces, n, p, k) == (k in KeysOn(interfaces[n].addresses, p));
  }

  lemma StepAgrees(interfaces: seq<NetworkInterface>, s: State, e: Event, exact: bool)
    requires Distinct(interfaces) && Agrees(interfaces, s, exact) && Granted(e, exact)
    ensures Agrees(interfaces, Step(interfaces, s, e), exact)
  {
    hide Distinct, Wanted, VisitAll, ConfiguredKeys, LoopbackKeys, KeysOf, Included, NoDuplicates;
    var after := Step(interfaces, s, e);
    match e {
      case Message(ipv6, p, enabled, env) =>
        if !ipv6 {
          IncludedHolds(s.ports, p, enabled);
          forall k ensures (k in after.table ==> Wanted(interfaces, after, k)) && (exact && Wanted(interfaces, after, k) ==> k in after.table) {
            MessageAt(interfaces, s, e, exact, k);
          }
        }
      case Toggle(n, forwarded, env) =>
        if n < |interfaces| && !interfaces[n].loopback {
          IncludedHolds(s.configured, interfaces[n].id, forwarded);
          forall k ensures (k in after.table ==> Wanted(interfaces, after, k)) && (exact && Wanted(interfaces, after, k) ==> k in after.table) {
            ToggleAt(interfaces, s, e, exact, k);
          }
        }
      case ProcessExits(key) =>
        forall k ensures Wanted(interfaces, after, k) == Wanted(interfaces, s, k) { SameWanted(interfaces, s, after, k); }
      case StopAll =>
    }
  }

  lemma SameWanted(interfaces: seq<NetworkInterface>, s: State, after: State, k: string)
    requires after.ports == s.ports && after.configured == s.configured
    ensures Wanted(interfaces, after, k) == Wanted(interfaces, s, k)
  {}

  ghost predicate AllGranted(events: seq<Event>, exact: bool) {
    forall i :: 0 <= i < |events| ==> Granted(events[i], exact)
  }

  /** Over every sequence of messages, toggles, dying forwarders and stops, the published ports stay without duplicates and
      the table holds only keys of published ports on interfaces they are to be forwarded on; when all forwarders start and
      the engine is not stopped, it holds all of those. */
  lemma {:induction false} TableAgreesWithPorts(interfaces: seq<NetworkInterface>, s: State, events: seq<Event>, exact: bool)
    requires Distinct(interfaces) && Agrees(interfaces, s, exact) && AllGranted(events, exact)
    ensures Agrees(interfaces, Run(interfaces, s, events), exact)
  {
    hide Distinct, Agrees, Granted, Step;
    if events != [] {
      TableAgreesWithPorts(interfaces, s, events[..|events| - 1], exact);
      StepAgrees(interfaces, Run(interfaces, s, events[..|events| - 1]), events[|events| - 1], exact);
    }
  }

  /** Stopping the engine empties the table but forgets no port: an interface that is enabled afterwards is forwarded again
      for every port that was published before. */
  lemma StopForgetsNoPort(interfaces: seq<NetworkInterface>, s: State, e: Event, k: string)
    requires e.Toggle? && e.forwarded && Cooperative(e.env, true)
    requires e.interface < |interfaces| && !interfaces[e.interface].loopback
    ensures k in Step(interfaces, Step(interfaces, s, StopAll), e).table
       <==> exists p :: p in s.ports && OnInterface(interfaces, e.interface, p, k)
  {
    hide KeysOf, VisitAll, OnInterface, Included;
    TouchedByToggle(interfaces, e.interface, s.ports, k);
    VisitAllAt(map[], KeysOf(interfaces[e.interface].addresses, s.ports), true, e.env, k);
  }

  // ---------------------------------------------------------------- what the messages and toggles were for

  /** A message about this port that is processed. */
  predicate About(e: Event, p: PortAndProtocol) {
    e.Message? && !e.ipv6 && e.p == p
  }

  /** A toggle of the interface with this id that goes through. */
  predicate Switches(interfaces: seq<NetworkInterface>, e: Event, id: string) {
    e.Toggle? && e.interface < |interfaces| && !interfaces[e.interface].loopback && e.env.wslAddress && interfaces[e.interface].id == id
  }

  /** The last message about the port opened it, or there was none and it was published before. */
  ghost predicate Published(s: State, events: seq<Event>, p: PortAndProtocol) {
    || (exists i :: 0 <= i < |events| && About(events[i], p) && events[i].enabled && forall j :: i < j < |events| ==> !About(events[j], p))
    || ((forall i :: 0 <= i < |events| ==> !About(events[i], p)) && p in s.ports)
  }

  /** The last toggle of the interface enabled it, or there was none and it was configured before. */
  ghost predicate SwitchedOn(interfaces: seq<NetworkInterface>, s: State, events: seq<Event>, id: string) {
    || (exists i :: 0 <= i < |events| && Switches(interfaces, events[i], id) && events[i].forwarded
          && forall j :: i < j < |events| ==> !Switches(interfaces, events[j], id))
    || ((forall i :: 0 <= i < |events| ==> !Switches(interfaces, events[i], id)) && id in s.configured)
  }

  lemma PublishedNext(s: State, events: seq<Event>, e: Event, p: PortAndProtocol)
    ensures Published(s, events + [e], p) <==> if About(e, p) then e.enabled else Published(s, events, p)
  {
    var all, n := events + [e], |events|;
    assert all[n] == e && forall i :: 0 <= i < n ==> all[i] == events[i];
    if About(e, p) && e.enabled { assert About(all[n], p); }
    if !About(e, p) && Published(s, events, p) && exists i :: 0 <= i < n && About(events[i], p) {
      var i :| 0 <= i < n && About(events[i], p) && events[i].enabled && forall j :: i < j < n ==> !About(events[j], p);
      assert About(all[i], p);
    }
  }

  lemma SwitchedOnNext(interfaces: seq<NetworkInterface>, s: State, events: seq<Event>, e: Event, id: string)
    ensures SwitchedOn(interfaces, s, events + [e], id) <==>
              if Switches(interfaces, e, id) then e.forwarded else SwitchedOn(interfaces, s, events, id)
  {
    hide Switches;
    var all, n := events + [e], |events|;
    assert all[n] == e && forall i :: 0 <= i < n ==> all[i] == events[i];
    assert Switches(interfaces, e, id) ==> e.Toggle? by { ToggleSwitches(interfaces, e, id); }
    forall i | 0 <= i < n && Switches(interfaces, events[i], id) ensures events[i].Toggle? { ToggleSwitches(interfaces, events[i], id); }
    if Switches(interfaces, e, id) && e.forwarded { assert Switches(interfaces, all[n], id); }
    if !Switches(interfaces, e, id) && SwitchedOn(interfaces, s, events, id) && exists i :: 0 <= i < n && Switches(interfaces, events[i], id) {
      var i :| 0 <= i < n && Switches(interfaces, events[i], id) && events[i].forwarded
            && forall j :: i < j < n ==> !Switches(interfaces, events[j], id);
      assert Switches(interfaces, all[i], id);
    }
  }

  lemma ToggleSwitches(interfaces: seq<NetworkInterface>, e: Event, id: string)
    ensures Switches(interfaces, e, id) ==> e.Toggle?
  {}

  /** Over every history, whatever the environment does: a port is published if and only if the last message about it opened it,
      and an interface is configured if and only if the last toggle of it enabled it. */
  lemma {:induction false} ListsFollowHistory(interfaces: seq<NetworkInterface>, s: State, events: seq<Event>, p: PortAndProtocol, id: string)
    requires NoDuplicates(s.ports) && NoDuplicates(s.configured)
    ensures var after := Run(interfaces, s, events);
            && NoDuplicates(after.ports) && NoDuplicates(after.configured)
            && (p in after.ports <==> Published(s, events, p))
            && (id in after.configured <==> SwitchedOn(interfaces, s, events, id))
  {
    hide NoDuplicates, Published, SwitchedOn, Included;
    if events == [] {
      NothingHappened(interfaces, s, p, id);
    } else {
      var before, e := events[..|events| - 1], events[|events| - 1];
      assert events == before + [e];
      ListsFollowHistory(interfaces, s, before, p, id);
      PublishedNext(s, before, e, p);
      SwitchedOnNext(interfaces, s, before, e, id);
      var was := Run(interfaces, s, before);
      if e.Message? && !e.ipv6 { IncludedHolds(was.ports, e.p, e.enabled); }
      if e.Toggle? && e.interface < |interfaces| { IncludedHolds(was.configured, interfaces[e.interface].id, e.forwarded); }
    }
  }

  lemma NothingHappened(interfaces: seq<NetworkInterface>, s: State, p: PortAndProtocol, id: string)
    ensures (Published(s, [], p) <==> p in s.ports) && (SwitchedOn(interfaces, s, [], id) <==> id in s.configured)
  {}

  /** Afterwards `x` is in the list if and only if `present`, and nothing else has changed. */
  ghost predicate InOrOut<T(!new)>(before: seq<T>, after: seq<T>, x: T, present: bool) {
    NoDuplicates(after) && forall y :: y in after <==> if y == x then present else y in before
  }

  /** All keys of the port on the interface are in the table, or none is. */
  ghost predicate AllOrNone(interfaces: seq<NetworkInterface>, n: nat, p: PortAndProtocol, table: Table, present: bool)
    requires n < |interfaces|
  {
    forall k :: OnInterface(interfaces, n, p, k) ==> (k in table <==> present)
  }

  /** What a message about a port leaves in a cooperative environment: the keys of the port on the interfaces it is to be
      forwarded on are there if and only if the message opened it, and other keys are as before. */
  lemma MessageLeaves(interfaces: seq<NetworkInterface>, s: State, e: Event, k: string)
    requires e.Message? && !e.ipv6 && Cooperative(e.env, true)
    ensures var after := Step(interfaces, s, e);
            if OnPort(interfaces, s.configured, e.p, k) then k in after.table <==> e.enabled else k in after.table <==> k in s.table
  {
    hide OnPort, ConfiguredKeys, LoopbackKeys, Included, VisitAll;
    TouchedByMessage(interfaces, s.configured, e.p, k);
    VisitAllAt(s.table, ConfiguredKeys(interfaces, s.configured, e.p) + LoopbackKeys(interfaces, e.p), e.enabled, e.env, k);
  }

  lemma ToggleLeaves(interfaces: seq<NetworkInterface>, s: State, e: Event, k: string)
    requires e.Toggle? && Cooperative(e.env, true) && e.interface < |interfaces| && !interfaces[e.interface].loopback
    ensures var after := Step(interfaces, s, e);
            if exists p :: p in s.ports && OnInterface(interfaces, e.interface, p, k) then k in after.table <==> e.forwarded
            else k in after.table <==> k in s.table
  {
    hide KeysOf, VisitAll, OnInterface, Included;
    TouchedByToggle(interfaces, e.interface, s.ports, k);
    VisitAllAt(s.table, KeysOf(interfaces[e.interface].addresses, s.ports), e.forwarded, e.env, k);
  }
}
