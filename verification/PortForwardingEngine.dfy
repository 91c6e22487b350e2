/** The engine's port forwarding as it runs: it updates its table and starts and kills forwarder processes step by step. */
module PortForwardingEngine {
  import opened Text
  import opened PortForwarding

  class PortForwarder {
    var address: string
    var port: PortAndProtocol
    var running: bool

    constructor ()
      ensures !running
    {
      address, port, running := "", PortAndProtocol(0, Tcp), false;
    }

    function Key(): string
      reads this
    {
      KeyOf(address, port)
    }

    /** Starts the process; it throws when the process ends at once. */
    method Start(address: string, port: PortAndProtocol, starts: bool) returns (threw: bool)
      modifies this
      ensures this.address == address && this.port == port
      ensures running == starts && threw == !starts
    {
      this.address, this.port, running := address, port, starts;
      threw := !starts;
    }

    /** Kills the process unless it has ended already; it throws when killing fails. */
    method Stop(kills: bool) returns (threw: bool)
      modifies this`running
      ensures threw == (old(running) && !kills) && running == threw
    {
      threw := running && !kills;
      running := threw;
    }
  }

  class DefaultContainerEngine {
    const interfaces: seq<NetworkInterface>
    var ports: seq<PortAndProtocol>
    var configured: seq<string>
    var portForwarders: map<string, PortForwarder>
    /** Every forwarder that was ever created. */
    ghost var created: set<PortForwarder>

    /** Each entry is under its own key, and each live forwarder is the one under its key. */
    ghost predicate Sound()
      reads this`portForwarders, this`created, created
    {
      && (forall k :: k in portForwarders ==> portForwarders[k] in created && portForwarders[k].Key() == k)
      && (forall f :: f in created && f.running ==> f.Key() in portForwarders && portForwarders[f.Key()] == f)
    }

    ghost function Table(): (t: Table)
      reads this`portForwarders, this`created, created
      requires Sound()
      ensures forall k :: k in t <==> k in portForwarders
    {
      map k | k in portForwarders :: portForwarders[k].running
    }

    ghost function Abstract(): State
      reads this, created
      requires Sound()
    {
      State(ports, configured, Table())
    }

    constructor (interfaces: seq<NetworkInterface>, configured: seq<string>)
      ensures this.interfaces == interfaces && created == {}
      ensures Sound() && Abstract() == State([], configured, map[])
    {
      this.interfaces, this.configured := interfaces, configured;
      ports, portForwarders, created := [], map[], {};
    }

    /** Stops and drops the forwarder under a key; when it cannot be killed it stays. */
    method Drop(key: string, kills: bool) returns (threw: bool)
      requires Sound() && key in portForwarders
      modifies this`portForwarders, created
      ensures threw == (old(Table())[key] && !kills)
      ensures Sound() && Table() == if threw then old(Table()) else old(Table()) - {key}
    {
      hide KeyOf;
      var existing := portForwarders[key];
      threw := existing.Stop(kills);
      assert existing.Key() == key;
      if !threw {
        portForwarders := portForwarders - {key};
      }
    }

    method Launch(address: string, p: PortAndProtocol, starts: bool)
      requires Sound() && KeyOf(address, p) !in portForwarders
      modifies this`portForwarders, this`created
      ensures old(created) <= created && fresh(created - old(created))
      ensures Sound() && Table() == if starts then old(Table())[KeyOf(address, p) := true] else old(Table())
    {
      hide KeyOf;
      var forwarder := new PortForwarder();
      var threw := forwarder.Start(address, p, starts);
      created := created + {forwarder};
      if threw {
        return;
      }
      portForwarders := portForwarders[KeyOf(address, p) := forwarder];
    }

    method Visit(address: string, p: PortAndProtocol, enabled: bool, env: Environment)
      requires Sound()
      modifies this`portForwarders, this`created, created
      ensures old(created) <= created && fresh(created - old(created))
      ensures Sound() && Table() == VisitKey(old(Table()), KeyOf(address, p), enabled, env)
    {
      hide KeyOf;
      var key := KeyOf(address, p);
      if key in portForwarders {
        var threw := Drop(key, env.kills(key));
        if threw {
          return;
        }
      }
      assert Table() == old(Table()) - {key};
      if enabled {
        Launch(address, p, env.starts(key));
      }
    }

    method VisitAddresses(addresses: seq<string>, p: PortAndProtocol, enabled: bool, env: Environment)
      requires Sound()
      modifies this`portForwarders, this`created, created
      ensures old(created) <= created && fresh(created - old(created))
      ensures Sound() && Table() == VisitAll(old(Table()), KeysOn(addresses, p), enabled, env)
    {
      var i := 0;
      while i < |addresses|
        invariant 0 <= i <= |addresses|
        invariant old(created) <= created && fresh(created - old(created))
        invariant Sound() && Table() == VisitAll(old(Table()), KeysOn(addresses, p)[..i], enabled, env)
      {
        assert KeysOn(addresses, p)[..i + 1][..i] == KeysOn(addresses, p)[..i];
        Visit(addresses[i], p, enabled, env);
        i := i + 1;
      }
      assert KeysOn(addresses, p)[..i] == KeysOn(addresses, p);
    }

    /** Stops, and when enabling starts again, the forwarders of some ports on one interface; throws when the WSL address
        is not found. */
    method EnableOn(n: nat, list: seq<PortAndProtocol>, enabled: bool, env: Environment) returns (threw: bool)
      requires Sound() && n < |interfaces|
      modifies this`portForwarders, this`created, created
      ensures old(created) <= created && fresh(created - old(created))
      ensures threw == !env.wslAddress && Sound()
      ensures Table() == if threw then old(Table()) else VisitAll(old(Table()), KeysOf(interfaces[n].addresses, list), enabled, env)
    {
      if !env.wslAddress {
        return true;
      }
      var i := 0;
      while i < |list|
        invariant 0 <= i <= |list|
        invariant old(created) <= created && fresh(created - old(created))
        invariant Sound() && Table() == VisitAll(old(Table()), KeysOf(interfaces[n].addresses, list[..i]), enabled, env)
      {
        assert list[..i + 1][..i] == list[..i];
        VisitAppended(old(Table()), KeysOf(interfaces[n].addresses, list[..i]), KeysOn(interfaces[n].addresses, list[i]), enabled, env);
        VisitAddresses(interfaces[n].addresses, list[i], enabled, env);
        i := i + 1;
      }
      assert list[..i] == list;
      return false;
    }

    method ForwardOnConfigured(p: PortAndProtocol, enabled: bool, env: Environment) returns (threw: bool)
      requires Sound()
      modifies this`portForwarders, this`created, created
      ensures old(created) <= created && fresh(created - old(created))
      ensures threw ==> !env.wslAddress
      ensures Sound()
      ensures Table() == if env.wslAddress then VisitAll(old(Table()), ConfiguredKeys(interfaces, configured, p), enabled, env)
                         else old(Table())
    {
      hide Sound, Table, VisitAll, KeysOf;
      if |configured| == 0 {
        NothingConfigured(interfaces, configured, p);
        VisitNone(Table(), enabled, env);
        return false;
      }
      VisitNone(Table(), enabled, env);
      var i := 0;
      while i < |interfaces|
        invariant 0 <= i <= |interfaces|
        invariant old(created) <= created && fresh(created - old(created))
        invariant Sound()
        invariant Table() == if env.wslAddress then VisitAll(old(Table()), ConfiguredKeys(interfaces[..i], configured, p), enabled, env)
                             else old(Table())
      {
        assert interfaces[..i + 1][..i] == interfaces[..i];
        if interfaces[i].id in configured {
          VisitAppended(old(Table()), ConfiguredKeys(interfaces[..i], configured, p), KeysOn(interfaces[i].addresses, p), enabled, env);
          OnePort(interfaces[i].addresses, p);
          threw := EnableOn(i, [p], enabled, env);
          if threw {
            return;
          }
        } else {
          assert ConfiguredKeys(interfaces[..i + 1], configured, p) == ConfiguredKeys(interfaces[..i], configured, p);
        }
        i := i + 1;
      }
      assert interfaces[..i] == interfaces;
      threw := false;
    }

    method ForwardOnLoopback(p: PortAndProtocol, enabled: bool, env: Environment)
      requires Sound()
      modifies this`portForwarders, this`created, created
      ensures old(created) <= created && fresh(created - old(created))
      ensures Sound()
      ensures Table() == if env.wslAddress then VisitAll(old(Table()), LoopbackKeys(interfaces, p), enabled, env) else old(Table())
    {
      hide Sound, Table, VisitAll, KeysOf;
      VisitNone(Table(), enabled, env);
      if p.protocol == Udp {
        var n := FirstLoopback(interfaces);
        if n == |interfaces| {
          return;
        }
        OnePort(interfaces[n].addresses, p);
        var threw := EnableOn(n, [p], enabled, env);
      }
    }

    /** What the message is for, said of the state it leads to. */
    lemma MessageFacts(s: State, ipv6: bool, p: PortAndProtocol, enabled: bool, env: Environment)
      ensures var after := Step(interfaces, s, Message(ipv6, p, enabled, env));
              && (!ipv6 && NoDuplicates(s.ports) ==> InOrOut(s.ports, after.ports, p, enabled))
              && (!ipv6 && Cooperative(env, true) ==>
                    forall n :: 0 <= n < |interfaces| && interfaces[n].id in s.configured ==>
                      AllOrNone(interfaces, n, p, after.table, enabled))
    {
      hide OnInterface, Cooperative, NoDuplicates, Included;
      var e := Message(ipv6, p, enabled, env);
      if !ipv6 && NoDuplicates(s.ports) { IncludedHolds(s.ports, p, enabled); }
      if !ipv6 && Cooperative(env, true) {
        forall n, k | 0 <= n < |interfaces| && interfaces[n].id in s.configured && OnInterface(interfaces, n, p, k)
          ensures k in Step(interfaces, s, e).table <==> enabled
        {
          assert Serves(interfaces, s.configured, n, p.protocol);
          assert OnPort(interfaces, s.configured, p, k);
          MessageLeaves(interfaces, s, e, k);
        }
      }
    }

    lemma ToggleFacts(s: State, n: nat, forwarded: bool, env: Environment)
      requires n < |interfaces| && !interfaces[n].loopback
      ensures var after := Step(interfaces, s, Event.Toggle(n, forwarded, env));
              && (env.wslAddress && NoDuplicates(s.configured) ==>
                    InOrOut(s.configured, after.configured, interfaces[n].id, forwarded))
              && (Cooperative(env, true) ==> forall p :: p in s.ports ==> AllOrNone(interfaces, n, p, after.table, forwarded))
    {
      hide OnInterface, Cooperative, NoDuplicates, Included;
      var e := Event.Toggle(n, forwarded, env);
      if NoDuplicates(s.configured) { IncludedHolds(s.configured, interfaces[n].id, forwarded); }
      if Cooperative(env, true) {
        forall p, k | p in s.ports && OnInterface(interfaces, n, p, k) ensures k in Step(interfaces, s, e).table <==> forwarded {
          ToggleLeaves(interfaces, s, e, k);
        }
      }
    }

    method Forward(p: PortAndProtocol, enabled: bool, env: Environment)
      requires Sound()
      modifies this`ports, this`portForwarders, this`created, created
      ensures old(created) <= created && fresh(created - old(created))
      ensures Sound() && Abstract() == Step(interfaces, old(Abstract()), Message(false, p, enabled, env))
    {
      hide VisitAll, ConfiguredKeys, LoopbackKeys, Remove, Sound, Table;
      if enabled {
        if p !in ports {
          ports := ports + [p];
        }
      } else {
        ports := Remove(ports, p);
      }
      VisitAppended(Table(), ConfiguredKeys(interfaces, configured, p), LoopbackKeys(interfaces, p), enabled, env);
      var threw := ForwardOnConfigured(p, enabled, env);
      if threw {
        return;
      }
      ForwardOnLoopback(p, enabled, env);
    }

    /** Handles a message of the port-forwarding listener; what goes wrong is swallowed.  An IPv4 message publishes the port or
        takes it back, and when all goes well its keys on the configured interfaces appear or disappear with it. */
    method ForwardPort(ipv6: bool, p: PortAndProtocol, enabled: bool, env: Environment)
      requires Sound()
      modifies this`ports, this`portForwarders, this`created, created
      ensures old(created) <= created && fresh(created - old(created))
      ensures Sound() && Abstract() == Step(interfaces, old(Abstract()), Message(ipv6, p, enabled, env))
      ensures ipv6 ==> ports == old(ports) && Table() == old(Table())
      ensures !ipv6 && NoDuplicates(old(ports)) ==> InOrOut(old(ports), ports, p, enabled)
      ensures !ipv6 && Cooperative(env, true) ==>
                forall n :: 0 <= n < |interfaces| && interfaces[n].id in configured ==> AllOrNone(interfaces, n, p, Table(), enabled)
    {
      hide AllOrNone, InOrOut, Cooperative, NoDuplicates, Sound, Table;
      if !ipv6 {
        hide Step;
        ghost var s := Abstract();
        Forward(p, enabled, env);
        MessageFacts(s, ipv6, p, enabled, env);
      }
    }

    method Toggle(n: nat, forwarded: bool, env: Environment)
      requires Sound() && n < |interfaces| && !interfaces[n].loopback
      modifies this`configured, this`portForwarders, this`created, created
      ensures old(created) <= created && fresh(created - old(created))
      ensures Sound() && Abstract() == Step(interfaces, old(Abstract()), Event.Toggle(n, forwarded, env))
    {
      hide VisitAll, KeysOf, Remove, Sound, Table;
      var threw := EnableOn(n, ports, forwarded, env);
      if threw {
        return;
      }
      if forwarded {
        if interfaces[n].id !in configured {
          configured := configured + [interfaces[n].id];
        }
      } else {
        configured := Remove(configured, interfaces[n].id);
      }
    }

    /** The user switches forwarding on an interface; the configuration follows only after the forwarders, and only when the WSL
        address was found.  When all goes well the keys of all published ports appear or disappear with it. */
    method TogglePortForwardInterface(n: nat, forwarded: bool, env: Environment)
      requires Sound() && n < |interfaces| && !interfaces[n].loopback
      modifies this`configured, this`portForwarders, this`created, created
      ensures old(created) <= created && fresh(created - old(created))
      ensures Sound() && Abstract() == Step(interfaces, old(Abstract()), Event.Toggle(n, forwarded, env))
      ensures env.wslAddress && NoDuplicates(old(configured)) ==> InOrOut(old(configured), configured, interfaces[n].id, forwarded)
      ensures !env.wslAddress ==> configured == old(configured) && Table() == old(Table())
      ensures Cooperative(env, true) ==> forall p :: p in ports ==> AllOrNone(interfaces, n, p, Table(), forwarded)
    {
      hide AllOrNone, InOrOut, Cooperative, NoDuplicates, Sound, Table, KeysOf;
      ghost var s := Abstract();
      ToggleFacts(s, n, forwarded, env);
      Toggle(n, forwarded, env);
    }

    /** A forwarder process ends by itself; the engine does not notice. */
    method ForwarderExits(key: string)
      requires Sound()
      modifies created
      ensures Sound() && Abstract() == Step(interfaces, old(Abstract()), ProcessExits(key))
    {
      hide KeyOf;
      if key in portForwarders {
        portForwarders[key].running := false;
      }
    }

    /** Stops the forwarders one by one until one cannot be killed, and empties the table in any case. */
    method StopPortForwarding(order: seq<string>, kills: string -> bool)
      requires Sound()
      requires NoDuplicates(order) && forall k :: k in order <==> k in portForwarders
      modifies this`portForwarders, set f | f in created :: f`running
      ensures portForwarders == map[]
      ensures (forall f :: f in created ==> !f.running) <==> forall k :: k in old(Table()) && old(Table())[k] ==> kills(k)
      ensures (forall f :: f in created ==> !f.running) <==> Sound()
      ensures Sound() ==> Abstract() == Step(interfaces, old(Abstract()), StopAll)
    {
      hide KeyOf;
      assert forall k :: k in order ==> portForwarders[k].Key() == k;
      var i := 0;
      while i < |order|
        invariant 0 <= i <= |order| && portForwarders == old(portForwarders)
        invariant forall j :: 0 <= j < i ==> !portForwarders[order[j]].running
        invariant forall j :: 0 <= j < i && old(portForwarders[order[j]].running) ==> kills(order[j])
        invariant forall f :: f in created && f.running ==> old(f.running)
        invariant forall j :: i <= j < |order| ==> portForwarders[order[j]].running == old(portForwarders[order[j]].running)
      {
        var threw := portForwarders[order[i]].Stop(kills(order[i]));
        if threw {
          break;
        }
        i := i + 1;
      }
      portForwarders := map[];
    }
  }

  lemma VisitNone(t: Table, enabled: bool, env: Environment)
    ensures VisitAll(t, [], enabled, env) == t
  {}

  lemma OnePort(addresses: seq<string>, p: PortAndProtocol)
    ensures KeysOf(addresses, [p]) == KeysOn(addresses, p)
  {
    assert [p][..0] == [];
    assert KeysOf(addresses, [p]) == [] + KeysOn(addresses, p);
  }

  lemma {:induction false} NothingConfigured(interfaces: seq<NetworkInterface>, configured: seq<string>, p: PortAndProtocol)
    requires configured == []
    ensures ConfiguredKeys(interfaces, configured, p) == []
  {
    if interfaces != [] {
      NothingConfigured(interfaces[..|interfaces| - 1], configured, p);
    }
  }
}
