/** The UDP proxy: connection-tracking table, reply loops and Close as threads that interleave.  The lock is explicit, so a
    critical section is several steps during which every other thread may run up to its own Lock call. */
module UdpProxy {

  import opened Common

  datatype Address = Address(ip: seq<Byte>, port: int, zone: string)

  datatype Key = Key(high: nat, low: nat, port: int)

  /** The number written by the bytes, most significant first. */
  function BigEndian(bs: seq<Byte>): nat {
    if bs == [] then 0 else BigEndian(bs[..|bs| - 1]) * 256 + bs[|bs| - 1]
  }

  /** Lengths the key function accepts; on others the slicing in the source panics. */
  predicate Keyed(a: Address) {
    |a.ip| == 4 || |a.ip| >= 16
  }

  function NewKey(a: Address): Key
    requires Keyed(a)
  {
    if |a.ip| == 4 then Key(0, BigEndian(a.ip), a.port)
    else Key(BigEndian(a.ip[..8]), BigEndian(a.ip[8..16]), a.port)
  }

  lemma {:induction false} BigEndianInjective(a: seq<Byte>, b: seq<Byte>)
    requires |a| == |b|
    ensures BigEndian(a) == BigEndian(b) <==> a == b
  {
    if a != [] {
      BigEndianInjective(a[..|a| - 1], b[..|b| - 1]);
      assert a == a[..|a| - 1] + [a[|a| - 1]];
      assert b == b[..|b| - 1] + [b[|b| - 1]];
    }
  }

  lemma {:induction false} LeadingZeros(n: nat, b: seq<Byte>)
    ensures BigEndian(seq(n, _ => 0) + b) == BigEndian(b)
  {
    var zs: seq<Byte> := seq(n, _ => 0);
    if b == [] {
      assert zs + b == zs;
      if n > 0 {
        assert zs[..n - 1] == seq(n - 1, _ => 0) + b;
        LeadingZeros(n - 1, b);
      }
    } else {
      assert (zs + b)[..|zs + b| - 1] == zs + b[..|b| - 1];
      LeadingZeros(n, b[..|b| - 1]);
    }
  }

  /** Two addresses of the same family have the same key exactly when IP and port agree; zones are not looked at. */
  lemma KeyInjective(a: Address, b: Address)
    requires |a.ip| == |b.ip| && (|a.ip| == 4 || |a.ip| == 16)
    ensures NewKey(a) == NewKey(b) <==> a.ip == b.ip && a.port == b.port
  {
    if |a.ip| == 4 {
      BigEndianInjective(a.ip, b.ip);
    } else {
      BigEndianInjective(a.ip[..8], b.ip[..8]);
      BigEndianInjective(a.ip[8..16], b.ip[8..16]);
      assert a.ip == a.ip[..8] + a.ip[8..16] && b.ip == b.ip[..8] + b.ip[8..16];
    }
  }

  /** A 4-byte and a 16-byte IP share a key exactly when the ports agree and the long one is twelve zero bytes followed by
      the short one. */
  lemma MixedLengthCollision(a: Address, b: Address)
    requires |a.ip| == 4 && |b.ip| == 16
    ensures NewKey(a) == NewKey(b) <==> a.port == b.port && b.ip == seq(12, _ => 0) + a.ip
  {
    var zeros8: seq<Byte> := seq(8, _ => 0);
    var zeros4: seq<Byte> := seq(4, _ => 0);
    var none: seq<Byte> := [];
    LeadingZeros(8, none);
    assert zeros8 + none == zeros8;
    BigEndianInjective(b.ip[..8], zeros8);
    LeadingZeros(4, a.ip);
    BigEndianInjective(b.ip[8..16], zeros4 + a.ip);
    assert b.ip == b.ip[..8] + b.ip[8..16];
    assert seq(12, _ => 0) + a.ip == zeros8 + (zeros4 + a.ip);
    if b.ip == seq(12, _ => 0) + a.ip {
      assert b.ip[..8] == zeros8 && b.ip[8..16] == zeros4 + a.ip;
    }
  }

  // ---------------------------------------------------------------- threads

  /** A reply loop: reading, writing replies, and the deferred lock, delete, unlock, close. */
  datatype LoopPc = Reading | Replying(left: seq<Byte>) | Leaving | Removing | Removed | Closing | Gone

  /** `read` is all that its reply loop has read from the backend. */
  datatype Conn = Conn(client: Address, open: bool, pc: LoopPc, read: seq<Byte>)

  datatype RunPc =
    | Receiving
    | Locking(from: Address, data: seq<Byte>)
    | Looking(from: Address, data: seq<Byte>)
    | Unlocking(from: Address, data: seq<Byte>, conn: nat)
    | Giving                                                // dial failed: unlock and go on
    | Forwarding(from: Address, conn: nat, left: seq<Byte>)
    | Stopped

  datatype ClosePc = NotCalled | ListenerClosed | Walking(todo: set<nat>) | Walked

  datatype Holder = Nobody | Runner | Loop(c: nat) | Closer

  /** A datagram that Run has received; `dropped` when its forwarding was given up. */
  datatype Datagram = Datagram(from: Address, data: seq<Byte>, dropped: bool)

  /** One write to a connection, and the datagram its bytes are from. */
  datatype Sent = Sent(from: Address, conn: nat, datagram: nat, bytes: seq<Byte>)

  /** One write to a client. */
  datatype Reply = Reply(conn: nat, to: Address, bytes: seq<Byte>)

  datatype State = State(listening: bool, run: RunPc, conns: seq<Conn>, close: ClosePc, lock: Holder,
                         table: map<Key, nat>, datagrams: seq<Datagram>, sent: seq<Sent>, replies: seq<Reply>)

  const START := State(true, Receiving, [], NotCalled, Nobody, map[], [], [], [])

  datatype Event =
    | Receive(from: Address, data: seq<Byte>) | ReceiveFails | RunLocks | Hit | Dial | DialFails | RunUnlocks
    | Forward(n: nat) | ForwardFails
    | Read(c: nat, data: seq<Byte>) | ReadFails(c: nat) | WriteReply(c: nat, n: nat) | ReplyFails(c: nat)
    | LoopLocks(c: nat) | Delete(c: nat) | LoopUnlocks(c: nat) | CloseConn(c: nat)
    | CloseListener | CloserLocks | CloseListed(c: nat) | CloserUnlocks

  /** May the event happen?  `ipLen` is the address length of the listener's family. */
  predicate Can(s: State, e: Event, ipLen: nat) {
    match e
    case Receive(from, data) => s.run == Receiving && s.listening && |from.ip| == ipLen
    case ReceiveFails => s.run == Receiving
    case RunLocks => s.run.Locking? && s.lock == Nobody
    case Hit => s.run.Looking? && Keyed(s.run.from) && NewKey(s.run.from) in s.table
    case Dial => s.run.Looking? && Keyed(s.run.from) && NewKey(s.run.from) !in s.table
    case DialFails => s.run.Looking? && Keyed(s.run.from) && NewKey(s.run.from) !in s.table
    case RunUnlocks => s.run.Unlocking? || s.run.Giving?
    case Forward(n) => s.run.Forwarding? && s.run.conn < |s.conns| && s.conns[s.run.conn].open && 0 < n <= |s.run.left|
    case ForwardFails => s.run.Forwarding? && s.run.left != []
    case Read(c, data) => c < |s.conns| && s.conns[c].pc == Reading && s.conns[c].open
    case ReadFails(c) => c < |s.conns| && s.conns[c].pc == Reading
    case WriteReply(c, n) => c < |s.conns| && s.conns[c].pc.Replying? && s.listening && 0 < n <= |s.conns[c].pc.left|
    case ReplyFails(c) => c < |s.conns| && s.conns[c].pc.Replying?
    case LoopLocks(c) => c < |s.conns| && s.conns[c].pc == Leaving && s.lock == Nobody
    case Delete(c) => c < |s.conns| && s.conns[c].pc == Removing && Keyed(s.conns[c].client)
    case LoopUnlocks(c) => c < |s.conns| && s.conns[c].pc == Removed
    case CloseConn(c) => c < |s.conns| && s.conns[c].pc == Closing
    case CloseListener => s.close == NotCalled
    case CloserLocks => s.close == ListenerClosed && s.lock == Nobody
    case CloseListed(c) => s.close.Walking? && c in s.close.todo && c < |s.conns|
    case CloserUnlocks => s.close == Walking({})
  }

  function At(s: State, c: nat, pc: LoopPc): State
    requires c < |s.conns|
  {
    s.(conns := s.conns[c := s.conns[c].(pc := pc)])
  }

  /** Once everything read has been written the thread goes back for more. */
  function AfterForward(from: Address, conn: nat, left: seq<Byte>): RunPc {
    if left == [] then Receiving else Forwarding(from, conn, left)
  }

  function AfterReply(left: seq<Byte>): LoopPc {
    if left == [] then Reading else Replying(left)
  }

  /** The datagrams, the last of them given up. */
  function LastDropped(ds: seq<Datagram>): seq<Datagram> {
    if ds == [] then [] else ds[|ds| - 1 := ds[|ds| - 1].(dropped := true)]
  }

  /** Number of the datagram that Run is dealing with. */
  function Current(s: State): nat {
    if s.datagrams == [] then 0 else |s.datagrams| - 1
  }

  function Do(s: State, e: Event, ipLen: nat): State
    requires Can(s, e, ipLen)
  {
    match e
    case Receive(from, data) => s.(run := Locking(from, data), datagrams := s.datagrams + [Datagram(from, data, false)])
    case ReceiveFails => s.(run := Stopped)
    case RunLocks => s.(run := Looking(s.run.from, s.run.data), lock := Runner)
    case Hit => s.(run := Unlocking(s.run.from, s.run.data, s.table[NewKey(s.run.from)]))
    case Dial =>
      s.(conns := s.conns + [Conn(s.run.from, true, Reading, [])], table := s.table[NewKey(s.run.from) := |s.conns|],
         run := Unlocking(s.run.from, s.run.data, |s.conns|))
    case DialFails => s.(run := Giving, datagrams := LastDropped(s.datagrams))
    case RunUnlocks =>
      s.(lock := Nobody, run := if s.run.Giving? then Receiving else AfterForward(s.run.from, s.run.conn, s.run.data))
    case Forward(n) =>
      s.(sent := s.sent + [Sent(s.run.from, s.run.conn, Current(s), s.run.left[..n])],
         run := AfterForward(s.run.from, s.run.conn, s.run.left[n..]))
    case ForwardFails => s.(run := Receiving, datagrams := LastDropped(s.datagrams))
    case Read(c, data) => s.(conns := s.conns[c := s.conns[c].(pc := AfterReply(data), read := s.conns[c].read + data)])
    case ReadFails(c) => At(s, c, Leaving)
    case WriteReply(c, n) =>
      At(s, c, AfterReply(s.conns[c].pc.left[n..]))
        .(replies := s.replies + [Reply(c, s.conns[c].client, s.conns[c].pc.left[..n])])
    case ReplyFails(c) => At(s, c, Leaving)
    case LoopLocks(c) => At(s, c, Removing).(lock := Loop(c))
    case Delete(c) => At(s, c, Removed).(table := s.table - {NewKey(s.conns[c].client)})
    case LoopUnlocks(c) => At(s, c, Closing).(lock := Nobody)
    case CloseConn(c) => s.(conns := s.conns[c := s.conns[c].(open := false, pc := Gone)])
    case CloseListener => s.(listening := false, close := ListenerClosed)
    case CloserLocks => s.(close := Walking(s.table.Values), lock := Closer)
    case CloseListed(c) => s.(conns := s.conns[c := s.conns[c].(open := false)], close := Walking(s.close.todo - {c}))
    case CloserUnlocks => s.(close := Walked, lock := Nobody)
  }

  /** A schedule: a list of events each of which can happen where it comes. */
  predicate Runs(s: State, es: seq<Event>, ipLen: nat)
    decreases |es|
  {
    es == [] || (Can(s, es[0], ipLen) && Runs(Do(s, es[0], ipLen), es[1..], ipLen))
  }

  function After(s: State, es: seq<Event>, ipLen: nat): State
    requires Runs(s, es, ipLen)
    decreases |es|
  {
    if es == [] then s else After(Do(s, es[0], ipLen), es[1..], ipLen)
  }

  // ---------------------------------------------------------------- invariant

  /** The reply loop was started and has not yet run its deferred delete. */
  predicate Listed(pc: LoopPc) {
    pc.Reading? || pc.Replying? || pc.Leaving? || pc.Removing?
  }

  ghost predicate LockHeldRight(s: State) {
    && (s.lock == Runner <==> s.run.Looking? || s.run.Unlocking? || s.run.Giving?)
    && (s.lock == Closer <==> s.close.Walking?)
    && (forall c :: 0 <= c < |s.conns| ==> (s.lock == Loop(c) <==> s.conns[c].pc == Removing || s.conns[c].pc == Removed))
    && (s.lock.Loop? ==> s.lock.c < |s.conns|)
  }

  ghost predicate ClientsKeyed(s: State, ipLen: nat) {
    && (forall c :: 0 <= c < |s.conns| ==> |s.conns[c].client.ip| == ipLen)
    && (s.run.Locking? || s.run.Looking? || s.run.Unlocking? || s.run.Forwarding? ==> |s.run.from.ip| == ipLen)
  }

  predicate MadeFor(conn: Conn, k: Key) {
    Keyed(conn.client) && NewKey(conn.client) == k
  }

  /** Ownership: the table maps a key to a connection exactly when that connection was made for the key
      and its reply loop has not yet run its deferred delete. */
  ghost predicate Owned(s: State, ipLen: nat)
    requires (ipLen == 4 || ipLen == 16) && ClientsKeyed(s, ipLen)
  {
    && (forall k :: k in s.table ==> s.table[k] < |s.conns| && Listed(s.conns[s.table[k]].pc) && NewKey(s.conns[s.table[k]].client) == k)
    && (forall c :: 0 <= c < |s.conns| && Listed(s.conns[c].pc) ==>
          NewKey(s.conns[c].client) in s.table && s.table[NewKey(s.conns[c].client)] == c)
  }

  /** Same client as far as the key can tell. */
  predicate SameClient(a: Address, b: Address) {
    a.ip == b.ip && a.port == b.port
  }

  ghost predicate NoCrosstalk(s: State) {
    && (s.run.Unlocking? || s.run.Forwarding? ==> s.run.conn < |s.conns| && SameClient(s.conns[s.run.conn].client, s.run.from))
    && (forall i :: 0 <= i < |s.sent| ==>
          s.sent[i].conn < |s.conns| && SameClient(s.conns[s.sent[i].conn].client, s.sent[i].from))
    && (forall i :: 0 <= i < |s.replies| ==>
          s.replies[i].conn < |s.conns| && s.replies[i].to == s.conns[s.replies[i].conn].client)
  }

  ghost predicate Tidy(s: State) {
    && (forall c :: 0 <= c < |s.conns| && s.conns[c].pc == Gone ==> !s.conns[c].open)
    && (s.close.Walking? ==> forall c :: c in s.close.todo ==> 0 <= c < |s.conns|)
    && (s.listening <==> s.close == NotCalled)
    && (s.run.Forwarding? ==> s.run.left != [])
    && (forall c :: 0 <= c < |s.conns| && s.conns[c].pc.Replying? ==> s.conns[c].pc.left != [])
  }

  ghost predicate Inv(s: State, ipLen: nat) {
    && (ipLen == 4 || ipLen == 16)
    && LockHeldRight(s) && ClientsKeyed(s, ipLen) && Owned(s, ipLen) && NoCrosstalk(s) && Tidy(s)
  }

  predicate OfRun(e: Event) {
    e.Receive? || e.ReceiveFails? || e.RunLocks? || e.Hit? || e.Dial? || e.DialFails? || e.RunUnlocks? || e.Forward? || e.ForwardFails?
  }

  predicate OfClose(e: Event) {
    e.CloseListener? || e.CloserLocks? || e.CloseListed? || e.CloserUnlocks?
  }

  lemma RunKeepsLock(s: State, e: Event, ipLen: nat)
    requires Inv(s, ipLen) && Can(s, e, ipLen) && OfRun(e)
    ensures LockHeldRight(Do(s, e, ipLen)) && ClientsKeyed(Do(s, e, ipLen), ipLen)
  {
    hide NewKey;
  }

  lemma LoopKeepsLock(s: State, e: Event, ipLen: nat)
    requires Inv(s, ipLen) && Can(s, e, ipLen) && !OfRun(e) && !OfClose(e)
    ensures LockHeldRight(Do(s, e, ipLen)) && ClientsKeyed(Do(s, e, ipLen), ipLen)
  {
    hide NewKey, Owned, NoCrosstalk;
  }

  lemma CloseKeepsLock(s: State, e: Event, ipLen: nat)
    requires Inv(s, ipLen) && Can(s, e, ipLen) && OfClose(e)
    ensures LockHeldRight(Do(s, e, ipLen)) && ClientsKeyed(Do(s, e, ipLen), ipLen)
  {
    hide NewKey, Owned, NoCrosstalk;
  }

  lemma RunKeepsOwnership(s: State, e: Event, ipLen: nat)
    requires Inv(s, ipLen) && Can(s, e, ipLen) && OfRun(e) && ClientsKeyed(Do(s, e, ipLen), ipLen)
    ensures Owned(Do(s, e, ipLen), ipLen)
  {
    hide NewKey, NoCrosstalk, Tidy, LockHeldRight, LastDropped;
  }

  /** A reply loop's deferred delete removes its own entry, never a successor's, and nothing else. */
  lemma DeleteRemovesOwnEntry(s: State, c: nat, ipLen: nat)
    requires Inv(s, ipLen) && c < |s.conns| && s.conns[c].pc == Removing
    ensures Keyed(s.conns[c].client)
    ensures var k := NewKey(s.conns[c].client);
            && k in s.table && s.table[k] == c
            && Do(s, Delete(c), ipLen).table == s.table - {k}
    ensures Owned(Do(s, Delete(c), ipLen), ipLen)
  {
    hide NewKey, LockHeldRight, NoCrosstalk, Tidy;
  }

  /** Steps of the reply loops, other than the delete, and of Close leave the table and who is listed in it alone. */
  lemma OthersKeepShape(s: State, e: Event, ipLen: nat)
    requires Can(s, e, ipLen) && !OfRun(e) && !e.Delete?
    ensures var s' := Do(s, e, ipLen);
            && s'.table == s.table && |s'.conns| == |s.conns|
            && forall c :: 0 <= c < |s.conns| ==>
                 s'.conns[c].client == s.conns[c].client && Listed(s'.conns[c].pc) == Listed(s.conns[c].pc)
  {
    hide NewKey;
  }

  lemma SameShapeSameOwners(s: State, s': State, ipLen: nat)
    requires (ipLen == 4 || ipLen == 16) && ClientsKeyed(s, ipLen) && ClientsKeyed(s', ipLen) && Owned(s, ipLen)
    requires s'.table == s.table && |s'.conns| == |s.conns|
    requires forall c :: 0 <= c < |s.conns| ==>
               s'.conns[c].client == s.conns[c].client && Listed(s'.conns[c].pc) == Listed(s.conns[c].pc)
    ensures Owned(s', ipLen)
  {
    hide NewKey, Listed;
  }

  lemma OthersKeepOwnership(s: State, e: Event, ipLen: nat)
    requires Inv(s, ipLen) && Can(s, e, ipLen) && !OfRun(e) && !e.Delete? && ClientsKeyed(Do(s, e, ipLen), ipLen)
    ensures Owned(Do(s, e, ipLen), ipLen)
  {
    hide Do, Can, NewKey, Listed;
    OthersKeepShape(s, e, ipLen);
    SameShapeSameOwners(s, Do(s, e, ipLen), ipLen);
  }

  lemma RunKeepsNoCrosstalk(s: State, e: Event, ipLen: nat)
    requires Inv(s, ipLen) && Can(s, e, ipLen) && OfRun(e)
    ensures NoCrosstalk(Do(s, e, ipLen))
  {
    hide NewKey;
    if e.Hit? {
      KeyInjective(s.run.from, s.conns[s.table[NewKey(s.run.from)]].client);
    }
  }

  lemma OthersKeepNoCrosstalk(s: State, e: Event, ipLen: nat)
    requires Inv(s, ipLen) && Can(s, e, ipLen) && !OfRun(e)
    ensures NoCrosstalk(Do(s, e, ipLen))
  {
    hide NewKey, Owned, LockHeldRight, Tidy;
    var s' := Do(s, e, ipLen);
    assert |s'.conns| == |s.conns| && s'.run == s.run && s'.sent == s.sent && s.replies <= s'.replies;
    assert forall c :: 0 <= c < |s.conns| ==> s'.conns[c].client == s.conns[c].client;
  }

  lemma TidyKept(s: State, e: Event, ipLen: nat)
    requires Inv(s, ipLen) && Can(s, e, ipLen)
    ensures Tidy(Do(s, e, ipLen))
  {
    hide NewKey, NoCrosstalk, LockHeldRight;
  }

  lemma InvKept(s: State, e: Event, ipLen: nat)
    requires Inv(s, ipLen) && Can(s, e, ipLen)
    ensures Inv(Do(s, e, ipLen), ipLen)
  {
    hide Do, NewKey;
    if OfRun(e) {
      RunKeepsLock(s, e, ipLen);
      RunKeepsOwnership(s, e, ipLen);
      RunKeepsNoCrosstalk(s, e, ipLen);
    } else {
      if OfClose(e) { CloseKeepsLock(s, e, ipLen); } else { LoopKeepsLock(s, e, ipLen); }
      if e.Delete? { DeleteRemovesOwnEntry(s, e.c, ipLen); } else { OthersKeepOwnership(s, e, ipLen); }
      OthersKeepNoCrosstalk(s, e, ipLen);
    }
    TidyKept(s, e, ipLen);
  }

  lemma {:induction false} InvHolds(s: State, es: seq<Event>, ipLen: nat)
    requires Inv(s, ipLen) && Runs(s, es, ipLen)
    ensures Inv(After(s, es, ipLen), ipLen)
    decreases |es|
  {
    hide Do, Can, Inv;
    if es != [] {
      InvKept(s, es[0], ipLen);
      InvHolds(Do(s, es[0], ipLen), es[1..], ipLen);
    }
  }

  /** Ownership in every interleaving: `table[k] == c` exactly when the one reply loop of connection `c`, dialled for key
      `k`, has not yet run its deferred delete. */
  lemma TableOwnership(es: seq<Event>, ipLen: nat, k: Key, c: nat)
    requires (ipLen == 4 || ipLen == 16) && Runs(START, es, ipLen)
    ensures var s := After(START, es, ipLen);
            (k in s.table && s.table[k] == c) == (c < |s.conns| && Listed(s.conns[c].pc) && MadeFor(s.conns[c], k))
  {
    InvHolds(START, es, ipLen);
  }

  /** No crosstalk in every interleaving: each datagram was written to a connection dialled for an address with the
      sender's IP and port, and each reply went to the address its connection was dialled for. */
  lemma DatagramsStayWithTheirClient(es: seq<Event>, ipLen: nat)
    requires (ipLen == 4 || ipLen == 16) && Runs(START, es, ipLen)
    ensures var s := After(START, es, ipLen);
            && (forall i :: 0 <= i < |s.sent| ==>
                  s.sent[i].conn < |s.conns| && SameClient(s.conns[s.sent[i].conn].client, s.sent[i].from))
            && (forall i :: 0 <= i < |s.replies| ==>
                  s.replies[i].conn < |s.conns| && s.replies[i].to == s.conns[s.replies[i].conn].client)
  {
    InvHolds(START, es, ipLen);
  }

  /** The state after the first client's datagram has been forwarded. */
  function AfterFirst(a: Address, data: seq<Byte>): State
    requires Keyed(a)
  {
    State(true, Receiving, [Conn(a, true, Reading, [])], NotCalled, Nobody, map[NewKey(a) := 0], [Datagram(a, data, false)],
          [Sent(a, 0, 0, data)], [])
  }

  function AfterSecond(a: Address, b: Address): State
    requires Keyed(a)
  {
    AfterFirst(a, [0]).(datagrams := [Datagram(a, [0], false), Datagram(b, [0], false)], sent := [Sent(a, 0, 0, [0]), Sent(b, 0, 1, [0])])
  }

  lemma Ends(s: State, ipLen: nat)
    ensures Runs(s, [], ipLen) && After(s, [], ipLen) == s
  {}

  /** Once Run has a connection for a datagram, it lets go of the lock and writes the whole of it there. */
  lemma HandedOn(s: State, ipLen: nat)
    requires s.run.Unlocking? && s.run.data != [] && s.run.conn < |s.conns| && s.conns[s.run.conn].open
    ensures var es := [RunUnlocks, Forward(|s.run.data|)];
            && Runs(s, es, ipLen)
            && After(s, es, ipLen) == s.(lock := Nobody, run := Receiving,
                                         sent := s.sent + [Sent(s.run.from, s.run.conn, Current(s), s.run.data)])
  {
    hide NewKey, Runs, After;
    var data := s.run.data;
    var s1 := s.(run := Forwarding(s.run.from, s.run.conn, data), lock := Nobody);
    var s2 := s1.(run := Receiving, sent := s.sent + [Sent(s.run.from, s.run.conn, Current(s), data)]);
    assert data[..|data|] == data && data[|data|..] == [];
    var none: seq<Event> := [];
    var e0 := [Forward(|data|)] + none;
    Ends(s2, ipLen);
    Follow(s1, s2, Forward(|data|), none, ipLen);
    Follow(s, s1, RunUnlocks, e0, ipLen);
    assert [RunUnlocks, Forward(|data|)] == [RunUnlocks] + e0;
  }

  lemma FirstDatagram(a: Address, data: seq<Byte>, ipLen: nat)
    requires data != [] && |a.ip| == ipLen && (ipLen == 4 || ipLen == 16)
    ensures var es := [Receive(a, data), RunLocks, Dial, RunUnlocks, Forward(|data|)];
            Runs(START, es, ipLen) && After(START, es, ipLen) == AfterFirst(a, data)
  {
    hide NewKey, Runs, After;
    var s1 := State(true, Locking(a, data), [], NotCalled, Nobody, map[], [Datagram(a, data, false)], [], []);
    var s2 := s1.(run := Looking(a, data), lock := Runner);
    var s3 := s2.(run := Unlocking(a, data, 0), conns := [Conn(a, true, Reading, [])], table := map[NewKey(a) := 0]);
    var e2 := [RunUnlocks, Forward(|data|)];
    var e1 := [Dial] + e2;
    var e0 := [RunLocks] + e1;
    HandedOn(s3, ipLen);
    Follow(s2, s3, Dial, e2, ipLen);
    Follow(s1, s2, RunLocks, e1, ipLen);
    Follow(START, s1, Receive(a, data), e0, ipLen);
    assert [Receive(a, data), RunLocks, Dial, RunUnlocks, Forward(|data|)] == [Receive(a, data)] + e0;
  }

  lemma SecondDatagram(a: Address, b: Address, ipLen: nat)
    requires |a.ip| == |b.ip| == ipLen && (ipLen == 4 || ipLen == 16) && NewKey(a) == NewKey(b)
    ensures var es := [Receive(b, [0]), RunLocks, Hit, RunUnlocks, Forward(1)];
            && Runs(AfterFirst(a, [0]), es, ipLen)
            && After(AfterFirst(a, [0]), es, ipLen) == AfterSecond(a, b)
  {
    hide NewKey, Runs, After;
    var s0 := AfterFirst(a, [0]);
    var s1 := s0.(run := Locking(b, [0]), datagrams := [Datagram(a, [0], false), Datagram(b, [0], false)]);
    var s2 := s1.(run := Looking(b, [0]), lock := Runner);
    var s3 := s2.(run := Unlocking(b, [0], 0));
    var e2 := [RunUnlocks, Forward(1)];
    var e1 := [Hit] + e2;
    var e0 := [RunLocks] + e1;
    HandedOn(s3, ipLen);
    Follow(s2, s3, Hit, e2, ipLen);
    Follow(s1, s2, RunLocks, e1, ipLen);
    Follow(s0, s1, Receive(b, [0]), e0, ipLen);
    assert [Receive(b, [0]), RunLocks, Hit, RunUnlocks, Forward(1)] == [Receive(b, [0])] + e0;
  }

  lemma {:induction false} RunsAppend(s: State, es: seq<Event>, fs: seq<Event>, ipLen: nat)
    requires Runs(s, es, ipLen) && Runs(After(s, es, ipLen), fs, ipLen)
    ensures Runs(s, es + fs, ipLen) && After(s, es + fs, ipLen) == After(After(s, es, ipLen), fs, ipLen)
    decreases |es|
  {
    hide Do, Can;
    if es == [] {
      assert es + fs == fs;
    } else {
      RunsAppend(Do(s, es[0], ipLen), es[1..], fs, ipLen);
      assert (es + fs)[1..] == es[1..] + fs;
    }
  }

  /** A datagram of a client to the backend and an answer back to it. */
  function Exchange(a: Address, data: seq<Byte>, answer: seq<Byte>): seq<Event> {
    [Receive(a, data), RunLocks, Dial, RunUnlocks, Forward(|data|)] + [Read(0, answer), WriteReply(0, |answer|)]
  }

  /** Any exchange can go through: the whole datagram out on the client's own connection, the whole answer back to the client. */
  lemma ExchangeGoesThrough(a: Address, data: seq<Byte>, answer: seq<Byte>, ipLen: nat)
    requires data != [] && answer != [] && |a.ip| == ipLen && (ipLen == 4 || ipLen == 16)
    ensures var es := Exchange(a, data, answer);
            && Runs(START, es, ipLen)
            && After(START, es, ipLen).sent == [Sent(a, 0, 0, data)] && After(START, es, ipLen).replies == [Reply(0, a, answer)]
            && After(START, es, ipLen).conns == [Conn(a, true, Reading, answer)]
  {
    hide Runs, After, NewKey;
    FirstDatagram(a, data, ipLen);
    var s0 := AfterFirst(a, data);
    var s1 := s0.(conns := [Conn(a, true, Replying(answer), answer)]);
    var s2 := s0.(conns := [Conn(a, true, Reading, answer)], replies := [Reply(0, a, answer)]);
    var none: seq<Event> := [];
    var e1 := [WriteReply(0, |answer|)] + none;
    assert [] + answer == answer && answer[..|answer|] == answer && answer[|answer|..] == [];
    Ends(s2, ipLen);
    Follow(s1, s2, WriteReply(0, |answer|), none, ipLen);
    Follow(s0, s1, Read(0, answer), e1, ipLen);
    assert [Read(0, answer)] + e1 == [Read(0, answer), WriteReply(0, |answer|)];
    RunsAppend(START, [Receive(a, data), RunLocks, Dial, RunUnlocks, Forward(|data|)], [Read(0, answer), WriteReply(0, |answer|)], ipLen);
  }

  /** One datagram from each of two clients. */
  function TwoDatagrams(a: Address, b: Address): seq<Event> {
    [Receive(a, [0]), RunLocks, Dial, RunUnlocks, Forward(1)] + [Receive(b, [0]), RunLocks, Hit, RunUnlocks, Forward(1)]
  }

  /** Two clients that differ in the zone alone: the second one's datagram travels on the first one's connection. */
  lemma ZonesShareConnection(a: Address, b: Address, ipLen: nat)
    requires |a.ip| == ipLen && (ipLen == 4 || ipLen == 16) && SameClient(a, b)
    ensures var es := TwoDatagrams(a, b);
            && Runs(START, es, ipLen)
            && After(START, es, ipLen).sent == [Sent(a, 0, 0, [0]), Sent(b, 0, 1, [0])]
            && |After(START, es, ipLen).conns| == 1 && After(START, es, ipLen).conns[0].client == a
  {
    hide Runs, After;
    KeyInjective(a, b);
    FirstDatagram(a, [0], ipLen);
    SecondDatagram(a, b, ipLen);
    RunsAppend(START, [Receive(a, [0]), RunLocks, Dial, RunUnlocks, Forward(1)],
               [Receive(b, [0]), RunLocks, Hit, RunUnlocks, Forward(1)], ipLen);
  }

  /** Every datagram has been written to a connection dialled for exactly its sender, zone included. */
  ghost predicate ExactSenders(s: State) {
    forall i :: 0 <= i < |s.sent| ==> s.sent[i].conn < |s.conns| && s.conns[s.sent[i].conn].client == s.sent[i].from
  }

  ghost predicate ReceivesFrom(es: seq<Event>, clients: iset<Address>) {
    forall i :: 0 <= i < |es| && es[i].Receive? ==> es[i].from in clients
  }

  /** Only these clients occur in the state. */
  ghost predicate Only(s: State, clients: iset<Address>) {
    && (forall c :: 0 <= c < |s.conns| ==> s.conns[c].client in clients)
    && (s.run.Locking? || s.run.Looking? || s.run.Unlocking? || s.run.Forwarding? ==> s.run.from in clients)
    && (forall i :: 0 <= i < |s.sent| ==> s.sent[i].from in clients)
  }

  lemma OnlyKept(s: State, e: Event, clients: iset<Address>, ipLen: nat)
    requires Only(s, clients) && Can(s, e, ipLen) && (e.Receive? ==> e.from in clients)
    ensures Only(Do(s, e, ipLen), clients)
  {
    hide NewKey;
  }

  lemma {:induction false} OnlyHolds(s: State, es: seq<Event>, clients: iset<Address>, ipLen: nat)
    requires Only(s, clients) && Runs(s, es, ipLen) && ReceivesFrom(es, clients)
    ensures Only(After(s, es, ipLen), clients)
    decreases |es|
  {
    hide Do, Can, Only;
    if es != [] {
      OnlyKept(s, es[0], clients, ipLen);
      assert ReceivesFrom(es[1..], clients) by { assert forall i :: 0 <= i < |es| - 1 ==> es[1..][i] == es[i + 1]; }
      OnlyHolds(Do(s, es[0], ipLen), es[1..], clients, ipLen);
    }
  }

  /** Among these clients no two differ in the zone alone. */
  ghost predicate ToldApart(clients: iset<Address>) {
    forall a, b :: a in clients && b in clients && SameClient(a, b) ==> a == b
  }

  ghost predicate ExactIn(es: seq<Event>, clients: iset<Address>, ipLen: nat) {
    Runs(START, es, ipLen) && ReceivesFrom(es, clients) ==> ExactSenders(After(START, es, ipLen))
  }

  /** For a set of clients, every datagram of every schedule is written to a connection of exactly its sender if and only if no
      two of the clients differ in the zone alone. */
  lemma ExactSendersExactly(clients: iset<Address>, ipLen: nat)
    requires (ipLen == 4 || ipLen == 16) && forall a :: a in clients ==> |a.ip| == ipLen
    ensures (forall es :: ExactIn(es, clients, ipLen)) <==> ToldApart(clients)
  {
    hide Runs, After, Do, Can;
    if ToldApart(clients) {
      forall es ensures ExactIn(es, clients, ipLen) {
        if Runs(START, es, ipLen) && ReceivesFrom(es, clients) {
          DatagramsStayWithTheirClient(es, ipLen);
          OnlyHolds(START, es, clients, ipLen);
        }
      }
    } else {
      var a, b :| a in clients && b in clients && SameClient(a, b) && a != b;
      ZonesShareConnection(a, b, ipLen);
      var es := TwoDatagrams(a, b);
      assert ReceivesFrom(es, clients);
      var s := After(START, es, ipLen);
      assert s.sent[1].from == b && s.sent[1].conn == 0;
      assert !ExactIn(es, clients, ipLen);
    }
  }

  lemma Follow(s: State, s': State, e: Event, es: seq<Event>, ipLen: nat)
    requires Can(s, e, ipLen) && Do(s, e, ipLen) == s' && Runs(s', es, ipLen)
    ensures Runs(s, [e] + es, ipLen) && After(s, [e] + es, ipLen) == After(s', es, ipLen)
  {
    assert ([e] + es)[1..] == es;
  }

  // ---------------------------------------------------------------- leak freedom

  ghost predicate Quiescent(s: State) {
    s.run == Stopped && forall c :: 0 <= c < |s.conns| ==> s.conns[c].pc == Gone
  }

  /** When Run has exited and all reply loops have finished, nothing leaks: the table is empty and every connection ever
      dialled is closed, also one inserted after Close walked the table. */
  lemma NothingLeaks(es: seq<Event>, ipLen: nat)
    requires (ipLen == 4 || ipLen == 16) && Runs(START, es, ipLen)
    requires Quiescent(After(START, es, ipLen))
    ensures var s := After(START, es, ipLen);
            s.table == map[] && forall c :: 0 <= c < |s.conns| ==> !s.conns[c].open
  {
    InvHolds(START, es, ipLen);
    var s := After(START, es, ipLen);
    assert forall k :: k !in s.table;
  }

  /** Steps the outside world decides on: a datagram or a reply arrives, or Close is called. */
  predicate FromOutside(e: Event) {
    e.Receive? || e.Read? || e.CloseListener?
  }

  /** After Close was called no thread is ever stuck: short of quiescence some step of the program itself can happen. */
  lemma NeverStuck(s: State, ipLen: nat) returns (e: Event)
    requires Inv(s, ipLen) && s.close != NotCalled
    requires !Quiescent(s) || s.close != Walked
    ensures Can(s, e, ipLen) && !FromOutside(e)
  {
    hide NewKey, Owned, NoCrosstalk;
    if s.lock == Runner {
      e := if s.run.Looking? then (if NewKey(s.run.from) in s.table then Hit else DialFails) else RunUnlocks;
    } else if s.lock == Closer {
      if s.close.todo == {} {
        e := CloserUnlocks;
      } else {
        var c :| c in s.close.todo;
        e := CloseListed(c);
      }
    } else if s.lock.Loop? {
      e := if s.conns[s.lock.c].pc == Removing then Delete(s.lock.c) else LoopUnlocks(s.lock.c);
    } else if s.run != Stopped {
      e := if s.run.Receiving? then ReceiveFails else if s.run.Locking? then RunLocks else ForwardFails;
    } else if s.close == ListenerClosed {
      e := CloserLocks;
    } else {
      var c :| 0 <= c < |s.conns| && s.conns[c].pc != Gone;
      var pc := s.conns[c].pc;
      e := if pc.Reading? then ReadFails(c) else if pc.Replying? then ReplyFails(c)
           else if pc.Leaving? then LoopLocks(c) else CloseConn(c);
    }
  }

  function LoopRank(pc: LoopPc): nat {
    match pc
    case Gone => 0 case Closing => 1 case Removed => 2 case Removing => 3 case Leaving => 4 case Reading => 5
    case Replying(left) => 6 + |left|
  }

  function LoopsRank(conns: seq<Conn>): nat {
    if conns == [] then 0 else LoopsRank(conns[..|conns| - 1]) + LoopRank(conns[|conns| - 1].pc)
  }

  function RunRank(run: RunPc): nat {
    match run
    case Stopped => 0 case Receiving => 1 case Forwarding(_, _, left) => 2 + |left|
    case Giving => 2 case Unlocking(_, data, _) => 3 + |data|
    case Looking(_, data) => 10 + |data| case Locking(_, data) => 11 + |data|
  }

  function CloseRank(s: State): nat {
    match s.close
    case NotCalled => 5 + |s.conns| case ListenerClosed => 4 + |s.conns| case Walking(todo) => 2 + |todo| case Walked => 0
  }

  /** Work left once nothing arrives from outside. */
  function Rank(s: State): nat { LoopsRank(s.conns) + RunRank(s.run) + CloseRank(s) }

  lemma {:induction false} LoopsRankUpdate(conns: seq<Conn>, c: nat, conn: Conn)
    requires c < |conns|
    ensures LoopsRank(conns[c := conn]) == LoopsRank(conns) - LoopRank(conns[c].pc) + LoopRank(conn.pc)
  {
    var n := |conns| - 1;
    if c < n {
      LoopsRankUpdate(conns[..n], c, conn);
      assert conns[c := conn][..n] == conns[..n][c := conn];
    } else {
      assert conns[c := conn][..n] == conns[..n];
    }
  }

  lemma {:induction false} BoundedSet(xs: set<nat>, n: nat)
    requires forall x :: x in xs ==> x < n
    ensures |xs| <= n
  {
    if n > 0 {
      BoundedSet(xs - {n - 1}, n - 1);
      assert xs <= (xs - {n - 1}) + {n - 1};
      assert |xs| <= |xs - {n - 1}| + 1;
    } else {
      assert xs == {};
    }
  }

  lemma RunWindsDown(s: State, e: Event, ipLen: nat)
    requires Inv(s, ipLen) && Can(s, e, ipLen) && OfRun(e) && !FromOutside(e)
    ensures Rank(Do(s, e, ipLen)) < Rank(s)
  {
    hide NewKey, NoCrosstalk, Owned, LockHeldRight;
    if e.Dial? {
      assert Do(s, e, ipLen).conns[..|s.conns|] == s.conns;
    }
  }

  lemma LoopWindsDown(s: State, e: Event, ipLen: nat)
    requires Inv(s, ipLen) && Can(s, e, ipLen) && !OfRun(e) && !OfClose(e) && !FromOutside(e)
    ensures Rank(Do(s, e, ipLen)) < Rank(s)
  {
    hide NewKey, NoCrosstalk, Owned, LockHeldRight;
    LoopsRankUpdate(s.conns, e.c, Do(s, e, ipLen).conns[e.c]);
  }

  lemma CloseWindsDown(s: State, e: Event, ipLen: nat)
    requires Inv(s, ipLen) && Can(s, e, ipLen) && OfClose(e) && !FromOutside(e)
    ensures Rank(Do(s, e, ipLen)) < Rank(s)
  {
    hide NewKey, NoCrosstalk, LockHeldRight;
    if e.CloserLocks? {
      BoundedSet(s.table.Values, |s.conns|);
    } else if e.CloseListed? {
      LoopsRankUpdate(s.conns, e.c, Do(s, e, ipLen).conns[e.c]);
    }
  }

  /** Every step that does not come from outside leaves less to do, so after Close the proxy winds down to quiescence
      as soon as no more datagrams and replies arrive. */
  lemma WindsDown(s: State, e: Event, ipLen: nat)
    requires Inv(s, ipLen) && Can(s, e, ipLen) && !FromOutside(e)
    ensures Rank(Do(s, e, ipLen)) < Rank(s)
  {
    hide Do, Can, Inv, Rank;
    if OfRun(e) {
      RunWindsDown(s, e, ipLen);
    } else if OfClose(e) {
      CloseWindsDown(s, e, ipLen);
    } else {
      LoopWindsDown(s, e, ipLen);
    }
  }

  /** A schedule in which Close was called and that only the outside world could continue has reached quiescence: Run and every
      reply loop have ended, the table is empty and every connection is closed. */
  lemma ClosedWindsDownToNothing(es: seq<Event>, ipLen: nat)
    requires (ipLen == 4 || ipLen == 16) && Runs(START, es, ipLen)
    requires After(START, es, ipLen).close != NotCalled
    requires forall e :: Can(After(START, es, ipLen), e, ipLen) ==> FromOutside(e)
    ensures var s := After(START, es, ipLen);
            Quiescent(s) && s.close == Walked && s.table == map[] && forall c :: 0 <= c < |s.conns| ==> !s.conns[c].open
  {
    InvAtStart(ipLen);
    hide Can, Do, Inv;
    InvHolds(START, es, ipLen);
    var s := After(START, es, ipLen);
    if !Quiescent(s) || s.close != Walked {
      var e := NeverStuck(s, ipLen);
      assert false;
    }
    NothingLeaks(es, ipLen);
  }

  lemma InvAtStart(ipLen: nat)
    requires ipLen == 4 || ipLen == 16
    ensures Inv(START, ipLen)
  {}

  /** From any state that is reached, as many steps as its rank bring the proxy, left alone, to such an end. */
  lemma {:induction false} ComesToRest(s: State, ipLen: nat) returns (es: seq<Event>)
    requires Inv(s, ipLen) && s.close != NotCalled
    ensures Runs(s, es, ipLen) && |es| <= Rank(s) && forall i :: 0 <= i < |es| ==> !FromOutside(es[i])
    ensures Quiescent(After(s, es, ipLen)) && After(s, es, ipLen).close == Walked
    decreases Rank(s)
  {
    hide Can, Do, Inv, Rank;
    es := [];
    if !Quiescent(s) || s.close != Walked {
      var e := NeverStuck(s, ipLen);
      WindsDown(s, e, ipLen);
      InvKept(s, e, ipLen);
      StaysCalled(s, e, ipLen);
      var rest := ComesToRest(Do(s, e, ipLen), ipLen);
      Follow(s, Do(s, e, ipLen), e, rest, ipLen);
      es := [e] + rest;
    }
  }

  /** Whatever has happened, calling Close and leaving the proxy alone can bring it to rest, with nothing left over. */
  lemma CloseBringsToRest(before: seq<Event>, ipLen: nat) returns (es: seq<Event>)
    requires (ipLen == 4 || ipLen == 16) && Runs(START, before, ipLen) && After(START, before, ipLen).close == NotCalled
    ensures Runs(START, before + ([CloseListener] + es), ipLen) && forall i :: 0 <= i < |es| ==> !FromOutside(es[i])
    ensures var s := After(START, before + ([CloseListener] + es), ipLen);
            Quiescent(s) && s.table == map[] && (forall c :: 0 <= c < |s.conns| ==> !s.conns[c].open) && !s.listening
  {
    hide NewKey, Runs, After;
    InvAtStart(ipLen);
    InvHolds(START, before, ipLen);
    var s := After(START, before, ipLen);
    InvKept(s, CloseListener, ipLen);
    es := ComesToRest(Do(s, CloseListener, ipLen), ipLen);
    Follow(s, Do(s, CloseListener, ipLen), CloseListener, es, ipLen);
    RunsAppend(START, before, [CloseListener] + es, ipLen);
    NothingLeaks(before + ([CloseListener] + es), ipLen);
    InvHolds(START, before + ([CloseListener] + es), ipLen);
  }

  lemma StaysCalled(s: State, e: Event, ipLen: nat)
    requires Can(s, e, ipLen) && s.close != NotCalled
    ensures Do(s, e, ipLen).close != NotCalled
  {
    hide NewKey;
  }

  /** Left alone, no schedule of the proxy is longer than the rank of the state it starts from. */
  lemma {:induction false} SchedulesAreBounded(s: State, es: seq<Event>, ipLen: nat)
    requires Inv(s, ipLen) && Runs(s, es, ipLen) && forall i :: 0 <= i < |es| ==> !FromOutside(es[i])
    ensures |es| <= Rank(s)
    decreases |es|
  {
    hide Can, Do, Inv, Rank;
    if es != [] {
      WindsDown(s, es[0], ipLen);
      InvKept(s, es[0], ipLen);
      SchedulesAreBounded(Do(s, es[0], ipLen), es[1..], ipLen);
    }
  }

  // ---------------------------------------------------------------- payload

  /** All bytes written to the client of connection `c`. */
  function BytesTo(replies: seq<Reply>, c: nat): seq<Byte> {
    if replies == [] then []
    else
      var last := replies[|replies| - 1];
      BytesTo(replies[..|replies| - 1], c) + if last.conn == c then last.bytes else []
  }

  /** All bytes of datagram `i` that were written to a connection. */
  function BytesOf(sent: seq<Sent>, i: nat): seq<Byte> {
    if sent == [] then []
    else
      var last := sent[|sent| - 1];
      BytesOf(sent[..|sent| - 1], i) + if last.datagram == i then last.bytes else []
  }

  lemma BytesToNext(replies: seq<Reply>, r: Reply, c: nat)
    ensures BytesTo(replies + [r], c) == BytesTo(replies, c) + if r.conn == c then r.bytes else []
  {
    assert (replies + [r])[..|replies|] == replies;
  }

  lemma BytesOfNext(sent: seq<Sent>, x: Sent, i: nat)
    ensures BytesOf(sent + [x], i) == BytesOf(sent, i) + if x.datagram == i then x.bytes else []
  {
    assert (sent + [x])[..|sent|] == sent;
  }

  lemma {:induction false} NoBytesTo(replies: seq<Reply>, c: nat)
    requires forall i :: 0 <= i < |replies| ==> replies[i].conn != c
    ensures BytesTo(replies, c) == []
  {
    if replies != [] { NoBytesTo(replies[..|replies| - 1], c); }
  }

  lemma {:induction false} NoBytesOf(sent: seq<Sent>, d: nat)
    requires forall i :: 0 <= i < |sent| ==> sent[i].datagram != d
    ensures BytesOf(sent, d) == []
  {
    if sent != [] { NoBytesOf(sent[..|sent| - 1], d); }
  }

  /** What a reply loop has passed on, against what it has read: all of it when it reads again, all but the rest while it writes. */
  predicate PassedOn(conn: Conn, written: seq<Byte>) {
    match conn.pc
    case Reading => written == conn.read
    case Replying(left) => written + left == conn.read
    case _ => written <= conn.read
  }

  ghost predicate RepliesRight(s: State) {
    && (forall c :: 0 <= c < |s.conns| ==> PassedOn(s.conns[c], BytesTo(s.replies, c)))
    && (forall i :: 0 <= i < |s.replies| ==> s.replies[i].conn < |s.conns|)
  }

  predicate Busy(run: RunPc) { run != Receiving && run != Stopped }

  /** What Run has forwarded of the datagram it is dealing with. */
  predicate UnderWay(run: RunPc, d: Datagram, written: seq<Byte>) {
    match run
    case Locking(from, data) => d.from == from && d.data == data && written == []
    case Looking(from, data) => d.from == from && d.data == data && written == []
    case Unlocking(from, data, _) => d.from == from && d.data == data && written == []
    case Giving => d.dropped && written == []
    case Forwarding(from, _, left) => d.from == from && written + left == d.data
    case _ => !d.dropped ==> written == d.data
  }

  ghost predicate DatagramsRight(s: State) {
    && (forall i :: 0 <= i < |s.sent| ==> s.sent[i].datagram < |s.datagrams| && s.sent[i].from == s.datagrams[s.sent[i].datagram].from)
    && (forall i :: 0 <= i < |s.datagrams| ==> BytesOf(s.sent, i) <= s.datagrams[i].data)
    && (forall i :: 0 <= i < |s.datagrams| - 1 && !s.datagrams[i].dropped ==> BytesOf(s.sent, i) == s.datagrams[i].data)
    && (Busy(s.run) ==> s.datagrams != [])
    && (s.datagrams != [] ==> UnderWay(s.run, s.datagrams[Current(s)], BytesOf(s.sent, Current(s))))
  }

  lemma LoopsKeepReplies(s: State, e: Event, ipLen: nat)
    requires RepliesRight(s) && Can(s, e, ipLen) && !OfRun(e)
    ensures RepliesRight(Do(s, e, ipLen))
  {
    hide NewKey, BytesTo;
    var s' := Do(s, e, ipLen);
    assert |s'.conns| == |s.conns|;
    if e.WriteReply? {
      var left := s.conns[e.c].pc.left;
      assert left == left[..e.n] + left[e.n..];
      forall c | 0 <= c < |s.conns| ensures PassedOn(s'.conns[c], BytesTo(s'.replies, c)) {
        BytesToNext(s.replies, Reply(e.c, s.conns[e.c].client, left[..e.n]), c);
      }
    }
  }

  lemma RunKeepsReplies(s: State, e: Event, ipLen: nat)
    requires RepliesRight(s) && Can(s, e, ipLen) && OfRun(e)
    ensures RepliesRight(Do(s, e, ipLen))
  {
    hide NewKey, BytesTo;
    NoBytesTo(s.replies, |s.conns|);
  }

  lemma OthersKeepDatagrams(s: State, e: Event, ipLen: nat)
    requires DatagramsRight(s) && Can(s, e, ipLen) && !OfRun(e)
    ensures DatagramsRight(Do(s, e, ipLen))
  {
    hide NewKey, BytesOf, DatagramsRight;
    var s' := Do(s, e, ipLen);
    assert s'.run == s.run && s'.sent == s.sent && s'.datagrams == s.datagrams;
    SameDatagrams(s, s');
  }

  lemma SameDatagrams(s: State, s': State)
    requires DatagramsRight(s) && s'.run == s.run && s'.sent == s.sent && s'.datagrams == s.datagrams
    ensures DatagramsRight(s')
  {}

  lemma RunKeepsDatagrams(s: State, e: Event, ipLen: nat)
    requires DatagramsRight(s) && Can(s, e, ipLen) && OfRun(e) && !e.Forward?
    ensures DatagramsRight(Do(s, e, ipLen))
  {
    hide NewKey, BytesOf;
    if e.Receive? {
      ReceiveKeepsDatagrams(s, e, ipLen);
    } else if e.DialFails? || e.ForwardFails? {
      GivingUpKeepsDatagrams(s, e, ipLen);
    } else {
      assert Do(s, e, ipLen).datagrams == s.datagrams && Do(s, e, ipLen).sent == s.sent;
    }
  }

  lemma ReceiveKeepsDatagrams(s: State, e: Event, ipLen: nat)
    requires DatagramsRight(s) && Can(s, e, ipLen) && e.Receive?
    ensures DatagramsRight(Do(s, e, ipLen))
  {
    hide NewKey, BytesOf;
    NoBytesOf(s.sent, |s.datagrams|);
  }

  lemma GivingUpKeepsDatagrams(s: State, e: Event, ipLen: nat)
    requires DatagramsRight(s) && Can(s, e, ipLen) && (e.DialFails? || e.ForwardFails?)
    ensures DatagramsRight(Do(s, e, ipLen))
  {
    hide NewKey, BytesOf;
  }

  lemma ForwardKeepsDatagrams(s: State, e: Event, ipLen: nat)
    requires DatagramsRight(s) && Can(s, e, ipLen) && e.Forward?
    ensures DatagramsRight(Do(s, e, ipLen))
  {
    hide NewKey, DatagramsRight;
    var part, rest := s.run.left[..e.n], s.run.left[e.n..];
    assert s.run.left == part + rest;
    WritingKeepsDatagrams(s, Sent(s.run.from, s.run.conn, Current(s), part), rest);
  }

  lemma WritingKeepsDatagrams(s: State, x: Sent, rest: seq<Byte>)
    requires DatagramsRight(s) && s.run == Forwarding(x.from, x.conn, x.bytes + rest) && x.datagram == Current(s)
    ensures DatagramsRight(s.(sent := s.sent + [x], run := AfterForward(x.from, x.conn, rest)))
  {
    hide BytesOf;
    forall i | 0 <= i < |s.datagrams|
      ensures BytesOf(s.sent + [x], i) == BytesOf(s.sent, i) + if i == Current(s) then x.bytes else []
    {
      BytesOfNext(s.sent, x, i);
    }
    assert BytesOf(s.sent, Current(s)) + (x.bytes + rest) == BytesOf(s.sent, Current(s)) + x.bytes + rest;
  }

  lemma {:induction false} PayloadHolds(s: State, es: seq<Event>, ipLen: nat)
    requires RepliesRight(s) && DatagramsRight(s) && Runs(s, es, ipLen)
    ensures RepliesRight(After(s, es, ipLen)) && DatagramsRight(After(s, es, ipLen))
    decreases |es|
  {
    hide Do, Can, RepliesRight, DatagramsRight;
    if es != [] {
      var e := es[0];
      if OfRun(e) {
        RunKeepsReplies(s, e, ipLen);
        if e.Forward? { ForwardKeepsDatagrams(s, e, ipLen); } else { RunKeepsDatagrams(s, e, ipLen); }
      } else {
        LoopsKeepReplies(s, e, ipLen);
        OthersKeepDatagrams(s, e, ipLen);
      }
      PayloadHolds(Do(s, e, ipLen), es[1..], ipLen);
    }
  }

  // What the schedule itself says was read and received.

  function ReadBy(es: seq<Event>, c: nat): seq<Byte> {
    if es == [] then []
    else (if es[0].Read? && es[0].c == c then es[0].data else []) + ReadBy(es[1..], c)
  }

  function ReceivedIn(es: seq<Event>): seq<(Address, seq<Byte>)> {
    if es == [] then []
    else (if es[0].Receive? then [(es[0].from, es[0].data)] else []) + ReceivedIn(es[1..])
  }

  function ReadOn(s: State, c: nat): seq<Byte> {
    if c < |s.conns| then s.conns[c].read else []
  }

  function Contents(ds: seq<Datagram>): seq<(Address, seq<Byte>)> {
    if ds == [] then [] else Contents(ds[..|ds| - 1]) + [(ds[|ds| - 1].from, ds[|ds| - 1].data)]
  }

  lemma {:induction false} ContentsAt(ds: seq<Datagram>)
    ensures |Contents(ds)| == |ds| && forall i :: 0 <= i < |ds| ==> Contents(ds)[i] == (ds[i].from, ds[i].data)
  {
    if ds != [] { ContentsAt(ds[..|ds| - 1]); }
  }

  lemma StepRecords(s: State, e: Event, c: nat, ipLen: nat)
    requires Can(s, e, ipLen)
    ensures ReadOn(Do(s, e, ipLen), c) == ReadOn(s, c) + if e.Read? && e.c == c then e.data else []
  {
    hide NewKey, LastDropped, AfterForward;
  }

  lemma StepRecordsDatagrams(s: State, e: Event, ipLen: nat)
    requires Can(s, e, ipLen)
    ensures Contents(Do(s, e, ipLen).datagrams) == Contents(s.datagrams) + if e.Receive? then [(e.from, e.data)] else []
  {
    hide NewKey, Contents, AfterForward, AfterReply;
    if e.Receive? {
      NextContents(s.datagrams, Datagram(e.from, e.data, false));
    } else {
      SameContents(s.datagrams);
    }
  }

  lemma NextContents(ds: seq<Datagram>, d: Datagram)
    ensures Contents(ds + [d]) == Contents(ds) + [(d.from, d.data)]
  {
    assert (ds + [d])[..|ds|] == ds;
  }

  lemma SameContents(ds: seq<Datagram>)
    ensures Contents(LastDropped(ds)) == Contents(ds)
  {
    if ds != [] { assert LastDropped(ds)[..|ds| - 1] == ds[..|ds| - 1]; }
  }

  lemma {:induction false} HistoryRecorded(s: State, es: seq<Event>, c: nat, ipLen: nat)
    requires Runs(s, es, ipLen)
    ensures ReadOn(After(s, es, ipLen), c) == ReadOn(s, c) + ReadBy(es, c)
    ensures Contents(After(s, es, ipLen).datagrams) == Contents(s.datagrams) + ReceivedIn(es)
    decreases |es|
  {
    hide Do, Can, Contents, ReadOn;
    if es != [] {
      StepRecords(s, es[0], c, ipLen);
      StepRecordsDatagrams(s, es[0], ipLen);
      HistoryRecorded(Do(s, es[0], ipLen), es[1..], c, ipLen);
    }
  }

  /** In every schedule: what was written to a connection's client is the start of what the schedule has read from that connection,
      all of it whenever the reply loop is back at reading, and every write went to the address it was dialled for. */
  lemma RepliesArePassedOn(es: seq<Event>, ipLen: nat, c: nat)
    requires (ipLen == 4 || ipLen == 16) && Runs(START, es, ipLen) && c < |After(START, es, ipLen).conns|
    ensures var s := After(START, es, ipLen);
            && BytesTo(s.replies, c) <= ReadBy(es, c)
            && (s.conns[c].pc == Reading ==> BytesTo(s.replies, c) == ReadBy(es, c))
            && forall i :: 0 <= i < |s.replies| && s.replies[i].conn == c ==> s.replies[i].to == s.conns[c].client
  {
    hide Runs, After, Do, Can, NewKey, ReadBy;
    DatagramsStayWithTheirClient(es, ipLen);
    PayloadHolds(START, es, ipLen);
    HistoryRecorded(START, es, c, ipLen);
    hide BytesTo;
  }

  lemma AtStart()
    ensures RepliesRight(START)
  {}

  /** In every schedule: the datagrams are those the schedule has received; what was forwarded of each is the start of it, all of it
      once Run is done with it and it was not given up. */
  lemma DatagramsArePassedOn(es: seq<Event>, ipLen: nat, i: nat)
    requires Runs(START, es, ipLen) && i < |ReceivedIn(es)|
    ensures var s := After(START, es, ipLen);
            && |s.datagrams| == |ReceivedIn(es)| && (s.datagrams[i].from, s.datagrams[i].data) == ReceivedIn(es)[i]
            && BytesOf(s.sent, i) <= ReceivedIn(es)[i].1
            && ((i < |s.datagrams| - 1 || !Busy(s.run)) && !s.datagrams[i].dropped ==> BytesOf(s.sent, i) == ReceivedIn(es)[i].1)
            && forall j :: 0 <= j < |s.sent| && s.sent[j].datagram == i ==> s.sent[j].from == ReceivedIn(es)[i].0
  {
    hide Runs, After, Do, Can, NewKey, ReadBy, ReceivedIn, RepliesRight;
    assert RepliesRight(START) by { AtStart(); }
    PayloadHolds(START, es, ipLen);
    HistoryRecorded(START, es, 0, ipLen);
    hide BytesOf, Contents;
    ContentsAt(After(START, es, ipLen).datagrams);
  }

  /** Only a failing dial or a failing write gives a datagram up. */
  lemma {:induction false} NothingGivenUp(s: State, es: seq<Event>, ipLen: nat)
    requires Runs(s, es, ipLen) && forall i :: 0 <= i < |es| ==> !es[i].DialFails? && !es[i].ForwardFails?
    requires forall i :: 0 <= i < |s.datagrams| ==> !s.datagrams[i].dropped
    ensures forall i :: 0 <= i < |After(s, es, ipLen).datagrams| ==> !After(s, es, ipLen).datagrams[i].dropped
    decreases |es|
  {
    hide Do, Can;
    if es != [] {
      KeepsUndropped(s, es[0], ipLen);
      NothingGivenUp(Do(s, es[0], ipLen), es[1..], ipLen);
    }
  }

  lemma KeepsUndropped(s: State, e: Event, ipLen: nat)
    requires Can(s, e, ipLen) && !e.DialFails? && !e.ForwardFails?
    requires forall i :: 0 <= i < |s.datagrams| ==> !s.datagrams[i].dropped
    ensures forall i :: 0 <= i < |Do(s, e, ipLen).datagrams| ==> !Do(s, e, ipLen).datagrams[i].dropped
  {
    hide NewKey;
  }

  /** Once Close has walked the table, every connection that was listed when it took the lock is closed. */
  lemma {:induction false} CloseClosesListed(s: State, es: seq<Event>, ipLen: nat, c: nat)
    requires Runs(s, es, ipLen) && c < |s.conns|
    requires if s.close.Walking? then c in s.close.todo || !s.conns[c].open else s.close == Walked && !s.conns[c].open
    ensures var s' := After(s, es, ipLen);
            c < |s'.conns| && if s'.close.Walking? then c in s'.close.todo || !s'.conns[c].open else s'.close == Walked && !s'.conns[c].open
    decreases |es|
  {
    hide Do, Can;
    if es != [] {
      WalkGoesOn(s, es[0], ipLen, c);
      CloseClosesListed(Do(s, es[0], ipLen), es[1..], ipLen, c);
    }
  }

  lemma WalkGoesOn(s: State, e: Event, ipLen: nat, c: nat)
    requires Can(s, e, ipLen) && c < |s.conns|
    requires if s.close.Walking? then c in s.close.todo || !s.conns[c].open else s.close == Walked && !s.conns[c].open
    ensures var s' := Do(s, e, ipLen);
            c < |s'.conns| && if s'.close.Walking? then c in s'.close.todo || !s'.conns[c].open else s'.close == Walked && !s'.conns[c].open
  {
    hide NewKey;
  }

  /** From the moment Close has the lock: when it is through with the table, all that was listed then is closed. */
  lemma CloseReachesListed(s: State, es: seq<Event>, ipLen: nat, k: Key)
    requires Inv(s, ipLen) && Can(s, CloserLocks, ipLen) && k in s.table
    requires Runs(Do(s, CloserLocks, ipLen), es, ipLen) && After(Do(s, CloserLocks, ipLen), es, ipLen).close == Walked
    ensures var s' := After(Do(s, CloserLocks, ipLen), es, ipLen);
            s.table[k] < |s'.conns| && !s'.conns[s.table[k]].open && !s'.listening
  {
    hide Runs, After;
    assert s.table[k] in s.table.Values;
    CloseClosesListed(Do(s, CloserLocks, ipLen), es, ipLen, s.table[k]);
    InvKept(s, CloserLocks, ipLen);
    InvHolds(Do(s, CloserLocks, ipLen), es, ipLen);
  }
}
