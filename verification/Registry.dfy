/**
 * The list of device servers: a linked list to which devices are added under the serial number
 * they report, each with a port of its own, and from which servers remove themselves.
 */
module Registry {
  import opened Permutations

  type Serial = s: string | |s| <= 32 && '\0' !in s witness ""

  const INITIAL_SN: Serial := "sn_init"
  const BASE_PORT := 8070
  const MAX_SERVERS := 10
  const PORT_TRIES := 100

  datatype Entry = Entry(serial: Serial, port: nat)

  /** The entries in list order and the port last given out. */
  datatype State = State(entries: seq<Entry>, curCon: nat)

  /** The comparison with the initial serial number looks at its own length only. */
  predicate IsInitial(s: Serial) {
    INITIAL_SN <= s
  }

  function Serials(es: seq<Entry>): seq<Serial> {
    seq(|es|, i requires 0 <= i < |es| => es[i].serial)
  }

  function Ports(es: seq<Entry>): seq<int> {
    seq(|es|, i requires 0 <= i < |es| => es[i].port)
  }

  // ---- The two operations on entries ----

  /** The first port from p on that no entry has, if there is one in so many tries. */
  function FirstUnused(es: seq<Entry>, p: nat, tries: nat): nat
    decreases tries
  {
    if tries == 0 || p !in Ports(es) then p else FirstUnused(es, p + 1, tries - 1)
  }

  /** An attempt to add a device; creating the server may fail. */
  function Added(s: State, sn: Serial, created: bool): (State, int) {
    var es := s.entries;
    if es == [] then
      if created then (State([Entry(sn, BASE_PORT)], BASE_PORT), 0) else (s, -1)
    else if sn in Serials(es) then (s, -1)
    else if |es| == 1 && IsInitial(es[0].serial) then (s.(entries := [es[0].(serial := sn)]), 0)
    else if MAX_SERVERS > |es| then
      var port := FirstUnused(es, BASE_PORT, PORT_TRIES);
      if created then (State(es + [Entry(sn, port)], port), 0) else (s.(curCon := port), -1)
    else (s, -1)
  }

  /** Removal of the entry at place k, as written: behind the head, everything up to k goes with it. */
  function Removed(es: seq<Entry>, k: nat): seq<Entry> {
    if k >= |es| then es
    else if k == 0 then es[1..]
    else [es[0]] + es[k + 1..]
  }

  // ---- Ports ----

  function CountFrom(es: seq<Entry>, p: nat): nat {
    if es == [] then 0 else CountFrom(es[..|es| - 1], p) + if es[|es| - 1].port >= p then 1 else 0
  }

  lemma {:induction false} CountDrops(es: seq<Entry>, p: nat)
    ensures CountFrom(es, p + 1) <= CountFrom(es, p) <= |es|
    ensures p in Ports(es) ==> CountFrom(es, p + 1) < CountFrom(es, p)
  {
    if es != [] {
      var front := es[..|es| - 1];
      CountDrops(front, p);
      if p in Ports(es) && es[|es| - 1].port != p {
        var i :| 0 <= i < |es| && Ports(es)[i] == p;
        assert Ports(front)[i] == p;
      }
    }
  }

  /** With more tries than servers at or above the start there is a free port, and it is found. */
  lemma {:induction false} UnusedIsFound(es: seq<Entry>, p: nat, tries: nat)
    requires CountFrom(es, p) < tries
    ensures FirstUnused(es, p, tries) !in Ports(es)
    ensures p <= FirstUnused(es, p, tries) <= p + CountFrom(es, p)
    decreases tries
  {
    CountDrops(es, p);
    if p in Ports(es) {
      UnusedIsFound(es, p + 1, tries - 1);
    }
  }

  /** The search from port 8070 on fails for no list of fewer than a hundred servers. */
  lemma PortForEveryList(es: seq<Entry>)
    requires |es| < 100
    ensures var port := FirstUnused(es, BASE_PORT, PORT_TRIES);
            8070 <= port <= 8070 + |es| && forall i :: 0 <= i < |es| ==> es[i].port != port
  {
    CountDrops(es, BASE_PORT);
    UnusedIsFound(es, BASE_PORT, PORT_TRIES);
    assert forall i :: 0 <= i < |es| ==> es[i].port == Ports(es)[i];
  }

  // ---- Every run of one registration ----

  datatype Op = Add(sn: Serial, created: bool) | Remove(k: nat)

  function Apply(s: State, op: Op): State {
    match op
    case Add(sn, created) => Added(s, sn, created).0
    case Remove(k) => s.(entries := Removed(s.entries, k))
  }

  function Run(s: State, ops: seq<Op>): State
    decreases |ops|
  {
    if ops == [] then s else Run(Apply(s, ops[0]), ops[1..])
  }

  /** The registration itself adds a server under the initial serial number. */
  function Registered(created: bool): State {
    Added(State([], 0), INITIAL_SN, created).0
  }

  predicate DeviceOp(op: Op) {
    op.Add? ==> !IsInitial(op.sn)
  }

  /**
   * Few entries, all different in serial number and in port; a server that still waits under
   * the initial number is alone, and its port is the one given out last.
   */
  ghost predicate Ok(s: State) {
    && |s.entries| <= MAX_SERVERS
    && Distinct(Serials(s.entries)) && Distinct(Ports(s.entries))
    && (forall i :: 0 <= i < |s.entries| ==> BASE_PORT <= s.entries[i].port < BASE_PORT + MAX_SERVERS)
    && (forall i :: 0 <= i < |s.entries| && IsInitial(s.entries[i].serial) ==>
        |s.entries| == 1 && s.curCon == s.entries[i].port)
  }

  lemma DistinctSnoc<T>(s: seq<T>, x: T)
    requires Distinct(s) && x !in s
    ensures Distinct(s + [x])
  {
  }

  lemma AddKeepsOk(s: State, sn: Serial, created: bool)
    requires Ok(s) && !IsInitial(sn)
    ensures Ok(Added(s, sn, created).0)
  {
    var es, t := s.entries, Added(s, sn, created).0;
    if es != [] && sn !in Serials(es) && !(|es| == 1 && IsInitial(es[0].serial)) && MAX_SERVERS > |es| {
      CountDrops(es, BASE_PORT);
      UnusedIsFound(es, BASE_PORT, PORT_TRIES);
      var port := FirstUnused(es, BASE_PORT, PORT_TRIES);
      DistinctSnoc(Serials(es), sn);
      DistinctSnoc(Ports(es), port);
      assert Serials(es + [Entry(sn, port)]) == Serials(es) + [sn];
      assert Ports(es + [Entry(sn, port)]) == Ports(es) + [port];
    }
  }

  /** The place a remaining entry had before the removal at place k. */
  function Source(k: nat, i: nat): nat {
    if k > 0 && i == 0 then 0 else i + if k == 0 then 1 else k
  }

  lemma RemovedFrom(es: seq<Entry>, k: nat)
    requires k < |es|
    ensures forall i :: 0 <= i < |Removed(es, k)| ==> Source(k, i) < |es| && Removed(es, k)[i] == es[Source(k, i)]
    ensures |Removed(es, k)| < |es|
  {
  }

  lemma SelectionDistinct<T>(s: seq<T>, t: seq<T>, k: nat)
    requires Distinct(s) && forall i :: 0 <= i < |t| ==> Source(k, i) < |s| && t[i] == s[Source(k, i)]
    ensures Distinct(t)
  {
    forall i, j | 0 <= i < j < |t|
      ensures t[i] != t[j]
    {
      assert Source(k, i) < Source(k, j);
    }
  }

  lemma RemoveKeepsOk(s: State, k: nat)
    requires Ok(s)
    ensures Ok(s.(entries := Removed(s.entries, k)))
  {
    hide Source;
    var es, t := s.entries, Removed(s.entries, k);
    if k < |es| {
      hide Removed;
      RemovedFrom(es, k);
      SelectionDistinct(Serials(es), Serials(t), k);
      SelectionDistinct(Ports(es), Ports(t), k);
    }
  }

  /** Over every run: at most ten servers, no two with the same serial number or the same port. */
  lemma {:induction false} RunKeepsOk(s: State, ops: seq<Op>)
    requires Ok(s) && forall i :: 0 <= i < |ops| ==> DeviceOp(ops[i])
    ensures Ok(Run(s, ops))
    decreases |ops|
  {
    hide Ok, Removed, Added;
    if ops != [] {
      assert DeviceOp(ops[0]);
      match ops[0] {
        case Add(sn, created) => AddKeepsOk(s, sn, created);
        case Remove(k) => RemoveKeepsOk(s, k);
      }
      RunKeepsOk(Apply(s, ops[0]), ops[1..]);
    }
  }

  lemma RegistrationOk(created: bool)
    ensures Ok(Registered(created))
  {
  }

  /** The first server: it waits under the initial serial number, which a device may lengthen, at port 8070. */
  lemma FirstServer(created: bool, sn: Serial)
    ensures Registered(created).entries == if created then [Entry("sn_init", 8070)] else []
    ensures IsInitial(sn) <==> |sn| >= 7 && sn[..7] == "sn_init"
  {
    assert IsInitial(sn) ==> sn[..7] == INITIAL_SN;
  }

  /** Over every run: at most ten servers with ports from 8070 to 8079, and a device is refused exactly if its serial
      number is listed already, or if it needs a new server and there are ten or none can be created. */
  lemma RoomForTen(registered: bool, ops: seq<Op>, sn: Serial, created: bool)
    requires !IsInitial(sn) && forall i :: 0 <= i < |ops| ==> DeviceOp(ops[i])
    ensures var s := Run(Registered(registered), ops);
            && |s.entries| <= 10
            && (forall i :: 0 <= i < |s.entries| ==> 8070 <= s.entries[i].port <= 8079)
            && (forall i, j :: 0 <= i < j < |s.entries| ==>
                  s.entries[i].serial != s.entries[j].serial && s.entries[i].port != s.entries[j].port)
            && (Added(s, sn, created).1 == 0 <==>
                  && (forall i :: 0 <= i < |s.entries| ==> s.entries[i].serial != sn)
                  && (TakesOver(s, sn) || (created && |s.entries| < 10)))
  {
    hide Added, Registered;
    RegistrationOk(registered);
    RunKeepsOk(Registered(registered), ops);
    var s := Run(Registered(registered), ops);
    forall i, j | 0 <= i < j < |s.entries|
      ensures s.entries[i].serial != s.entries[j].serial && s.entries[i].port != s.entries[j].port
    {
      assert Serials(s.entries)[i] != Serials(s.entries)[j] && Ports(s.entries)[i] != Ports(s.entries)[j];
    }
    RefusedExactly(s, sn, created);
  }

  lemma RefusedExactly(s: State, sn: Serial, created: bool)
    ensures Added(s, sn, created).1 == 0 <==>
            && (forall i :: 0 <= i < |s.entries| ==> s.entries[i].serial != sn)
            && (TakesOver(s, sn) || (created && |s.entries| < 10))
  {
    assert forall i :: 0 <= i < |s.entries| ==> s.entries[i].serial == Serials(s.entries)[i];
  }

  // ---- The port a device is told ----

  /** The device's entry has the port that is about to be sent to it. */
  ghost predicate Answered(s: State, sn: Serial) {
    exists i :: 0 <= i < |s.entries| && s.entries[i] == Entry(sn, s.curCon)
  }

  /** Whether the device would take over the waiting server. */
  predicate TakesOver(s: State, sn: Serial) {
    |s.entries| == 1 && s.entries[0].serial != sn && IsInitial(s.entries[0].serial)
  }

  /** A device is told its own port unless it takes over a waiting server whose port was not the last one given out. */
  lemma AnswerIsRight(s: State, sn: Serial, created: bool)
    requires Added(s, sn, created).1 == 0
    ensures Answered(Added(s, sn, created).0, sn) <==> (TakesOver(s, sn) ==> s.curCon == s.entries[0].port)
  {
    var es, t := s.entries, Added(s, sn, created).0;
    if TakesOver(s, sn) {
      assert t.entries == [Entry(sn, es[0].port)];
      if s.curCon == es[0].port {
        assert t.entries[0] == Entry(sn, t.curCon);
      }
    } else {
      if |es| == 1 {
        assert es[0].serial == Serials(es)[0];
      }
      assert t.entries[|t.entries| - 1] == Entry(sn, t.curCon);
    }
  }

  /** Over every run of one registration, whenever a device is added it is told its own port. */
  lemma DeviceIsToldItsPort(registered: bool, ops: seq<Op>, sn: Serial, created: bool)
    requires forall i :: 0 <= i < |ops| ==> DeviceOp(ops[i])
    requires Added(Run(Registered(registered), ops), sn, created).1 == 0
    ensures Answered(Added(Run(Registered(registered), ops), sn, created).0, sn)
  {
    hide Added, FirstUnused;
    RegistrationOk(registered);
    RunKeepsOk(Registered(registered), ops);
    AnswerIsRight(Run(Registered(registered), ops), sn, created);
  }

  lemma SecondRegistrationSteps(a: Serial, b: Serial, s1: State, s2: State, s3: State, s5: State)
    requires a == "A" && b == "B"
    requires s1 == State([Entry(a, 8070)], 8070)
    requires s2 == State([Entry(a, 8070), Entry(INITIAL_SN, 8071)], 8071)
    requires s3 == State([Entry(a, 8070), Entry(INITIAL_SN, 8071), Entry(b, 8072)], 8072)
    requires s5 == State([Entry(INITIAL_SN, 8071)], 8072)
    ensures Apply(Registered(true), Add(a, true)) == s1
    ensures Apply(s1, Add(INITIAL_SN, true)) == s2
    ensures Apply(s2, Add(b, true)) == s3
    ensures Run(s3, [Remove(0), Remove(1)]) == s5
  {
    assert Ports(s1.entries) == [8070] && Serials(s1.entries) == [a];
    assert FirstUnused(s1.entries, 8071, 99) == 8071;
    assert Ports(s2.entries) == [8070, 8071] && Serials(s2.entries) == [a, INITIAL_SN];
    assert Ports(s2.entries)[0] == 8070 && Ports(s2.entries)[1] == 8071;
    assert FirstUnused(s2.entries, 8072, 98) == 8072;
    assert FirstUnused(s2.entries, 8071, 99) == 8072;
  }

  /** A second registration breaks this: the device that takes over its server is told another one's port. */
  lemma SecondRegistration()
    ensures exists ops, sn ::
              && Added(Run(Registered(true), ops), sn, true).1 == 0
              && !Answered(Added(Run(Registered(true), ops), sn, true).0, sn)
  {
    var a, b, c: Serial := "A", "B", "C";
    var ops := [Add(a, true), Add(INITIAL_SN, true), Add(b, true), Remove(0), Remove(1)];
    var s1 := State([Entry(a, 8070)], 8070);
    var s2 := State([Entry(a, 8070), Entry(INITIAL_SN, 8071)], 8071);
    var s3 := State([Entry(a, 8070), Entry(INITIAL_SN, 8071), Entry(b, 8072)], 8072);
    var s5 := State([Entry(INITIAL_SN, 8071)], 8072);
    SecondRegistrationSteps(a, b, s1, s2, s3, s5);
    assert Run(s1, ops[1..]) == Run(s2, ops[2..]) == Run(s3, ops[3..]);
    assert Run(Registered(true), ops) == s5;
    assert TakesOver(s5, c) && Added(s5, c, true).1 == 0;
    AnswerIsRight(s5, c, true);
  }

  // ---- What removal takes along ----

  /** Removing a server takes exactly that one away only at the first two places; further back it takes k of them. */
  lemma RemovalLoses(es: seq<Entry>, k: nat)
    requires k < |es|
    ensures |Removed(es, k)| == |es| - if k == 0 then 1 else k
    ensures Removed(es, k) == es[..k] + es[k + 1..] <==> k <= 1
  {
    if k > 1 {
      assert |es[..k] + es[k + 1..]| == |es| - 1;
    }
  }

  // ---- The linked list ----

  class Server {
    var serial: Serial
    const port: nat
    var next: Server?

    constructor (serial: Serial, port: nat)
      ensures this.serial == serial && this.port == port && next == null
    {
      this.serial := serial;
      this.port := port;
      next := null;
    }
  }

  /** What the server at place i points to. */
  ghost function Follower(spine: seq<Server>, i: int): Server?
    requires 0 <= i < |spine|
  {
    if i + 1 < |spine| then spine[i + 1] else null
  }

  /** A spine whose places 1 to i were cut out. */
  lemma SpliceSpine(was: seq<Server>, now: seq<Server>, i: nat)
    requires Distinct(was) && 0 < i < |was| && now == [was[0]] + was[i + 1..]
    ensures Distinct(now) && forall m :: 1 <= m < |now| ==> now[m] == was[m + i] != was[0]
    ensures Follower(now, 0) == Follower(was, i)
    ensures forall m :: 1 <= m < |now| ==> Follower(now, m) == Follower(was, m + i)
  {
    forall m, k | 0 <= m < k < |now|
      ensures now[m] != now[k]
    {
      assert now[k] == was[k + i] && now[m] == was[if m == 0 then 0 else m + i];
    }
  }

  class EthLink {
    var curCon: nat
    var list: Server?
    ghost var spine: seq<Server>

    constructor ()
      ensures Valid() && Entries() == [] && fresh(this)
    {
      curCon := 0;
      list := null;
      spine := [];
    }

    ghost predicate Valid()
      reads this`list, this`spine, spine
    {
      && Distinct(spine)
      && list == (if spine == [] then null else spine[0])
      && forall i :: 0 <= i < |spine| ==> spine[i].next == Follower(spine, i)
    }

    ghost function Entries(): (es: seq<Entry>)
      reads this`spine, spine
      ensures |es| == |spine|
    {
      var servers := spine;
      seq(|servers|, i requires 0 <= i < |servers| reads servers => Entry(servers[i].serial, servers[i].port))
    }

    ghost function Value(): State
      reads this, spine
    {
      State(Entries(), curCon)
    }

    /** Whether a server in the list has the port. */
    method PortInUse(port: nat) returns (used: bool)
      requires Valid()
      ensures used == (port in Ports(Entries()))
    {
      var p := list;
      ghost var i := 0;
      while p != null
        invariant 0 <= i <= |spine| && p == (if i < |spine| then spine[i] else null)
        invariant forall k :: 0 <= k < i ==> Entries()[k].port != port
        decreases |spine| - i
      {
        if p.port == port {
          assert Ports(Entries())[i] == port;
          return true;
        }
        p := p.next;
        i := i + 1;
      }
      used := false;
    }

    method GetUnusedPort() returns (port: nat)
      requires Valid()
      ensures port == FirstUnused(Entries(), BASE_PORT, PORT_TRIES)
    {
      port := BASE_PORT;
      var i := 0;
      while i < PORT_TRIES
        invariant 0 <= i <= PORT_TRIES
        invariant FirstUnused(Entries(), BASE_PORT, PORT_TRIES) == FirstUnused(Entries(), port, PORT_TRIES - i)
      {
        var used := PortInUse(port);
        if !used {
          break;
        }
        port := port + 1;
        i := i + 1;
      }
    }

    /** Walks to the last server, looking for the serial number on the way. */
    method FindOrLast(sn: Serial) returns (found: bool, last: Server, count: nat)
      requires Valid() && spine != []
      ensures found == (sn in Serials(Entries()))
      ensures !found ==> count == |spine| && last == spine[count - 1]
    {
      last := list;
      count := 1;
      while true
        invariant 1 <= count <= |spine| && last == spine[count - 1]
        invariant forall k :: 0 <= k < count - 1 ==> Entries()[k].serial != sn
        decreases |spine| - count
      {
        if last.serial == sn {
          assert Serials(Entries())[count - 1] == sn;
          return true, last, count;
        }
        assert last.next == Follower(spine, count - 1);
        if last.next == null {
          break;
        }
        last := last.next;
        count := count + 1;
      }
      found := false;
    }

    method Append(last: Server?, node: Server)
      requires Valid() && node !in spine && node.next == null
      requires last == if spine == [] then null else spine[|spine| - 1]
      modifies this`list, this`spine, last
      ensures Valid() && spine == old(spine) + [node]
      ensures Entries() == old(Entries()) + [Entry(node.serial, node.port)]
    {
      if last == null {
        list := node;
      } else {
        last.next := node;
      }
      spine := spine + [node];
    }

    method AddTcpServerList(sn: Serial, created: bool) returns (ret: int)
      requires Valid()
      modifies this, spine
      ensures Valid() && fresh(set s | s in spine && s !in old(spine))
      ensures (Value(), ret) == Added(old(Value()), sn, created)
    {
      ret := -1;
      if list != null {
        var found, last, count := FindOrLast(sn);
        if found {
          return;
        }
        if count == 1 && IsInitial(last.serial) {
          last.serial := sn;
          assert Entries() == [old(Entries())[0].(serial := sn)];
          return 0;
        }
        if MAX_SERVERS > count {
          curCon := GetUnusedPort();
          if created {
            var node := new Server(sn, curCon);
            Append(last, node);
            ret := 0;
          }
        }
      } else if created {
        var node := new Server(sn, BASE_PORT);
        Append(null, node);
        ret := 0;
        curCon := BASE_PORT;
        assert Entries() == [Entry(sn, BASE_PORT)];
      }
    }

    method DropHead()
      requires Valid() && spine != []
      modifies this`list, this`spine
      ensures Valid() && Entries() == Removed(old(Entries()), 0)
    {
      assert list.next == Follower(spine, 0);
      list := list.next;
      spine := spine[1..];
    }

    /** Links the head to what follows place i. */
    method LinkPast(last: Server, index: Server, ghost i: nat)
      requires Valid() && 0 < i < |spine| && spine[0] == last && spine[i] == index
      modifies this`spine, last
      ensures Valid() && Entries() == Removed(old(Entries()), i)
    {
      assert index.next == Follower(spine, i);
      ghost var was, es := spine, Entries();
      last.next := index.next;
      spine := [last] + spine[i + 1..];
      SpliceSpine(was, spine, i);
      forall m | 1 <= m < |spine|
        ensures spine[m].next == Follower(spine, m)
      {
        assert was[m + i].next == Follower(was, m + i) && was[m + i] != last;
      }
      assert Entries() == [es[0]] + es[i + 1..];
    }

    /** Unlinks a server; the loop never moves `last` off the head. */
    method DelTcpServerList(node: Server)
      requires Valid()
      modifies this`list, this`spine, spine
      ensures Valid() && curCon == old(curCon)
      ensures forall k :: 0 <= k < |old(spine)| && old(spine)[k] == node ==> Entries() == Removed(old(Entries()), k)
      ensures node !in old(spine) ==> Entries() == old(Entries())
    {
      hide Removed;
      var index := list;
      if node == index {
        DropHead();
      } else {
        var last := index;
        ghost var i := 0;
        while index != null
          invariant 0 <= i <= |spine| && index == (if i < |spine| then spine[i] else null)
          invariant forall k :: 0 <= k < i ==> spine[k] != node
          invariant Valid() && spine == old(spine) && Entries() == old(Entries())
          decreases |spine| - i
        {
          if node == index {
            LinkPast(last, index, i);
            return;
          }
          assert index.next == Follower(spine, i);
          index := index.next;
          i := i + 1;
        }
      }
    }
  }
}
