/** The peers, and the part of a request continuation that sends queries and takes replies. */
module IcpRequest {
  import opened IcpBitMap
  import R = IcpReplies
  import T = IcpRoundRobin

  // ----- peers

  class Peer {
    const id: nat
    var up: bool
    var totalSent: int
    var totalReceived: int
    var droppedReplies: int

    function State(): R.PeerState
      reads this
    {
      R.PeerState(id, up, totalSent, totalReceived)
    }

    constructor (id: nat)
      ensures State() == R.PeerState(id, true, 0, 0) && droppedReplies == 0
    {
      this.id := id;
      up, totalSent, totalReceived, droppedReplies := true, 0, 0, 0;
    }

    method ExpectedReplies(expected: BitMap) returns (n: nat)
      requires expected.Valid() && expected.size == R.MAX_DEFINED_PEERS
      modifies this, expected.bytes
      ensures State() == R.Asked(old(State())) && droppedReplies == old(droppedReplies)
      ensures n == R.One(R.Expects(old(State())))
      ensures expected.Contents()
              == if R.Expects(old(State())) then R.SetBit(old(expected.Contents()), id) else old(expected.Contents())
    {
      if !up || totalSent - totalReceived > R.OFFLINE_THRESHOLD {
        up := false;
        return 0;
      } else {
        expected.SetBit(id);
        return 1;
      }
    }

    method LogSendMsg()
      modifies this
      ensures State() == old(State()).(sent := old(totalSent) + 1) && droppedReplies == old(droppedReplies)
    {
      totalSent := totalSent + 1;
    }

    method LogRecvMsg(valid: bool)
      modifies this
      ensures State() == R.Heard(old(State()))
      ensures droppedReplies == old(droppedReplies) + R.One(!valid)
    {
      totalReceived := totalReceived + 1;
      if !valid {
        droppedReplies := droppedReplies + 1;
      }
      if !up {
        up := true;
        totalReceived := totalSent;
      }
    }
  }

  /** The peer after some queries to which it does not answer. */
  function Ignoring(p: R.PeerState, queries: nat): R.PeerState {
    if queries == 0 then p else R.Sent(Ignoring(p, queries - 1), true)
  }

  /** A peer that has answered everything so far is expected to answer, and stays up, for 21 more queries
      without an answer; from then on nothing is expected of it, until any message from it comes in. */
  lemma {:induction false} SilentPeerGoesDown(p: R.PeerState, queries: nat)
    requires p.up && p.sent == p.received
    ensures var q := Ignoring(p, queries);
            && q.sent == p.sent + queries && q.received == p.received
            && (q.up <==> queries <= R.OFFLINE_THRESHOLD + 1)
            && (R.Expects(q) <==> queries <= R.OFFLINE_THRESHOLD)
            && (!q.up ==> R.Expects(R.Heard(q)))
  {
    if queries > 0 {
      SilentPeerGoesDown(p, queries - 1);
    }
  }

  // ----- sends

  /** The index in turn i of the send loop, where n counts down from the number of peers. */
  function Turn(i: nat, bias: T.int32, count: nat): int
    requires i < count < T.INT_END
  {
    T.Index(bias, count - i, count)
  }

  /** How many turns stay in the list: the loop leaves it at the first that does not. */
  function Leading(bias: T.int32, count: nat, i: nat): (k: nat)
    requires i <= count < T.INT_END
    ensures i <= k <= count
    ensures forall j :: i <= j < k ==> 0 <= Turn(j, bias, count)
    ensures k < count ==> Turn(k, bias, count) < 0
    decreases count - i
  {
    if i == count || Turn(i, bias, count) < 0 then i else Leading(bias, count, i + 1)
  }

  /** The loop gets through all its turns if and only if the counter covers them. */
  lemma LeadingAll(bias: T.int32, count: nat)
    requires 0 < count < T.INT_END
    ensures Leading(bias, count, 0) == count <==> T.Covers(bias, count)
  {
    T.AllTurnsInRange(bias, count);
    var k := Leading(bias, count, 0);
    if k == count {
      forall n | 1 <= n <= count
        ensures 0 <= T.Index(bias, n, count)
      {
        assert 0 <= Turn(count - n, bias, count);
      }
    }
  }

  predicate Within(bias: T.int32, count: nat, k: nat)
    requires k <= count < T.INT_END
  {
    forall j :: 0 <= j < k ==> 0 <= Turn(j, bias, count)
  }

  /** One more turn, from wherever the turns before have led. */
  function SendStep(before: (seq<R.Target>, R.Wait), j: nat, ok: bool): (seq<R.Target>, R.Wait)
    requires j < |before.0|
  {
    (before.0[j := R.SentTo(before.0[j], ok)], R.SendOne(before.1, before.0[j], ok))
  }

  /** Targets and wait after k turns. */
  function SendLoop(states: seq<R.Target>, w: R.Wait, bias: T.int32, oks: seq<bool>, k: nat)
    : (r: (seq<R.Target>, R.Wait))
    requires |oks| == |states| < T.INT_END && k <= |states| && Within(bias, |states|, k)
    ensures |r.0| == |states|
  {
    if k == 0 then (states, w)
    else
      SendStep(SendLoop(states, w, bias, oks, k - 1), Turn(k - 1, bias, |states|), oks[k - 1])
  }

  /** What each turn tries, if every target is met once. */
  function Tries(states: seq<R.Target>, bias: T.int32, oks: seq<bool>, k: nat): (t: seq<R.Try>)
    requires |oks| == |states| < T.INT_END && k <= |states| && Within(bias, |states|, k)
    ensures |t| == k
  {
    if k == 0 then []
    else Tries(states, bias, oks, k - 1) + [R.Try(states[Turn(k - 1, bias, |states|)], oks[k - 1])]
  }

  lemma CoversWithin(bias: T.int32, count: nat, k: nat)
    requires k <= count < T.INT_END && (count == 0 || T.Covers(bias, count))
    ensures Within(bias, count, k)
  {
    if count > 0 {
      T.AllTurnsInRange(bias, count);
    }
  }

  lemma {:induction false} TriesAt(states: seq<R.Target>, bias: T.int32, oks: seq<bool>, k: nat, i: nat)
    requires |oks| == |states| < T.INT_END && i < k <= |states| && Within(bias, |states|, k)
    ensures Tries(states, bias, oks, k)[i] == R.Try(states[Turn(i, bias, |states|)], oks[i])
  {
    if i < k - 1 {
      TriesAt(states, bias, oks, k - 1, i);
    }
  }

  lemma TurnsDiffer(bias: T.int32, count: nat, i: nat, j: nat)
    requires i < j < count < T.INT_END && T.Covers(bias, count)
    ensures Turn(i, bias, count) != Turn(j, bias, count)
  {
    T.IndexOnce(bias, count - j, count - i, count);
  }

  /** No id occurs twice, whether a target's own or a member's. */
  ghost predicate DistinctPeers(states: seq<R.Target>) {
    && (forall i :: 0 <= i < |states| ==> R.DistinctMembers(states[i]))
    && (forall i, j :: 0 <= i < j < |states| ==> R.AllIds(states[i]) !! R.AllIds(states[j]))
  }

  lemma TriesDiffer(states: seq<R.Target>, bias: T.int32, oks: seq<bool>, i: nat, j: nat)
    requires |oks| == |states| < T.INT_END && i < j < |states| && T.Covers(bias, |states|) && DistinctPeers(states)
    requires Within(bias, |states|, |states|)
    ensures var t := Tries(states, bias, oks, |states|); R.AllIds(t[i].target) !! R.AllIds(t[j].target)
  {
    TriesAt(states, bias, oks, |states|, i);
    TriesAt(states, bias, oks, |states|, j);
    TurnsDiffer(bias, |states|, i, j);
    var m, n := Turn(i, bias, |states|), Turn(j, bias, |states|);
    assert R.AllIds(states[m]) !! R.AllIds(states[n]) by {
      assert m < n || n < m;
    }
  }

  ghost predicate WasTried(tries: seq<R.Try>, p: R.Target) {
    exists i :: 0 <= i < |tries| && tries[i].target == p
  }

  lemma PeerIsTried(states: seq<R.Target>, bias: T.int32, oks: seq<bool>, p: R.Target)
    requires |oks| == |states| < T.INT_END && p in states && T.Covers(bias, |states|) &&
             Within(bias, |states|, |states|)
    ensures WasTried(Tries(states, bias, oks, |states|), p)
  {
    var k :| 0 <= k < |states| && states[k] == p;
    T.IndexTurn(bias, |states|, k);
    var n :| 1 <= n <= |states| && T.Index(bias, n, |states|) == k;
    TriesAt(states, bias, oks, |states|, |states| - n);
    assert Turn(|states| - n, bias, |states|) == k;
  }

  /** While the counter covers the turns, targets with distinct ids are tried once each. */
  lemma TriesAreDistinct(states: seq<R.Target>, bias: T.int32, oks: seq<bool>)
    requires |oks| == |states| < T.INT_END && DistinctPeers(states) && (states == [] || T.Covers(bias, |states|))
    requires Within(bias, |states|, |states|)
    ensures var t := Tries(states, bias, oks, |states|); R.DistinctIds(t) && forall p :: p in states ==> WasTried(t, p)
  {
    forall i, j | 0 <= i < j < |states|
      ensures var t := Tries(states, bias, oks, |states|); R.AllIds(t[i].target) !! R.AllIds(t[j].target)
    {
      TriesDiffer(states, bias, oks, i, j);
    }
    forall i | 0 <= i < |states|
      ensures R.DistinctMembers(Tries(states, bias, oks, |states|)[i].target)
    {
      TriesAt(states, bias, oks, |states|, i);
    }
    forall p | p in states
      ensures WasTried(Tries(states, bias, oks, |states|), p)
    {
      PeerIsTried(states, bias, oks, p);
    }
  }

  lemma {:induction false} NotYetTried(states: seq<R.Target>, w: R.Wait, bias: T.int32, oks: seq<bool>, k: nat, i: nat)
    requires |oks| == |states| < T.INT_END && k <= i < |states| && T.Covers(bias, |states|) &&
             Within(bias, |states|, |states|)
    ensures SendLoop(states, w, bias, oks, k).0[Turn(i, bias, |states|)] == states[Turn(i, bias, |states|)]
  {
    if k > 0 {
      NotYetTried(states, w, bias, oks, k - 1, i);
      TurnsDiffer(bias, |states|, k - 1, i);
    }
  }

  lemma {:induction false} SendLoopTries(states: seq<R.Target>, w: R.Wait, bias: T.int32, oks: seq<bool>, k: nat)
    requires |oks| == |states| < T.INT_END && k <= |states| && (states == [] || T.Covers(bias, |states|))
    requires Within(bias, |states|, |states|)
    ensures SendLoop(states, w, bias, oks, k).1 == R.SendAll(Tries(states, bias, oks, k), w)
  {
    if k > 0 {
      SendLoopTries(states, w, bias, oks, k - 1);
      NotYetTried(states, w, bias, oks, k - 1, k - 1);
      var t := Tries(states, bias, oks, k);
      assert t[..k - 1] == Tries(states, bias, oks, k - 1);
    }
  }

  /** From a counter that covers the turns, the whole loop leaves the expected number of the peers that will
      answer, and their bits, with those that are left over. */
  lemma SendsReachEveryPeer(states: seq<R.Target>, bias: T.int32, oks: seq<bool>)
    requires |oks| == |states| < T.INT_END && DistinctPeers(states) && (states == [] || T.Covers(bias, |states|))
    ensures Within(bias, |states|, |states|) && Leading(bias, |states|, 0) == |states|
    ensures var w := SendLoop(states, R.FRESH, bias, oks, |states|).1;
            var t := Tries(states, bias, oks, |states|);
            && w == R.SendAll(t, R.FRESH)
            && w.expected == |R.Expected(t)| && w.bits == R.Low(R.Expected(t) + R.Stale(t)) && w.received == 0
            && R.DistinctIds(t) && forall p :: p in states ==> WasTried(t, p)
  {
    CoversWithin(bias, |states|, |states|);
    SendLoopTries(states, R.FRESH, bias, oks, |states|);
    TriesAreDistinct(states, bias, oks);
    R.SendsCount(Tries(states, bias, oks, |states|));
  }

  // ----- the objects that are sent to

  /** A target of queries: a peer, or a group with the list of its members. */
  datatype Target = Unicast(peer: Peer) | Group(id: nat, online: bool, members: seq<Peer>)

  function PeersOf(t: Target): seq<Peer> {
    if t.Unicast? then [t.peer] else t.members
  }

  function PeerStates(ps: seq<Peer>): (s: seq<R.PeerState>)
    reads ps
    ensures |s| == |ps| && forall i :: 0 <= i < |ps| ==> s[i] == ps[i].State()
  {
    if ps == [] then [] else PeerStates(ps[..|ps| - 1]) + [ps[|ps| - 1].State()]
  }

  function Seen(t: Target, ps: seq<R.PeerState>): (s: R.Target)
    requires |ps| == |PeersOf(t)|
    ensures R.Members(s) == ps && R.Id(s) == if t.Unicast? then ps[0].id else t.id
  {
    if t.Unicast? then R.Unicast(ps[0]) else R.Group(t.id, t.online, ps)
  }

  function StateOf(t: Target): R.Target
    reads PeersOf(t)
  {
    Seen(t, PeerStates(PeersOf(t)))
  }

  function OwnId(t: Target): nat {
    if t.Unicast? then t.peer.id else t.id
  }

  function AfterSend(w: R.Wait, ps: seq<R.PeerState>, id: nat, ok: bool): R.Wait {
    R.Wait(w.expected + if ok then R.Count(ps) else 0, w.received, R.SetBits(w.bits, ps) - if ok then {} else {id})
  }

  /** What the steps of one send amount to. */
  lemma SentSeen(t: Target, was: seq<R.PeerState>, ok: bool, w: R.Wait)
    requires |was| == |PeersOf(t)| && (t.Group? ==> t.online) && (t.Unicast? ==> was[0].id == t.peer.id)
    ensures Seen(t, R.SentAll(was, ok)) == R.SentTo(Seen(t, was), ok)
    ensures R.SendOne(w, Seen(t, was), ok)
            == AfterSend(w, was, OwnId(t), ok)
  {
    assert t.Unicast? ==> R.SentAll(was, ok)[0] == R.Sent(was[0], ok);
  }

  /** Who is in which state. */
  ghost function Table(world: set<Peer>): (table: map<Peer, R.PeerState>)
    reads world
    ensures table.Keys == world
  {
    map p | p in world :: p.State()
  }

  /** The targets' peers are all among `world`. */
  ghost predicate In(ts: seq<Target>, world: set<Peer>) {
    forall i, p :: 0 <= i < |ts| && p in PeersOf(ts[i]) ==> p in world
  }

  ghost function Looked(ps: seq<Peer>, table: map<Peer, R.PeerState>): (s: seq<R.PeerState>)
    requires forall p :: p in ps ==> p in table
    ensures |s| == |ps|
  {
    seq(|ps|, i requires 0 <= i < |ps| => table[ps[i]])
  }

  ghost function States(ts: seq<Target>, table: map<Peer, R.PeerState>): (s: seq<R.Target>)
    requires In(ts, table.Keys)
    ensures |s| == |ts|
  {
    seq(|ts|, i requires 0 <= i < |ts| => Seen(ts[i], Looked(PeersOf(ts[i]), table)))
  }

  ghost predicate NoRepeats(ps: seq<Peer>) {
    forall i, j :: 0 <= i < j < |ps| ==> ps[i] != ps[j]
  }

  /** Every peer is an object of its own, in one place. */
  ghost predicate Apart(ts: seq<Target>) {
    && (forall i :: 0 <= i < |ts| ==> NoRepeats(PeersOf(ts[i])))
    && (forall i, j, p :: 0 <= i < j < |ts| && p in PeersOf(ts[i]) ==> p !in PeersOf(ts[j]))
  }

  /** A turn changes nothing but the peers of its target. */
  lemma OthersStay(ts: seq<Target>, table: map<Peer, R.PeerState>, table': map<Peer, R.PeerState>, k: nat, t: R.Target)
    requires Apart(ts) && k < |ts| && In(ts, table.Keys) && table'.Keys == table.Keys
    requires forall p :: p in table && p !in PeersOf(ts[k]) ==> table'[p] == table[p]
    requires Seen(ts[k], Looked(PeersOf(ts[k]), table')) == t
    ensures States(ts, table') == States(ts, table)[k := t]
  {
    forall i | 0 <= i < |ts| && i != k
      ensures Looked(PeersOf(ts[i]), table') == Looked(PeersOf(ts[i]), table)
    {
      assert forall p :: p in PeersOf(ts[i]) ==> p !in PeersOf(ts[k]);
    }
  }

  /** The replies expected of some peers: of a group, those of its members. */
  method AskAll(ps: seq<Peer>, expected: BitMap) returns (n: nat)
    requires expected.Valid() && expected.size == R.MAX_DEFINED_PEERS && NoRepeats(ps)
    modifies ps, expected.bytes
    ensures forall i :: 0 <= i < |ps| ==> ps[i].State() == R.Asked(old(ps[i].State()))
    ensures n == R.Count(old(PeerStates(ps)))
    ensures expected.Contents() == R.SetBits(old(expected.Contents()), old(PeerStates(ps)))
  {
    ghost var was, bits := PeerStates(ps), expected.Contents();
    n := 0;
    for i := 0 to |ps|
      invariant n == R.Count(was[..i]) && expected.Contents() == R.SetBits(bits, was[..i])
      invariant forall j :: 0 <= j < i ==> ps[j].State() == R.Asked(was[j])
      invariant forall j :: i <= j < |ps| ==> ps[j].State() == was[j]
    {
      assert was[..i + 1][..i] == was[..i] && was[..i + 1][i] == was[i];
      var one := AskNext(ps, i, expected, was);
      n := n + one;
    }
    assert was[..|ps|] == was;
  }

  method AskNext(ps: seq<Peer>, i: nat, expected: BitMap, ghost was: seq<R.PeerState>) returns (n: nat)
    requires expected.Valid() && expected.size == R.MAX_DEFINED_PEERS && NoRepeats(ps) && i < |ps| == |was|
    requires forall j :: 0 <= j < |ps| ==> ps[j].State() == if j < i then R.Asked(was[j]) else was[j]
    modifies ps[i], expected.bytes
    ensures forall j :: 0 <= j < |ps| ==> ps[j].State() == if j <= i then R.Asked(was[j]) else was[j]
    ensures n == R.One(R.Expects(was[i]))
    ensures expected.Contents()
            == if R.Expects(was[i]) then R.SetBit(old(expected.Contents()), was[i].id) else old(expected.Contents())
  {
    n := ps[i].ExpectedReplies(expected);
  }

  /** A message sent to a group counts for each of its members. */
  method LogSendAll(ps: seq<Peer>)
    requires NoRepeats(ps)
    modifies ps
    ensures forall i :: 0 <= i < |ps| ==> ps[i].State() == old(ps[i].State()).(sent := old(ps[i].totalSent) + 1)
  {
    ghost var was := PeerStates(ps);
    for i := 0 to |ps|
      invariant forall j :: 0 <= j < i ==> ps[j].State() == was[j].(sent := was[j].sent + 1)
      invariant forall j :: i <= j < |ps| ==> ps[j].State() == was[j]
    {
      ps[i].LogSendMsg();
    }
  }

  /** The parents among the peers, and the counter that takes them in turn. */
  class ParentList {
    var parents: seq<Peer>
    var curParentPeer: T.int32

    function States(): (s: seq<T.Parent>)
      reads this`parents, parents
      ensures |s| == |parents| && forall i :: 0 <= i < |parents| ==> s[i] == T.Parent(parents[i].id, parents[i].up)
    {
      var ps := parents;
      seq(|ps|, i requires 0 <= i < |ps| reads ps => T.Parent(ps[i].id, ps[i].up))
    }
  }

  class ICPRequestCont {
    var expectedReplies: int
    var receivedReplies: int
    const expectedRepliesList: BitMap
    /** The peer to fetch from; none: the look-up has failed. */
    var found: R.Option<nat>

    ghost predicate Valid()
      reads this, expectedRepliesList
    {
      expectedRepliesList.Valid() && expectedRepliesList.size == R.MAX_DEFINED_PEERS
    }

    function Waiting(): R.Wait
      requires Valid()
      reads this, expectedRepliesList, expectedRepliesList.bytes
    {
      R.Wait(expectedReplies, receivedReplies, expectedRepliesList.Contents())
    }

    constructor ()
      ensures Valid() && fresh(expectedRepliesList) && fresh(expectedRepliesList.bytes)
      ensures Waiting() == R.FRESH && found.None?
    {
      expectedReplies, receivedReplies, found := 0, 0, R.None;
      expectedRepliesList := new BitMap(R.MAX_DEFINED_PEERS);
    }

    method SendOne(t: Target, ok: bool)
      requires Valid() && NoRepeats(PeersOf(t))
      modifies this, PeersOf(t), expectedRepliesList.bytes
      ensures Valid() && found == old(found)
      ensures Waiting() == R.SendOne(old(Waiting()), old(StateOf(t)), ok)
      ensures StateOf(t) == R.SentTo(old(StateOf(t)), ok)
    {
      if t.Unicast? || t.online {
        ghost var was, w := PeerStates(PeersOf(t)), Waiting();
        SendToAll(PeersOf(t), OwnId(t), ok);
        SentSeen(t, was, ok, w);
        assert old(StateOf(t)) == Seen(t, was);
      }
    }

    method SendToAll(ps: seq<Peer>, id: nat, ok: bool)
      requires Valid() && NoRepeats(ps)
      modifies this, ps, expectedRepliesList.bytes
      ensures Valid() && found == old(found)
      ensures Waiting() == AfterSend(old(Waiting()), old(PeerStates(ps)), id, ok)
      ensures PeerStates(ps) == R.SentAll(old(PeerStates(ps)), ok)
    {
      ghost var was := PeerStates(ps);
      var wasExpected := Ask(ps);
      Sending(ps, id, wasExpected, ok, was);
    }

    /** Before the send: the replies expected, and their bits. */
    method Ask(ps: seq<Peer>) returns (wasExpected: nat)
      requires Valid() && NoRepeats(ps)
      modifies this, ps, expectedRepliesList.bytes
      ensures Valid() && found == old(found)
      ensures wasExpected == R.Count(old(PeerStates(ps)))
      ensures Waiting() == R.Wait(old(expectedReplies) + wasExpected, old(receivedReplies),
                                  R.SetBits(old(Waiting()).bits, old(PeerStates(ps))))
      ensures forall i :: 0 <= i < |ps| ==> ps[i].State() == R.Asked(old(PeerStates(ps))[i])
    {
      wasExpected := AskAll(ps, expectedRepliesList);
      expectedReplies := expectedReplies + wasExpected;
    }

    /** The send, which may fail. */
    method Sending(ps: seq<Peer>, id: nat, wasExpected: nat, ok: bool, ghost was: seq<R.PeerState>)
      requires Valid() && NoRepeats(ps) && |was| == |ps|
      requires forall i :: 0 <= i < |ps| ==> ps[i].State() == R.Asked(was[i])
      modifies this, ps, expectedRepliesList.bytes
      ensures Valid() && found == old(found)
      ensures Waiting() == R.Wait(old(expectedReplies) - if ok then 0 else wasExpected, old(receivedReplies),
                                  old(Waiting()).bits - if ok then {} else {id})
      ensures PeerStates(ps) == R.SentAll(was, ok)
    {
      if ok {
        LogSendAll(ps);
      } else {
        expectedRepliesList.ClearBit(id);
        expectedReplies := expectedReplies - wasExpected;
      }
    }

    method SendTurn(targets: seq<Target>, ghost world: set<Peer>, k: nat, ok: bool)
      requires Valid() && k < |targets| && Apart(targets) && In(targets, world)
      modifies this, expectedRepliesList.bytes, PeersOf(targets[k])
      ensures Valid() && found == old(found)
      ensures (States(targets, Table(world)), Waiting())
              == SendStep(old((States(targets, Table(world)), Waiting())), k, ok)
    {
      ghost var ps, was, table := PeersOf(targets[k]), StateOf(targets[k]), Table(world);
      assert PeerStates(ps) == Looked(ps, table);
      SendOne(targets[k], ok);
      assert PeerStates(ps) == Looked(ps, Table(world));
      OthersStay(targets, table, Table(world), k, R.SentTo(was, ok));
    }

    method SendNext(targets: seq<Target>, ghost world: set<Peer>, bias: T.int32, oks: seq<bool>, i: nat,
                    ghost was: seq<R.Target>, ghost w: R.Wait)
      requires Valid() && |oks| == |targets| == |was| < T.INT_END && i < |targets|
      requires Within(bias, |targets|, i + 1) && Apart(targets) && In(targets, world)
      requires (States(targets, Table(world)), Waiting()) == SendLoop(was, w, bias, oks, i)
      modifies this, expectedRepliesList.bytes, world
      ensures Valid() && found == old(found)
      ensures (States(targets, Table(world)), Waiting()) == SendLoop(was, w, bias, oks, i + 1)
    {
      ghost var before := (States(targets, Table(world)), Waiting());
      SendTurn(targets, world, Turn(i, bias, |targets|), oks[i]);
      assert SendLoop(was, w, bias, oks, i + 1) == SendStep(before, Turn(i, bias, |targets|), oks[i]);
    }

    /** The loop of ICP_QUEUE_REQUEST: every target of the send list in turn, from the bias on. It ends early,
        answering false, where the index would leave the list. */
    method SendQueries(targets: seq<Target>, ghost world: set<Peer>, bias: T.int32, oks: seq<bool>)
      returns (inside: bool)
      requires Valid() && |oks| == |targets| < T.INT_END && Apart(targets) && In(targets, world)
      modifies this, expectedRepliesList.bytes, world
      ensures Valid() && found == old(found)
      ensures var k := Leading(bias, |targets|, 0);
              && (States(targets, Table(world)), Waiting())
                 == SendLoop(old(States(targets, Table(world))), old(Waiting()), bias, oks, k)
              && inside == (k == |targets|)
    {
      var n := |targets|;
      var i := 0;
      ghost var was, w := States(targets, Table(world)), Waiting();
      while n > 0
        invariant 0 <= n && i + n == |targets| && Valid() && found == old(found)
        invariant Leading(bias, |targets|, 0) == Leading(bias, |targets|, i) && Within(bias, |targets|, i)
        invariant (States(targets, Table(world)), Waiting()) == SendLoop(was, w, bias, oks, i)
      {
        if T.Index(bias, n, |targets|) < 0 {
          assert Turn(i, bias, |targets|) == T.Index(bias, n, |targets|);
          return false;
        }
        assert Turn(i, bias, |targets|) == T.Index(bias, n, |targets|);
        SendNext(targets, world, bias, oks, i, was, w);
        n, i := n - 1, i + 1;
      }
      assert i == |targets|;
      return true;
    }

    /** Both loops over the parents: the one at a timeout passes over those whose bit is still set. */
    method FindParent(icp: ParentList, answeredOnly: bool) returns (k: T.Choice)
      requires Valid() && 0 < |icp.parents| < T.INT_END
      modifies icp`curParentPeer
      ensures (k, icp.curParentPeer)
              == T.Pick(icp.States(), if answeredOnly then Waiting().bits else {},
                        old(icp.curParentPeer), |icp.parents|)
    {
      ghost var states, bits, cur := icp.States(), if answeredOnly then Waiting().bits else {}, icp.curParentPeer;
      var n := |icp.parents|;
      while n > 0
        invariant 0 <= n && icp.States() == states
        invariant T.Pick(states, bits, cur, |states|) == T.Pick(states, bits, icp.curParentPeer, n)
      {
        k := NextParent(icp, answeredOnly);
        if !k.Nobody? {
          return;
        }
        n := n - 1;
      }
      k := T.Nobody;
    }

    method NextParent(icp: ParentList, answeredOnly: bool) returns (k: T.Choice)
      requires Valid() && 0 < |icp.parents| < T.INT_END
      modifies icp`curParentPeer
      ensures icp.States() == old(icp.States())
      ensures (k, icp.curParentPeer)
              == T.Pick(icp.States(), if answeredOnly then Waiting().bits else {}, old(icp.curParentPeer), 1)
    {
      icp.curParentPeer := T.Wrap(icp.curParentPeer + 1);
      var i := T.CMod(icp.curParentPeer, |icp.parents|);
      if i < 0 {
        return T.Outside;
      }
      var p := icp.parents[i];
      var unanswered := false;
      if answeredOnly {
        unanswered := expectedRepliesList.IsBitSet(p.id);
      }
      return if p.up && !unanswered then T.Chosen(i) else T.Nobody;
    }

    method ChooseParent(icp: ParentList, answeredOnly: bool) returns (inside: bool)
      requires Valid() && |icp.parents| < T.INT_END
      modifies this`found, icp`curParentPeer
      ensures Valid() && Waiting() == old(Waiting())
      ensures var unanswered := if answeredOnly then old(Waiting()).bits else {};
              var v := T.Choose(old(Waiting()), icp.States(), unanswered, old(icp.curParentPeer));
              && icp.curParentPeer == v.cur && inside == !v.found.Outside?
              && found == if v.found.Chosen? then R.Some(v.found.k) else old(found)
    {
      inside := true;
      if |icp.parents| > 0 {
        var k := FindParent(icp, answeredOnly);
        if k.Chosen? {
          found := R.Some(icp.parents[k.k].id);
        }
        inside := !k.Outside?;
      }
    }

    /** ICPResponseMessage: `done` when the request need not wait any longer; `inside` is false when the
        choice of a parent leaves the list. */
    method ResponseMessage(wake: T.Wake, icp: ParentList) returns (done: bool, inside: bool)
      requires Valid() && |icp.parents| < T.INT_END
      modifies this, expectedRepliesList.bytes, icp`curParentPeer
      ensures Valid()
      ensures var v := T.Respond(old(Waiting()), T.Classify(wake), icp.States(), old(icp.curParentPeer));
              && Waiting() == v.wait && done == v.done && icp.curParentPeer == v.cur && inside == !v.found.Outside?
              && found == if v.found.Chosen? then R.Some(v.found.k) else old(found)
    {
      inside := true;
      if wake.TimedOut? {
        if receivedReplies != 0 {
          inside := ChooseParent(icp, true);
        }
        return true, inside;
      }
      match wake.opcode
      case 2 | 23 =>
        receivedReplies := receivedReplies + 1;
        found := R.Some(wake.peer);
        return true, true;
      case 3 | 4 | 21 | 22 =>
        var expected := expectedRepliesList.IsBitSet(wake.peer);
        if expected {
          expectedRepliesList.ClearBit(wake.peer);
          receivedReplies := receivedReplies + 1;
        }
        assert Waiting() == R.Miss(old(Waiting()), wake.peer);
        if receivedReplies < expectedReplies {
          return false, true;
        }
        inside := ChooseParent(icp, false);
        return true, inside;
      case _ =>
        return false, true;
    }
  }
}
