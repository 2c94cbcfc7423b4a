/** From a configuration to the replies that a request waits for. */
module IcpConfiguration {
  import L = PeerLists
  import R = IcpReplies
  import S = IcpRequest
  import T = IcpRoundRobin

  /** A listed peer as a target of queries, when the peers are in the given states. */
  function Target(l: L.Lists, p: L.Peer, states: nat -> R.PeerState, online: bool): R.Target {
    if p.kind.MultiCast? then
      var ms := L.Members(l, (p.ip, p.port));
      R.Group(p.id, online, seq(|ms|, i requires 0 <= i < |ms| => states(ms[i].id)))
    else R.Unicast(states(p.id))
  }

  function Targets(l: L.Lists, states: nat -> R.PeerState, online: bool): (r: seq<R.Target>)
    ensures |r| == |l.sends|
  {
    seq(|l.sends|, i requires 0 <= i < |l.sends| => Target(l, l.sends[i], states, online))
  }

  ghost predicate ById(states: nat -> R.PeerState) {
    forall id :: states(id).id == id
  }

  /** The peer is the target itself or a member of it. */
  predicate Belongs(l: L.Lists, p: L.Peer, q: L.Peer) {
    q == p || (p.kind.MultiCast? && q in L.Members(l, (p.ip, p.port)))
  }

  lemma IdsBelong(l: L.Lists, p: L.Peer, states: nat -> R.PeerState, online: bool, id: nat)
    requires L.Assigned(l) && ById(states) && p in l.sends
    ensures id in R.AllIds(Target(l, p, states, online)) ==> id < |l.peers| && Belongs(l, p, l.peers[id])
  {
    var t := Target(l, p, states, online);
    if id in R.AllIds(t) && id != p.id {
      var ms := L.Members(l, (p.ip, p.port));
      var i :| 0 <= i < |ms| && states(ms[i].id).id == id;
      assert L.Numbers(l, ms[i]);
    }
  }

  /** Nobody belongs to two targets. */
  lemma OneTarget(l: L.Lists, i: nat, j: nat, q: L.Peer)
    requires L.Assigned(l) && L.Sound(l) && i < j < |l.sends|
    ensures !(Belongs(l, l.sends[i], q) && Belongs(l, l.sends[j], q))
  {
    var p, p' := l.sends[i], l.sends[j];
    assert l.peers[p.id] == p && l.peers[p'.id] == p' && p.id < p'.id;
    assert (p.ip, p.port) != (p'.ip, p'.port) && p in l.sends && p' in l.sends;
  }

  lemma DistinctTarget(l: L.Lists, p: L.Peer, states: nat -> R.PeerState, online: bool)
    requires L.Assigned(l) && ById(states) && p in l.sends
    ensures R.DistinctMembers(Target(l, p, states, online))
  {
    if p.kind.MultiCast? {
      var ms := L.Members(l, (p.ip, p.port));
      forall i | 0 <= i < |ms|
        ensures L.Numbers(l, ms[i]) && ms[i].id != p.id
      {
        assert ms[i] in ms;
      }
    }
  }

  lemma TargetsAreDistinct(l: L.Lists, states: nat -> R.PeerState, online: bool)
    requires L.Assigned(l) && L.Sound(l) && ById(states)
    ensures S.DistinctPeers(Targets(l, states, online))
  {
    var ts := Targets(l, states, online);
    forall i | 0 <= i < |ts|
      ensures R.DistinctMembers(ts[i])
    {
      DistinctTarget(l, l.sends[i], states, online);
    }
    forall i, j | 0 <= i < j < |ts|
      ensures R.AllIds(ts[i]) !! R.AllIds(ts[j])
    {
      forall id | id in R.AllIds(ts[i])
        ensures id !in R.AllIds(ts[j])
      {
        IdsBelong(l, l.sends[i], states, online, id);
        IdsBelong(l, l.sends[j], states, online, id);
        OneTarget(l, i, j, l.peers[id]);
      }
    }
  }

  /** The state is that of a target, or of a member of one. */
  ghost predicate IsIn(ts: seq<R.Target>, s: R.PeerState) {
    exists i :: 0 <= i < |ts| && s in R.Members(ts[i])
  }

  lemma OwnIsIn(l: L.Lists, e: L.Entry, states: nat -> R.PeerState, online: bool) returns (p: L.Peer)
    requires L.EntryListed(l, e) && (e.kind == L.Some(L.Parent) || e.kind == L.Some(L.Sibling))
    ensures p in l.peers && L.OwnPeer(e, p) && IsIn(Targets(l, states, online), states(p.id))
  {
    p :| p in l.peers && L.OwnPeer(e, p)
         && if e.group.None? then p in l.sends
            else var key := (e.group.value, e.port); L.GroupSent(l, key) && p in L.Members(l, key);
    var ts := Targets(l, states, online);
    if e.group.None? {
      var i :| 0 <= i < |l.sends| && l.sends[i] == p;
      assert R.Members(ts[i]) == [states(p.id)];
    } else {
      var key := (e.group.value, e.port);
      var m :| m in l.sends && m.kind.MultiCast? && (m.ip, m.port) == key;
      var i :| 0 <= i < |l.sends| && l.sends[i] == m;
      MemberIsIn(l, m, p, states, online);
      assert states(p.id) in R.Members(ts[i]);
    }
  }

  lemma MemberIsIn(l: L.Lists, m: L.Peer, p: L.Peer, states: nat -> R.PeerState, online: bool)
    requires m.kind.MultiCast? && p in L.Members(l, (m.ip, m.port))
    ensures states(p.id) in R.Members(Target(l, m, states, online))
  {
    var ms := L.Members(l, (m.ip, m.port));
    var k :| 0 <= k < |ms| && ms[k] == p;
    assert R.Members(Target(l, m, states, online))[k] == states(p.id);
  }

  /** What is asked of the sends of one request: an outcome for each target, a counter that covers the turns. */
  predicate CanSend(ts: seq<R.Target>, bias: T.int32, oks: seq<bool>) {
    |oks| == |ts| < T.INT_END && (ts == [] || T.Covers(bias, |ts|))
  }

  /** The sends of a request to the peers of a configuration. */
  function Tried(ts: seq<R.Target>, bias: T.int32, oks: seq<bool>): seq<R.Try>
    requires CanSend(ts, bias, oks)
  {
    S.CoversWithin(bias, |ts|, |ts|);
    S.Tries(ts, bias, oks, |ts|)
  }

  function Sent(ts: seq<R.Target>, bias: T.int32, oks: seq<bool>): R.Wait
    requires CanSend(ts, bias, oks)
  {
    S.CoversWithin(bias, |ts|, |ts|);
    S.SendLoop(ts, R.FRESH, bias, oks, |ts|).1
  }

  ghost predicate Reached(tries: seq<R.Try>, s: R.PeerState) {
    exists i :: 0 <= i < |tries| && s in R.Members(tries[i].target)
  }

  /** The peer of each entry that is not ignored is tried, on its own or in its group. */
  ghost predicate AllReached(l: L.Lists, entries: seq<L.Entry>, localIp: nat,
                             states: nat -> R.PeerState, t: seq<R.Try>)
  {
    forall i {:trigger EntryReached(l, entries[i], states, t)} ::
      0 <= i < |entries| && !L.Ignored(entries[i], localIp) ==> EntryReached(l, entries[i], states, t)
  }

  ghost predicate EntryReached(l: L.Lists, e: L.Entry, states: nat -> R.PeerState, t: seq<R.Try>) {
    exists p :: p in l.peers && L.OwnPeer(e, p) && Reached(t, states(p.id))
  }

  /** The wait after the sends: as many replies as will come, their bits, and those left over. */
  ghost predicate WaitsFor(w: R.Wait, t: seq<R.Try>) {
    R.DistinctIds(t) && w == R.SendAll(t, R.FRESH) && R.Counted(w, R.Expected(t), R.Stale(t))
  }

  /** For any configuration whose entries have distinct addresses, with multicast groups or without, the loop
      tries every entry's peer, on its own or in its group, and leaves the number of those that will answer,
      with their bits and the bits that are left over. */
  lemma ConfiguredPeersAreReached(entries: seq<L.Entry>, localIp: nat, localPort: nat,
                                  states: nat -> R.PeerState, online: bool, bias: T.int32, oks: seq<bool>)
    requires |entries| < L.MAX_DEFINED_PEERS && L.DistinctEntries(entries, localIp) && ById(states)
    requires CanSend(Targets(L.Build(L.EMPTY, entries, localIp, localPort), states, online), bias, oks)
    ensures var l := L.Build(L.EMPTY, entries, localIp, localPort);
            var ts := Targets(l, states, online);
            && WaitsFor(Sent(ts, bias, oks), Tried(ts, bias, oks))
            && AllReached(l, entries, localIp, states, Tried(ts, bias, oks))
  {
    L.DistinctEntriesAreListed(entries, localIp, localPort);
    ListedAreReached(L.Build(L.EMPTY, entries, localIp, localPort), entries, localIp, states, online, bias, oks);
  }

  lemma ListedAreReached(l: L.Lists, entries: seq<L.Entry>, localIp: nat,
                         states: nat -> R.PeerState, online: bool, bias: T.int32, oks: seq<bool>)
    requires L.Assigned(l) && L.Sound(l) && L.AllListed(l, entries, localIp) && ById(states)
    requires CanSend(Targets(l, states, online), bias, oks)
    ensures var ts := Targets(l, states, online);
            && WaitsFor(Sent(ts, bias, oks), Tried(ts, bias, oks))
            && AllReached(l, entries, localIp, states, Tried(ts, bias, oks))
  {
    var ts := Targets(l, states, online);
    TargetsAreDistinct(l, states, online);
    SendsWait(ts, bias, oks);
    EntriesAreReached(l, entries, localIp, states, online, Tried(ts, bias, oks));
  }

  lemma SendsWait(ts: seq<R.Target>, bias: T.int32, oks: seq<bool>)
    requires CanSend(ts, bias, oks) && S.DistinctPeers(ts)
    ensures WaitsFor(Sent(ts, bias, oks), Tried(ts, bias, oks))
    ensures forall p :: p in ts ==> S.WasTried(Tried(ts, bias, oks), p)
  {
    S.SendsReachEveryPeer(ts, bias, oks);
    R.SendsCount(Tried(ts, bias, oks));
  }

  lemma EntriesAreReached(l: L.Lists, entries: seq<L.Entry>, localIp: nat,
                          states: nat -> R.PeerState, online: bool, t: seq<R.Try>)
    requires L.AllListed(l, entries, localIp) && forall p :: p in Targets(l, states, online) ==> S.WasTried(t, p)
    ensures AllReached(l, entries, localIp, states, t)
  {
    forall i | 0 <= i < |entries| && !L.Ignored(entries[i], localIp)
      ensures EntryReached(l, entries[i], states, t)
    {
      assert L.EntryListed(l, entries[i]);
      var p := OwnIsIn(l, entries[i], states, online);
      InIsReached(Targets(l, states, online), t, states(p.id));
    }
  }

  lemma InIsReached(ts: seq<R.Target>, t: seq<R.Try>, s: R.PeerState)
    requires IsIn(ts, s) && forall p :: p in ts ==> S.WasTried(t, p)
    ensures Reached(t, s)
  {
    var i :| 0 <= i < |ts| && s in R.Members(ts[i]);
    assert S.WasTried(t, ts[i]);
    var k :| 0 <= k < |t| && t[k].target == ts[i];
    assert s in R.Members(t[k].target);
  }

  // ----- which ids have room in the bitmap

  ghost predicate AllHaveRoom(ts: seq<R.Target>) {
    forall i, s :: 0 <= i < |ts| && s in R.Members(ts[i]) ==> s.id < R.MAX_DEFINED_PEERS
  }

  lemma MemberIdsBelong(l: L.Lists, states: nat -> R.PeerState, online: bool, i: nat, s: R.PeerState)
    requires L.Assigned(l) && ById(states) && i < |l.sends| && s in R.Members(Targets(l, states, online)[i])
    ensures s.id < |l.peers|
  {
    assert s.id in R.AllIds(Targets(l, states, online)[i]);
    IdsBelong(l, l.sends[i], states, online, s.id);
  }

  /** The last peer listed is some entry's own. */
  lemma LastIsIn(l: L.Lists, entries: seq<L.Entry>, localIp: nat, states: nat -> R.PeerState, online: bool)
    requires L.Tracks(l, entries, localIp) && L.Sound(l) && L.EndsInOwn(l.peers) && |l.peers| > 1
    ensures IsIn(Targets(l, states, online), states(|l.peers| - 1))
  {
    var last := l.peers[|l.peers| - 1];
    assert L.FromEntry(last, entries, localIp);
    var i :| 0 <= i < |entries| && !L.Ignored(entries[i], localIp) && L.Brings(entries[i], last);
    assert L.EntryListed(l, entries[i]);
    var p := OwnIsIn(l, entries[i], states, online);
    SameAddress(l, p, last);
  }

  lemma SameAddress(l: L.Lists, p: L.Peer, q: L.Peer)
    requires L.Sound(l) && p in l.peers && q in l.peers && p.ip == q.ip && p.port == q.port
    ensures p == q
  {
  }

  /** Every peer that is queried has room in the bitmap if and only if the local peer, the entries that are not
      ignored and the groups are no more than 64. */
  lemma IdsFitIff(entries: seq<L.Entry>, localIp: nat, localPort: nat, states: nat -> R.PeerState, online: bool)
    requires |entries| < L.MAX_DEFINED_PEERS && L.DistinctEntries(entries, localIp) && ById(states)
    ensures AllHaveRoom(Targets(L.Build(L.EMPTY, entries, localIp, localPort), states, online))
            <==> L.Total(entries, localIp) <= R.MAX_DEFINED_PEERS
  {
    var l := L.Build(L.EMPTY, entries, localIp, localPort);
    var ts := Targets(l, states, online);
    L.DistinctEntriesAreListed(entries, localIp, localPort);
    if |l.peers| <= R.MAX_DEFINED_PEERS {
      forall i, s | 0 <= i < |ts| && s in R.Members(ts[i])
        ensures s.id < R.MAX_DEFINED_PEERS
      {
        MemberIdsBelong(l, states, online, i, s);
      }
    } else {
      LastIsIn(l, entries, localIp, states, online);
      var i :| 0 <= i < |ts| && states(|l.peers| - 1) in R.Members(ts[i]);
      assert states(|l.peers| - 1).id == |l.peers| - 1;
    }
  }

  lemma {:induction false} AtMostOneEach(entries: seq<L.Entry>, localIp: nat)
    ensures L.Own(entries, localIp) <= |entries|
  {
    if entries != [] {
      AtMostOneEach(entries[..|entries| - 1], localIp);
    }
  }

  predicate GroupFree(entries: seq<L.Entry>) {
    forall e :: e in entries ==> e.group.None?
  }

  lemma {:induction false} OnlyUnicast(tries: seq<R.Try>)
    requires forall i :: 0 <= i < |tries| ==> tries[i].target.Unicast?
    ensures R.Stale(tries) == {}
  {
    if tries != [] {
      OnlyUnicast(tries[..|tries| - 1]);
    }
  }

  lemma {:induction false} AllSent(tries: seq<R.Try>)
    requires forall i :: 0 <= i < |tries| ==> tries[i].ok
    ensures R.Stale(tries) == {}
  {
    if tries != [] {
      AllSent(tries[..|tries| - 1]);
    }
  }

  lemma ExpectedHaveRoom(ts: seq<R.Target>, bias: T.int32, oks: seq<bool>)
    requires CanSend(ts, bias, oks) && AllHaveRoom(ts)
    ensures R.HaveRoom(R.Expected(Tried(ts, bias, oks)))
  {
    S.CoversWithin(bias, |ts|, |ts|);
    var t := Tried(ts, bias, oks);
    forall id | id in R.Expected(t)
      ensures id < R.MAX_DEFINED_PEERS
    {
      var i := ExpectedIsMember(t, id);
      S.TriesAt(ts, bias, oks, |ts|, i);
    }
  }

  lemma {:induction false} ExpectedIsMember(tries: seq<R.Try>, id: nat) returns (i: nat)
    requires id in R.Expected(tries)
    ensures i < |tries| && exists s :: s in R.Members(tries[i].target) && s.id == id
  {
    var n := |tries| - 1;
    if id in R.Expected(tries[..n]) {
      i := ExpectedIsMember(tries[..n], id);
    } else {
      i := n;
    }
  }

  /** Without groups, misses end the wait exactly when every expected peer has answered: each of the at most 64
      peers has room, and nothing is left over. */
  lemma GroupFreeMissesEnd(entries: seq<L.Entry>, localIp: nat, localPort: nat, states: nat -> R.PeerState,
                           online: bool, bias: T.int32, oks: seq<bool>, ids: seq<nat>)
    requires |entries| < L.MAX_DEFINED_PEERS && L.DistinctEntries(entries, localIp) && ById(states)
    requires GroupFree(entries)
    requires CanSend(Targets(L.Build(L.EMPTY, entries, localIp, localPort), states, online), bias, oks)
    ensures var ts := Targets(L.Build(L.EMPTY, entries, localIp, localPort), states, online);
            R.Over(R.Misses(Sent(ts, bias, oks), ids)) <==> R.Expected(Tried(ts, bias, oks)) <= R.From(ids)
  {
    var l := L.Build(L.EMPTY, entries, localIp, localPort);
    var ts := Targets(l, states, online);
    ConfiguredPeersAreReached(entries, localIp, localPort, states, online, bias, oks);
    AtMostOneEach(entries, localIp);
    assert L.Groups(entries, localIp) == {};
    IdsFitIff(entries, localIp, localPort, states, online);
    ExpectedHaveRoom(ts, bias, oks);
    NoGroupsSent(entries, localIp, localPort, states, online, bias, oks);
    R.MissesEndTheWait(Tried(ts, bias, oks), ids);
  }

  lemma NoGroupsSent(entries: seq<L.Entry>, localIp: nat, localPort: nat, states: nat -> R.PeerState,
                     online: bool, bias: T.int32, oks: seq<bool>)
    requires |entries| < L.MAX_DEFINED_PEERS && L.DistinctEntries(entries, localIp) && GroupFree(entries)
    requires CanSend(Targets(L.Build(L.EMPTY, entries, localIp, localPort), states, online), bias, oks)
    ensures var ts := Targets(L.Build(L.EMPTY, entries, localIp, localPort), states, online);
            R.Stale(Tried(ts, bias, oks)) == {}
  {
    var l := L.Build(L.EMPTY, entries, localIp, localPort);
    var ts := Targets(l, states, online);
    L.DistinctEntriesAreListed(entries, localIp, localPort);
    forall i | 0 <= i < |ts|
      ensures ts[i].Unicast?
    {
      SentIsNoGroup(l, entries, localIp, l.sends[i]);
    }
    S.CoversWithin(bias, |ts|, |ts|);
    var t := Tried(ts, bias, oks);
    forall i | 0 <= i < |t|
      ensures t[i].target.Unicast?
    {
      S.TriesAt(ts, bias, oks, |ts|, i);
    }
    OnlyUnicast(t);
  }

  lemma SentIsNoGroup(l: L.Lists, entries: seq<L.Entry>, localIp: nat, p: L.Peer)
    requires L.SendsNumbered(l) && L.FromEntries(l, entries, localIp) && GroupFree(entries) && p in l.sends
    ensures !p.kind.MultiCast?
  {
    assert p in l.peers && L.FromEntry(p, entries, localIp);
  }

  // ----- a configuration in which an id has no room

  /** Members of k groups, each of its own. */
  function Grouped(k: nat): (entries: seq<L.Entry>)
    ensures |entries| == k
  {
    if k == 0 then [] else Grouped(k - 1) + [L.Entry(2 * k, 1, L.Some(L.Sibling), L.Some(2 * k + 1))]
  }

  lemma {:induction false} GroupedAt(k: nat, i: nat)
    requires i < k
    ensures Grouped(k)[i] == L.Entry(2 * i + 2, 1, L.Some(L.Sibling), L.Some(2 * i + 3))
  {
    if i < k - 1 {
      GroupedAt(k - 1, i);
    }
  }

  /** And one sibling without a group. */
  function Crowded(k: nat): seq<L.Entry> {
    Grouped(k) + [L.Entry(2 * k + 2, 1, L.Some(L.Sibling), L.None)]
  }

  lemma NextTotal(entries: seq<L.Entry>, e: L.Entry, own: nat, groups: set<(nat, nat)>)
    requires !L.Ignored(e, 0) && L.Own(entries, 0) == own && L.Groups(entries, 0) == groups
    ensures L.Own(entries + [e], 0) == own + 1
    ensures L.Groups(entries + [e], 0) == groups + if e.group.Some? then {(e.group.value, e.port)} else {}
  {
    assert (entries + [e])[..|entries|] == entries;
    L.GroupsNext(entries + [e], 0);
  }

  function Keys(k: nat): set<(nat, nat)> {
    if k == 0 then {} else Keys(k - 1) + {(2 * k + 1, 1)}
  }

  lemma {:induction false} KeysCount(k: nat)
    ensures |Keys(k)| == k && forall key :: key in Keys(k) ==> key.0 < 2 * k + 2
  {
    if k > 0 {
      KeysCount(k - 1);
      assert (2 * k + 1, 1) !in Keys(k - 1);
    }
  }

  lemma {:induction false} GroupedTotal(k: nat)
    ensures L.Own(Grouped(k), 0) == k && L.Groups(Grouped(k), 0) == Keys(k)
  {
    if k > 0 {
      GroupedTotal(k - 1);
      NextTotal(Grouped(k - 1), L.Entry(2 * k, 1, L.Some(L.Sibling), L.Some(2 * k + 1)), k - 1, Keys(k - 1));
    }
  }

  lemma CrowdedTotal(k: nat)
    ensures L.Total(Crowded(k), 0) == 2 * k + 2
  {
    GroupedTotal(k);
    KeysCount(k);
    NextTotal(Grouped(k), L.Entry(2 * k + 2, 1, L.Some(L.Sibling), L.None), k, Keys(k));
  }

  lemma CrowdedIsDistinct(k: nat)
    ensures L.DistinctEntries(Crowded(k), 0)
  {
    var e := Crowded(k);
    forall i | 0 <= i < k
      ensures e[i] == L.Entry(2 * i + 2, 1, L.Some(L.Sibling), L.Some(2 * i + 3))
    {
      GroupedAt(k, i);
    }
    assert forall i :: 0 <= i < |e| ==> e[i].ip == 2 * i + 2 && e[i].port == 1 && e[i].group != L.Some(0);
    assert forall i :: 0 <= i < |e| && e[i].group.Some? ==> e[i].group.value == 2 * i + 3;
  }

  lemma ExpectedWhenSent(tries: seq<R.Try>, i: nat, s: R.PeerState)
    requires i < |tries| && tries[i].ok && R.Online(tries[i].target)
    requires s in R.Members(tries[i].target) && R.Expects(s)
    ensures s.id in R.Expected(tries)
    decreases |tries|
  {
    var n := |tries| - 1;
    if i < n {
      ExpectedWhenSent(tries[..n], i, s);
    }
  }

  function Fresh(id: nat): R.PeerState {
    R.PeerState(id, true, 0, 0)
  }

  /** From 32 groups on the sibling gets an id above 64. All peers are up, every query is sent; and no misses,
      whatever their number, end the wait. */
  lemma CrowdedNeverEnds(k: nat, bias: T.int32, oks: seq<bool>, ids: seq<nat>)
    requires 32 <= k < L.MAX_DEFINED_PEERS - 1 && forall i :: 0 <= i < |oks| ==> oks[i]
    requires CanSend(Targets(L.Build(L.EMPTY, Crowded(k), 0, 1), Fresh, true), bias, oks)
    ensures L.DistinctEntries(Crowded(k), 0)
    ensures var ts := Targets(L.Build(L.EMPTY, Crowded(k), 0, 1), Fresh, true);
            !R.Over(R.Misses(Sent(ts, bias, oks), ids))
  {
    var ts := Targets(L.Build(L.EMPTY, Crowded(k), 0, 1), Fresh, true);
    CrowdedTotal(k);
    CrowdedIsDistinct(k);
    IdsFitIff(Crowded(k), 0, 1, Fresh, true);
    L.DistinctEntriesAreListed(Crowded(k), 0, 1);
    ConfiguredPeersAreReached(Crowded(k), 0, 1, Fresh, true, bias, oks);
    UnfitNeverEnds(L.Build(L.EMPTY, Crowded(k), 0, 1), bias, oks, ids);
  }

  lemma UnfitNeverEnds(l: L.Lists, bias: T.int32, oks: seq<bool>, ids: seq<nat>)
    requires L.Assigned(l) && L.Sound(l) && CanSend(Targets(l, Fresh, true), bias, oks)
    requires !AllHaveRoom(Targets(l, Fresh, true)) && forall i :: 0 <= i < |oks| ==> oks[i]
    ensures !R.Over(R.Misses(Sent(Targets(l, Fresh, true), bias, oks), ids))
  {
    var ts := Targets(l, Fresh, true);
    TargetsAreDistinct(l, Fresh, true);
    AllFresh(l);
    SendsWait(ts, bias, oks);
    AllOk(ts, bias, oks);
    UnfitIsExpected(ts, Tried(ts, bias, oks));
    AllSent(Tried(ts, bias, oks));
    R.MissesEndTheWait(Tried(ts, bias, oks), ids);
  }

  /** Online, and every member is expected to answer. */
  predicate Responsive(t: R.Target) {
    R.Online(t) && forall s :: s in R.Members(t) ==> R.Expects(s)
  }

  lemma AllFresh(l: L.Lists)
    ensures forall t :: t in Targets(l, Fresh, true) ==> Responsive(t)
  {
    forall i | 0 <= i < |l.sends|
      ensures Responsive(Target(l, l.sends[i], Fresh, true))
    {
      var t := Target(l, l.sends[i], Fresh, true);
      var ids := if l.sends[i].kind.MultiCast? then L.Members(l, (l.sends[i].ip, l.sends[i].port)) else [l.sends[i]];
      forall k | 0 <= k < |R.Members(t)|
        ensures R.Members(t)[k] == Fresh(ids[k].id)
      {
      }
    }
  }

  lemma UnfitIsExpected(ts: seq<R.Target>, t: seq<R.Try>)
    requires !AllHaveRoom(ts) && (forall p :: p in ts ==> Responsive(p) && S.WasTried(t, p))
    requires forall i :: 0 <= i < |t| ==> t[i].ok
    ensures !R.HaveRoom(R.Expected(t))
  {
    var i, s :| 0 <= i < |ts| && s in R.Members(ts[i]) && s.id >= R.MAX_DEFINED_PEERS;
    assert Responsive(ts[i]) && S.WasTried(t, ts[i]);
    var k :| 0 <= k < |t| && t[k].target == ts[i];
    ExpectedWhenSent(t, k, s);
  }

  lemma AllOk(ts: seq<R.Target>, bias: T.int32, oks: seq<bool>)
    requires CanSend(ts, bias, oks) && forall i :: 0 <= i < |oks| ==> oks[i]
    ensures var t := Tried(ts, bias, oks); forall i :: 0 <= i < |t| ==> t[i].ok
  {
    S.CoversWithin(bias, |ts|, |ts|);
    var t := Tried(ts, bias, oks);
    forall i | 0 <= i < |t|
      ensures t[i].ok
    {
      S.TriesAt(ts, bias, oks, |ts|, i);
    }
  }
}
