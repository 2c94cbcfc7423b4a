/** Which replies an ICP request waits for: a byte array holds one bit for each peer that is expected to
    answer. */
module IcpBitMap {

  function Mask(k: nat): bv8
    requires k < 8
  {
    (1 as bv8) << k
  }

  predicate IsSet(x: bv8, k: nat)
    requires k < 8
  {
    x & Mask(k) != 0
  }

  lemma OrSets(x: bv8, j: nat, k: nat)
    requires j < 8 && k < 8
    ensures IsSet(x | Mask(k), j) <==> IsSet(x, j) || j == k
  {
  }

  lemma AndClears(x: bv8, j: nat, k: nat)
    requires j < 8 && k < 8
    ensures IsSet(x & !Mask(k), j) <==> IsSet(x, j) && j != k
  {
  }

  /** The set of positions below `size` whose bit is set. */
  function Bits(bytes: seq<bv8>, size: nat): (s: set<nat>)
    requires size <= 8 * |bytes|
  {
    set b: nat | 0 <= b < size && IsSet(bytes[b / 8], b % 8)
  }

  lemma SetBits(bytes: seq<bv8>, size: nat, bit: nat)
    requires bit < size <= 8 * |bytes|
    ensures Bits(bytes[bit / 8 := bytes[bit / 8] | Mask(bit % 8)], size) == Bits(bytes, size) + {bit}
  {
    var bytes' := bytes[bit / 8 := bytes[bit / 8] | Mask(bit % 8)];
    forall b: nat | b < size
      ensures b in Bits(bytes', size) <==> b in Bits(bytes, size) || b == bit
    {
      OrSets(bytes[bit / 8], b % 8, bit % 8);
    }
  }

  lemma ClearBits(bytes: seq<bv8>, size: nat, bit: nat)
    requires bit < size <= 8 * |bytes|
    ensures Bits(bytes[bit / 8 := bytes[bit / 8] & !Mask(bit % 8)], size) == Bits(bytes, size) - {bit}
  {
    var bytes' := bytes[bit / 8 := bytes[bit / 8] & !Mask(bit % 8)];
    forall b: nat | b < size
      ensures b in Bits(bytes', size) <==> b in Bits(bytes, size) && b != bit
    {
      AndClears(bytes[bit / 8], b % 8, bit % 8);
    }
  }

  lemma ZeroBits(bytes: seq<bv8>, size: nat)
    requires size <= 8 * |bytes| && forall i :: 0 <= i < |bytes| ==> bytes[i] == 0
    ensures Bits(bytes, size) == {}
  {
  }

  class BitMap {
    const size: nat
    const bytes: array<bv8>

    ghost predicate Valid()
      reads this
    {
      size <= 8 * bytes.Length
    }

    function Contents(): (s: set<nat>)
      requires Valid()
      reads this, bytes
    {
      Bits(bytes[..], size)
    }

    /** 16 bytes when they are enough. */
    constructor (size: nat)
      ensures Valid() && fresh(bytes) && this.size == size && Contents() == {}
    {
      this.size := size;
      bytes := new bv8[if size <= 128 then 16 else (size + 7) / 8](_ => 0);
      new;
      ZeroBits(bytes[..], size);
    }

    /** A position beyond the size is ignored. */
    method SetBit(bit: nat)
      requires Valid()
      modifies bytes
      ensures Contents() == if bit < size then old(Contents()) + {bit} else old(Contents())
    {
      if bit >= size { return; }
      SetBits(bytes[..], size, bit);
      ghost var was := bytes[..];
      bytes[bit / 8] := bytes[bit / 8] | Mask(bit % 8);
      assert bytes[..] == was[bit / 8 := was[bit / 8] | Mask(bit % 8)];
    }

    method ClearBit(bit: nat)
      requires Valid()
      modifies bytes
      ensures Contents() == old(Contents()) - {bit}
    {
      if bit >= size { return; }
      ClearBits(bytes[..], size, bit);
      ghost var was := bytes[..];
      bytes[bit / 8] := bytes[bit / 8] & !Mask(bit % 8);
      assert bytes[..] == was[bit / 8 := was[bit / 8] & !Mask(bit % 8)];
    }

    method IsBitSet(bit: nat) returns (r: bool)
      requires Valid()
      ensures r <==> bit in Contents()
    {
      if bit >= size { return false; }
      r := bytes[bit / 8] & Mask(bit % 8) != 0;
    }
  }
}

/** Counting replies: what a request expects after its sends, and when it stops waiting. */
module IcpReplies {

  const MAX_DEFINED_PEERS := 64
  const OFFLINE_THRESHOLD := 20

  datatype Option<T> = None | Some(value: T)

  /** A unicast peer: whether it is marked up, and how many messages went out to it and came back. */
  datatype PeerState = PeerState(id: nat, up: bool, sent: int, received: int)

  predicate Expects(p: PeerState) {
    p.up && p.sent - p.received <= OFFLINE_THRESHOLD
  }

  /** Asking whether a reply is expected marks the peer down when it is not. */
  function Asked(p: PeerState): PeerState {
    p.(up := Expects(p))
  }

  function Sent(p: PeerState, ok: bool): PeerState {
    if ok then Asked(p).(sent := p.sent + 1) else Asked(p)
  }

  /** Any message brings a peer back up and restarts its count. */
  function Heard(p: PeerState): PeerState {
    if p.up then p.(received := p.received + 1) else p.(up := true, received := p.sent)
  }

  datatype Wait = Wait(expected: int, received: int, bits: set<nat>)

  function SetBit(bits: set<nat>, id: nat): set<nat> {
    if id < MAX_DEFINED_PEERS then bits + {id} else bits
  }

  function One(b: bool): nat {
    if b then 1 else 0
  }

  /** What queries go to: a unicast peer, or a multicast group, which is passed over unless multicast is
      configured (`online`). */
  datatype Target = Unicast(peer: PeerState) | Group(id: nat, online: bool, members: seq<PeerState>)

  function Members(t: Target): seq<PeerState> {
    if t.Unicast? then [t.peer] else t.members
  }

  function Id(t: Target): nat {
    if t.Unicast? then t.peer.id else t.id
  }

  predicate Online(t: Target) {
    t.Group? ==> t.online
  }

  /** How many of the peers a reply is expected from. */
  function Count(ps: seq<PeerState>): nat {
    if ps == [] then 0 else Count(ps[..|ps| - 1]) + One(Expects(ps[|ps| - 1]))
  }

  function SetBits(bits: set<nat>, ps: seq<PeerState>): set<nat> {
    if ps == [] then bits
    else
      var last, before := ps[|ps| - 1], SetBits(bits, ps[..|ps| - 1]);
      if Expects(last) then SetBit(before, last.id) else before
  }

  function SentAll(ps: seq<PeerState>, ok: bool): (r: seq<PeerState>)
    ensures |r| == |ps|
  {
    seq(|ps|, i requires 0 <= i < |ps| => Sent(ps[i], ok))
  }

  function SentTo(t: Target, ok: bool): Target {
    if !Online(t) then t
    else if t.Unicast? then Unicast(Sent(t.peer, ok))
    else Group(t.id, t.online, SentAll(t.members, ok))
  }

  /** The expectation is recorded before the send. When the send fails, the number is taken back, and the
      one bit of the target's own id. */
  function SendOne(w: Wait, t: Target, ok: bool): Wait {
    if !Online(t) then w
    else
      var bits := SetBits(w.bits, Members(t));
      if ok then w.(expected := w.expected + Count(Members(t)), bits := bits) else w.(bits := bits - {Id(t)})
  }

  /** A message to a target, and whether the send succeeded. */
  datatype Try = Try(target: Target, ok: bool)

  function SendAll(tries: seq<Try>, w: Wait): Wait {
    if tries == [] then w
    else SendOne(SendAll(tries[..|tries| - 1], w), tries[|tries| - 1].target, tries[|tries| - 1].ok)
  }

  /** The ids of the peers among these that a reply is expected from. */
  function Expecting(ps: seq<PeerState>): (s: set<nat>) {
    set p | p in ps && Expects(p) :: p.id
  }

  function Answering(t: Try): set<nat> {
    if Online(t.target) && t.ok then Expecting(Members(t.target)) else {}
  }

  /** The members of a group whose query could not be sent: their bits stay. */
  function LeftOver(t: Try): set<nat> {
    if t.target.Group? && t.target.online && !t.ok then Expecting(t.target.members) else {}
  }

  /** The peers that will answer. */
  function Expected(tries: seq<Try>): set<nat> {
    if tries == [] then {} else Expected(tries[..|tries| - 1]) + Answering(tries[|tries| - 1])
  }

  function Stale(tries: seq<Try>): set<nat> {
    if tries == [] then {} else Stale(tries[..|tries| - 1]) + LeftOver(tries[|tries| - 1])
  }

  /** The target's own id and those of its members. */
  function AllIds(t: Target): (s: set<nat>) {
    {Id(t)} + set p | p in Members(t) :: p.id
  }

  ghost predicate DistinctMembers(t: Target) {
    && (forall i, j :: 0 <= i < j < |Members(t)| ==> Members(t)[i].id != Members(t)[j].id)
    && (t.Group? ==> forall p :: p in t.members ==> p.id != t.id)
  }

  ghost predicate DistinctIds(tries: seq<Try>) {
    && (forall i :: 0 <= i < |tries| ==> DistinctMembers(tries[i].target))
    && (forall i, j :: 0 <= i < j < |tries| ==> AllIds(tries[i].target) !! AllIds(tries[j].target))
  }

  function Low(ids: set<nat>): (s: set<nat>) {
    set id | id in ids && id < MAX_DEFINED_PEERS
  }

  const FRESH := Wait(0, 0, {})

  lemma {:induction false} BitsOfExpecting(bits: set<nat>, ps: seq<PeerState>)
    ensures SetBits(bits, ps) == bits + Low(Expecting(ps))
  {
    if ps != [] {
      var n := |ps| - 1;
      BitsOfExpecting(bits, ps[..n]);
      ExpectingNext(ps);
    }
  }

  lemma ExpectingNext(ps: seq<PeerState>)
    requires ps != []
    ensures var n := |ps| - 1; Expecting(ps) == Expecting(ps[..n]) + if Expects(ps[n]) then {ps[n].id} else {}
  {
    assert ps == ps[..|ps| - 1] + [ps[|ps| - 1]];
  }

  lemma {:induction false} CountOfExpecting(ps: seq<PeerState>)
    requires forall i, j :: 0 <= i < j < |ps| ==> ps[i].id != ps[j].id
    ensures Count(ps) == |Expecting(ps)|
  {
    if ps != [] {
      var n := |ps| - 1;
      CountOfExpecting(ps[..n]);
      ExpectingNext(ps);
      assert forall p :: p in ps[..n] ==> p.id != ps[n].id;
    }
  }

  /** Whoever is expected, or left over, belongs to a target that was tried. */
  lemma {:induction false} ExpectedAreTried(tries: seq<Try>, id: nat)
    requires id in Expected(tries) || id in Stale(tries)
    ensures exists i :: 0 <= i < |tries| && id in AllIds(tries[i].target)
  {
    var n := |tries| - 1;
    if id in Expected(tries[..n]) || id in Stale(tries[..n]) {
      ExpectedAreTried(tries[..n], id);
      var i :| 0 <= i < n && id in AllIds(tries[..n][i].target);
      assert id in AllIds(tries[i].target);
    } else {
      assert id in AllIds(tries[n].target);
    }
  }

  lemma TriedBefore(tries: seq<Try>, n: nat)
    requires DistinctIds(tries) && n == |tries| - 1
    ensures Expected(tries[..n]) !! AllIds(tries[n].target) && Stale(tries[..n]) !! AllIds(tries[n].target)
  {
    forall id | id in Expected(tries[..n]) || id in Stale(tries[..n])
      ensures id !in AllIds(tries[n].target)
    {
      ExpectedAreTried(tries[..n], id);
      var i :| 0 <= i < n && id in AllIds(tries[..n][i].target);
      assert tries[..n][i] == tries[i];
    }
  }

  lemma OneTry(w: Wait, t: Try)
    requires DistinctMembers(t.target) && Id(t.target) !in w.bits
    ensures var w' := SendOne(w, t.target, t.ok);
            && w'.expected == w.expected + |Answering(t)| && w'.received == w.received
            && w'.bits == w.bits + Low(Answering(t) + LeftOver(t))
    ensures Answering(t) !! LeftOver(t)
    ensures Answering(t) + LeftOver(t) <= AllIds(t.target)
  {
    BitsOfExpecting(w.bits, Members(t.target));
    CountOfExpecting(Members(t.target));
  }

  ghost predicate Counted(w: Wait, expected: set<nat>, stale: set<nat>) {
    w.expected == |expected| && w.bits == Low(expected + stale) && w.received == 0 && expected !! stale
  }

  lemma CountedNext(w: Wait, e: set<nat>, s: set<nat>, t: Try)
    requires Counted(w, e, s) && DistinctMembers(t.target)
    requires e !! AllIds(t.target) && s !! AllIds(t.target)
    ensures Counted(SendOne(w, t.target, t.ok), e + Answering(t), s + LeftOver(t))
  {
    assert Id(t.target) !in w.bits by {
      assert Id(t.target) in AllIds(t.target);
    }
    OneTry(w, t);
    JoinIds(w, SendOne(w, t.target, t.ok), e, s, Answering(t), LeftOver(t), AllIds(t.target));
  }

  lemma JoinIds(w: Wait, w': Wait, e: set<nat>, s: set<nat>, answering: set<nat>, left: set<nat>, all: set<nat>)
    requires Counted(w, e, s) && answering !! left && e !! all && s !! all && answering + left <= all
    requires w'.expected == w.expected + |answering| && w'.received == w.received
    requires w'.bits == w.bits + Low(answering + left)
    ensures Counted(w', e + answering, s + left)
  {
    assert Low((e + answering) + (s + left)) == Low(e + s) + Low(answering + left);
  }

  /** After the sends the count is the number of peers that will answer. The bits are those of them that the
      bitmap has room for, and those of the members of groups whose query could not be sent. */
  lemma {:induction false} SendsCount(tries: seq<Try>)
    requires DistinctIds(tries)
    ensures Counted(SendAll(tries, FRESH), Expected(tries), Stale(tries))
  {
    if tries != [] {
      var n := |tries| - 1;
      SendsCount(tries[..n]);
      TriedBefore(tries, n);
      CountedNext(SendAll(tries[..n], FRESH), Expected(tries[..n]), Stale(tries[..n]), tries[n]);
    }
  }

  // ----- misses

  /** A miss counts once, from a peer whose bit is set; it ends the wait when nothing more is expected. */
  function Miss(w: Wait, id: nat): Wait {
    if id in w.bits then w.(bits := w.bits - {id}, received := w.received + 1) else w
  }

  predicate Over(w: Wait) {
    w.received >= w.expected
  }

  function Misses(w: Wait, ids: seq<nat>): Wait {
    if ids == [] then w else Miss(Misses(w, ids[..|ids| - 1]), ids[|ids| - 1])
  }

  function From(ids: seq<nat>): (s: set<nat>) {
    set id | id in ids
  }

  lemma {:induction false} MissesClear(w: Wait, ids: seq<nat>)
    ensures var v := Misses(w, ids);
            v.expected == w.expected && v.bits == w.bits - From(ids) && v.received + |v.bits| == w.received + |w.bits|
  {
    if ids != [] {
      var n := |ids| - 1;
      MissesClear(w, ids[..n]);
      assert ids == ids[..n] + [ids[n]];
    }
  }

  lemma LowCard(ids: set<nat>)
    ensures |ids| == |Low(ids)| + |ids - Low(ids)|
    ensures |Low(ids)| == |ids| <==> HaveRoom(ids)
  {
    assert ids == Low(ids) + (ids - Low(ids));
    if HaveRoom(ids) {
      assert Low(ids) == ids;
    } else {
      var id :| id in ids && id >= MAX_DEFINED_PEERS;
      assert id in ids - Low(ids);
    }
  }

  predicate HaveRoom(ids: set<nat>) {
    forall id :: id in ids ==> id < MAX_DEFINED_PEERS
  }

  lemma LowSum(a: set<nat>, b: set<nat>)
    requires a !! b
    ensures Low(a + b) == Low(a) + Low(b) && |Low(a + b)| == |Low(a)| + |Low(b)|
  {
    assert Low(a + b) == Low(a) + Low(b);
  }

  /** While the request waits, the replies counted and the bits set make up the expected number, plus the
      bits left over, less the peers without room; so without the former they are equal if and only if
      every expected peer has room in the bitmap. */
  lemma RepliesAndBits(tries: seq<Try>, ids: seq<nat>)
    requires DistinctIds(tries)
    ensures var w, e := Misses(SendAll(tries, FRESH), ids), Expected(tries);
            && w.received + |w.bits| == w.expected + |Low(Stale(tries))| - |e - Low(e)|
            && (Low(Stale(tries)) == {} ==> (w.received + |w.bits| == w.expected <==> HaveRoom(e)))
  {
    SendsCount(tries);
    MissesClear(SendAll(tries, FRESH), ids);
    LowCard(Expected(tries));
    LowSum(Expected(tries), Stale(tries));
  }

  /** Misses end a wait when as many peers whose bit is set have answered as are expected. So if no bits are
      left over they end it exactly when every expected peer has answered, whoever else answered and however
      often; and never, if an expected peer has no room in the bitmap. */
  lemma MissesEndTheWait(tries: seq<Try>, ids: seq<nat>)
    requires DistinctIds(tries)
    ensures var over := Over(Misses(SendAll(tries, FRESH), ids));
            && (over <==> |Low(Expected(tries) + Stale(tries)) * From(ids)| >= |Expected(tries)|)
            && (Low(Stale(tries)) == {} ==> (over <==> Expected(tries) <= From(ids) && HaveRoom(Expected(tries))))
  {
    var e, s := Expected(tries), Stale(tries);
    SendsCount(tries);
    MissesClear(SendAll(tries, FRESH), ids);
    Answered(Low(e + s), From(ids));
    if Low(s) == {} {
      LowSum(e, s);
      LowAnswers(e, From(ids));
    }
  }

  lemma Answered(bits: set<nat>, ans: set<nat>)
    ensures |bits| - |bits - ans| == |bits * ans|
  {
    assert bits == (bits - ans) + bits * ans;
  }

  lemma LowAnswers(e: set<nat>, ans: set<nat>)
    ensures |Low(e) * ans| >= |e| <==> e <= ans && HaveRoom(e)
  {
    var a := Low(e) * ans;
    assert e == a + (e - a);
    assert |e| == |a| + |e - a|;
    if e <= ans && HaveRoom(e) {
      assert a == e;
    } else {
      var id :| id in e && (id !in ans || id >= MAX_DEFINED_PEERS);
      assert id in e - a;
    }
  }

  lemma {:induction false} Listed(s: set<nat>) returns (ids: seq<nat>)
    ensures From(ids) == s
    decreases s
  {
    if s == {} {
      ids := [];
    } else {
      var x :| x in s;
      var rest := Listed(s - {x});
      ids := rest + [x];
      assert From(ids) == From(rest) + {x};
    }
  }

  /** Whatever misses come in, they end the wait exactly when every expected peer has answered: if and only
      if nobody is expected, or every expected peer has room in the bitmap and no bits are left over. */
  lemma MissesAreExactIff(tries: seq<Try>)
    requires DistinctIds(tries)
    ensures (forall ids :: Over(Misses(SendAll(tries, FRESH), ids)) <==> Expected(tries) <= From(ids))
            <==> Expected(tries) == {} || (HaveRoom(Expected(tries)) && Low(Stale(tries)) == {})
  {
    var e, s := Expected(tries), Stale(tries);
    SendsCount(tries);
    forall ids
      ensures Over(Misses(SendAll(tries, FRESH), ids)) <==> |Low(e + s) * From(ids)| >= |e|
      ensures Low(s) == {} ==> (Over(Misses(SendAll(tries, FRESH), ids)) <==> e <= From(ids) && HaveRoom(e))
    {
      MissesEndTheWait(tries, ids);
    }
    if e != {} && !HaveRoom(e) {
      var ids := Listed(e);
      NoRoomNeverEnds(e, s);
      assert !Over(Misses(SendAll(tries, FRESH), ids));
    } else if e != {} && Low(s) != {} {
      var x, ans := LeftOverEndsEarly(e, s);
      var ids := Listed(ans);
      assert Over(Misses(SendAll(tries, FRESH), ids)) && x !in From(ids);
    }
  }

  lemma NoRoomNeverEnds(e: set<nat>, s: set<nat>)
    requires e !! s && !HaveRoom(e)
    ensures |Low(e + s) * e| < |e|
  {
    assert Low(e + s) * e == Low(e);
    LowCard(e);
  }

  lemma LeftOverEndsEarly(e: set<nat>, s: set<nat>) returns (x: nat, ans: set<nat>)
    requires e !! s && HaveRoom(e) && e != {} && Low(s) != {}
    ensures x in e && x !in ans && |Low(e + s) * ans| >= |e|
  {
    x :| x in e;
    var y :| y in Low(s);
    ans := e - {x} + {y};
    assert Low(e + s) * ans == ans;
    assert |ans| == |e|;
  }

  /** The query to a group with one member fails, that to another peer is sent; then a miss of the member ends
      the wait for the other peer. */
  lemma LeftOverBitEndsTheWait()
    ensures var group, other := Group(1, true, [PeerState(2, true, 0, 0)]), Unicast(PeerState(3, true, 0, 0));
            var tries := [Try(group, false), Try(other, true)];
            DistinctIds(tries) && Expected(tries) == {3} && Over(Misses(SendAll(tries, FRESH), [2]))
  {
    var a, b := Try(Group(1, true, [PeerState(2, true, 0, 0)]), false), Try(Unicast(PeerState(3, true, 0, 0)), true);
    TwoTries(a, b);
    OneExpecting(PeerState(2, true, 0, 0));
    OneExpecting(PeerState(3, true, 0, 0));
    TwoAnswers([a, b]);
  }

  lemma OneExpecting(p: PeerState)
    requires Expects(p)
    ensures Expecting([p]) == {p.id}
  {
    assert p in [p];
  }

  lemma TwoAnswers(tries: seq<Try>)
    requires DistinctIds(tries) && Expected(tries) == {3} && Stale(tries) == {2}
    ensures Over(Misses(SendAll(tries, FRESH), [2]))
  {
    MissesEndTheWait(tries, [2]);
    assert Low({3} + {2}) * From([2]) == {2};
  }

  lemma TwoTries(a: Try, b: Try)
    ensures Expected([a, b]) == Answering(a) + Answering(b) && Stale([a, b]) == LeftOver(a) + LeftOver(b)
  {
    var one := [a];
    var two := [a, b];
    assert two[..1] == one && one[..0] == [];
    assert Expected(one) == Answering(a) && Stale(one) == LeftOver(a);
  }
}

/** Peers are taken in turn, from a starting point that moves with every use. The counters are signed 32-bit
    integers that are only ever incremented. */
module IcpRoundRobin {
  import opened IcpReplies

  const INT_END := 0x8000_0000

  type int32 = x: int | -INT_END <= x < INT_END

  // ----- turns without overflow

  /** The index of the n-th peer after a bias. */
  function Nth(bias: nat, n: nat, count: nat): nat
    requires count > 0
  {
    (bias + n) % count
  }

  lemma NthOnce(bias: nat, m: nat, n: nat, count: nat)
    requires count > 0 && m < n < m + count
    ensures Nth(bias, m, count) != Nth(bias, n, count)
  {
    var i, j := (bias + m) / count, (bias + n) / count;
    assert bias + m == count * i + Nth(bias, m, count) && bias + n == count * j + Nth(bias, n, count);
    if Nth(bias, m, count) == Nth(bias, n, count) {
      assert n - m == count * (j - i);
      Multiples(count, j - i);
    }
  }

  lemma Multiples(c: nat, k: int)
    requires c > 0
    ensures k > 0 ==> c * k >= c
    ensures k <= 0 ==> c * k <= 0
  {
  }

  /** Any index is met in as many turns as there are peers. */
  lemma NthTurn(bias: nat, k: nat, count: nat)
    requires k < count
    ensures exists n :: 0 <= n < count && Nth(bias, n, count) == k
  {
    var q, r := bias / count, bias % count;
    var n := if k >= r then k - r else k - r + count;
    assert bias == count * q + r;
    assert bias + n == count * (if k >= r then q else q + 1) + k;
    ModUnique(bias + n, count, if k >= r then q else q + 1, k);
    assert 0 <= n < count && Nth(bias, n, count) == k;
  }

  lemma ModUnique(x: nat, c: nat, q: nat, r: nat)
    requires c > 0 && x == c * q + r && r < c
    ensures x % c == r
  {
    var d := x / c;
    assert c * (q - d) == x % c - r;
    Multiples(c, q - d);
    Multiples(c, d - q);
    assert c * (d - q) == r - x % c;
  }

  lemma NotBothMultiples(x: nat, c: nat)
    requires c >= 2
    ensures x % c != 0 || (x + 1) % c != 0
  {
    if x % c == 0 {
      ModUnique(x + 1, c, x / c, 1);
    }
  }

  // ----- turns of a 32-bit counter

  /** The remainder as C takes it, with the sign of its first operand. */
  function CMod(x: int, c: nat): (r: int)
    requires c > 0
    ensures r < c
  {
    if x >= 0 then x % c else -((-x) % c)
  }

  /** A sum that wraps at most once. */
  function Wrap(x: int): int32
    requires -INT_END <= x < 2 * INT_END
  {
    if x >= INT_END then x - 2 * INT_END else x
  }

  function Index(bias: int32, n: nat, count: nat): (r: int)
    requires n <= count && 0 < count < INT_END
    ensures r < count
  {
    CMod(Wrap(bias + n), count)
  }

  /** A negative sum has a negative index, before the list, unless it is a multiple of the number of peers. */
  lemma IndexInRange(bias: int32, n: nat, count: nat)
    requires n <= count && 0 < count < INT_END
    ensures var sum: int := Wrap(bias + n); 0 <= Index(bias, n, count) <==> sum >= 0 || -sum % count == 0
  {
  }

  /** Neither the turns 1 .. count nor the counter itself is negative; but the last sum may be one too
      large if it falls on a multiple. */
  predicate Covers(bias: int32, count: nat)
    requires 0 < count < INT_END
  {
    count == 1
    || (bias >= -1 && (bias + count < INT_END || (bias + count == INT_END && INT_END % count == 0)))
  }

  lemma CoveredIndex(bias: int32, n: nat, count: nat)
    requires 0 < count < INT_END && Covers(bias, count) && 1 <= n <= count
    ensures Index(bias, n, count) == if count == 1 then 0 else Nth(bias + 1, n - 1, count)
  {
    if bias + n == INT_END && count > 1 {
      assert INT_END % count == 0;
    }
  }

  lemma NegativeTurn(bias: int32, count: nat) returns (n: nat)
    requires 2 <= count < INT_END && bias < -1
    ensures 1 <= n <= 2 && Index(bias, n, count) < 0
  {
    IndexInRange(bias, 1, count);
    IndexInRange(bias, 2, count);
    if bias == -2 {
      ModUnique(1, count, 0, 1);
      n := 1;
    } else {
      NotBothMultiples(-(bias + 2), count);
      n := if Index(bias, 1, count) < 0 then 1 else 2;
    }
  }

  lemma WrappedTurn(bias: int32, count: nat) returns (n: nat)
    requires 2 <= count < INT_END && bias >= -1 && bias + count > INT_END
    ensures count - 1 <= n <= count && Index(bias, n, count) < 0
  {
    IndexInRange(bias, count, count);
    IndexInRange(bias, count - 1, count);
    NotBothMultiples(2 * INT_END - bias - count, count);
    n := if Index(bias, count, count) < 0 then count else count - 1;
  }

  lemma UncoveredTurn(bias: int32, count: nat) returns (n: nat)
    requires 0 < count < INT_END && !Covers(bias, count)
    ensures 1 <= n <= count && Index(bias, n, count) < 0
  {
    if bias < -1 {
      n := NegativeTurn(bias, count);
    } else if bias + count > INT_END {
      n := WrappedTurn(bias, count);
    } else {
      IndexInRange(bias, count, count);
      n := count;
    }
  }

  /** All of count turns stay in the list if and only if the counter covers them. */
  lemma AllTurnsInRange(bias: int32, count: nat)
    requires 0 < count < INT_END
    ensures (forall n :: 1 <= n <= count ==> 0 <= Index(bias, n, count)) <==> Covers(bias, count)
  {
    if Covers(bias, count) {
      forall n | 1 <= n <= count
        ensures 0 <= Index(bias, n, count)
      {
        CoveredIndex(bias, n, count);
      }
    } else {
      var n := UncoveredTurn(bias, count);
    }
  }

  lemma IndexOnce(bias: int32, m: nat, n: nat, count: nat)
    requires 0 < count < INT_END && Covers(bias, count) && 1 <= m < n <= count
    ensures Index(bias, m, count) != Index(bias, n, count)
  {
    CoveredIndex(bias, m, count);
    CoveredIndex(bias, n, count);
    NthOnce(bias + 1, m - 1, n - 1, count);
  }

  lemma IndexTurn(bias: int32, count: nat, k: nat)
    requires k < count < INT_END && Covers(bias, count)
    ensures exists n :: 1 <= n <= count && Index(bias, n, count) == k
  {
    if count == 1 {
      CoveredIndex(bias, 1, count);
    } else {
      NthTurn(bias + 1, k, count);
      var m :| 0 <= m < count && Nth(bias + 1, m, count) == k;
      CoveredIndex(bias, m + 1, count);
    }
  }

  predicate Meets(bias: int32, count: nat, n: nat, k: nat)
    requires 0 < count < INT_END
  {
    1 <= n <= count && Index(bias, n, count) == k
  }

  /** While the counter covers the turns, the send loop, n counting down from the number of peers to 1, and
      the parent loops, whose counter goes up by as many, meet every peer exactly once. */
  lemma EachPeerOnce(bias: int32, count: nat, k: nat)
    requires k < count < INT_END && Covers(bias, count)
    ensures exists n :: Meets(bias, count, n, k)
    ensures forall m, n :: Meets(bias, count, m, k) && Meets(bias, count, n, k) ==> m == n
  {
    IndexTurn(bias, count, k);
    var i :| 1 <= i <= count && Index(bias, i, count) == k;
    assert Meets(bias, count, i, k);
    forall m, n | Meets(bias, count, m, k) && Meets(bias, count, n, k)
      ensures m == n
    {
      if m < n {
        IndexOnce(bias, m, n, count);
      } else if n < m {
        IndexOnce(bias, n, m, count);
      }
    }
  }

  // ----- choosing a parent

  datatype Parent = Parent(id: nat, up: bool)

  predicate Eligible(p: Parent, unanswered: set<nat>) {
    p.up && p.id !in unanswered
  }

  /** `Outside`: the index is before the list, and what happens then is not modelled. */
  datatype Choice = Nobody | Chosen(k: nat) | Outside

  /** At most n turns, starting after cur: the first eligible parent met, and the counter afterwards. */
  function Pick(parents: seq<Parent>, unanswered: set<nat>, cur: int32, n: nat): (r: (Choice, int32))
    requires 0 < |parents| < INT_END
    ensures r.0.Chosen? ==> r.0.k < |parents| && Eligible(parents[r.0.k], unanswered)
    decreases n
  {
    if n == 0 then (Nobody, cur)
    else
      var k := Index(cur, 1, |parents|);
      if k < 0 then (Outside, Wrap(cur + 1))
      else if Eligible(parents[k], unanswered) then (Chosen(k), Wrap(cur + 1))
      else Pick(parents, unanswered, Wrap(cur + 1), n - 1)
  }

  /** Turn i meets a parent that is not eligible. */
  predicate Passed(parents: seq<Parent>, unanswered: set<nat>, cur: int32, i: nat)
    requires 0 < |parents| < INT_END && i <= |parents|
  {
    0 <= Index(cur, i, |parents|) && !Eligible(parents[Index(cur, i, |parents|)], unanswered)
  }

  /** The choice is made in turn t, after turns that met nobody. */
  predicate Stops(parents: seq<Parent>, unanswered: set<nat>, cur: int32, r: (Choice, int32), t: nat)
    requires 0 < |parents| < INT_END && t <= |parents|
  {
    && r.1 == Wrap(cur + t)
    && (forall i :: 1 <= i < t ==> Passed(parents, unanswered, cur, i))
    && match r.0
       case Nobody => t == 0 || Passed(parents, unanswered, cur, t)
       case Chosen(k) => t > 0 && k == Index(cur, t, |parents|)
       case Outside => t > 0 && Index(cur, t, |parents|) < 0
  }

  lemma {:induction false} PickIsFirst(parents: seq<Parent>, unanswered: set<nat>, cur: int32, n: nat) returns (t: nat)
    requires n <= |parents| && 0 < |parents| < INT_END
    ensures t <= n && Stops(parents, unanswered, cur, Pick(parents, unanswered, cur, n), t)
    ensures Pick(parents, unanswered, cur, n).0.Nobody? ==> t == n
    decreases n
  {
    if n == 0 {
      t := 0;
    } else if Passed(parents, unanswered, cur, 1) {
      var cur' := Wrap(cur + 1);
      t := PickIsFirst(parents, unanswered, cur', n - 1);
      forall i | 1 <= i < t + 1
        ensures Passed(parents, unanswered, cur, i) <==> i == 1 || Passed(parents, unanswered, cur', i - 1)
      {
      }
      t := t + 1;
    } else {
      t := 1;
    }
  }

  /** The loop finds an eligible parent if and only if there is one. */
  predicate Finds(parents: seq<Parent>, unanswered: set<nat>, cur: int32)
    requires 0 < |parents| < INT_END
  {
    var k := Pick(parents, unanswered, cur, |parents|).0;
    !k.Outside? && (k.Chosen? <==> exists p | p in parents :: Eligible(p, unanswered))
  }

  lemma PickFinds(parents: seq<Parent>, unanswered: set<nat>, cur: int32)
    requires 0 < |parents| < INT_END && Covers(cur, |parents|)
    ensures Finds(parents, unanswered, cur)
  {
    var c := |parents|;
    var k := Pick(parents, unanswered, cur, c).0;
    var t := PickIsFirst(parents, unanswered, cur, c);
    AllTurnsInRange(cur, c);
    if k.Nobody? {
      forall p | p in parents
        ensures !Eligible(p, unanswered)
      {
        var j :| 0 <= j < c && parents[j] == p;
        IndexTurn(cur, c, j);
        var n :| 1 <= n <= c && Index(cur, n, c) == j;
        assert Passed(parents, unanswered, cur, n);
      }
    } else if k.Chosen? {
      assert parents[k.k] in parents;
    }
  }

  /** It does so for every list of parents, up or down, if and only if the counter covers the turns. */
  lemma PickFindsIffCovers(cur: int32, count: nat)
    requires 0 < count < INT_END
    ensures (forall parents :: |parents| == count ==> Finds(parents, {}, cur)) <==> Covers(cur, count)
  {
    if Covers(cur, count) {
      forall parents | |parents| == count
        ensures Finds(parents, {}, cur)
      {
        PickFinds(parents, {}, cur);
      }
    } else {
      var down := seq(count, i => Parent(0, false));
      var n := UncoveredTurn(cur, count);
      var t := PickIsFirst(down, {}, cur, count);
      assert n <= t ==> Passed(down, {}, cur, n) || n == t;
      assert !Finds(down, {}, cur);
    }
  }

  /** The counter after some uses. */
  function Used(cur: int32, uses: nat): int32 {
    if uses == 0 then cur else Wrap(Used(cur, uses - 1) + 1)
  }

  lemma {:induction false} UsedCounts(uses: nat)
    requires uses < INT_END
    ensures Used(0, uses) == uses
  {
    if uses > 0 {
      UsedCounts(uses - 1);
    }
  }

  /** A counter that starts at zero turns negative at its use number 2^31. The next loop over three parents,
      all of them up, then leaves the list at its first turn. */
  lemma CounterTurnsNegative()
    ensures Used(0, INT_END) == -INT_END
    ensures Pick([Parent(1, true), Parent(2, true), Parent(3, true)], {}, Used(0, INT_END), 3).0 == Outside
  {
    UsedCounts(INT_END - 1);
  }

  // ----- the verdict on a reply

  /** What wakes a waiting request: its timeout, or a message with an opcode from a peer. */
  datatype Wake = TimedOut | Message(opcode: nat, peer: nat)

  datatype Reply = Timeout | HitFrom(peer: nat) | MissFrom(peer: nat) | Other

  /** HIT and HIT_OBJ resolve; MISS, ERR, MISS_NOFETCH and DENIED count; the rest is waited out. */
  function Classify(wake: Wake): Reply {
    match wake
    case TimedOut => Timeout
    case Message(opcode, peer) =>
      if opcode == 2 || opcode == 23 then HitFrom(peer)
      else if opcode == 3 || opcode == 4 || opcode == 21 || opcode == 22 then MissFrom(peer)
      else Other
  }

  /** `found`: the id of the peer to fetch from, if the reply settles on one; `cur`: the parent counter
      afterwards. */
  datatype Verdict = Verdict(wait: Wait, done: bool, found: Choice, cur: int32)

  function Choose(w: Wait, parents: seq<Parent>, unanswered: set<nat>, cur: int32): Verdict
    requires |parents| < INT_END
  {
    if parents == [] then Verdict(w, true, Nobody, cur)
    else
      var (k, cur') := Pick(parents, unanswered, cur, |parents|);
      Verdict(w, true, if k.Chosen? then Chosen(parents[k.k].id) else k, cur')
  }

  function Respond(w: Wait, reply: Reply, parents: seq<Parent>, cur: int32): Verdict
    requires |parents| < INT_END
  {
    match reply
    case Timeout => if w.received != 0 then Choose(w, parents, w.bits, cur) else Verdict(w, true, Nobody, cur)
    case HitFrom(p) => Verdict(w.(received := w.received + 1), true, Chosen(p), cur)
    case MissFrom(p) =>
      if Over(Miss(w, p)) then Choose(Miss(w, p), parents, {}, cur) else Verdict(Miss(w, p), false, Nobody, cur)
    case Other => Verdict(w, false, Nobody, cur)
  }

  lemma ChooseFinds(w: Wait, parents: seq<Parent>, unanswered: set<nat>, cur: int32)
    requires |parents| < INT_END && (parents == [] || Covers(cur, |parents|))
    ensures var v := Choose(w, parents, unanswered, cur);
            && !v.found.Outside?
            && (v.found.Chosen? <==> exists p :: p in parents && Eligible(p, unanswered))
            && (v.found.Chosen? ==> exists p :: p in parents && Eligible(p, unanswered) && v.found == Chosen(p.id))
  {
    if parents != [] {
      PickFinds(parents, unanswered, cur);
    }
  }

  /** As long as the counter covers the parents, the last miss settles on an up parent if there is one, and
      the timeout, after some reply, on an up parent that is not among those still expected to answer;
      otherwise the look-up fails. */
  lemma ParentIsFound(w: Wait, reply: Reply, parents: seq<Parent>, cur: int32)
    requires reply.Timeout? || reply.MissFrom?
    requires |parents| < INT_END && (parents == [] || Covers(cur, |parents|))
    ensures var v := Respond(w, reply, parents, cur);
            var unanswered := if reply.Timeout? then w.bits else {};
            && !v.found.Outside?
            && (v.found.Chosen? <==>
                 v.done && (reply.Timeout? ==> w.received != 0) && exists p :: p in parents && Eligible(p, unanswered))
            && (v.found.Chosen? ==> exists p :: p in parents && Eligible(p, unanswered) && v.found == Chosen(p.id))
  {
    ChooseFinds(if reply.Timeout? then w else Miss(w, reply.peer), parents, if reply.Timeout? then w.bits else {}, cur);
  }

  /** A request without left-over bits, whose expected peers all fit in the bitmap, ends by misses at the very
      miss that completes the set of its expected peers; any request ends at the miss that brings those
      whose bit was set to the expected number. */
  lemma EndsAtLastExpected(tries: seq<Try>, ids: seq<nat>, id: nat, parents: seq<Parent>, cur: int32)
    requires |parents| < INT_END && DistinctIds(tries)
    ensures var done := Respond(Misses(SendAll(tries, FRESH), ids), MissFrom(id), parents, cur).done;
            var e, s := Expected(tries), Stale(tries);
            && (done <==> |Low(e + s) * (From(ids) + {id})| >= |e|)
            && (HaveRoom(e) && Low(s) == {} ==> (done <==> e <= From(ids) + {id}))
  {
    assert (ids + [id])[..|ids|] == ids;
    assert From(ids + [id]) == From(ids) + {id};
    MissesEndTheWait(tries, ids + [id]);
  }
}
