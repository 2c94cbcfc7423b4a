/** The outstanding ICP requests: numbers that identify them, and 1024 hash buckets that hold them. */
module IcpQueue {
  import opened IcpReplies
  import T = IcpRoundRobin

  // ----- request numbers

  const WORD := 0x1_0000_0000
  /** The numbers in use: all but zero. */
  const NUMBERS := WORD - 1

  /** The counter is incremented as a 32-bit word; a zero that comes out of it is skipped. */
  function Number(counter: nat): (res: nat)
    ensures res > 0
  {
    if counter == 0 then 1 else counter
  }

  function After(counter: nat): (c: nat)
    requires counter < WORD
    ensures c < WORD
  {
    if Number(counter) == WORD - 1 then 0 else Number(counter) + 1
  }

  function CounterAfter(counter: nat, calls: nat): (c: nat)
    requires counter < WORD
    ensures c < WORD
  {
    if calls == 0 then counter else After(CounterAfter(counter, calls - 1))
  }

  /** The number that the call after `calls` calls returns. */
  function Generated(counter: nat, calls: nat): nat
    requires counter < WORD
  {
    Number(CounterAfter(counter, calls))
  }

  lemma NextMod(x: nat, c: nat)
    requires c > 1
    ensures (x + 1) % c == if x % c == c - 1 then 0 else x % c + 1
  {
    var q := x / c;
    assert x == c * q + x % c;
    if x % c == c - 1 {
      assert x + 1 == c * (q + 1) + 0;
      T.ModUnique(x + 1, c, q + 1, 0);
    } else {
      T.ModUnique(x + 1, c, q, x % c + 1);
    }
  }

  /** Generation steps through 1 .. 2^32 - 1 cyclically. */
  lemma {:induction false} GeneratedCycles(counter: nat, calls: nat)
    requires counter < WORD
    ensures Generated(counter, calls) == 1 + T.Nth(Number(counter) - 1, calls, NUMBERS)
  {
    var bias := Number(counter) - 1;
    if calls == 0 {
      T.ModUnique(bias, NUMBERS, 0, bias);
    } else {
      GeneratedCycles(counter, calls - 1);
      NextMod(bias + calls - 1, NUMBERS);
    }
  }

  /** Numbers are never zero, and two numbers are equal only if they are at least 2^32 - 1 calls apart;
      so are those that far apart. */
  lemma NumbersAreDistinct(counter: nat, m: nat, n: nat)
    requires counter < WORD && m < n
    ensures 0 < Generated(counter, m) < WORD
    ensures n < m + NUMBERS ==> Generated(counter, m) != Generated(counter, n)
    ensures n == m + NUMBERS ==> Generated(counter, m) == Generated(counter, n)
  {
    GeneratedCycles(counter, m);
    GeneratedCycles(counter, n);
    var bias := Number(counter) - 1;
    if n < m + NUMBERS {
      T.NthOnce(bias, m, n, NUMBERS);
    } else if n == m + NUMBERS {
      var x := bias + m;
      assert x == NUMBERS * (x / NUMBERS) + x % NUMBERS;
      T.ModUnique(bias + n, NUMBERS, x / NUMBERS + 1, x % NUMBERS);
    }
  }

  lemma NthMeets(bias: nat, m: nat, n: nat, count: nat)
    requires count > 0 && m <= n
    ensures T.Nth(bias, m, count) == T.Nth(bias, n, count) <==> (n - m) % count == 0
  {
    if T.Nth(bias, m, count) == T.Nth(bias, n, count) {
      MeetsApart(bias + m, bias + n, count);
    }
    if (n - m) % count == 0 {
      ApartMeets(bias + m, n - m, count);
    }
  }

  lemma MeetsApart(x: nat, y: nat, count: nat)
    requires count > 0 && x <= y && x % count == y % count
    ensures (y - x) % count == 0
  {
    var i, j := x / count, y / count;
    assert y - x == count * (j - i);
    T.Multiples(count, j - i);
    T.ModUnique(y - x, count, if j >= i then j - i else 0, 0);
  }

  lemma ApartMeets(x: nat, d: nat, count: nat)
    requires count > 0 && d % count == 0
    ensures (x + d) % count == x % count
  {
    var i, q := x / count, d / count;
    assert x + d == count * (i + q) + x % count;
    T.ModUnique(x + d, count, i + q, x % count);
  }

  /** Two calls return the same number exactly if they are a multiple of 2^32 - 1 calls apart. */
  lemma SameNumber(counter: nat, m: nat, n: nat)
    requires counter < WORD && m <= n
    ensures Generated(counter, m) == Generated(counter, n) <==> (n - m) % NUMBERS == 0
  {
    GeneratedCycles(counter, m);
    GeneratedCycles(counter, n);
    NthMeets(Number(counter) - 1, m, n, NUMBERS);
  }

  class SeqNumbers {
    var icpRequestSeqno: nat

    predicate Valid()
      reads this
    {
      icpRequestSeqno < WORD
    }

    constructor ()
      ensures Valid() && icpRequestSeqno == 1
    {
      icpRequestSeqno := 1;
    }

    method ICPReqSeqNumber() returns (res: nat)
      requires Valid()
      modifies this
      ensures Valid() && res == Number(old(icpRequestSeqno)) && icpRequestSeqno == After(old(icpRequestSeqno))
    {
      res := 0;
      while res == 0
        invariant Valid()
        invariant if res == 0
                  then icpRequestSeqno == old(icpRequestSeqno) || (old(icpRequestSeqno) == 0 && icpRequestSeqno == 1)
                  else res == Number(old(icpRequestSeqno)) && icpRequestSeqno == After(old(icpRequestSeqno))
        decreases if res == 0 && icpRequestSeqno == 0 then 2 else if res == 0 then 1 else 0
      {
        res := icpRequestSeqno;
        icpRequestSeqno := if icpRequestSeqno + 1 == WORD then 0 else icpRequestSeqno + 1;
      }
    }
  }

  // ----- the buckets

  const HASH_SIZE := 1024

  datatype Entry = Entry(seqno: nat, request: nat)

  function Hash(seqno: nat): (h: nat)
    ensures h < HASH_SIZE
  {
    seqno % HASH_SIZE
  }

  /** The first entry with this number. */
  function IndexOf(q: seq<Entry>, seqno: nat): (i: nat)
    ensures i <= |q| && (i < |q| ==> q[i].seqno == seqno) && forall j :: 0 <= j < i ==> q[j].seqno != seqno
  {
    if q == [] || q[0].seqno == seqno then 0 else 1 + IndexOf(q[1..], seqno)
  }

  function Found(q: seq<Entry>, seqno: nat): Option<nat> {
    if IndexOf(q, seqno) < |q| then Some(q[IndexOf(q, seqno)].request) else None
  }

  function Without(q: seq<Entry>, seqno: nat): seq<Entry> {
    var i := IndexOf(q, seqno);
    if i < |q| then q[..i] + q[i + 1..] else q
  }

  predicate Has(q: seq<Entry>, n: nat) {
    exists i :: 0 <= i < |q| && q[i].seqno == n
  }

  /** Bucket h holds exactly the part of the map that hashes to h, each number once. */
  ghost predicate BucketOk(q: seq<Entry>, h: nat, m: map<nat, nat>) {
    && (forall i :: 0 <= i < |q| ==> Hash(q[i].seqno) == h && q[i].seqno in m && m[q[i].seqno] == q[i].request)
    && (forall i, j :: 0 <= i < j < |q| ==> q[i].seqno != q[j].seqno)
    && (forall n :: n in m && Hash(n) == h ==> Has(q, n))
  }

  ghost predicate Represents(b: seq<seq<Entry>>, m: map<nat, nat>) {
    |b| == HASH_SIZE && forall h :: 0 <= h < HASH_SIZE ==> BucketOk(b[h], h, m)
  }

  lemma FindRefines(b: seq<seq<Entry>>, m: map<nat, nat>, seqno: nat)
    requires Represents(b, m)
    ensures Found(b[Hash(seqno)], seqno) == if seqno in m then Some(m[seqno]) else None
  {
  }

  lemma AddBucket(q: seq<Entry>, h: nat, m: map<nat, nat>, seqno: nat, r: nat)
    requires BucketOk(q, h, m) && seqno !in m
    ensures BucketOk(if Hash(seqno) == h then q + [Entry(seqno, r)] else q, h, m[seqno := r])
  {
    var q' := if Hash(seqno) == h then q + [Entry(seqno, r)] else q;
    forall n | n in m[seqno := r] && Hash(n) == h
      ensures Has(q', n)
    {
      if n == seqno {
        assert q'[|q'| - 1].seqno == n;
      } else {
        var i :| 0 <= i < |q| && q[i].seqno == n;
        assert q'[i].seqno == n;
      }
    }
  }

  lemma AddRefines(b: seq<seq<Entry>>, m: map<nat, nat>, seqno: nat, r: nat)
    requires Represents(b, m) && seqno !in m
    ensures Represents(b[Hash(seqno) := b[Hash(seqno)] + [Entry(seqno, r)]], m[seqno := r])
  {
    var b': seq<seq<Entry>>, m' := b[Hash(seqno) := b[Hash(seqno)] + [Entry(seqno, r)]], m[seqno := r];
    forall h | 0 <= h < HASH_SIZE
      ensures BucketOk(b'[h], h, m')
    {
      AddBucket(b[h], h, m, seqno, r);
    }
  }

  lemma CutOut(q: seq<Entry>, k: nat)
    requires k < |q|
    ensures var q' := q[..k] + q[k + 1..];
            |q'| == |q| - 1 && forall i :: 0 <= i < |q'| ==> q'[i] == if i < k then q[i] else q[i + 1]
  {
  }

  lemma OthersStay(q: seq<Entry>, k: nat, n: nat)
    requires k < |q| && Has(q, n) && q[k].seqno != n
    ensures Has(q[..k] + q[k + 1..], n)
  {
    CutOut(q, k);
    var i :| 0 <= i < |q| && q[i].seqno == n;
    assert (q[..k] + q[k + 1..])[if i < k then i else i - 1].seqno == n;
  }

  lemma RemoveFound(q: seq<Entry>, h: nat, m: map<nat, nat>, k: nat)
    requires BucketOk(q, h, m) && k < |q|
    ensures BucketOk(q[..k] + q[k + 1..], h, m - {q[k].seqno})
  {
    CutOut(q, k);
    forall n | n in m && n != q[k].seqno && Hash(n) == h
      ensures Has(q[..k] + q[k + 1..], n)
    {
      OthersStay(q, k, n);
    }
  }

  lemma RemoveBucket(q: seq<Entry>, h: nat, m: map<nat, nat>, seqno: nat)
    requires BucketOk(q, h, m)
    ensures BucketOk(if Hash(seqno) == h then Without(q, seqno) else q, h, m - {seqno})
  {
    if Hash(seqno) == h {
      RemoveHere(q, h, m, seqno, IndexOf(q, seqno));
    } else {
      RemoveElsewhere(q, h, m, seqno);
    }
  }

  lemma RemoveHere(q: seq<Entry>, h: nat, m: map<nat, nat>, seqno: nat, k: nat)
    requires BucketOk(q, h, m) && Hash(seqno) == h && k == IndexOf(q, seqno)
    ensures BucketOk(Without(q, seqno), h, m - {seqno})
  {
    if k < |q| {
      RemoveFound(q, h, m, k);
    } else {
      RemoveAbsent(q, h, m, seqno);
    }
  }

  lemma RemoveAbsent(q: seq<Entry>, h: nat, m: map<nat, nat>, seqno: nat)
    requires BucketOk(q, h, m) && Hash(seqno) == h && IndexOf(q, seqno) == |q|
    ensures m - {seqno} == m
  {
    assert !Has(q, seqno);
  }

  lemma RemoveElsewhere(q: seq<Entry>, h: nat, m: map<nat, nat>, seqno: nat)
    requires BucketOk(q, h, m) && Hash(seqno) != h
    ensures BucketOk(q, h, m - {seqno})
  {
  }

  lemma RemoveRefines(b: seq<seq<Entry>>, m: map<nat, nat>, seqno: nat)
    requires Represents(b, m)
    ensures Represents(b[Hash(seqno) := Without(b[Hash(seqno)], seqno)], m - {seqno})
  {
    var b': seq<seq<Entry>>, m' := b[Hash(seqno) := Without(b[Hash(seqno)], seqno)], m - {seqno};
    forall h | 0 <= h < HASH_SIZE
      ensures BucketOk(b'[h], h, m')
    {
      RemoveBucket(b[h], h, m, seqno);
    }
  }

  // ----- runs

  datatype Op = Add(seqno: nat, request: nat) | Remove(seqno: nat)

  /** Live numbers are distinct, and none is zero. */
  predicate Distinct(m: map<nat, nat>, op: Op) {
    op.Add? ==> op.seqno !in m && op.seqno != 0
  }

  function OnMap(m: map<nat, nat>, op: Op): map<nat, nat> {
    if op.Add? then m[op.seqno := op.request] else m - {op.seqno}
  }

  /** Number zero is never looked for. */
  function OnBuckets(b: seq<seq<Entry>>, op: Op): (b': seq<seq<Entry>>)
    requires |b| == HASH_SIZE
    ensures |b'| == HASH_SIZE
  {
    var h := Hash(op.seqno);
    if op.Add? then b[h := b[h] + [Entry(op.seqno, op.request)]]
    else if op.seqno == 0 then b
    else b[h := Without(b[h], op.seqno)]
  }

  predicate AllDistinct(m: map<nat, nat>, ops: seq<Op>)
    decreases |ops|
  {
    ops == [] || (Distinct(m, ops[0]) && AllDistinct(OnMap(m, ops[0]), ops[1..]))
  }

  function MapRun(m: map<nat, nat>, ops: seq<Op>): map<nat, nat>
    decreases |ops|
  {
    if ops == [] then m else MapRun(OnMap(m, ops[0]), ops[1..])
  }

  function BucketRun(b: seq<seq<Entry>>, ops: seq<Op>): (b': seq<seq<Entry>>)
    requires |b| == HASH_SIZE
    ensures |b'| == HASH_SIZE
    decreases |ops|
  {
    if ops == [] then b else BucketRun(OnBuckets(b, ops[0]), ops[1..])
  }

  /** Under every run of additions and removals with distinct live numbers, a look-up in the buckets is a
      look-up in a map. */
  lemma {:induction false} BucketsRefineMap(b: seq<seq<Entry>>, m: map<nat, nat>, ops: seq<Op>, seqno: nat)
    requires Represents(b, m) && 0 !in m && AllDistinct(m, ops)
    ensures Represents(BucketRun(b, ops), MapRun(m, ops))
    ensures Found(BucketRun(b, ops)[Hash(seqno)], seqno) ==
            if seqno in MapRun(m, ops) then Some(MapRun(m, ops)[seqno]) else None
    decreases |ops|
  {
    if ops == [] {
      FindRefines(b, m, seqno);
    } else {
      var op := ops[0];
      if op.Add? {
        AddRefines(b, m, op.seqno, op.request);
      } else if op.seqno == 0 {
        assert m - {0} == m;
      } else {
        RemoveRefines(b, m, op.seqno);
      }
      BucketsRefineMap(OnBuckets(b, op), OnMap(m, op), ops[1..], seqno);
    }
  }

  // ----- requests that take their numbers from the counter

  predicate SameTurn(m: nat, n: nat) {
    (n - m) % NUMBERS == 0
  }

  /** What matters of the numbers that successive calls return. */
  ghost predicate Cyclic(num: nat -> nat) {
    && (forall m, n {:trigger SameTurn(m, n)} :: m <= n ==> (num(m) == num(n) <==> SameTurn(m, n)))
    && (forall m :: num(m) > 0)
  }

  /** A request is queued under the next number, or the one that took its number in the given call leaves. */
  datatype Use = Start(request: nat) | End(call: nat)

  function OpOf(num: nat -> nat, calls: nat, use: Use): Op {
    match use
    case Start(request) => Add(num(calls), request)
    case End(call) => Remove(num(call))
  }

  function Ops(num: nat -> nat, calls: nat, uses: seq<Use>): seq<Op>
    decreases |uses|
  {
    if uses == [] then []
    else [OpOf(num, calls, uses[0])] + Ops(num, calls + One(uses[0].Start?), uses[1..])
  }

  /** The requests that are queued, by the call that gave them their number. */
  function Used(live: map<nat, nat>, calls: nat, use: Use): map<nat, nat> {
    match use
    case Start(request) => live[calls := request]
    case End(call) => live - {call}
  }

  function LiveAfter(live: map<nat, nat>, calls: nat, uses: seq<Use>): map<nat, nat>
    decreases |uses|
  {
    if uses == [] then live else LiveAfter(Used(live, calls, uses[0]), calls + One(uses[0].Start?), uses[1..])
  }

  /** Only queued requests leave. */
  predicate Proper(live: map<nat, nat>, calls: nat, uses: seq<Use>)
    decreases |uses|
  {
    uses == [] ||
    ((uses[0].End? ==> uses[0].call in live)
     && Proper(Used(live, calls, uses[0]), calls + One(uses[0].Start?), uses[1..]))
  }

  predicate ComesRound(live: map<nat, nat>, calls: nat) {
    exists k | k in live :: k < calls && SameTurn(k, calls)
  }

  /** No request is still queued when the counter has come round to its number. */
  predicate NoneOverstays(live: map<nat, nat>, calls: nat, uses: seq<Use>)
    decreases |uses|
  {
    uses == [] ||
    (!(uses[0].Start? && ComesRound(live, calls))
     && NoneOverstays(Used(live, calls, uses[0]), calls + One(uses[0].Start?), uses[1..]))
  }

  /** The map holds the queued requests under their numbers. */
  ghost predicate Holds(m: map<nat, nat>, live: map<nat, nat>, num: nat -> nat, calls: nat) {
    && (forall k :: k in live ==> k < calls && num(k) in m && m[num(k)] == live[k])
    && (forall n {:trigger HasCall(live, num, n)} :: n in m ==> HasCall(live, num, n))
    && (forall k, l :: k in live && l in live && k < l ==> num(k) != num(l))
  }

  ghost predicate HasCall(live: map<nat, nat>, num: nat -> nat, n: nat) {
    exists k :: k in live && num(k) == n
  }

  lemma DistinctIff(m: map<nat, nat>, live: map<nat, nat>, num: nat -> nat, calls: nat, request: nat)
    requires Cyclic(num) && Holds(m, live, num, calls)
    ensures Distinct(m, OpOf(num, calls, Start(request))) <==> !ComesRound(live, calls)
  {
    if num(calls) in m {
      assert HasCall(live, num, num(calls));
      var k :| k in live && num(k) == num(calls);
      assert SameTurn(k, calls);
    }
    if ComesRound(live, calls) {
      var k :| k in live && k < calls && SameTurn(k, calls);
      assert num(k) in m;
    }
  }

  lemma StartHolds(m: map<nat, nat>, live: map<nat, nat>, num: nat -> nat, calls: nat, request: nat)
    requires Cyclic(num) && Holds(m, live, num, calls) && num(calls) !in m
    ensures Holds(m[num(calls) := request], live[calls := request], num, calls + 1)
  {
    var n := num(calls);
    assert forall k :: k in live ==> num(k) != n;
    var m' := m[n := request];
    forall x | x in m'
      ensures HasCall(live[calls := request], num, x)
    {
      if x == n {
        assert calls in live[calls := request];
      } else {
        assert HasCall(live, num, x);
        var k :| k in live && num(k) == x;
        assert k in live[calls := request];
      }
    }
  }

  lemma EndHolds(m: map<nat, nat>, live: map<nat, nat>, num: nat -> nat, calls: nat, call: nat)
    requires Cyclic(num) && Holds(m, live, num, calls) && call in live
    ensures Holds(m - {num(call)}, live - {call}, num, calls)
  {
    var n := num(call);
    forall k | k in live && k != call
      ensures num(k) != n
    {
      assert k < call || call < k;
    }
    forall x | x in m - {n}
      ensures HasCall(live - {call}, num, x)
    {
      assert HasCall(live, num, x);
      var k :| k in live && num(k) == x;
      assert k in live - {call};
    }
  }

  /** Live numbers stay distinct, across the wrap and however long it runs, if and only if no request is still
      queued when the counter has come round to its number. */
  lemma {:induction false} LiveNumbersDistinctIff(m: map<nat, nat>, live: map<nat, nat>, num: nat -> nat, calls: nat,
                                                  uses: seq<Use>)
    requires Cyclic(num) && Holds(m, live, num, calls) && Proper(live, calls, uses)
    ensures AllDistinct(m, Ops(num, calls, uses)) <==> NoneOverstays(live, calls, uses)
    ensures NoneOverstays(live, calls, uses) ==>
              Holds(MapRun(m, Ops(num, calls, uses)), LiveAfter(live, calls, uses), num, calls + Starts(uses))
    decreases |uses|
  {
    if uses != [] {
      var op, rest := OpOf(num, calls, uses[0]), Ops(num, calls + One(uses[0].Start?), uses[1..]);
      assert Ops(num, calls, uses) == [op] + rest && ([op] + rest)[1..] == rest;
      UseHolds(m, live, num, calls, uses[0]);
      if Distinct(m, op) {
        var calls' := calls + One(uses[0].Start?);
        LiveNumbersDistinctIff(OnMap(m, op), Used(live, calls, uses[0]), num, calls', uses[1..]);
      }
    }
  }

  lemma UseHolds(m: map<nat, nat>, live: map<nat, nat>, num: nat -> nat, calls: nat, use: Use)
    requires Cyclic(num) && Holds(m, live, num, calls) && (use.End? ==> use.call in live)
    ensures var op := OpOf(num, calls, use);
            && (Distinct(m, op) <==> !(use.Start? && ComesRound(live, calls)))
            && (Distinct(m, op) ==> Holds(OnMap(m, op), Used(live, calls, use), num, calls + One(use.Start?)))
  {
    match use
    case Start(request) =>
      DistinctIff(m, live, num, calls, request);
      if num(calls) !in m {
        StartHolds(m, live, num, calls, request);
      }
    case End(call) => EndHolds(m, live, num, calls, call);
  }

  function Starts(uses: seq<Use>): nat {
    if uses == [] then 0 else One(uses[0].Start?) + Starts(uses[1..])
  }

  function Numbers(counter: nat): nat -> nat
    requires counter < WORD
  {
    calls => Generated(counter, calls)
  }

  lemma NumbersCycle(counter: nat)
    requires counter < WORD
    ensures Cyclic(Numbers(counter))
  {
    forall m, n | m <= n
      ensures Numbers(counter)(m) == Numbers(counter)(n) <==> SameTurn(m, n)
    {
      SameNumber(counter, m, n);
    }
  }

  /** So the queue, from empty, finds each queued request under the number it got. */
  lemma QueueFindsLive(b: seq<seq<Entry>>, counter: nat, uses: seq<Use>, call: nat)
    requires counter < WORD && Represents(b, map[])
    requires Proper(map[], 0, uses) && NoneOverstays(map[], 0, uses) && call in LiveAfter(map[], 0, uses)
    ensures var n := Generated(counter, call);
            Found(BucketRun(b, Ops(Numbers(counter), 0, uses))[Hash(n)], n) == Some(LiveAfter(map[], 0, uses)[call])
  {
    NumbersCycle(counter);
    LiveNumbersDistinctIff(map[], map[], Numbers(counter), 0, uses);
    BucketsRefineMap(b, map[], Ops(Numbers(counter), 0, uses), Generated(counter, call));
  }

  class ICPRequestQueue {
    const buckets: array<seq<Entry>>

    ghost predicate Valid()
      reads this
    {
      buckets.Length == HASH_SIZE
    }

    constructor ()
      ensures Valid() && fresh(buckets) && Represents(buckets[..], map[])
    {
      buckets := new seq<Entry>[HASH_SIZE](_ => []);
    }

    /** 0: success. */
    method AddICPRequest(seqno: nat, r: nat) returns (ret: int)
      requires Valid()
      modifies buckets
      ensures ret == 0 && buckets[..] == OnBuckets(old(buckets[..]), Add(seqno, r))
    {
      buckets[Hash(seqno)] := buckets[Hash(seqno)] + [Entry(seqno, r)];
      return 0;
    }

    method FindICPRequest(seqno: nat) returns (r: Option<nat>)
      requires Valid()
      ensures r == Found(buckets[Hash(seqno)], seqno)
    {
      var i := Position(seqno);
      r := if i < |buckets[Hash(seqno)]| then Some(buckets[Hash(seqno)][i].request) else None;
    }

    /** 0: removed; 1: not found. */
    method RemoveICPRequest(seqno: nat) returns (ret: int)
      requires Valid()
      modifies buckets
      ensures buckets[..] == OnBuckets(old(buckets[..]), Remove(seqno))
      ensures ret == if seqno != 0 && Found(old(buckets[Hash(seqno)]), seqno).Some? then 0 else 1
    {
      if seqno == 0 { return 1; }
      var q := buckets[Hash(seqno)];
      var i := Position(seqno);
      ghost var was := buckets[..];
      if i < |q| {
        buckets[Hash(seqno)] := q[..i] + q[i + 1..];
        assert buckets[..] == was[Hash(seqno) := Without(q, seqno)];
        return 0;
      }
      assert was[Hash(seqno) := q] == was;
      return 1;
    }

    method Position(seqno: nat) returns (i: nat)
      requires Valid()
      ensures i == IndexOf(buckets[Hash(seqno)], seqno)
    {
      var q := buckets[Hash(seqno)];
      i := 0;
      while i < |q| && q[i].seqno != seqno
        invariant i <= |q| && IndexOf(q, seqno) == i + IndexOf(q[i..], seqno)
      {
        assert q[i..][1..] == q[i + 1..];
        i := i + 1;
      }
    }
  }
}
