/** ICP queries, replies and reconfiguration as one transition system: any number of request continuations,
    of read continuations and of threads that reconfigure, interleaved at the grain of the regions that a
    lock protects. A lock that is missed is tried again later. That has events of its own only where somebody
    else can wake the continuation in the meantime. */
module IcpProtocol {

  datatype Option<T> = None | Some(value: T)

  // ----- request continuations

  datatype ReqPc =
    | Start | OffTerminate | QueueRequest | Sending | Awaiting | Dequeue | Post | WaitSend | NotActive
    | Done      // processing complete: deleted by its own event handler
    | Dropped   // deleted by a reply that found it cancelled

  /** `calls` counts the calls of the user's continuation, `sends` the sends not yet completed. */
  datatype Req = Req(pc: ReqPc, seqno: nat, cancelled: bool, calls: nat, sends: nat)

  const NEW := Req(Start, 0, false, 0, 0)

  /** Between its increment of the pending counter and its decrement. */
  predicate Busy(pc: ReqPc) {
    pc.QueueRequest? || pc.Sending? || pc.Awaiting? || pc.Dequeue? || pc.Post? || pc.WaitSend? || pc.NotActive?
  }

  /** States that are passed through with the mutex of the request held. */
  predicate Locked(pc: ReqPc) {
    pc.QueueRequest? || pc.Sending? || pc.Dequeue? || pc.WaitSend?
  }

  predicate Queued(pc: ReqPc) {
    pc.Sending? || pc.Awaiting? || pc.Dequeue?
  }

  predicate Deleted(pc: ReqPc) {
    pc.Done? || pc.Dropped?
  }

  // ----- read continuations

  datatype ReadPc =
    | Active | Data | Process | AddPeer | Lookup | SendReply | WriteDone
    | GetRequest(reply: nat) | GetMutex(reply: nat, r: nat)
    | ReadNotActive | ReadNotActiveExit | ReadComplete

  predicate Reading(pc: ReadPc) {
    !pc.Active? && !pc.ReadComplete?
  }

  /** Moves that touch nothing shared. */
  predicate ReadMoves(a: ReadPc, b: ReadPc) {
    match a
    case Data => b.Process? || b.ReadNotActiveExit?
    case Process => b.AddPeer? || b.ReadNotActive? || b.Lookup? || b.GetRequest?
    case Lookup => b.SendReply?
    case SendReply => b.WriteDone? || b.ReadNotActive?
    case WriteDone => b.ReadNotActive?
    case _ => false
  }

  // ----- reconfiguration

  datatype Rc = Idle | Decide | Reconfiguring | Enable | Release

  /** `awake`: the requests that are being run while they post their completion and count down. `retries`: the
      wake-ups that requests have scheduled for themselves after they missed a lock there.
      `holder`, `kept`: the thread that has the configuration lock, and how often the addition of an unknown
      peer took it without giving it back. */
  datatype State = State(
    allow: bool, pending: nat,
    reqs: map<nat, Req>, readers: map<nat, ReadPc>, queue: map<nat, nat>, nextSeq: nat,
    awake: set<nat>, retries: multiset<nat>,
    rc: map<nat, Rc>, holder: Option<nat>, kept: nat)

  function Initial(allow: bool): State {
    State(allow, 0, map[], map[], map[], 1, {}, multiset{}, map[], None, 0)
  }

  function Rq(s: State, r: nat): Req {
    if r in s.reqs then s.reqs[r] else NEW.(pc := Done)
  }

  function Rd(s: State, d: nat): ReadPc {
    if d in s.readers then s.readers[d] else ReadComplete
  }

  function Ph(s: State, t: nat): Rc {
    if t in s.rc then s.rc[t] else Idle
  }

  datatype Event =
    // requests
    | Query(r: nat)
    | Cancel(r: nat)
    | Begin(r: nat, configured: bool, localhost: bool)
    | Terminate(r: nat)
    | Enqueue(r: nat)
    | Send(r: nat)
    | SendDone(r: nat)
    | EndSends(r: nat, expecting: bool)
    | Timeout(r: nat, left: nat)
    | Unqueue(r: nat)
    | PostCompletion(r: nat)
    | AllSent(r: nat)
    | Finish(r: nat)
    | MissLock(r: nat)
    | Retry(r: nat)
    // reads
    | StartRead(d: nat)
    | Activate(d: nat, wanted: bool)
    | Move(d: nat, pc: ReadPc)
    | AddUnknown(d: nat, t: nat, full: bool, pc: ReadPc)
    | Find(d: nat)
    | Take(d: nat, resolved: bool)
    | EndRead(d: nat)
    // reconfiguration
    | TakeConfig(t: nat)
    | Check(t: nat)
    | Rebuild(t: nat, ok: bool)
    | Allow(t: nat)
    | Missed(t: nat)
    | GiveConfig(t: nat)

  /** Asleep after a missed lock: the mutex is free. */
  predicate CanWake(pc: ReqPc) {
    pc.Post? || pc.NotActive?
  }

  /** The mutex of the request is taken. */
  predicate Held(s: State, r: nat) {
    Locked(Rq(s, r).pc) || (CanWake(Rq(s, r).pc) && r in s.awake)
  }

  predicate CanLock(s: State, t: nat) {
    s.holder.None? || s.holder.value == t
  }

  predicate Enabled(s: State, e: Event) {
    match e
    case Query(r) => r !in s.reqs
    case Cancel(r) => r in s.reqs && !Deleted(Rq(s, r).pc) && !Locked(Rq(s, r).pc)
    case Begin(r, _, _) => Rq(s, r).pc.Start?
    case Terminate(r) => Rq(s, r).pc.OffTerminate?
    case Enqueue(r) => Rq(s, r).pc.QueueRequest?
    case Send(r) => Rq(s, r).pc.Sending?
    case SendDone(r) => !Deleted(Rq(s, r).pc) && Rq(s, r).sends > 0
    case EndSends(r, _) => Rq(s, r).pc.Sending?
    case Timeout(r, left) => Rq(s, r).pc.Awaiting? && left <= Rq(s, r).sends
    case Unqueue(r) => Rq(s, r).pc.Dequeue?
    case PostCompletion(r) => Rq(s, r).pc.Post? && r in s.awake
    case AllSent(r) => Rq(s, r).pc.WaitSend? && Rq(s, r).sends == 0
    case Finish(r) => Rq(s, r).pc.NotActive? && r in s.awake
    case MissLock(r) => CanWake(Rq(s, r).pc) && r in s.awake
    case Retry(r) => r in s.retries && !Held(s, r)
    case StartRead(d) => d !in s.readers
    case Activate(d, _) => Rd(s, d).Active?
    case Move(d, pc) => ReadMoves(Rd(s, d), pc)
    case AddUnknown(d, t, full, pc) =>
      Rd(s, d).AddPeer? && CanLock(s, t) && Ph(s, t).Idle? && if full then pc.ReadNotActive? else pc.Lookup?
    case Find(d) => Rd(s, d).GetRequest?
    case Take(d, _) => Rd(s, d).GetMutex?
    case EndRead(d) => Rd(s, d).ReadNotActive? || Rd(s, d).ReadNotActiveExit?
    case TakeConfig(t) => Ph(s, t).Idle? && CanLock(s, t)
    case Check(t) => Ph(s, t).Decide?
    case Rebuild(t, _) => Ph(s, t).Reconfiguring?
    case Allow(t) => Ph(s, t).Enable?
    case Missed(t) => Ph(s, t).Decide? || Ph(s, t).Enable?
    case GiveConfig(t) => Ph(s, t).Release?
  }

  /** A request that a reply has found in the queue is not deleted when its mutex is tried, nor one that has
      scheduled a retry when that comes. */
  predicate Prompt(s: State, e: Event) {
    && (e.Take? && Rd(s, e.d).GetMutex? ==> !Deleted(Rq(s, Rd(s, e.d).r).pc))
    && (e.Retry? ==> !Deleted(Rq(s, e.r).pc))
  }

  predicate Ready(s: State, e: Event) {
    Enabled(s, e) && Prompt(s, e)
  }

  predicate InQueue(s: State, r: nat) {
    exists q | q in s.queue :: s.queue[q] == r
  }

  // ----- what the steps do

  function SetReq(s: State, r: nat, q: Req): State {
    s.(reqs := s.reqs[r := q])
  }

  function SetRead(s: State, d: nat, pc: ReadPc): State {
    s.(readers := s.readers[d := pc])
  }

  function Down(n: nat): nat {
    if n == 0 then 0 else n - 1
  }

  /** The call of the user's continuation, unless it has cancelled. */
  function Called(q: Req): Req {
    if q.cancelled then q else q.(calls := q.calls + 1)
  }

  function DoBegin(s: State, r: nat, q: Req, configured: bool, localhost: bool): State {
    if q.cancelled then SetReq(s, r, q.(pc := Done))
    else if s.allow && configured && !localhost then
      SetReq(s, r, q.(pc := QueueRequest, seqno := s.nextSeq)).(pending := s.pending + 1, nextSeq := s.nextSeq + 1)
    else SetReq(s, r, q.(pc := OffTerminate))
  }

  /** A reply for a request whose mutex is busy is looked up again, and a cancelled request is deleted. A
      request that no longer awaits replies is merely woken: its own steps follow. */
  function DoTake(s: State, d: nat, resolved: bool): State {
    if !Rd(s, d).GetMutex? then s
    else
      var r := Rd(s, d).r;
      var q := Rq(s, r);
      if Held(s, r) then SetRead(s, d, GetRequest(Rd(s, d).reply))
      else if q.cancelled then
        SetRead(SetReq(s, r, q.(pc := Dropped)), d, ReadNotActive).(queue := s.queue - {q.seqno})
      else if q.pc.Awaiting? && resolved then SetRead(SetReq(s, r, q.(pc := Dequeue)), d, ReadNotActive)
      else SetRead(s, d, ReadNotActive).(awake := if CanWake(q.pc) then s.awake + {r} else s.awake)
  }

  function Unlocked(s: State): Option<nat> {
    if s.kept > 0 then s.holder else None
  }

  function ReqStep(s: State, e: Event, q: Req): State {
    match e
    case Query(r) => SetReq(s, r, NEW)
    case Cancel(r) => SetReq(s, r, q.(cancelled := true))
    case Begin(r, configured, localhost) => DoBegin(s, r, q, configured, localhost)
    case Terminate(r) => SetReq(s, r, Called(q).(pc := Done))
    case Enqueue(r) => SetReq(s, r, q.(pc := Sending)).(queue := s.queue[q.seqno := r])
    case Send(r) => SetReq(s, r, q.(sends := q.sends + 1))
    case SendDone(r) => SetReq(s, r, q.(sends := Down(q.sends)))
    case EndSends(r, expecting) => SetReq(s, r, q.(pc := if expecting then Awaiting else Dequeue))
    case Timeout(r, left) => SetReq(s, r, q.(pc := Dequeue, sends := left))
    case Unqueue(r) => SetReq(s, r, q.(pc := Post)).(queue := s.queue - {q.seqno}, awake := s.awake + {r})
    case PostCompletion(r) => SetReq(s, r, Called(q).(pc := WaitSend))
    case AllSent(r) => SetReq(s, r, q.(pc := NotActive))
    case Finish(r) => SetReq(s, r, q.(pc := Done, seqno := 0)).(pending := Down(s.pending))
    case _ => s
  }

  function NextPc(s: State, e: Event, pc: ReadPc): ReadPc {
    match e
    case StartRead(_) => Active
    case Activate(_, wanted) => if s.allow && wanted then Data else ReadComplete
    case Move(_, pc') => pc'
    case AddUnknown(_, _, _, pc') => pc'
    case Find(_) =>
      if pc.GetRequest? && pc.reply in s.queue then GetMutex(pc.reply, s.queue[pc.reply]) else ReadNotActive
    case EndRead(_) => if pc.ReadNotActive? then Active else ReadComplete
    case _ => pc
  }

  function NextPending(s: State, e: Event): nat {
    if e.Activate? && s.allow && e.wanted then s.pending + 1 else if e.EndRead? then Down(s.pending) else s.pending
  }

  /** The addition of an unknown peer does not release the configuration lock. */
  predicate KeepsLock(e: Event) {
    e.AddUnknown? && !e.full
  }

  function ReadStep(s: State, e: Event): State
    requires OfRead(e)
  {
    if e.Take? then DoTake(s, e.d, e.resolved)
    else
      s.(readers := s.readers[e.d := NextPc(s, e, Rd(s, e.d))], pending := NextPending(s, e),
         holder := if KeepsLock(e) then Some(e.t) else s.holder, kept := if KeepsLock(e) then s.kept + 1 else s.kept)
  }

  function RcStep(s: State, e: Event): State {
    match e
    case TakeConfig(t) => s.(rc := s.rc[t := Decide], holder := Some(t))
    case Check(t) =>
      if s.pending > 0 then s.(allow := false, rc := s.rc[t := Idle], holder := Unlocked(s))
      else s.(allow := false, rc := s.rc[t := Reconfiguring])
    case Rebuild(t, ok) => s.(rc := s.rc[t := if ok then Enable else Release])
    case Allow(t) => s.(allow := true, rc := s.rc[t := Release])
    case Missed(t) => s.(rc := s.rc[t := Idle], holder := Unlocked(s))
    case GiveConfig(t) => s.(rc := s.rc[t := Idle], holder := Unlocked(s))
    case _ => s
  }

  predicate OfReq(e: Event) {
    e.Query? || e.Cancel? || e.Begin? || e.Terminate? || e.Enqueue? || e.Send? || e.SendDone? || e.EndSends?
    || e.Timeout? || e.Unqueue? || e.PostCompletion? || e.AllSent? || e.Finish?
  }

  predicate OfWake(e: Event) {
    e.MissLock? || e.Retry?
  }

  /** A request that misses a lock goes to sleep; its mutex is free until something wakes it. */
  function WakeStep(s: State, e: Event): State {
    match e
    case MissLock(r) => s.(awake := s.awake - {r}, retries := s.retries + multiset{r})
    case Retry(r) => s.(awake := s.awake + {r}, retries := s.retries - multiset{r})
    case _ => s
  }

  predicate OfRead(e: Event) {
    e.StartRead? || e.Activate? || e.Move? || e.AddUnknown? || e.Find? || e.Take? || e.EndRead?
  }

  function Do(s: State, e: Event): State {
    if OfReq(e) then ReqStep(s, e, Rq(s, e.r))
    else if OfRead(e) then ReadStep(s, e)
    else if OfWake(e) then WakeStep(s, e)
    else RcStep(s, e)
  }

  // ----- the pending counter

  /** A request that a reply deletes does not count down. */
  predicate Charged(pc: ReqPc) {
    Busy(pc) || pc.Dropped?
  }

  function ChargedReqs(reqs: map<nat, Req>): set<nat> {
    set r | r in reqs && Charged(reqs[r].pc)
  }

  function BusyReads(readers: map<nat, ReadPc>): set<nat> {
    set d | d in readers && Reading(readers[d])
  }

  ghost predicate Counted(s: State) {
    s.pending == |ChargedReqs(s.reqs)| + |BusyReads(s.readers)|
  }

  function One(b: bool): nat {
    if b then 1 else 0
  }

  lemma PutChargedReq(reqs: map<nat, Req>, r: nat, q: Req)
    ensures |ChargedReqs(reqs[r := q])| ==
            |ChargedReqs(reqs)| - One(r in reqs && Charged(reqs[r].pc)) + One(Charged(q.pc))
  {
    var was, now := ChargedReqs(reqs), ChargedReqs(reqs[r := q]);
    assert now - {r} == was - {r};
    assert |now| == |now - {r}| + One(r in now) && |was| == |was - {r}| + One(r in was);
  }

  lemma PutBusyRead(readers: map<nat, ReadPc>, d: nat, pc: ReadPc)
    ensures |BusyReads(readers[d := pc])| ==
            |BusyReads(readers)| - One(d in readers && Reading(readers[d])) + One(Reading(pc))
  {
    var was, now := BusyReads(readers), BusyReads(readers[d := pc]);
    assert now - {d} == was - {d};
    assert |now| == |now - {d}| + One(d in now) && |was| == |was - {d}| + One(d in was);
  }

  lemma PutReqCounted(s: State, r: nat, q: Req, s': State)
    requires Counted(s) && s'.reqs == s.reqs[r := q] && s'.readers == s.readers
    requires s'.pending == s.pending - One(r in s.reqs && Charged(s.reqs[r].pc)) + One(Charged(q.pc))
    ensures Counted(s')
  {
    PutChargedReq(s.reqs, r, q);
  }

  lemma BeginFinishCounted(s: State, e: Event, r: nat, q: Req, s': State)
    requires Counted(s) && Ready(s, e) && (e.Begin? || e.Finish?) && r == e.r && q == Rq(s, r) && s' == ReqStep(s, e, q)
    ensures Counted(s')
  {
    if e.Finish? {
      assert r in ChargedReqs(s.reqs);
    }
    PutReqCounted(s, r, Rq(s', r), s');
  }

  /** The other steps of a request do not count. */
  lemma SameCount(s: State, e: Event, r: nat, q: Req, s': State)
    requires Ready(s, e) && OfReq(e) && !e.Begin? && !e.Finish? && r == e.r && q == Rq(s, r) && s' == ReqStep(s, e, q)
    ensures s'.pending == s.pending && s'.readers == s.readers && s'.reqs == s.reqs[r := Rq(s', r)]
    ensures (r in s.reqs && Charged(q.pc)) == Charged(Rq(s', r).pc)
  {
  }

  lemma ReqCounted(s: State, e: Event, r: nat, q: Req, s': State)
    requires Counted(s) && Ready(s, e) && OfReq(e) && r == e.r && q == Rq(s, r) && s' == ReqStep(s, e, q)
    ensures Counted(s')
  {
    if e.Begin? || e.Finish? {
      BeginFinishCounted(s, e, r, q, s');
    } else {
      SameCount(s, e, r, q, s');
      PutReqCounted(s, r, Rq(s', r), s');
    }
  }

  lemma PutReadCounted(s: State, d: nat, pc: ReadPc, pending: nat)
    requires Counted(s) && pending == s.pending - One(d in s.readers && Reading(s.readers[d])) + One(Reading(pc))
    ensures Counted(SetRead(s, d, pc).(pending := pending))
  {
    PutBusyRead(s.readers, d, pc);
  }

  lemma CountIsUp(s: State, d: nat)
    requires Counted(s) && d in s.readers && Reading(s.readers[d])
    ensures s.pending > 0
  {
    assert d in BusyReads(s.readers);
  }

  lemma ReadCounted(s: State, e: Event, pc: ReadPc)
    requires Counted(s) && Ready(s, e) && OfRead(e) && !e.Take? && pc == Rd(s, e.d)
    ensures Counted(ReadStep(s, e))
    ensures !s.allow ==> NextPending(s, e) <= s.pending
  {
    if e.EndRead? {
      CountIsUp(s, e.d);
    }
    PutReadCounted(s, e.d, NextPc(s, e, pc), NextPending(s, e));
  }

  lemma TakeCounted(s: State, d: nat, resolved: bool)
    requires Counted(s) && Rd(s, d).GetMutex? && Busy(Rq(s, Rd(s, d).r).pc)
    ensures Counted(DoTake(s, d, resolved))
  {
    var r := Rd(s, d).r;
    var s' := DoTake(s, d, resolved);
    PutBusyRead(s.readers, d, s'.readers[d]);
    if s'.reqs != s.reqs {
      PutChargedReq(s.reqs, r, s'.reqs[r]);
    }
  }

  // ----- requests and their queue

  /** What a request has done so far. */
  predicate ReqOk(q: Req) {
    match q.pc
    case Start => q.calls == 0 && q.seqno == 0 && q.sends == 0
    case OffTerminate => q.calls == 0 && q.seqno == 0 && q.sends == 0
    case WaitSend => q.calls <= 1 && (q.cancelled || q.calls == 1) && q.seqno > 0
    case NotActive => q.calls <= 1 && (q.cancelled || q.calls == 1) && q.seqno > 0 && q.sends == 0
    case Done => q.calls <= 1 && (q.cancelled || q.calls == 1) && q.seqno == 0 && q.sends == 0
    case Dropped => q.calls <= 1 && q.cancelled && q.seqno > 0
    case _ => q.calls == 0 && q.seqno > 0
  }

  ghost predicate ReqsOk(reqs: map<nat, Req>, nextSeq: nat) {
    && nextSeq > 0
    && (forall r :: r in reqs ==> ReqOk(reqs[r]) && reqs[r].seqno < nextSeq)
    && (forall q, r :: q in reqs && r in reqs && reqs[q].seqno == reqs[r].seqno != 0 ==> q == r)
  }

  /** The queue holds exactly the requests between Enqueue and Unqueue, each under its number. */
  ghost predicate QueueOk(reqs: map<nat, Req>, queue: map<nat, nat>) {
    && (forall r :: r in reqs && Queued(reqs[r].pc) ==> reqs[r].seqno in queue && queue[reqs[r].seqno] == r)
    && (forall n :: n in queue ==> queue[n] in reqs && Queued(reqs[queue[n]].pc) && reqs[queue[n]].seqno == n)
  }

  lemma PutReqOk(reqs: map<nat, Req>, nextSeq: nat, r: nat, q: Req)
    requires ReqsOk(reqs, nextSeq) && ReqOk(q)
    requires q.seqno == 0 || (r in reqs && q.seqno == reqs[r].seqno)
    ensures ReqsOk(reqs[r := q], nextSeq)
  {
  }

  lemma NumberedOk(reqs: map<nat, Req>, nextSeq: nat, r: nat, q: Req)
    requires ReqsOk(reqs, nextSeq) && ReqOk(q) && q.seqno == nextSeq
    ensures ReqsOk(reqs[r := q], nextSeq + 1)
  {
  }

  /** The step of a request replaces it by one that is in order, and numbers it at most once. */
  lemma ReqEffect(s: State, e: Event, r: nat, q: Req, s': State)
    requires r in s.reqs ==> ReqOk(q)
    requires Ready(s, e) && OfReq(e) && r == e.r && q == Rq(s, r) && s' == ReqStep(s, e, q) && s.nextSeq > 0
    ensures var q' := Rq(s', r);
            && s'.reqs == s.reqs[r := q'] && ReqOk(q')
            && if e.Begin? && q'.pc.QueueRequest? then q'.seqno == s.nextSeq && s'.nextSeq == s.nextSeq + 1
               else s'.nextSeq == s.nextSeq && (q'.seqno == 0 || (r in s.reqs && q'.seqno == q.seqno))
  {
  }

  lemma ReqKeepsReqs(s: State, e: Event, r: nat, q: Req, s': State)
    requires ReqsOk(s.reqs, s.nextSeq)
    requires Ready(s, e) && OfReq(e) && r == e.r && q == Rq(s, r) && s' == ReqStep(s, e, q)
    ensures ReqsOk(s'.reqs, s'.nextSeq)
  {
    ReqEffect(s, e, r, q, s');
    if s'.nextSeq == s.nextSeq {
      PutReqOk(s.reqs, s.nextSeq, r, Rq(s', r));
    } else {
      NumberedOk(s.reqs, s.nextSeq, r, Rq(s', r));
    }
  }

  lemma SameQueue(reqs: map<nat, Req>, queue: map<nat, nat>, r: nat, q: Req)
    requires QueueOk(reqs, queue)
    requires if r in reqs && Queued(reqs[r].pc) then Queued(q.pc) && q.seqno == reqs[r].seqno else !Queued(q.pc)
    ensures QueueOk(reqs[r := q], queue)
  {
  }

  lemma PutQueue(reqs: map<nat, Req>, nextSeq: nat, queue: map<nat, nat>, r: nat, q: Req)
    requires QueueOk(reqs, queue) && ReqsOk(reqs, nextSeq) && r in reqs && !Queued(reqs[r].pc)
    requires Queued(q.pc) && q.seqno == reqs[r].seqno > 0
    ensures QueueOk(reqs[r := q], queue[q.seqno := r])
  {
  }

  lemma DropQueue(reqs: map<nat, Req>, nextSeq: nat, queue: map<nat, nat>, r: nat, q: Req)
    requires QueueOk(reqs, queue) && ReqsOk(reqs, nextSeq) && r in reqs && Queued(reqs[r].pc) && !Queued(q.pc)
    ensures QueueOk(reqs[r := q], queue - {reqs[r].seqno})
  {
  }

  lemma QueueEffect(s: State, e: Event, r: nat, q: Req, s': State)
    requires r in s.reqs ==> ReqOk(q)
    requires Ready(s, e) && OfReq(e) && r == e.r && q == Rq(s, r) && s' == ReqStep(s, e, q)
    ensures var q' := Rq(s', r);
            if e.Enqueue?
            then !Queued(q.pc) && Queued(q'.pc) && q'.seqno == q.seqno > 0 && s'.queue == s.queue[q.seqno := r]
            else if e.Unqueue? then Queued(q.pc) && !Queued(q'.pc) && s'.queue == s.queue - {q.seqno}
            else s'.queue == s.queue && Queued(q.pc) == Queued(q'.pc) && (Queued(q.pc) ==> q'.seqno == q.seqno)
  {
  }

  lemma ReqKeepsQueue(s: State, e: Event, r: nat, q: Req, s': State)
    requires ReqsOk(s.reqs, s.nextSeq) && QueueOk(s.reqs, s.queue)
    requires Ready(s, e) && OfReq(e) && r == e.r && q == Rq(s, r) && s' == ReqStep(s, e, q)
    ensures QueueOk(s'.reqs, s'.queue)
  {
    ReqEffect(s, e, r, q, s');
    QueueEffect(s, e, r, q, s');
    var q' := Rq(s', r);
    if e.Enqueue? {
      PutQueue(s.reqs, s.nextSeq, s.queue, r, q');
    } else if e.Unqueue? {
      DropQueue(s.reqs, s.nextSeq, s.queue, r, q');
    } else {
      SameQueue(s.reqs, s.queue, r, q');
    }
  }

  lemma InQueueIffQueued(s: State, r: nat)
    requires QueueOk(s.reqs, s.queue)
    ensures InQueue(s, r) <==> Queued(Rq(s, r).pc)
  {
  }

  /** Not yet numbered and queued. */
  predicate Early(pc: ReqPc) {
    pc.Start? || pc.OffTerminate? || pc.QueueRequest?
  }

  /** The requests that replies have found have all been queued. */
  ghost predicate FoundOk(reqs: map<nat, Req>, readers: map<nat, ReadPc>) {
    forall d :: d in readers && readers[d].GetMutex? ==> readers[d].r in reqs && !Early(reqs[readers[d].r].pc)
  }

  lemma PutFoundReq(reqs: map<nat, Req>, readers: map<nat, ReadPc>, r: nat, q: Req)
    requires FoundOk(reqs, readers) && (r in reqs && !Early(reqs[r].pc) ==> !Early(q.pc))
    ensures FoundOk(reqs[r := q], readers)
  {
  }

  lemma PutFoundRead(reqs: map<nat, Req>, readers: map<nat, ReadPc>, d: nat, pc: ReadPc)
    requires FoundOk(reqs, readers) && (pc.GetMutex? ==> pc.r in reqs && !Early(reqs[pc.r].pc))
    ensures FoundOk(reqs, readers[d := pc])
  {
  }

  lemma NeverEarlyAgain(s: State, e: Event, r: nat, q: Req, s': State)
    requires Ready(s, e) && OfReq(e) && r == e.r && q == Rq(s, r) && s' == ReqStep(s, e, q)
    ensures s'.readers == s.readers && s'.reqs == s.reqs[r := Rq(s', r)]
    ensures r in s.reqs && !Early(q.pc) ==> !Early(Rq(s', r).pc)
  {
  }

  lemma ReqKeepsFound(s: State, e: Event, r: nat, q: Req, s': State)
    requires FoundOk(s.reqs, s.readers)
    requires Ready(s, e) && OfReq(e) && r == e.r && q == Rq(s, r) && s' == ReqStep(s, e, q)
    ensures FoundOk(s'.reqs, s'.readers)
  {
    NeverEarlyAgain(s, e, r, q, s');
    PutFoundReq(s.reqs, s.readers, r, Rq(s', r));
  }

  lemma ReadKeepsFound(s: State, e: Event)
    requires FoundOk(s.reqs, s.readers) && QueueOk(s.reqs, s.queue)
    requires Ready(s, e) && OfRead(e) && !e.Take?
    ensures FoundOk(s.reqs, s.readers[e.d := NextPc(s, e, Rd(s, e.d))])
  {
    PutFoundRead(s.reqs, s.readers, e.d, NextPc(s, e, Rd(s, e.d)));
  }

  lemma TakeEffect(s: State, d: nat, resolved: bool, r: nat, s': State)
    requires Rd(s, d).GetMutex? && r == Rd(s, d).r && s' == DoTake(s, d, resolved)
    ensures s'.reqs == s.reqs || s'.reqs == s.reqs[r := Rq(s', r)]
    ensures r in s.reqs && !Early(Rq(s, r).pc) ==> !Early(Rq(s', r).pc)
    ensures s'.readers == s.readers[d := Rd(s', d)] && !Rd(s', d).GetMutex?
    ensures s'.retries == s.retries
  {
    var q := Rq(s, r);
    if Held(s, r) {
      assert s' == SetRead(s, d, GetRequest(Rd(s, d).reply));
    } else if q.cancelled {
      assert s'.reqs == s.reqs[r := q.(pc := Dropped)];
    } else if q.pc.Awaiting? && resolved {
      assert s'.reqs == s.reqs[r := q.(pc := Dequeue)];
    } else {
      assert s'.reqs == s.reqs;
    }
  }

  lemma TakeKeepsFound(s: State, d: nat, resolved: bool, s': State)
    requires FoundOk(s.reqs, s.readers) && Rd(s, d).GetMutex? && s' == DoTake(s, d, resolved)
    ensures FoundOk(s'.reqs, s'.readers)
  {
    var r := Rd(s, d).r;
    TakeEffect(s, d, resolved, r, s');
    PutFoundReq(s.reqs, s.readers, r, Rq(s', r));
    PutFoundRead(s.reqs[r := Rq(s', r)], s.readers, d, Rd(s', d));
    PutFoundRead(s.reqs, s.readers, d, Rd(s', d));
  }

  lemma TakeKeepsReqs(s: State, d: nat, resolved: bool, r: nat, q: Req)
    requires ReqsOk(s.reqs, s.nextSeq) && QueueOk(s.reqs, s.queue)
    requires Rd(s, d).GetMutex? && Rd(s, d).r == r && r in s.reqs && s.reqs[r] == q && !Deleted(q.pc) && !Early(q.pc)
    ensures var s' := DoTake(s, d, resolved); ReqsOk(s'.reqs, s'.nextSeq) && QueueOk(s'.reqs, s'.queue)
  {
    assert ReqOk(q);
    if !Held(s, r) && q.cancelled {
      PutReqOk(s.reqs, s.nextSeq, r, q.(pc := Dropped));
      UnqueueDropped(s, r, q);
    } else if q.pc.Awaiting? && resolved {
      PutReqOk(s.reqs, s.nextSeq, r, q.(pc := Dequeue));
      SameQueue(s.reqs, s.queue, r, q.(pc := Dequeue));
    }
  }

  /** The destructor takes a request off the queue if it is there. */
  lemma UnqueueDropped(s: State, r: nat, q: Req)
    requires ReqsOk(s.reqs, s.nextSeq) && QueueOk(s.reqs, s.queue) && r in s.reqs && q == s.reqs[r] && q.seqno > 0
    ensures QueueOk(s.reqs[r := q.(pc := Dropped)], s.queue - {q.seqno})
  {
    if Queued(q.pc) {
      DropQueue(s.reqs, s.nextSeq, s.queue, r, q.(pc := Dropped));
    } else {
      assert q.seqno !in s.queue;
      assert s.queue - {q.seqno} == s.queue;
      SameQueue(s.reqs, s.queue, r, q.(pc := Dropped));
    }
  }

  // ----- reconfiguration

  ghost predicate RcOk(s: State) {
    && (forall t: nat :: !Ph(s, t).Idle? ==> s.holder == Some(t))
    && (forall t: nat :: Ph(s, t).Reconfiguring? ==> !s.allow && s.pending == 0)
    && (s.holder.None? ==> s.kept == 0)
    && (s.holder.Some? && s.kept == 0 ==> !Ph(s, s.holder.value).Idle?)
  }

  /** The requests that have scheduled a retry have all been queued. */
  ghost predicate RetriesOk(reqs: map<nat, Req>, retries: multiset<nat>) {
    forall r :: r in retries ==> r in reqs && !Early(reqs[r].pc)
  }

  lemma PutRetries(reqs: map<nat, Req>, retries: multiset<nat>, r: nat, q: Req)
    requires RetriesOk(reqs, retries) && (r in reqs && !Early(reqs[r].pc) ==> !Early(q.pc))
    ensures RetriesOk(reqs[r := q], retries)
  {
  }

  lemma ReqKeepsRetries(s: State, e: Event, r: nat, q: Req, s': State)
    requires RetriesOk(s.reqs, s.retries)
    requires Ready(s, e) && OfReq(e) && r == e.r && q == Rq(s, r) && s' == ReqStep(s, e, q)
    ensures RetriesOk(s'.reqs, s'.retries)
  {
    NeverEarlyAgain(s, e, r, q, s');
    PutRetries(s.reqs, s.retries, r, Rq(s', r));
  }

  lemma TakeKeepsRetries(s: State, d: nat, resolved: bool, s': State)
    requires RetriesOk(s.reqs, s.retries) && Rd(s, d).GetMutex? && s' == DoTake(s, d, resolved)
    ensures RetriesOk(s'.reqs, s'.retries)
  {
    TakeEffect(s, d, resolved, Rd(s, d).r, s');
    PutRetries(s.reqs, s.retries, Rd(s, d).r, Rq(s', Rd(s, d).r));
  }

  ghost predicate Inv(s: State) {
    && Counted(s) && ReqsOk(s.reqs, s.nextSeq) && QueueOk(s.reqs, s.queue) && FoundOk(s.reqs, s.readers)
    && RetriesOk(s.reqs, s.retries) && RcOk(s)
  }

  lemma WakeKeepsInv(s: State, e: Event)
    requires Inv(s) && Ready(s, e) && OfWake(e)
    ensures Inv(WakeStep(s, e))
  {
    WakeKeepsRetries(s, e, WakeStep(s, e));
    FrameKeepsRc(s, WakeStep(s, e));
  }

  lemma WakeKeepsRetries(s: State, e: Event, s': State)
    requires RetriesOk(s.reqs, s.retries) && FoundOk(s.reqs, s.readers)
    requires Enabled(s, e) && OfWake(e) && s' == WakeStep(s, e)
    ensures RetriesOk(s'.reqs, s'.retries)
    ensures s' == s.(awake := s'.awake, retries := s'.retries)
  {
  }

  lemma RcKeeps(s: State, e: Event)
    requires RcOk(s) && Ready(s, e) && !OfReq(e) && !OfRead(e) && !OfWake(e)
    ensures RcOk(RcStep(s, e))
  {
  }

  /** Nothing but a reconfigurer moves the reconfigurers; while one rebuilds, nothing can count up. */
  lemma FrameKeepsRc(s: State, s': State)
    requires RcOk(s) && s'.rc == s.rc && s'.allow == s.allow && (!s.allow && s.pending == 0 ==> s'.pending == 0)
    requires s'.holder == s.holder && s'.kept == s.kept
    ensures RcOk(s')
  {
  }

  lemma AddUnknownKeepsRc(s: State, d: nat, t: nat, pc: ReadPc)
    requires Counted(s) && RcOk(s) && Enabled(s, AddUnknown(d, t, false, pc))
    ensures RcOk(ReadStep(s, AddUnknown(d, t, false, pc)))
  {
  }

  // ----- every step keeps the invariant

  lemma ReqKeepsInv(s: State, e: Event, r: nat, q: Req, s': State)
    requires Inv(s) && Ready(s, e) && OfReq(e) && r == e.r && q == Rq(s, r) && s' == ReqStep(s, e, q)
    ensures Inv(s')
  {
    ReqCounted(s, e, r, q, s');
    ReqKeepsReqs(s, e, r, q, s');
    ReqKeepsQueue(s, e, r, q, s');
    ReqKeepsFound(s, e, r, q, s');
    ReqKeepsRetries(s, e, r, q, s');
    ReqKeepsRc(s, e, r, q, s');
  }

  lemma ReqKeepsRc(s: State, e: Event, r: nat, q: Req, s': State)
    requires Counted(s) && RcOk(s)
    requires Ready(s, e) && OfReq(e) && r == e.r && q == Rq(s, r) && s' == ReqStep(s, e, q)
    ensures RcOk(s')
  {
    if e.Finish? {
      assert r in ChargedReqs(s.reqs);
    }
    RequestsKeepLock(s, e, q);
    FrameKeepsRc(s, s');
  }

  lemma TakeKeepsInv(s: State, d: nat, resolved: bool, s': State)
    requires Inv(s) && Ready(s, Take(d, resolved)) && s' == DoTake(s, d, resolved)
    ensures Inv(s')
  {
    var r := Rd(s, d).r;
    assert r in s.reqs && !Early(s.reqs[r].pc);
    TakeFrame(s, d, resolved, s');
    TakeCounted(s, d, resolved);
    TakeKeepsReqs(s, d, resolved, r, s.reqs[r]);
    TakeKeepsFound(s, d, resolved, s');
    TakeKeepsRetries(s, d, resolved, s');
    FrameKeepsRc(s, s');
  }

  lemma TakeFrame(s: State, d: nat, resolved: bool, s': State)
    requires s' == DoTake(s, d, resolved)
    ensures s'.rc == s.rc && s'.allow == s.allow && s'.pending == s.pending && s'.holder == s.holder &&
            s'.kept == s.kept
  {
  }

  lemma ReadKeepsInv(s: State, e: Event)
    requires Inv(s) && Ready(s, e) && OfRead(e) && !e.Take?
    ensures Inv(ReadStep(s, e))
  {
    ReadCounted(s, e, Rd(s, e.d));
    ReadKeepsFound(s, e);
    if KeepsLock(e) {
      AddUnknownKeepsRc(s, e.d, e.t, e.pc);
    } else {
      FrameKeepsRc(s, ReadStep(s, e));
    }
  }

  lemma StepKeepsInv(s: State, e: Event)
    requires Inv(s) && Ready(s, e)
    ensures Inv(Do(s, e))
  {
    if OfReq(e) { ReqKeepsInv(s, e, e.r, Rq(s, e.r), Do(s, e)); }
    else if e.Take? { TakeKeepsInv(s, e.d, e.resolved, Do(s, e)); }
    else if OfRead(e) { ReadKeepsInv(s, e); }
    else if OfWake(e) { WakeKeepsInv(s, e); }
    else { RcKeepsInv(s, e, Do(s, e)); }
  }

  lemma RcKeepsInv(s: State, e: Event, s': State)
    requires Inv(s) && Ready(s, e) && !OfReq(e) && !OfRead(e) && !OfWake(e) && s' == RcStep(s, e)
    ensures Inv(s')
  {
    RcKeeps(s, e);
    assert s'.reqs == s.reqs && s'.nextSeq == s.nextSeq && s'.queue == s.queue && s'.readers == s.readers;
    assert s'.pending == s.pending && s'.retries == s.retries;
  }

  lemma InvInitial(allow: bool)
    ensures Inv(Initial(allow))
  {
  }

  // ----- runs

  predicate ValidRun(s: State, es: seq<Event>)
    decreases |es|
  {
    es == [] || (Enabled(s, es[0]) && ValidRun(Do(s, es[0]), es[1..]))
  }

  function Exec(s: State, es: seq<Event>): State
    decreases |es|
  {
    if es == [] then s else Exec(Do(s, es[0]), es[1..])
  }

  predicate AllPrompt(s: State, es: seq<Event>)
    decreases |es|
  {
    es == [] || (Prompt(s, es[0]) && AllPrompt(Do(s, es[0]), es[1..]))
  }

  /** The event completes request r, or is a reply that finds it cancelled. */
  predicate Deletes(s: State, e: Event, r: nat) {
    || (e.Finish? && e.r == r)
    || (e.Take? && Rd(s, e.d).GetMutex? && Rd(s, e.d).r == r && !Held(s, r) && Rq(s, r).cancelled)
  }

  /** Who will come back to a request: a reply that has found it, a retry that it has scheduled. */
  datatype Waker = Reply(d: nat) | RetryOf(r: nat)

  /** Those whose request the event deletes, but for the reply that deletes it itself. */
  function MadeLate(s: State, e: Event): set<Waker> {
    (set d | d in s.readers && s.readers[d].GetMutex? && !(e.Take? && e.d == d) && Deletes(s, e, s.readers[d].r)
       :: Reply(d))
    + set r | r in s.retries && Deletes(s, e, r) :: RetryOf(r)
  }

  /** The event is the coming back of one that is late. */
  predicate ComesLate(e: Event, late: set<Waker>) {
    (e.Take? && Reply(e.d) in late) || (e.Retry? && RetryOf(e.r) in late)
  }

  /** No request is deleted between its look-up by a reply and the attempt of that reply to lock it, or
      between the miss of a lock and the retry. `late`: those whose request has been deleted since. */
  predicate Timely(s: State, es: seq<Event>, late: set<Waker>)
    decreases |es|
  {
    es == [] || (!ComesLate(es[0], late) && Timely(Do(s, es[0]), es[1..], late + MadeLate(s, es[0])))
  }

  ghost predicate LateOnes(s: State, late: set<Waker>) {
    forall w :: w in late <==> IsLate(s, w)
  }

  lemma OwnStep(s: State, e: Event, r: nat, q: Req)
    requires Ready(s, e) && OfReq(e) && e.r == r && r in s.reqs && q == s.reqs[r] && !Early(q.pc)
    ensures !Deleted(q.pc) && (Deleted(Rq(ReqStep(s, e, q), r).pc) <==> e.Finish?)
  {
  }

  lemma OtherStep(s: State, e: Event, r: nat)
    requires OfReq(e) && e.r != r
    ensures Rq(Do(s, e), r) == Rq(s, r)
  {
  }

  lemma TakeDeletes(s: State, d: nat, resolved: bool, r: nat)
    requires Ready(s, Take(d, resolved)) && Rd(s, d).r in s.reqs && r in s.reqs
    ensures Deleted(Rq(DoTake(s, d, resolved), r).pc) <==> Deleted(s.reqs[r].pc) || Deletes(s, Take(d, resolved), r)
  {
  }

  /** A request that has been queued is deleted by these events only, and for good. */
  lemma DeletedIffDeletes(s: State, e: Event, r: nat)
    requires FoundOk(s.reqs, s.readers) && Ready(s, e) && r in s.reqs && !Early(s.reqs[r].pc)
    ensures Deleted(Rq(Do(s, e), r).pc) <==> Deleted(s.reqs[r].pc) || Deletes(s, e, r)
  {
    if OfReq(e) && e.r == r { OwnStep(s, e, r, s.reqs[r]); }
    else if OfReq(e) { OtherStep(s, e, r); }
    else if e.Take? { TakeDeletes(s, e.d, e.resolved, r); }
    else { KeepsReqs(s, e); }
  }

  lemma KeepsReqs(s: State, e: Event)
    requires !OfReq(e) && !e.Take?
    ensures Do(s, e).reqs == s.reqs
  {
    if OfRead(e) { ReadKeepsReqs(s, e); }
    else if !OfWake(e) { RcKeepsReqs(s, e); }
  }

  lemma ReadKeepsReqs(s: State, e: Event)
    requires OfRead(e) && !e.Take?
    ensures ReadStep(s, e).reqs == s.reqs && ReadStep(s, e).retries == s.retries
  {
  }

  lemma RcKeepsReqs(s: State, e: Event)
    ensures RcStep(s, e).reqs == s.reqs && RcStep(s, e).retries == s.retries
  {
  }

  lemma QueuedIsNotDeleted(s: State, n: nat)
    requires QueueOk(s.reqs, s.queue) && n in s.queue
    ensures s.queue[n] in s.reqs && !Deleted(s.reqs[s.queue[n]].pc)
  {
  }

  /** A read moves by its own events only, and finds a request only in the queue. */
  lemma ReadStepMoves(s: State, e: Event, d: nat)
    requires Enabled(s, e) && OfRead(e) && !e.Take?
    ensures Rd(ReadStep(s, e), d) != Rd(s, d) ==> e.d == d && !Rd(s, d).GetMutex?
    ensures var pc := Rd(ReadStep(s, e), d);
            pc.GetMutex? && pc != Rd(s, d) ==> pc.reply in s.queue && pc.r == s.queue[pc.reply]
  {
  }

  lemma TakeMoves(s: State, e: Event, d: nat)
    requires Enabled(s, e) && e.Take?
    ensures if e.d == d then !Rd(Do(s, e), d).GetMutex? else Rd(Do(s, e), d) == Rd(s, d)
  {
  }

  lemma KeepsReads(s: State, e: Event)
    requires !OfRead(e)
    ensures Do(s, e).readers == s.readers
  {
    if OfReq(e) { RequestsKeepReads(s, e, Rq(s, e.r)); }
    else if !OfWake(e) { RcKeepsReads(s, e); }
  }

  lemma RcKeepsReads(s: State, e: Event)
    ensures RcStep(s, e).readers == s.readers
  {
  }

  lemma RequestsKeepReads(s: State, e: Event, q: Req)
    requires OfReq(e)
    ensures ReqStep(s, e, q).readers == s.readers
  {
  }

  ghost predicate IsLate(s: State, w: Waker) {
    match w
    case Reply(d) => Rd(s, d).GetMutex? && Deleted(Rq(s, Rd(s, d).r).pc)
    case RetryOf(r) => r in s.retries && Deleted(Rq(s, r).pc)
  }

  lemma ReaderMoves(s: State, e: Event, d: nat)
    requires Enabled(s, e)
    ensures Rd(s, d).GetMutex? ==>
            if e.Take? && e.d == d then !Rd(Do(s, e), d).GetMutex? else Rd(Do(s, e), d) == Rd(s, d)
    ensures var pc := Rd(Do(s, e), d);
            pc.GetMutex? && !Rd(s, d).GetMutex? ==>
              !OfReq(e) && !e.Take? && pc.reply in s.queue && pc.r == s.queue[pc.reply]
  {
    if !OfRead(e) { KeepsReads(s, e); }
    else if e.Take? { TakeMoves(s, e, d); }
    else { ReadStepMoves(s, e, d); }
  }

  lemma WhoIsMadeLate(s: State, e: Event)
    ensures forall d :: Reply(d) in MadeLate(s, e) <==>
              Rd(s, d).GetMutex? && !(e.Take? && e.d == d) && Deletes(s, e, Rd(s, d).r)
    ensures forall r :: RetryOf(r) in MadeLate(s, e) <==> r in s.retries && Deletes(s, e, r)
  {
  }

  lemma LateReplyStep(s: State, e: Event, d: nat)
    requires Inv(s) && Ready(s, e)
    ensures IsLate(Do(s, e), Reply(d))
            <==> IsLate(s, Reply(d)) || (Rd(s, d).GetMutex? && !(e.Take? && e.d == d) && Deletes(s, e, Rd(s, d).r))
  {
    ReaderMoves(s, e, d);
    if Rd(s, d).GetMutex? {
      FoundIsQueued(s, d);
      DeletedIffDeletes(s, e, Rd(s, d).r);
    } else if Rd(Do(s, e), d).GetMutex? {
      KeepsReqs(s, e);
      QueuedIsNotDeleted(s, Rd(Do(s, e), d).reply);
    }
  }

  lemma KeepsRetries(s: State, e: Event)
    requires !OfWake(e)
    ensures Do(s, e).retries == s.retries
  {
    if OfReq(e) { RequestsKeepRetries(s, e, Rq(s, e.r)); }
    else if e.Take? { TakeMovesRetries(s, e.d, e.resolved); }
    else if OfRead(e) { ReadKeepsReqs(s, e); }
    else { RcKeepsReqs(s, e); }
  }

  lemma TakeMovesRetries(s: State, d: nat, resolved: bool)
    ensures DoTake(s, d, resolved).retries == s.retries
  {
  }

  lemma RequestsKeepRetries(s: State, e: Event, q: Req)
    requires OfReq(e)
    ensures ReqStep(s, e, q).retries == s.retries
  {
  }

  lemma LateRetryStep(s: State, e: Event, r: nat)
    requires Inv(s) && Ready(s, e)
    ensures IsLate(Do(s, e), RetryOf(r)) <==> IsLate(s, RetryOf(r)) || (r in s.retries && Deletes(s, e, r))
  {
    if OfWake(e) {
      WakeDeletesNone(s, e, r);
    } else {
      KeepsRetries(s, e);
      if r in s.retries {
        DeletedIffDeletes(s, e, r);
      }
    }
  }

  lemma WakeDeletesNone(s: State, e: Event, r: nat)
    requires Ready(s, e) && OfWake(e)
    ensures IsLate(WakeStep(s, e), RetryOf(r)) <==> IsLate(s, RetryOf(r))
    ensures !Deletes(s, e, r)
  {
  }

  lemma FoundIsQueued(s: State, d: nat)
    requires FoundOk(s.reqs, s.readers) && Rd(s, d).GetMutex?
    ensures d in s.readers && Rd(s, d).r in s.reqs && !Early(s.reqs[Rd(s, d).r].pc)
  {
  }

  /** Along a run every reply that has found a request, and every retry, meets it alive if and only if the run
      is timely. */
  lemma {:induction false} PromptIffTimely(s: State, es: seq<Event>, late: set<Waker>)
    requires Inv(s) && LateOnes(s, late) && ValidRun(s, es)
    ensures AllPrompt(s, es) <==> Timely(s, es, late)
    ensures Timely(s, es, late) ==> Inv(Exec(s, es))
    decreases |es|
  {
    if es != [] && Prompt(s, es[0]) {
      StepKeepsInv(s, es[0]);
      LateOnesStep(s, es[0], late);
      PromptIffTimely(Do(s, es[0]), es[1..], late + MadeLate(s, es[0]));
    }
  }

  lemma LateOnesStep(s: State, e: Event, late: set<Waker>)
    requires Inv(s) && Ready(s, e) && LateOnes(s, late)
    ensures LateOnes(Do(s, e), late + MadeLate(s, e))
  {
    WhoIsMadeLate(s, e);
    forall w: Waker
      ensures w in late + MadeLate(s, e) <==> IsLate(Do(s, e), w)
    {
      match w
      case Reply(d) => LateReplyStep(s, e, d);
      case RetryOf(r) => LateRetryStep(s, e, r);
    }
  }

  predicate TimelyRun(allow: bool, es: seq<Event>) {
    ValidRun(Initial(allow), es) && Timely(Initial(allow), es, {})
  }

  lemma TimelyRunKeepsInv(allow: bool, es: seq<Event>)
    requires TimelyRun(allow, es)
    ensures Inv(Exec(Initial(allow), es))
  {
    InvInitial(allow);
    PromptIffTimely(Initial(allow), es, {});
  }

  function Requests(s: State, dropped: bool): set<nat> {
    set r | r in s.reqs && if dropped then s.reqs[r].pc.Dropped? else Busy(s.reqs[r].pc)
  }

  lemma ChargedParts(s: State)
    ensures |ChargedReqs(s.reqs)| == |Requests(s, false)| + |Requests(s, true)|
  {
    assert ChargedReqs(s.reqs) == Requests(s, false) + Requests(s, true);
    assert Requests(s, false) !! Requests(s, true);
  }

  /** In every reachable state the counter is the requests and the reads in flight and the requests that a
      reply deleted, all of which their users had cancelled. */
  lemma PendingIsCounted(allow: bool, es: seq<Event>)
    requires TimelyRun(allow, es)
    ensures var s := Exec(Initial(allow), es);
            && s.pending == |Requests(s, false)| + |BusyReads(s.readers)| + |Requests(s, true)|
            && (forall r :: r in s.reqs && s.reqs[r].pc.Dropped? ==> s.reqs[r].cancelled)
  {
    TimelyRunKeepsInv(allow, es);
    ChargedParts(Exec(Initial(allow), es));
  }

  /** While a thread rebuilds the configuration, it has the configuration lock, queries are off, the
      counter is 0, no continuation is between its increment and its decrement, and no other thread
      reconfigures. */
  lemma QuietReconfiguration(allow: bool, es: seq<Event>, t: nat)
    requires TimelyRun(allow, es) && Ph(Exec(Initial(allow), es), t).Reconfiguring?
    ensures var s := Exec(Initial(allow), es);
            && s.holder == Some(t) && !s.allow && s.pending == 0
            && (forall r :: r in s.reqs ==> !Busy(s.reqs[r].pc) && !s.reqs[r].pc.Dropped?)
            && (forall d :: d in s.readers ==> !Reading(s.readers[d]))
            && (forall u: nat :: u != t ==> Ph(s, u).Idle?)
  {
    TimelyRunKeepsInv(allow, es);
    var s := Exec(Initial(allow), es);
    forall r | r in s.reqs
      ensures !Busy(s.reqs[r].pc) && !s.reqs[r].pc.Dropped?
    {
      assert r !in ChargedReqs(s.reqs);
    }
    forall d | d in s.readers
      ensures !Reading(s.readers[d])
    {
      assert d !in BusyReads(s.readers);
    }
    forall u: nat | u != t
      ensures Ph(s, u).Idle?
    {
    }
  }

  /** The user's continuation is called at most once, and exactly once if processing completes and the
      user has not cancelled. */
  lemma CalledOnce(allow: bool, es: seq<Event>, r: nat)
    requires TimelyRun(allow, es) && r in Exec(Initial(allow), es).reqs
    ensures var q := Exec(Initial(allow), es).reqs[r]; q.calls <= 1 && (q.pc.Done? && !q.cancelled ==> q.calls == 1)
  {
    TimelyRunKeepsInv(allow, es);
    assert ReqOk(Exec(Initial(allow), es).reqs[r]);
  }

  /** A request whose mutex is free is queued if and only if it awaits replies. */
  lemma QueuedIffAwaiting(allow: bool, es: seq<Event>, r: nat)
    requires TimelyRun(allow, es)
    ensures var s := Exec(Initial(allow), es);
            && (!Locked(Rq(s, r).pc) ==> (InQueue(s, r) <==> Rq(s, r).pc.Awaiting?))
            && (forall q, n :: q in s.queue && n in s.queue && s.queue[q] == s.queue[n] ==> q == n)
  {
    TimelyRunKeepsInv(allow, es);
    InQueueIffQueued(Exec(Initial(allow), es), r);
  }

  // ----- what a cancelled request costs

  lemma DroppedStays(s: State, e: Event, r: nat)
    requires Ready(s, e) && r in s.reqs && s.reqs[r].pc.Dropped?
    ensures Rq(Do(s, e), r).pc.Dropped?
  {
    if OfReq(e) {
      OtherStep(s, e, r);
    } else if e.Take? {
      TakeLeavesDeleted(s, e.d, e.resolved, r);
    } else {
      KeepsReqs(s, e);
    }
  }

  lemma TakeLeavesDeleted(s: State, d: nat, resolved: bool, r: nat)
    requires Ready(s, Take(d, resolved)) && Deleted(Rq(s, r).pc)
    ensures Rq(DoTake(s, d, resolved), r) == Rq(s, r)
  {
  }

  /** Once a reply has deleted a cancelled request, no thread ever rebuilds the configuration again, in any
      timely run. */
  lemma {:induction false} DroppedBlocksReconfiguration(s: State, es: seq<Event>, late: set<Waker>, r: nat, t: nat)
    requires Inv(s) && LateOnes(s, late) && ValidRun(s, es) && Timely(s, es, late)
    requires r in s.reqs && s.reqs[r].pc.Dropped?
    ensures !Ph(Exec(s, es), t).Reconfiguring?
    decreases |es|
  {
    if es == [] {
      assert r in ChargedReqs(s.reqs);
    } else {
      StepKeepsInv(s, es[0]);
      LateOnesStep(s, es[0], late);
      DroppedStays(s, es[0], r);
      DroppedBlocksReconfiguration(Do(s, es[0]), es[1..], late + MadeLate(s, es[0]), r, t);
    }
  }

  /** A thread that has the configuration lock goes on to rebuild if and only if no request and no read is
      in flight and no request has been deleted by a reply. */
  lemma RebuildsIffQuiet(allow: bool, es: seq<Event>, t: nat)
    requires TimelyRun(allow, es) && Ph(Exec(Initial(allow), es), t).Decide?
    ensures var s := Exec(Initial(allow), es);
            Ph(Do(s, Check(t)), t).Reconfiguring?
            <==> Requests(s, false) == {} && Requests(s, true) == {} && BusyReads(s.readers) == {}
  {
    TimelyRunKeepsInv(allow, es);
    ChargedParts(Exec(Initial(allow), es));
  }

  /** A reply deletes its request exactly when it gets the mutex and finds the request cancelled; it ends
      the wait only of a request that awaits replies; and the counter stays in any case. */
  lemma WhatAReplyDoes(s: State, d: nat, resolved: bool)
    requires Inv(s) && Ready(s, Take(d, resolved))
    ensures var r := Rd(s, d).r;
            var q, s' := Rq(s, r), Do(s, Take(d, resolved));
            && (Rq(s', r).pc.Dropped? <==> !Held(s, r) && q.cancelled)
            && (Rq(s', r) != q && !Rq(s', r).pc.Dropped? ==> q.pc.Awaiting? && InQueue(s, r))
            && s'.pending == s.pending
  {
    InQueueIffQueued(s, Rd(s, d).r);
  }

  /** The addition of an unknown peer takes the configuration lock and never gives it back: from then on
      no other thread reconfigures, in any run. */
  lemma KeptLockStays(s: State, es: seq<Event>, t: nat, u: nat)
    requires Inv(s) && ValidRun(s, es) && s.kept > 0 && s.holder == Some(t) && u != t
    ensures Exec(s, es).holder == Some(t) && Ph(Exec(s, es), u).Idle?
  {
    KeptAlong(s, es, t);
  }

  ghost predicate KeptBy(s: State, t: nat) {
    s.kept > 0 && s.holder == Some(t) && forall u: nat :: u != t ==> Ph(s, u).Idle?
  }

  lemma {:induction false} KeptAlong(s: State, es: seq<Event>, t: nat)
    requires ValidRun(s, es) && KeptBy(s, t)
    ensures KeptBy(Exec(s, es), t)
    decreases |es|
  {
    if es != [] {
      KeptLock(s, es[0], t);
      KeptAlong(Do(s, es[0]), es[1..], t);
    }
  }

  lemma KeptLock(s: State, e: Event, t: nat)
    requires Enabled(s, e) && KeptBy(s, t)
    ensures KeptBy(Do(s, e), t)
  {
    if OfReq(e) {
      RequestsKeepLock(s, e, Rq(s, e.r));
      SameRc(s, Do(s, e), t);
    } else if e.Take? {
      TakeFrame(s, e.d, e.resolved, Do(s, e));
      SameRc(s, Do(s, e), t);
    } else if OfRead(e) || OfWake(e) {
      SameRc(s, Do(s, e), t);
    } else {
      RcKept(s, e, t);
    }
  }

  lemma SameRc(s: State, s': State, t: nat)
    requires KeptBy(s, t) && s'.rc == s.rc && s'.holder == s.holder && s'.kept >= s.kept
    ensures KeptBy(s', t)
  {
    assert forall u: nat :: Ph(s', u) == Ph(s, u);
  }

  lemma RcKept(s: State, e: Event, t: nat)
    requires Enabled(s, e) && KeptBy(s, t) && !OfReq(e) && !OfRead(e) && !OfWake(e)
    ensures KeptBy(RcStep(s, e), t)
  {
    forall u: nat | u != t
      ensures Ph(RcStep(s, e), u).Idle?
    {
      assert Ph(s, u).Idle?;
    }
  }

  /** While nobody reconfigures, the configuration lock is free if and only if no such addition has
      happened; so until then any thread can start a reconfiguration. */
  lemma LockIsFreeIffNotKept(allow: bool, es: seq<Event>, t: nat)
    requires TimelyRun(allow, es) && forall u: nat :: Ph(Exec(Initial(allow), es), u).Idle?
    ensures var s := Exec(Initial(allow), es);
            && (s.holder.None? <==> s.kept == 0)
            && (Enabled(s, TakeConfig(t)) <==> s.kept == 0 || s.holder == Some(t))
  {
    TimelyRunKeepsInv(allow, es);
    IdleLock(Exec(Initial(allow), es), t);
  }

  lemma IdleLock(s: State, t: nat)
    requires Inv(s) && forall u: nat :: Ph(s, u).Idle?
    ensures s.holder.None? <==> s.kept == 0
    ensures Enabled(s, TakeConfig(t)) <==> s.kept == 0 || s.holder == Some(t)
  {
  }

  lemma RequestsKeepLock(s: State, e: Event, q: Req)
    requires OfReq(e)
    ensures var s' := ReqStep(s, e, q);
            s'.holder == s.holder && s'.kept == s.kept && s'.rc == s.rc && s'.allow == s.allow
  {
  }

  // ----- looking up a request and locking it are two steps

  ghost predicate Reached(s: State) {
    exists es :: TimelyRun(true, es) && Exec(Initial(true), es) == s
  }

  lemma SnocRun(s: State, es: seq<Event>, late: set<Waker>, e: Event)
    requires Inv(s) && LateOnes(s, late) && ValidRun(s, es) && Timely(s, es, late) && Ready(Exec(s, es), e)
    ensures ValidRun(s, es + [e]) && Timely(s, es + [e], late) && Exec(s, es + [e]) == Do(Exec(s, es), e)
  {
    SnocExec(s, es, e);
    LateOnesAlong(s, es, late);
    ReadyIsNotLate(Exec(s, es), e, LateAfter(s, es, late));
    SnocTimely(s, es, late, e);
  }

  lemma {:induction false} SnocExec(s: State, es: seq<Event>, e: Event)
    requires ValidRun(s, es) && Enabled(Exec(s, es), e)
    ensures ValidRun(s, es + [e]) && Exec(s, es + [e]) == Do(Exec(s, es), e)
    decreases |es|
  {
    if es == [] {
      OneEvent(s, e);
      assert es + [e] == [e];
    } else {
      assert (es + [e])[1..] == es[1..] + [e];
      SnocExec(Do(s, es[0]), es[1..], e);
    }
  }

  lemma OneEvent(s: State, e: Event)
    requires Enabled(s, e)
    ensures ValidRun(s, [e]) && Exec(s, [e]) == Do(s, e)
  {
    assert [e][1..] == [];
  }

  function LateAfter(s: State, es: seq<Event>, late: set<Waker>): set<Waker>
    decreases |es|
  {
    if es == [] then late else LateAfter(Do(s, es[0]), es[1..], late + MadeLate(s, es[0]))
  }

  lemma {:induction false} SnocTimely(s: State, es: seq<Event>, late: set<Waker>, e: Event)
    requires Timely(s, es, late) && !ComesLate(e, LateAfter(s, es, late))
    ensures Timely(s, es + [e], late)
    decreases |es|
  {
    if es == [] {
      OneTimely(s, e, late);
      assert es + [e] == [e];
    } else {
      SnocTimely(Do(s, es[0]), es[1..], late + MadeLate(s, es[0]), e);
      ConsTimely(s, es[0], es[1..] + [e], late);
      assert es + [e] == [es[0]] + (es[1..] + [e]);
    }
  }

  lemma {:induction false} LateOnesAlong(s: State, es: seq<Event>, late: set<Waker>)
    requires Inv(s) && LateOnes(s, late) && ValidRun(s, es) && Timely(s, es, late)
    ensures LateOnes(Exec(s, es), LateAfter(s, es, late))
    decreases |es|
  {
    if es != [] {
      var s', late' := NextInTime(s, es, late);
      LateOnesAlong(s', es[1..], late');
    }
  }

  lemma OneTimely(s: State, e: Event, late: set<Waker>)
    requires !ComesLate(e, late)
    ensures Timely(s, [e], late)
  {
    assert [e][1..] == [];
  }

  lemma ConsTimely(s: State, e: Event, rest: seq<Event>, late: set<Waker>)
    requires !ComesLate(e, late) && Timely(Do(s, e), rest, late + MadeLate(s, e))
    ensures Timely(s, [e] + rest, late)
  {
    assert ([e] + rest)[1..] == rest;
  }

  lemma NextInTime(s: State, es: seq<Event>, late: set<Waker>) returns (s': State, late': set<Waker>)
    requires es != [] && Inv(s) && LateOnes(s, late) && ValidRun(s, es) && Timely(s, es, late)
    ensures s' == Do(s, es[0]) && late' == late + MadeLate(s, es[0]) && !ComesLate(es[0], late)
    ensures Inv(s') && LateOnes(s', late') && ValidRun(s', es[1..]) && Timely(s', es[1..], late')
    ensures Exec(s', es[1..]) == Exec(s, es)
  {
    s', late' := Do(s, es[0]), late + MadeLate(s, es[0]);
    InTimeIsReady(s, es[0], late);
    StepKeepsInv(s, es[0]);
    LateOnesStep(s, es[0], late);
  }

  lemma InTimeIsReady(s: State, e: Event, late: set<Waker>)
    requires LateOnes(s, late) && Enabled(s, e) && !ComesLate(e, late)
    ensures Ready(s, e)
  {
    if e.Take? {
      assert !IsLate(s, Reply(e.d));
    } else if e.Retry? {
      assert !IsLate(s, RetryOf(e.r));
    }
  }

  lemma ReadyIsNotLate(s: State, e: Event, late: set<Waker>)
    requires LateOnes(s, late) && Ready(s, e)
    ensures !ComesLate(e, late)
  {
    if e.Take? {
      assert !IsLate(s, Reply(e.d));
    } else if e.Retry? {
      assert !IsLate(s, RetryOf(e.r));
    }
  }

  lemma NoneIsLate(allow: bool)
    ensures LateOnes(Initial(allow), {})
  {
  }

  lemma Play(s: State, e: Event) returns (s': State)
    requires Reached(s) && Ready(s, e)
    ensures s' == Do(s, e) && Reached(s')
  {
    var es :| TimelyRun(true, es) && Exec(Initial(true), es) == s;
    InvInitial(true);
    NoneIsLate(true);
    SnocRun(Initial(true), es, {}, e);
    s' := Do(s, e);
    assert TimelyRun(true, es + [e]) && Exec(Initial(true), es + [e]) == s';
  }

  lemma RequestAwaits() returns (s: State)
    ensures Reached(s) && s.allow && Rq(s, 0) == Req(Awaiting, 1, false, 0, 0) && s.queue == map[1 := 0] &&
            s.readers == map[]
    ensures s.awake == {} && s.retries == multiset{}
  {
    s := Initial(true);
    assert TimelyRun(true, []) && Exec(s, []) == s;
    s := Play(s, Query(0));
    s := Play(s, Begin(0, true, false));
    s := Play(s, Enqueue(0));
    s := Play(s, EndSends(0, true));
  }

  lemma ReplyArrives() returns (s: State)
    ensures Reached(s) && Rq(s, 0) == Req(Awaiting, 1, false, 0, 0) && s.queue == map[1 := 0] && Rd(s, 0) == Process
    ensures s.awake == {} && s.retries == multiset{}
  {
    s := RequestAwaits();
    s := Play(s, StartRead(0));
    s := Play(s, Activate(0, true));
    s := Play(s, Move(0, Process));
  }

  lemma ReplyFinds() returns (s: State)
    ensures Reached(s) && Rq(s, 0) == Req(Awaiting, 1, false, 0, 0) && Rd(s, 0) == GetMutex(1, 0)
    ensures s.awake == {} && s.retries == multiset{}
  {
    s := ReplyArrives();
    s := Play(s, Move(0, GetRequest(1)));
    s := Play(s, Find(0));
  }

  lemma TimerFires() returns (s: State)
    ensures Reached(s) && Rq(s, 0) == Req(Dequeue, 1, false, 0, 0) && Rd(s, 0) == GetMutex(1, 0)
    ensures s.awake == {} && s.retries == multiset{}
  {
    s := ReplyFinds();
    s := Play(s, Timeout(0, 0));
  }

  lemma RequestTimesOut() returns (s: State)
    ensures Reached(s) && Rq(s, 0) == Req(Post, 1, false, 0, 0) && Rd(s, 0) == GetMutex(1, 0)
    ensures s.awake == {0} && s.retries == multiset{}
  {
    s := TimerFires();
    s := Play(s, Unqueue(0));
  }

  lemma RequestPosts() returns (s: State)
    ensures Reached(s) && Rq(s, 0) == Req(WaitSend, 1, false, 1, 0) && Rd(s, 0) == GetMutex(1, 0) && 0 in s.awake
  {
    s := RequestTimesOut();
    s := Play(s, PostCompletion(0));
  }

  lemma RequestCountsDown() returns (s: State)
    ensures Reached(s) && Rq(s, 0) == Req(NotActive, 1, false, 1, 0) && Rd(s, 0) == GetMutex(1, 0) && 0 in s.awake
  {
    s := RequestPosts();
    s := Play(s, AllSent(0));
  }

  /** Unless the lock follows the look-up promptly, a reply can reach a request that is complete and deleted. */
  lemma LateReply()
    ensures exists s, d, r ::
              Reached(s) && Rd(s, d) == GetMutex(1, r) && Rq(s, r).pc.Done? && Enabled(s, Take(d, false))
  {
    var s := RequestCountsDown();
    s := Play(s, Finish(0));
    assert Rd(s, 0) == GetMutex(1, 0) && Rq(s, 0).pc.Done?;
    assert Enabled(s, Take(0, false));
  }

  lemma RequestSleeps() returns (s: State)
    ensures Reached(s) && Rq(s, 0) == Req(Post, 1, false, 0, 0) && Rd(s, 0) == GetMutex(1, 0)
    ensures s.retries == multiset{0} && s.awake == {}
  {
    s := RequestTimesOut();
    s := Play(s, MissLock(0));
  }

  lemma ReplyWakes() returns (s: State)
    ensures Reached(s) && Rq(s, 0) == Req(Post, 1, false, 0, 0) && s.retries == multiset{0} && 0 in s.awake
  {
    s := RequestSleeps();
    s := Play(s, Take(0, false));
  }

  lemma WokenPosts() returns (s: State)
    ensures Reached(s) && Rq(s, 0) == Req(WaitSend, 1, false, 1, 0) && s.retries == multiset{0} && 0 in s.awake
  {
    s := ReplyWakes();
    s := Play(s, PostCompletion(0));
  }

  lemma WokenCountsDown() returns (s: State)
    ensures Reached(s) && Rq(s, 0) == Req(NotActive, 1, false, 1, 0) && s.retries == multiset{0} && 0 in s.awake
  {
    s := WokenPosts();
    s := Play(s, AllSent(0));
  }

  /** And a retry can: a request that misses a lock on its way to completion is woken by a reply, completes
      and is deleted before its own retry comes. */
  lemma LateRetry()
    ensures exists s, r :: Reached(s) && r in s.retries && Rq(s, r).pc.Done? && Enabled(s, Retry(r))
  {
    var s := WokenCountsDown();
    s := Play(s, Finish(0));
    assert 0 in s.retries && Rq(s, 0).pc.Done?;
    assert Enabled(s, Retry(0));
  }

  // ----- runs to the other two states

  /** A user who cancels between the look-up and the lock makes the reply delete the request. */
  lemma DropIsReached()
    ensures exists s, r :: Reached(s) && Rq(s, r).pc.Dropped?
  {
    var s := ReplyFinds();
    s := Play(s, Cancel(0));
    s := Play(s, Take(0, false));
    assert Rq(s, 0).pc.Dropped?;
  }

  lemma ReadBegins() returns (s: State)
    ensures Reached(s) && Rd(s, 0) == Data && s.holder.None? && s.rc == map[]
  {
    s := Initial(true);
    assert TimelyRun(true, []) && Exec(s, []) == s;
    s := Play(s, StartRead(0));
    s := Play(s, Activate(0, true));
  }

  lemma UnknownArrives() returns (s: State)
    ensures Reached(s) && Rd(s, 0) == AddPeer && s.holder.None? && s.rc == map[]
  {
    s := ReadBegins();
    s := Play(s, Move(0, Process));
    s := Play(s, Move(0, AddPeer));
  }

  /** A query from an unknown sender makes the thread that reads it keep the configuration lock. */
  lemma KeptLockIsReached(t: nat)
    ensures exists s :: Reached(s) && s.kept > 0 && s.holder == Some(t)
  {
    var s := UnknownArrives();
    s := Play(s, AddUnknown(0, t, false, Lookup));
  }
}
