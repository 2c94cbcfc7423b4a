/** A shared buffer in which writers reserve space, readers pin it, and the last writer of a full
    buffer starts its flush. All shared state is one 64-bit word, changed by compare-and-swap.

    The threads are interleaved at the grain of single reads, writes and swaps of that word. A thread's
    program counter holds the value it read last, which is what its next swap compares with; the swap
    looks at nothing but the value. */
module AbstractBuffer {

  datatype Phase = Unused | Initializing | ReadWrite | ReadOnly | Flush | FlushComplete

  datatype Word = Word(readers: nat, writers: nat, offset: nat, phase: Phase)

  const COUNTERS := 0x1_0000
  const OFFSETS := 0x2000_0000

  // ----- the packed word

  function PhaseCode(p: Phase): (c: nat)
    ensures c < 8
  {
    match p
    case Unused => 0
    case Initializing => 1
    case ReadWrite => 2
    case ReadOnly => 3
    case Flush => 4
    case FlushComplete => 5
  }

  predicate Fits(w: Word) {
    w.readers < COUNTERS && w.writers < COUNTERS && w.offset < OFFSETS
  }

  function Pack(w: Word): nat {
    w.readers + COUNTERS * (w.writers + COUNTERS * (w.offset + OFFSETS * PhaseCode(w.phase)))
  }

  /** Comparing the packed words compares all four fields. */
  lemma PackIsInjective(v: Word, w: Word)
    requires Fits(v) && Fits(w)
    ensures Pack(v) < 0x1_0000_0000_0000_0000
    ensures Pack(v) == Pack(w) <==> v == w
  {
    if Pack(v) == Pack(w) {
      var v1 := v.writers + COUNTERS * (v.offset + OFFSETS * PhaseCode(v.phase));
      var w1 := w.writers + COUNTERS * (w.offset + OFFSETS * PhaseCode(w.phase));
      assert v.readers == w.readers && v1 == w1;
      assert v.writers == w.writers &&
             v.offset + OFFSETS * PhaseCode(v.phase) == w.offset + OFFSETS * PhaseCode(w.phase);
      assert v.offset == w.offset && PhaseCode(v.phase) == PhaseCode(w.phase);
    }
  }

  // ----- threads

  datatype Pc =
    | Idle
    // checkout_write
    | WriteProbe(len: nat)
    | WriteClaim(len: nat, seen: Word)
    | InitOffset(len: nat)
    | InitPhase(len: nat)
    | WriteLook(len: nat)
    | WriteClose(seen: Word)
    | WriteGrant(len: nat, seen: Word)
    // full, and the tail of checkin_write
    | FullPhase
    | FullWriters
    | FlushLook
    | FlushTry(seen: Word)
    // flush
    | FlushPhase
    | FlushWriters
    // checkin_write
    | CheckinLook(i: nat)
    | CheckinTry(i: nat, seen: Word)
    // checkout_read and checkin_read
    | ReadLook(at: nat, n: nat)
    | ReadTry(at: nat, n: nat, seen: Word)
    | ReadInLook(h: nat)
    | ReadInTry(h: nat, seen: Word)
    // flush_complete and destroy
    | CompleteLook
    | CompleteTry(seen: Word)
    | CompleteTest(installed: Word, g: nat)
    | DestroyOffset(g: nat)
    | DestroyPhase(g: nat)

  datatype Reservation = Reservation(off: nat, len: nat)

  datatype Buffer = Buffer(size: nat, align: nat)

  /** The word, with a history the code does not keep: the reservations granted since the
      last initialization and those not checked in (as indices), the outstanding readers, the number of
      initializations, and in which of these flush and destroy were started.
      `flushOwed`: flush has been called and its completion has not been reported.
      `owner`: the last thread that entered a phase of its own. `flusher`: the last that might flush. */
  datatype Shared = Shared(
    word: Word, granted: seq<Reservation>, open: set<nat>, readers: map<nat, nat>, nextReader: nat,
    gen: nat, flushes: multiset<nat>, destroys: multiset<nat>,
    flushOwed: bool, owner: nat, flusher: nat)

  datatype State = State(sh: Shared, threads: map<nat, Pc>)

  const START := State(Shared(Word(0, 0, 0, Unused), [], {}, map[], 0, 0, multiset{}, multiset{}, false, 0, 0), map[])

  function At(s: State, t: nat): Pc {
    if t in s.threads then s.threads[t] else Idle
  }

  function Put(s: State, t: nat, pc: Pc): State {
    s.(threads := s.threads[t := pc])
  }

  function Set(s: State, sh: Shared, t: nat, pc: Pc): State {
    State(sh, s.threads[t := pc])
  }

  function RoundUp(n: nat, align: nat): nat
    requires align > 0
  {
    (n + align - 1) / align * align
  }

  predicate Readable(p: Phase) {
    p.ReadWrite? || p.ReadOnly? || p.Flush?
  }

  predicate Drained(w: Word) {
    w.phase.ReadOnly? && w.writers == 0
  }

  datatype Event =
    | BeginWrite(t: nat, n: nat)
    | BeginCheckin(t: nat, i: nat)
    | BeginRead(t: nat, at: nat, n: nat)
    | BeginReadCheckin(t: nat, h: nat)
    | BeginComplete(t: nat)
    | GiveUp(t: nat)   // the retries of checkout_write are used up
    | Go(t: nat)

  predicate ChecksIn(pc: Pc) {
    pc.CheckinLook? || pc.CheckinTry?
  }

  predicate ReadsIn(pc: Pc) {
    pc.ReadInLook? || pc.ReadInTry?
  }

  /** Nobody but t is checking in reservation i. */
  predicate Sole(s: State, t: nat, i: nat) {
    forall u | u in s.threads :: u != t && ChecksIn(s.threads[u]) ==> s.threads[u].i != i
  }

  predicate SoleReader(s: State, t: nat, h: nat) {
    forall u | u in s.threads :: u != t && ReadsIn(s.threads[u]) ==> s.threads[u].h != h
  }

  /** Sizes are positive, each reservation and each read is checked in once, completion is reported once
      for each call of flush and not before its end, and fewer than 65536 readers and writers are outstanding. */
  predicate Enabled(s: State, e: Event) {
    match e
    case BeginWrite(t, n) => At(s, t).Idle? && n > 0
    case BeginCheckin(t, i) => At(s, t).Idle? && i in s.sh.open && Sole(s, t, i)
    case BeginRead(t, at, n) => At(s, t).Idle? && n > 0
    case BeginReadCheckin(t, h) => At(s, t).Idle? && h in s.sh.readers && SoleReader(s, t, h)
    case BeginComplete(t) => At(s, t).Idle? && s.sh.flushOwed
    case GiveUp(t) => At(s, t).WriteLook?
    case Go(t) =>
      && !At(s, t).Idle?
      && (At(s, t).WriteGrant? ==> s.sh.word.writers + 1 < COUNTERS)
      && (At(s, t).ReadTry? ==> s.sh.word.readers + 1 < COUNTERS)
  }

  /** 16-bit counters. */
  function Up(n: nat): nat {
    if n == COUNTERS - 1 then 0 else n + 1
  }

  function Down(n: nat): nat {
    if n == 0 then COUNTERS - 1 else n - 1
  }

  // ----- what a successful swap, or a plain write, does

  function Claim(sh: Shared, t: nat): Shared {
    sh.(word := sh.word.(phase := Initializing), granted := [], gen := sh.gen + 1, owner := t)
  }

  function Close(sh: Shared, t: nat): Shared {
    sh.(word := sh.word.(phase := ReadOnly), flusher := t)
  }

  function Grant(sh: Shared, len: nat): Shared {
    var w := sh.word;
    sh.(word := w.(offset := w.offset + len, writers := Up(w.writers)),
        granted := sh.granted + [Reservation(w.offset, len)], open := sh.open + {|sh.granted|})
  }

  function StartFlush(sh: Shared, t: nat): Shared {
    sh.(word := sh.word.(phase := Flush), flushes := sh.flushes + multiset{sh.gen}, owner := t)
  }

  function EndFlush(sh: Shared): Shared {
    sh.(flushOwed := true)
  }

  function CheckIn(sh: Shared, t: nat, i: nat): Shared {
    var w := sh.word.(writers := Down(sh.word.writers));
    sh.(word := w, open := sh.open - {i}, flusher := if w.writers == 0 then t else sh.flusher)
  }

  function Pin(sh: Shared, at: nat): Shared {
    sh.(word := sh.word.(readers := Up(sh.word.readers)),
        readers := sh.readers[sh.nextReader := at], nextReader := sh.nextReader + 1)
  }

  function Unpin(sh: Shared, h: nat): Shared {
    sh.(word := sh.word.(readers := Down(sh.word.readers)), readers := sh.readers - {h})
  }

  function ToDestroy(sh: Shared, t: nat, g: nat): Shared {
    sh.(destroys := sh.destroys + multiset{g}, owner := t)
  }

  function ZeroOffset(sh: Shared): Shared {
    sh.(word := sh.word.(offset := 0))
  }

  function SetPhase(sh: Shared, p: Phase): Shared {
    sh.(word := sh.word.(phase := p))
  }

  /** One step of a thread. The code tests the reader count of a word it reads again after the swap that
      installs FlushComplete; with `strict` it tests the word that the swap installed. */
  function Step(b: Buffer, s: State, t: nat, strict: bool): State {
    var sh, w := s.sh, s.sh.word;
    match At(s, t)
    case Idle => s
    case WriteProbe(len) => Put(s, t, if w.phase.Unused? then WriteClaim(len, w) else WriteLook(len))
    case WriteClaim(len, seen) =>
      if w == seen then Set(s, Claim(sh, t), t, InitOffset(len)) else Put(s, t, WriteLook(len))
    case InitOffset(len) => Set(s, ZeroOffset(sh), t, InitPhase(len))
    case InitPhase(len) => Set(s, SetPhase(sh, ReadWrite), t, WriteLook(len))
    case WriteLook(len) =>
      Put(s, t, if !w.phase.ReadWrite? then Idle
                else if w.offset + len > b.size then WriteClose(w)
                else WriteGrant(len, w))
    case WriteClose(seen) => if w == seen then Set(s, Close(sh, t), t, FullPhase) else Put(s, t, Idle)
    case WriteGrant(len, seen) => if w == seen then Set(s, Grant(sh, len), t, Idle) else Put(s, t, WriteLook(len))
    case FullPhase => Put(s, t, if w.phase.ReadOnly? then FullWriters else Idle)
    case FullWriters => Put(s, t, if w.writers == 0 then FlushLook else Idle)
    case FlushLook => Put(s, t, if Drained(w) then FlushTry(w) else Idle)
    case FlushTry(seen) => if w == seen then Set(s, StartFlush(sh, t), t, FlushPhase) else Put(s, t, FlushLook)
    case FlushPhase => Put(s, t, FlushWriters)
    case FlushWriters => Set(s, EndFlush(sh), t, Idle)
    case CheckinLook(i) => Put(s, t, CheckinTry(i, w))
    case CheckinTry(i, seen) => if w == seen then Set(s, CheckIn(sh, t, i), t, FlushLook) else Put(s, t, CheckinLook(i))
    case ReadLook(at, n) => Put(s, t, if !Readable(w.phase) || at + n > w.offset then Idle else ReadTry(at, n, w))
    case ReadTry(at, n, seen) => if w == seen then Set(s, Pin(sh, at), t, Idle) else Put(s, t, ReadLook(at, n))
    case ReadInLook(h) => Put(s, t, ReadInTry(h, w))
    case ReadInTry(h, seen) =>
      if w != seen then Put(s, t, ReadInLook(h))
      else
        var sh' := Unpin(sh, h);
        if sh'.word.phase.FlushComplete? && sh'.word.readers == 0
        then Set(s, ToDestroy(sh', t, sh.gen), t, DestroyOffset(sh.gen))
        else Set(s, sh', t, Idle)
    case CompleteLook => Put(s, t, CompleteTry(w))
    case CompleteTry(seen) =>
      if w == seen then Set(s, SetPhase(sh, FlushComplete), t, CompleteTest(w.(phase := FlushComplete), sh.gen))
      else Put(s, t, CompleteLook)
    case CompleteTest(installed, g) =>
      if (if strict then installed.readers else w.readers) == 0
      then Set(s, ToDestroy(sh, t, g), t, DestroyOffset(g)) else Put(s, t, Idle)
    case DestroyOffset(g) => Set(s, ZeroOffset(sh), t, DestroyPhase(g))
    case DestroyPhase(g) => Set(s, SetPhase(sh, Unused), t, Idle)
  }

  function Do(b: Buffer, s: State, e: Event, strict: bool): State
    requires b.align > 0
  {
    match e
    case BeginWrite(t, n) => Put(s, t, WriteProbe(RoundUp(n, b.align)))
    case BeginCheckin(t, i) => Put(s, t, CheckinLook(i))
    case BeginRead(t, at, n) => Put(s, t, ReadLook(at, n))
    case BeginReadCheckin(t, h) => Put(s, t, ReadInLook(h))
    case BeginComplete(t) => Set(s, s.sh.(flushOwed := false, owner := t), t, CompleteLook)
    case GiveUp(t) => Put(s, t, Idle)
    case Go(t) => Step(b, s, t, strict)
  }

  // ----- the invariant

  predicate Sound(b: Buffer) {
    b.align > 0 && b.size < OFFSETS
  }

  function Times(k: nat, n: nat): nat {
    k * n
  }

  ghost predicate Multiple(n: nat, align: nat) {
    exists k: nat :: n == Times(k, align)
  }

  ghost predicate Length(len: nat, align: nat) {
    len > 0 && Multiple(len, align)
  }

  /** Consecutive, non-empty, aligned lengths, covering [0, end). */
  ghost predicate Tiles(g: seq<Reservation>, end: nat, align: nat) {
    if g == [] then end == 0
    else
      var last := g[|g| - 1];
      Length(last.len, align) && last.off + last.len == end && Tiles(g[..|g| - 1], last.off, align)
  }

  ghost predicate WordOk(b: Buffer, s: Shared)
    requires Sound(b)
  {
    var w := s.word;
    && w.readers == |s.readers| < COUNTERS && w.writers == |s.open| < COUNTERS
    && (forall i :: i in s.open ==> i < |s.granted|)
    && (forall h :: h in s.readers ==> s.readers[h] < w.offset && h < s.nextReader)
    && (Readable(w.phase) ==> Tiles(s.granted, w.offset, b.align) && w.offset <= b.size)
    && (w.phase.Unused? || w.phase.Initializing? ==> |s.readers| == 0)
    && (w.phase.ReadWrite? || w.phase.ReadOnly? || |s.open| == 0)
    && (w.phase.Unused? ==> w.offset == 0)
    && (w.phase.Initializing? ==> s.granted == [])
  }

  ghost predicate PcOk(b: Buffer, s: Shared, t: nat, pc: Pc)
    requires Sound(b)
  {
    var w := s.word;
    match pc
    case WriteProbe(len) => Length(len, b.align)
    case WriteClaim(len, seen) => Length(len, b.align) && seen.phase.Unused?
    case InitOffset(len) => Length(len, b.align) && s.owner == t && w.phase.Initializing?
    case InitPhase(len) => Length(len, b.align) && s.owner == t && w.phase.Initializing? && w.offset == 0
    case WriteLook(len) => Length(len, b.align)
    case WriteClose(seen) => seen.phase.ReadWrite?
    case WriteGrant(len, seen) => Length(len, b.align) && seen.phase.ReadWrite? && seen.offset + len <= b.size
    case FlushTry(seen) => Drained(seen)
    case FlushPhase => s.owner == t && w.phase.Flush? && !s.flushOwed
    case FlushWriters => s.owner == t && w.phase.Flush? && !s.flushOwed
    case CheckinLook(i) => i in s.open
    case CheckinTry(i, _) => i in s.open
    case ReadLook(at, n) => n > 0
    case ReadTry(at, n, seen) => n > 0 && Readable(seen.phase) && at + n <= seen.offset
    case ReadInLook(h) => h in s.readers
    case ReadInTry(h, _) => h in s.readers
    case CompleteLook => s.owner == t && w.phase.Flush? && !s.flushOwed
    case CompleteTry(seen) => s.owner == t && w.phase.Flush? && !s.flushOwed && seen.phase.Flush?
    case CompleteTest(installed, g) =>
      && 0 < g <= s.gen
      && (g == s.gen ==> w.phase.FlushComplete? || w.phase.Unused?)
      && (installed.readers > 0 && g == s.gen && |s.readers| == 0 ==> s.destroys[g] == 1)
      && (installed.readers == 0 ==>
            s.owner == t && g == s.gen && w.phase.FlushComplete? && |s.readers| == 0 && s.destroys[g] == 0)
    case DestroyOffset(g) =>
      s.owner == t && g == s.gen && w.phase.FlushComplete? && |s.readers| == 0 && s.destroys[g] == 1
    case DestroyPhase(g) =>
      s.owner == t && g == s.gen && w.phase.FlushComplete? && |s.readers| == 0 && s.destroys[g] == 1 && w.offset == 0
    case _ => true
  }

  ghost predicate ThreadsOk(b: Buffer, s: State)
    requires Sound(b)
  {
    && (forall t :: t in s.threads ==> PcOk(b, s.sh, t, s.threads[t]))
    && (forall t :: t in s.threads && ChecksIn(s.threads[t]) ==> Sole(s, t, s.threads[t].i))
    && (forall t :: t in s.threads && ReadsIn(s.threads[t]) ==> SoleReader(s, t, s.threads[t].h))
  }

  /** In full, or in the loop that ends checkin_write. */
  predicate FlushPending(pc: Pc) {
    pc.FullPhase? || pc.FullWriters? || pc.FlushLook? || pc.FlushTry?
  }

  predicate Flushing(pc: Pc) {
    pc.FlushPhase? || pc.FlushWriters?
  }

  predicate Completing(pc: Pc) {
    pc.CompleteLook? || pc.CompleteTry?
  }

  predicate Destroying(pc: Pc) {
    pc.DestroyOffset? || pc.DestroyPhase?
  }

  /** Every phase that somebody has to end has a thread that will: `own` is where the owner is,
      `flush` where the flusher is. */
  predicate Attended(s: Shared, own: Pc, flush: Pc) {
    var p := s.word.phase;
    && (p.Initializing? ==> own.InitOffset? || own.InitPhase?)
    && (Drained(s.word) ==> FlushPending(flush))
    && (s.flushOwed ==> p.Flush?)
    && (p.Flush? ==> s.flushOwed || Flushing(own) || Completing(own))
    && (p.FlushComplete? && |s.readers| == 0 ==> Destroying(own) || (own.CompleteTest? && own.installed.readers == 0))
  }

  function One(c: bool): nat {
    if c then 1 else 0
  }

  ghost predicate HistoryOk(s: Shared, own: Pc) {
    var p := s.word.phase;
    && (s.gen == 0 ==> p.Unused?)
    && (forall g :: 0 < g < s.gen ==> s.flushes[g] == 1 && s.destroys[g] == 1)
    && (forall g :: g > s.gen || g == 0 ==> s.flushes[g] == 0 && s.destroys[g] == 0)
    && s.flushes[s.gen] == One(s.gen > 0 && (p.Flush? || p.FlushComplete? || p.Unused?))
    && s.destroys[s.gen] == One(s.gen > 0 && (p.Unused? || (p.FlushComplete? && Destroying(own) && |s.readers| == 0)))
  }

  ghost predicate Inv(b: Buffer, s: State)
    requires Sound(b)
  {
    var own := At(s, s.sh.owner);
    && WordOk(b, s.sh) && ThreadsOk(b, s)
    && Attended(s.sh, own, At(s, s.sh.flusher)) && HistoryOk(s.sh, own)
  }

  lemma RoundUpFacts(n: nat, align: nat)
    requires align > 0
    ensures Multiple(RoundUp(n, align), align)
    ensures n <= RoundUp(n, align) < n + align
  {
    var q := (n + align - 1) / align;
    assert RoundUp(n, align) == Times(q, align);
    assert n + align - 1 == q * align + (n + align - 1) % align;
  }

  lemma TilesSnoc(g: seq<Reservation>, end: nat, len: nat, align: nat)
    requires Tiles(g, end, align) && Length(len, align)
    ensures Tiles(g + [Reservation(end, len)], end + len, align)
  {
  }

  // ----- every step keeps it

  lemma KeepsThreads(b: Buffer, s: State, sh: Shared, t: nat, pc: Pc)
    requires Sound(b) && ThreadsOk(b, s) && PcOk(b, sh, t, pc)
    requires forall u :: u in s.threads && u != t ==> PcOk(b, sh, u, s.threads[u])
    requires ChecksIn(pc) ==> Sole(s, t, pc.i)
    requires ReadsIn(pc) ==> SoleReader(s, t, pc.h)
    ensures ThreadsOk(b, Set(s, sh, t, pc))
  {
  }

  /** A look, a test or a failed swap only moves its own thread. */
  lemma LocalStep(b: Buffer, s: State, t: nat, pc: Pc)
    requires Sound(b) && Inv(b, s) && PcOk(b, s.sh, t, pc)
    requires ChecksIn(pc) ==> Sole(s, t, pc.i)
    requires ReadsIn(pc) ==> SoleReader(s, t, pc.h)
    requires t == s.sh.flusher && Drained(s.sh.word) ==> FlushPending(pc)
    requires Completing(At(s, t)) ==> Completing(pc)
    requires Flushing(At(s, t)) ==> Flushing(pc)
    requires !At(s, t).InitOffset? && !At(s, t).InitPhase? && !Destroying(At(s, t)) && !Destroying(pc)
    requires !(At(s, t).CompleteTest? && At(s, t).installed.readers == 0)
    ensures Inv(b, Put(s, t, pc))
  {
    KeepsThreads(b, s, s.sh, t, pc);
    assert Set(s, s.sh, t, pc) == Put(s, t, pc);
  }

  lemma ClaimStep(b: Buffer, s: State, t: nat, len: nat)
    requires Sound(b) && Inv(b, s) && At(s, t) == WriteClaim(len, s.sh.word)
    ensures Inv(b, Set(s, Claim(s.sh, t), t, InitOffset(len)))
  {
    var sh' := Claim(s.sh, t);
    assert PcOk(b, s.sh, t, At(s, t));
    forall u | u in s.threads && u != t
      ensures PcOk(b, sh', u, s.threads[u])
    {
      assert PcOk(b, s.sh, u, s.threads[u]);
    }
    KeepsThreads(b, s, sh', t, InitOffset(len));
  }

  lemma InitOffsetStep(b: Buffer, s: State, t: nat, len: nat)
    requires Sound(b) && Inv(b, s) && At(s, t) == InitOffset(len)
    ensures Inv(b, Set(s, ZeroOffset(s.sh), t, InitPhase(len)))
  {
    var sh' := ZeroOffset(s.sh);
    assert PcOk(b, s.sh, t, At(s, t));
    forall u | u in s.threads && u != t
      ensures PcOk(b, sh', u, s.threads[u])
    {
      assert PcOk(b, s.sh, u, s.threads[u]);
    }
    KeepsThreads(b, s, sh', t, InitPhase(len));
  }

  lemma InitPhaseStep(b: Buffer, s: State, t: nat, len: nat)
    requires Sound(b) && Inv(b, s) && At(s, t) == InitPhase(len)
    ensures Inv(b, Set(s, SetPhase(s.sh, ReadWrite), t, WriteLook(len)))
  {
    var sh' := SetPhase(s.sh, ReadWrite);
    assert PcOk(b, s.sh, t, At(s, t));
    forall u | u in s.threads && u != t
      ensures PcOk(b, sh', u, s.threads[u])
    {
      assert PcOk(b, s.sh, u, s.threads[u]);
    }
    KeepsThreads(b, s, sh', t, WriteLook(len));
  }

  lemma CloseStep(b: Buffer, s: State, t: nat)
    requires Sound(b) && Inv(b, s) && At(s, t) == WriteClose(s.sh.word)
    ensures Inv(b, Set(s, Close(s.sh, t), t, FullPhase))
  {
    var sh' := Close(s.sh, t);
    assert PcOk(b, s.sh, t, At(s, t));
    forall u | u in s.threads && u != t
      ensures PcOk(b, sh', u, s.threads[u])
    {
      assert PcOk(b, s.sh, u, s.threads[u]);
    }
    KeepsThreads(b, s, sh', t, FullPhase);
  }

  lemma GrantStep(b: Buffer, s: State, t: nat, len: nat)
    requires Sound(b) && Inv(b, s) && At(s, t) == WriteGrant(len, s.sh.word) && s.sh.word.writers + 1 < COUNTERS
    ensures Inv(b, Set(s, Grant(s.sh, len), t, Idle))
  {
    var sh' := Grant(s.sh, len);
    assert PcOk(b, s.sh, t, At(s, t));
    TilesSnoc(s.sh.granted, s.sh.word.offset, len, b.align);
    assert |sh'.open| == |s.sh.open| + 1;
    forall u | u in s.threads && u != t
      ensures PcOk(b, sh', u, s.threads[u])
    {
      assert PcOk(b, s.sh, u, s.threads[u]);
    }
    KeepsThreads(b, s, sh', t, Idle);
  }

  lemma FlushStep(b: Buffer, s: State, t: nat)
    requires Sound(b) && Inv(b, s) && At(s, t) == FlushTry(s.sh.word)
    ensures Inv(b, Set(s, StartFlush(s.sh, t), t, FlushPhase))
  {
    var sh' := StartFlush(s.sh, t);
    assert PcOk(b, s.sh, t, At(s, t));
    forall u | u in s.threads && u != t
      ensures PcOk(b, sh', u, s.threads[u])
    {
      assert PcOk(b, s.sh, u, s.threads[u]);
    }
    KeepsThreads(b, s, sh', t, FlushPhase);
  }

  lemma EndFlushStep(b: Buffer, s: State, t: nat)
    requires Sound(b) && Inv(b, s) && At(s, t) == FlushWriters
    ensures Inv(b, Set(s, EndFlush(s.sh), t, Idle))
  {
    var sh' := EndFlush(s.sh);
    assert PcOk(b, s.sh, t, At(s, t));
    forall u | u in s.threads && u != t
      ensures PcOk(b, sh', u, s.threads[u])
    {
      assert PcOk(b, s.sh, u, s.threads[u]);
    }
    KeepsThreads(b, s, sh', t, Idle);
  }

  lemma CheckinStep(b: Buffer, s: State, t: nat, i: nat)
    requires Sound(b) && Inv(b, s) && At(s, t) == CheckinTry(i, s.sh.word)
    ensures Inv(b, Set(s, CheckIn(s.sh, t, i), t, FlushLook))
  {
    var sh' := CheckIn(s.sh, t, i);
    assert PcOk(b, s.sh, t, At(s, t));
    forall u | u in s.threads && u != t
      ensures PcOk(b, sh', u, s.threads[u])
    {
      assert PcOk(b, s.sh, u, s.threads[u]);
    }
    KeepsThreads(b, s, sh', t, FlushLook);
  }

  lemma PinStep(b: Buffer, s: State, t: nat, at: nat, n: nat)
    requires Sound(b) && Inv(b, s) && At(s, t) == ReadTry(at, n, s.sh.word) && s.sh.word.readers + 1 < COUNTERS
    ensures Inv(b, Set(s, Pin(s.sh, at), t, Idle))
  {
    var sh' := Pin(s.sh, at);
    assert PcOk(b, s.sh, t, At(s, t));
    assert |sh'.readers| == |s.sh.readers| + 1;
    forall u | u in s.threads && u != t
      ensures PcOk(b, sh', u, s.threads[u])
    {
      assert PcOk(b, s.sh, u, s.threads[u]);
    }
    KeepsThreads(b, s, sh', t, Idle);
  }

  lemma UnpinStep(b: Buffer, s: State, t: nat, h: nat)
    requires Sound(b) && Inv(b, s) && At(s, t) == ReadInTry(h, s.sh.word) &&
             !(s.sh.word.phase.FlushComplete? && s.sh.word.readers == 1)
    ensures Inv(b, Set(s, Unpin(s.sh, h), t, Idle))
  {
    var sh' := Unpin(s.sh, h);
    assert PcOk(b, s.sh, t, At(s, t));
    assert |sh'.readers| == |s.sh.readers| - 1;
    forall u | u in s.threads && u != t
      ensures PcOk(b, sh', u, s.threads[u])
    {
      assert PcOk(b, s.sh, u, s.threads[u]);
    }
    KeepsThreads(b, s, sh', t, Idle);
  }

  lemma LastUnpinStep(b: Buffer, s: State, t: nat, h: nat)
    requires Sound(b) && Inv(b, s) && At(s, t) == ReadInTry(h, s.sh.word) &&
             s.sh.word.phase.FlushComplete? && s.sh.word.readers == 1
    ensures Inv(b, Set(s, ToDestroy(Unpin(s.sh, h), t, s.sh.gen), t, DestroyOffset(s.sh.gen)))
  {
    var sh' := ToDestroy(Unpin(s.sh, h), t, s.sh.gen);
    assert PcOk(b, s.sh, t, At(s, t));
    assert |sh'.readers| == |s.sh.readers| - 1;
    forall u | u in s.threads && u != t
      ensures PcOk(b, sh', u, s.threads[u])
    {
      assert PcOk(b, s.sh, u, s.threads[u]);
    }
    KeepsThreads(b, s, sh', t, DestroyOffset(s.sh.gen));
  }

  lemma CompleteStep(b: Buffer, s: State, t: nat)
    requires Sound(b) && Inv(b, s) && At(s, t) == CompleteTry(s.sh.word)
    ensures Inv(b, Set(s, SetPhase(s.sh, FlushComplete), t, CompleteTest(s.sh.word.(phase := FlushComplete), s.sh.gen)))
  {
    var sh' := SetPhase(s.sh, FlushComplete);
    assert PcOk(b, s.sh, t, At(s, t));
    forall u | u in s.threads && u != t
      ensures PcOk(b, sh', u, s.threads[u])
    {
      assert PcOk(b, s.sh, u, s.threads[u]);
    }
    KeepsThreads(b, s, sh', t, CompleteTest(s.sh.word.(phase := FlushComplete), s.sh.gen));
  }

  lemma DestroyStep(b: Buffer, s: State, t: nat, w: Word, g: nat)
    requires Sound(b) && Inv(b, s) && At(s, t) == CompleteTest(w, g) && w.readers == 0
    ensures Inv(b, Set(s, ToDestroy(s.sh, t, g), t, DestroyOffset(g)))
  {
    var sh' := ToDestroy(s.sh, t, g);
    assert PcOk(b, s.sh, t, At(s, t));
    forall u | u in s.threads && u != t
      ensures PcOk(b, sh', u, s.threads[u])
    {
      assert PcOk(b, s.sh, u, s.threads[u]);
    }
    KeepsThreads(b, s, sh', t, DestroyOffset(g));
  }

  lemma DestroyOffsetStep(b: Buffer, s: State, t: nat, g: nat)
    requires Sound(b) && Inv(b, s) && At(s, t) == DestroyOffset(g)
    ensures Inv(b, Set(s, ZeroOffset(s.sh), t, DestroyPhase(g)))
  {
    var sh' := ZeroOffset(s.sh);
    assert PcOk(b, s.sh, t, At(s, t));
    forall u | u in s.threads && u != t
      ensures PcOk(b, sh', u, s.threads[u])
    {
      assert PcOk(b, s.sh, u, s.threads[u]);
    }
    KeepsThreads(b, s, sh', t, DestroyPhase(g));
  }

  lemma DestroyPhaseStep(b: Buffer, s: State, t: nat, g: nat)
    requires Sound(b) && Inv(b, s) && At(s, t) == DestroyPhase(g)
    ensures Inv(b, Set(s, SetPhase(s.sh, Unused), t, Idle))
  {
    var sh' := SetPhase(s.sh, Unused);
    assert PcOk(b, s.sh, t, At(s, t));
    forall u | u in s.threads && u != t
      ensures PcOk(b, sh', u, s.threads[u])
    {
      assert PcOk(b, s.sh, u, s.threads[u]);
    }
    KeepsThreads(b, s, sh', t, Idle);
  }

  lemma BeginCompleteStep(b: Buffer, s: State, t: nat)
    requires Sound(b) && Inv(b, s) && At(s, t).Idle? && s.sh.flushOwed
    ensures Inv(b, Set(s, s.sh.(flushOwed := false, owner := t), t, CompleteLook))
  {
    var sh' := s.sh.(flushOwed := false, owner := t);
    forall u | u in s.threads && u != t
      ensures PcOk(b, sh', u, s.threads[u])
    {
      assert PcOk(b, s.sh, u, s.threads[u]);
    }
    KeepsThreads(b, s, sh', t, CompleteLook);
  }

  lemma ClaimingStep(b: Buffer, s: State, t: nat, pc: Pc)
    requires Sound(b) && Inv(b, s) && Enabled(s, Go(t)) && pc == At(s, t)
    requires pc.WriteProbe? || pc.WriteClaim? || pc.InitOffset? || pc.InitPhase?
    ensures Inv(b, Step(b, s, t, true))
  {
    var w := s.sh.word;
    assert PcOk(b, s.sh, t, pc);
    match pc
    case WriteProbe(len) => LocalStep(b, s, t, if w.phase.Unused? then WriteClaim(len, w) else WriteLook(len));
    case WriteClaim(len, seen) => if w == seen { ClaimStep(b, s, t, len); } else { LocalStep(b, s, t, WriteLook(len)); }
    case InitOffset(len) => InitOffsetStep(b, s, t, len);
    case InitPhase(len) => InitPhaseStep(b, s, t, len);
  }

  lemma WritingStep(b: Buffer, s: State, t: nat, pc: Pc)
    requires Sound(b) && Inv(b, s) && Enabled(s, Go(t)) && pc == At(s, t)
    requires pc.WriteLook? || pc.WriteClose? || pc.WriteGrant?
    ensures Inv(b, Step(b, s, t, true))
  {
    var w := s.sh.word;
    assert PcOk(b, s.sh, t, pc);
    match pc
    case WriteLook(len) => WriteLookStep(b, s, t, len);
    case WriteClose(seen) => if w == seen { CloseStep(b, s, t); } else { LocalStep(b, s, t, Idle); }
    case WriteGrant(len, seen) => if w == seen { GrantStep(b, s, t, len); } else { LocalStep(b, s, t, WriteLook(len)); }
  }

  lemma WriteLookStep(b: Buffer, s: State, t: nat, len: nat)
    requires Sound(b) && Inv(b, s) && At(s, t) == WriteLook(len)
    ensures Inv(b, Step(b, s, t, true))
  {
    var w := s.sh.word;
    assert PcOk(b, s.sh, t, WriteLook(len));
    var pc := if !w.phase.ReadWrite? then Idle
              else if w.offset + len > b.size then WriteClose(w)
              else WriteGrant(len, w);
    LocalStep(b, s, t, pc);
  }

  lemma FlushingStep(b: Buffer, s: State, t: nat, pc: Pc)
    requires Sound(b) && Inv(b, s) && Enabled(s, Go(t)) && pc == At(s, t)
    requires pc.FlushLook? || pc.FlushTry?
    ensures Inv(b, Step(b, s, t, true))
  {
    var w := s.sh.word;
    assert PcOk(b, s.sh, t, pc);
    match pc
    case FlushLook => LocalStep(b, s, t, if Drained(w) then FlushTry(w) else Idle);
    case FlushTry(seen) => if w == seen { FlushStep(b, s, t); } else { LocalStep(b, s, t, FlushLook); }
  }

  lemma FullStep(b: Buffer, s: State, t: nat, pc: Pc)
    requires Sound(b) && Inv(b, s) && Enabled(s, Go(t)) && pc == At(s, t)
    requires pc.FullPhase? || pc.FullWriters?
    ensures Inv(b, Step(b, s, t, true))
  {
    var w := s.sh.word;
    match pc
    case FullPhase => LocalStep(b, s, t, if w.phase.ReadOnly? then FullWriters else Idle);
    case FullWriters => LocalStep(b, s, t, if w.writers == 0 then FlushLook else Idle);
  }

  lemma FlushCallStep(b: Buffer, s: State, t: nat, pc: Pc)
    requires Sound(b) && Inv(b, s) && Enabled(s, Go(t)) && pc == At(s, t)
    requires Flushing(pc)
    ensures Inv(b, Step(b, s, t, true))
  {
    assert PcOk(b, s.sh, t, pc);
    match pc
    case FlushPhase => LocalStep(b, s, t, FlushWriters);
    case FlushWriters => EndFlushStep(b, s, t);
  }

  lemma CheckingInStep(b: Buffer, s: State, t: nat, pc: Pc)
    requires Sound(b) && Inv(b, s) && Enabled(s, Go(t)) && pc == At(s, t)
    requires ChecksIn(pc)
    ensures Inv(b, Step(b, s, t, true))
  {
    var w := s.sh.word;
    assert PcOk(b, s.sh, t, pc);
    match pc
    case CheckinLook(i) => LocalStep(b, s, t, CheckinTry(i, w));
    case CheckinTry(i, seen) => if w == seen { CheckinStep(b, s, t, i); } else { LocalStep(b, s, t, CheckinLook(i)); }
  }

  lemma ReadingStep(b: Buffer, s: State, t: nat, pc: Pc)
    requires Sound(b) && Inv(b, s) && Enabled(s, Go(t)) && pc == At(s, t)
    requires pc.ReadLook? || pc.ReadTry?
    ensures Inv(b, Step(b, s, t, true))
  {
    var w := s.sh.word;
    assert PcOk(b, s.sh, t, pc);
    match pc
    case ReadLook(at, n) =>
      LocalStep(b, s, t, if !Readable(w.phase) || at + n > w.offset then Idle else ReadTry(at, n, w));
    case ReadTry(at, n, seen) => if w == seen { PinStep(b, s, t, at, n); } else { LocalStep(b, s, t, ReadLook(at, n)); }
  }

  lemma ReadingInStep(b: Buffer, s: State, t: nat, pc: Pc)
    requires Sound(b) && Inv(b, s) && Enabled(s, Go(t)) && pc == At(s, t)
    requires ReadsIn(pc)
    ensures Inv(b, Step(b, s, t, true))
  {
    var w := s.sh.word;
    assert PcOk(b, s.sh, t, pc);
    match pc
    case ReadInLook(h) => LocalStep(b, s, t, ReadInTry(h, w));
    case ReadInTry(h, seen) =>
      if w != seen { LocalStep(b, s, t, ReadInLook(h)); }
      else if w.phase.FlushComplete? && w.readers == 1 { LastUnpinStep(b, s, t, h); }
      else { UnpinStep(b, s, t, h); }
  }

  lemma CompletingStep(b: Buffer, s: State, t: nat, pc: Pc)
    requires Sound(b) && Inv(b, s) && Enabled(s, Go(t)) && pc == At(s, t)
    requires Completing(pc)
    ensures Inv(b, Step(b, s, t, true))
  {
    var w := s.sh.word;
    assert PcOk(b, s.sh, t, pc);
    match pc
    case CompleteLook => LocalStep(b, s, t, CompleteTry(w));
    case CompleteTry(seen) => if w == seen { CompleteStep(b, s, t); } else { LocalStep(b, s, t, CompleteLook); }
  }

  lemma DestroyingStep(b: Buffer, s: State, t: nat, pc: Pc)
    requires Sound(b) && Inv(b, s) && Enabled(s, Go(t)) && pc == At(s, t)
    requires Destroying(pc)
    ensures Inv(b, Step(b, s, t, true))
  {
    match pc
    case DestroyOffset(g) => DestroyOffsetStep(b, s, t, g);
    case DestroyPhase(g) => DestroyPhaseStep(b, s, t, g);
  }

  lemma TestingStep(b: Buffer, s: State, t: nat, pc: Pc)
    requires Sound(b) && Inv(b, s) && Enabled(s, Go(t)) && pc == At(s, t) && pc.CompleteTest?
    ensures Inv(b, Step(b, s, t, true))
  {
    if pc.installed.readers == 0 {
      DestroyStep(b, s, t, pc.installed, pc.g);
    } else {
      LocalStep(b, s, t, Idle);
    }
  }

  lemma GoKeepsInv(b: Buffer, s: State, t: nat, pc: Pc)
    requires Sound(b) && Inv(b, s) && Enabled(s, Go(t)) && pc == At(s, t)
    ensures Inv(b, Step(b, s, t, true))
  {
    if pc.WriteProbe? || pc.WriteClaim? || pc.InitOffset? || pc.InitPhase? { ClaimingStep(b, s, t, pc); }
    else if pc.WriteLook? || pc.WriteClose? || pc.WriteGrant? { WritingStep(b, s, t, pc); }
    else if pc.FullPhase? || pc.FullWriters? { FullStep(b, s, t, pc); }
    else if FlushPending(pc) { FlushingStep(b, s, t, pc); }
    else if Flushing(pc) { FlushCallStep(b, s, t, pc); }
    else if ChecksIn(pc) { CheckingInStep(b, s, t, pc); }
    else if pc.ReadLook? || pc.ReadTry? { ReadingStep(b, s, t, pc); }
    else if ReadsIn(pc) { ReadingInStep(b, s, t, pc); }
    else if Completing(pc) { CompletingStep(b, s, t, pc); }
    else if pc.CompleteTest? { TestingStep(b, s, t, pc); }
    else { DestroyingStep(b, s, t, pc); }
  }

  lemma BeginKeepsInv(b: Buffer, s: State, e: Event)
    requires Sound(b) && Inv(b, s) && Enabled(s, e) && (e.BeginWrite? || e.BeginRead? || e.GiveUp?)
    ensures Inv(b, Do(b, s, e, true))
  {
    match e
    case BeginWrite(t, n) =>
      RoundUpFacts(n, b.align);
      LocalStep(b, s, t, WriteProbe(RoundUp(n, b.align)));
    case BeginRead(t, at, n) => LocalStep(b, s, t, ReadLook(at, n));
    case GiveUp(t) => LocalStep(b, s, t, Idle);
  }

  lemma BeginInKeepsInv(b: Buffer, s: State, e: Event)
    requires Sound(b) && Inv(b, s) && Enabled(s, e) && (e.BeginCheckin? || e.BeginReadCheckin?)
    ensures Inv(b, Do(b, s, e, true))
  {
    match e
    case BeginCheckin(t, i) => LocalStep(b, s, t, CheckinLook(i));
    case BeginReadCheckin(t, h) => LocalStep(b, s, t, ReadInLook(h));
  }

  lemma StepKeepsInv(b: Buffer, s: State, e: Event)
    requires Sound(b) && Inv(b, s) && Enabled(s, e)
    ensures Inv(b, Do(b, s, e, true))
  {
    if e.Go? { GoKeepsInv(b, s, e.t, At(s, e.t)); }
    else if e.BeginComplete? { BeginCompleteStep(b, s, e.t); }
    else if e.BeginCheckin? || e.BeginReadCheckin? { BeginInKeepsInv(b, s, e); }
    else { BeginKeepsInv(b, s, e); }
  }

  lemma InvInit(b: Buffer)
    requires Sound(b)
    ensures Inv(b, START)
  {
  }

  // ----- runs

  predicate ValidRun(b: Buffer, s: State, es: seq<Event>, strict: bool)
    requires b.align > 0
    decreases |es|
  {
    es == [] || (Enabled(s, es[0]) && ValidRun(b, Do(b, s, es[0], strict), es[1..], strict))
  }

  function Exec(b: Buffer, s: State, es: seq<Event>, strict: bool): State
    requires b.align > 0
    decreases |es|
  {
    if es == [] then s else Exec(b, Do(b, s, es[0], strict), es[1..], strict)
  }

  /** The word that flush_complete reads again says about readers what the word it installed said. */
  predicate Agrees(s: State, e: Event) {
    e.Go? && At(s, e.t).CompleteTest? ==> ((s.sh.word.readers == 0) == (At(s, e.t).installed.readers == 0))
  }

  predicate AllAgree(b: Buffer, s: State, es: seq<Event>)
    requires b.align > 0
    decreases |es|
  {
    es == [] || (Agrees(s, es[0]) && AllAgree(b, Do(b, s, es[0], false), es[1..]))
  }

  lemma AgreeingStep(b: Buffer, s: State, e: Event)
    requires b.align > 0 && Agrees(s, e)
    ensures Do(b, s, e, false) == Do(b, s, e, true)
  {
  }

  /** A run of the code in which every such test agrees, or any run of the code with the strict test. */
  predicate FairRun(b: Buffer, s: State, es: seq<Event>, strict: bool)
    requires b.align > 0
  {
    ValidRun(b, s, es, strict) && (strict || AllAgree(b, s, es))
  }

  lemma {:induction false} RunKeepsInv(b: Buffer, s: State, es: seq<Event>, strict: bool)
    requires Sound(b) && Inv(b, s) && FairRun(b, s, es, strict)
    ensures Inv(b, Exec(b, s, es, strict))
    decreases |es|
  {
    if es != [] {
      if !strict {
        AgreeingStep(b, s, es[0]);
      }
      StepKeepsInv(b, s, es[0]);
      RunKeepsInv(b, Do(b, s, es[0], strict), es[1..], strict);
    }
  }

  // ----- reservations

  lemma {:induction false} TileBounds(g: seq<Reservation>, end: nat, align: nat, i: nat)
    requires Tiles(g, end, align) && i < |g|
    ensures Multiple(g[i].off, align) && Length(g[i].len, align) && g[i].off + g[i].len <= end
    ensures i + 1 < |g| ==> g[i + 1].off == g[i].off + g[i].len
  {
    var n := |g| - 1;
    if i < n {
      TileBounds(g[..n], g[n].off, align, i);
      if i + 1 == n {
        TileEnd(g[..n], g[n].off, align);
      }
    } else if n > 0 {
      TileBounds(g[..n], g[n].off, align, n - 1);
      TileEnd(g[..n], g[n].off, align);
      SumOfMultiples(g[n - 1].off, g[n - 1].len, align);
    } else {
      assert 0 == Times(0, align);
    }
  }

  lemma TileEnd(g: seq<Reservation>, end: nat, align: nat)
    requires Tiles(g, end, align) && g != []
    ensures g[|g| - 1].off + g[|g| - 1].len == end
  {
  }

  lemma SumOfMultiples(x: nat, y: nat, align: nat)
    requires Multiple(x, align) && Multiple(y, align)
    ensures Multiple(x + y, align)
  {
    var k: nat :| x == Times(k, align);
    var l: nat :| y == Times(l, align);
    assert x + y == Times(k + l, align);
  }

  lemma {:induction false} TilesAreDisjoint(g: seq<Reservation>, end: nat, align: nat, i: nat, j: nat)
    requires Tiles(g, end, align) && i < j < |g|
    ensures g[i].off + g[i].len <= g[j].off
    decreases j
  {
    TileBounds(g, end, align, j - 1);
    if i < j - 1 {
      TilesAreDisjoint(g, end, align, i, j - 1);
    }
  }

  lemma {:induction false} TilesCover(g: seq<Reservation>, end: nat, align: nat, x: nat)
    requires Tiles(g, end, align) && x < end
    ensures Covered(g, x)
  {
    var n := |g| - 1;
    if x < g[n].off {
      TilesCover(g[..n], g[n].off, align, x);
      var i :| 0 <= i < n && g[..n][i].off <= x < g[..n][i].off + g[..n][i].len;
      assert g[i].off <= x < g[i].off + g[i].len;
    } else {
      assert g[n].off <= x < g[n].off + g[n].len;
    }
  }

  ghost predicate Covered(g: seq<Reservation>, x: nat) {
    exists i :: 0 <= i < |g| && g[i].off <= x < g[i].off + g[i].len
  }

  /** Until the flush completes, the reservations of a generation are disjoint aligned intervals that cover
      exactly [0, offset), offset is within the buffer, the writer count is the number of them not
      checked in, and once the flush has started that is none. */
  lemma ReservationsTile(b: Buffer, es: seq<Event>, strict: bool)
    requires Sound(b) && FairRun(b, START, es, strict)
    ensures var s := Exec(b, START, es, strict).sh;
            && s.word.writers == |s.open| && (forall i :: i in s.open ==> i < |s.granted|)
            && (s.word.phase.Flush? || s.word.phase.FlushComplete? ==> s.open == {})
            && (Readable(s.word.phase) ==>
                  && s.word.offset <= b.size
                  && (forall i :: 0 <= i < |s.granted| ==>
                        Multiple(s.granted[i].off, b.align) && s.granted[i].len > 0
                        && s.granted[i].off + s.granted[i].len <= s.word.offset)
                  && (forall i, j :: 0 <= i < j < |s.granted| ==>
                       s.granted[i].off + s.granted[i].len <= s.granted[j].off)
                  && (forall x: nat :: x < s.word.offset ==> Covered(s.granted, x)))
  {
    InvInit(b);
    RunKeepsInv(b, START, es, strict);
    var s := Exec(b, START, es, strict).sh;
    if Readable(s.word.phase) {
      forall i | 0 <= i < |s.granted|
        ensures Multiple(s.granted[i].off, b.align) && s.granted[i].len > 0
        ensures s.granted[i].off + s.granted[i].len <= s.word.offset
      {
        TileBounds(s.granted, s.word.offset, b.align, i);
      }
      forall i, j | 0 <= i < j < |s.granted|
        ensures s.granted[i].off + s.granted[i].len <= s.granted[j].off
      {
        TilesAreDisjoint(s.granted, s.word.offset, b.align, i, j);
      }
      forall x: nat | x < s.word.offset
        ensures Covered(s.granted, x)
      {
        TilesCover(s.granted, s.word.offset, b.align, x);
      }
    }
  }

  // ----- no lost flush

  lemma OutOfDrained(b: Buffer, s: State, e: Event)
    requires Sound(b) && Inv(b, s) && Enabled(s, e) && Drained(s.sh.word)
    ensures var w := Do(b, s, e, true).sh.word; Drained(w) || w.phase.Flush?
  {
    if e.Go? {
      assert e.t in s.threads && PcOk(b, s.sh, e.t, At(s, e.t));
    }
  }

  /** Some thread is in full or in the tail of checkin_write, and an event leaves the buffer drained or
      flushes it for the first time. */
  ghost predicate Attends(s: State, s': State) {
    && (exists t :: FlushPending(At(s, t)))
    && (Drained(s'.sh.word) || (s'.sh.word.phase.Flush? && s'.sh.flushes[s.sh.gen] == 1))
  }

  lemma DrainedIsAttended(b: Buffer, s: State, e: Event, strict: bool)
    requires Sound(b) && Inv(b, s) && Enabled(s, e) && Drained(s.sh.word) && (strict || Agrees(s, e))
    ensures Attends(s, Do(b, s, e, strict))
  {
    if !strict {
      AgreeingStep(b, s, e);
    }
    OutOfDrained(b, s, e);
    FlushedOnce(b, s, e);
    assert FlushPending(At(s, s.sh.flusher));
  }

  lemma FlushedOnce(b: Buffer, s: State, e: Event)
    requires Sound(b) && Inv(b, s) && Enabled(s, e) && Drained(s.sh.word)
    ensures var sh := Do(b, s, e, true).sh; sh.word.phase.Flush? ==> sh.flushes[s.sh.gen] == 1
  {
    StepKeepsInv(b, s, e);
  }

  /** A full buffer without writers always has a thread inside full or the tail of checkin_write, and
      the only way out of this situation is the flush. */
  lemma NoLostFlush(b: Buffer, es: seq<Event>, e: Event, strict: bool)
    requires Sound(b) && FairRun(b, START, es + [e], strict)
    ensures var s := Exec(b, START, es, strict);
            Drained(s.sh.word) ==> Enabled(s, e) && Attends(s, Do(b, s, e, strict))
  {
    InvInit(b);
    SplitRun(b, START, es, e, strict);
    RunKeepsInv(b, START, es, strict);
    if Drained(Exec(b, START, es, strict).sh.word) {
      DrainedIsAttended(b, Exec(b, START, es, strict), e, strict);
    }
  }

  lemma {:induction false} SplitRun(b: Buffer, s: State, es: seq<Event>, e: Event, strict: bool)
    requires b.align > 0 && FairRun(b, s, es + [e], strict)
    ensures FairRun(b, s, es, strict) && Enabled(Exec(b, s, es, strict), e)
    ensures strict || Agrees(Exec(b, s, es, strict), e)
    ensures Exec(b, s, es + [e], strict) == Do(b, Exec(b, s, es, strict), e, strict)
    decreases |es|
  {
    if es != [] {
      assert (es + [e])[1..] == es[1..] + [e];
      SplitRun(b, Do(b, s, es[0], strict), es[1..], e, strict);
    } else {
      assert es + [e] == [e];
    }
  }

  function Alone(b: Buffer, s: State, t: nat, k: nat): State
    decreases k
  {
    if k == 0 then s else Alone(b, Step(b, s, t, true), t, k - 1)
  }

  predicate CallsFlush(s: State, t: nat) {
    s.sh.word.phase.Flush? && At(s, t).FlushPhase?
  }

  /** Left alone, such a thread starts the flush, and calls flush, within four steps. */
  lemma FlusherFlushes(b: Buffer, s: State, t: nat)
    requires Drained(s.sh.word) && FlushPending(At(s, t))
    ensures exists k: nat :: k <= 4 && CallsFlush(Alone(b, s, t, k), t)
  {
    var w := s.sh.word;
    match At(s, t) {
      case FullPhase => LookFlushes(b, Put(Put(s, t, FullWriters), t, FlushLook), t);
        assert CallsFlush(Alone(b, s, t, 4), t);
      case FullWriters => LookFlushes(b, Put(s, t, FlushLook), t);
        assert CallsFlush(Alone(b, s, t, 3), t);
      case FlushLook => LookFlushes(b, s, t);
      case FlushTry(seen) =>
        if seen == w {
          assert CallsFlush(Alone(b, s, t, 1), t);
        } else {
          LookFlushes(b, Put(s, t, FlushLook), t);
          assert CallsFlush(Alone(b, s, t, 3), t);
        }
    }
  }

  lemma LookFlushes(b: Buffer, s: State, t: nat)
    requires Drained(s.sh.word) && At(s, t).FlushLook?
    ensures CallsFlush(Alone(b, s, t, 2), t)
  {
  }

  /** Every generation is flushed and destroyed at most once, and exactly once if a later one has begun;
      outside a generation nobody is left in the buffer. */
  ghost predicate OncePer(s: Shared) {
    && (forall g :: s.flushes[g] <= 1 && s.destroys[g] <= 1)
    && (forall g :: 0 < g < s.gen ==> s.flushes[g] == 1 && s.destroys[g] == 1)
    && (s.word.phase.Unused? || s.word.phase.Initializing? ==> s.word.readers == s.word.writers == 0)
    && (s.word.phase.Unused? && s.gen > 0 ==> s.destroys[s.gen] == 1)
  }

  lemma HistoryOncePer(b: Buffer, s: Shared, own: Pc)
    requires Sound(b) && WordOk(b, s) && HistoryOk(s, own)
    ensures OncePer(s)
  {
  }

  lemma OncePerGeneration(b: Buffer, es: seq<Event>, strict: bool)
    requires Sound(b) && FairRun(b, START, es, strict)
    ensures OncePer(Exec(b, START, es, strict).sh)
  {
    InvInit(b);
    RunKeepsInv(b, START, es, strict);
    var s := Exec(b, START, es, strict);
    HistoryOncePer(b, s.sh, At(s, s.sh.owner));
  }

  /** What the code asserts at the thread's next step. */
  predicate AssertionsHold(b: Buffer, s: State, t: nat) {
    var w := s.sh.word;
    match At(s, t)
    case InitOffset(_) => w.phase.Initializing? && w.writers == 0 && w.readers == 0
    case WriteGrant(len, seen) => w == seen ==> w.offset + len <= b.size
    case CheckinLook(i) =>
      && w.writers > 0 && (w.phase.ReadWrite? || w.phase.ReadOnly?)
      && i < |s.sh.granted| && s.sh.granted[i].off < w.offset
    case ReadInLook(h) => w.readers > 0 && !w.phase.Unused? && h in s.sh.readers && s.sh.readers[h] < w.offset
    case FlushPhase => w.phase.Flush?
    case FlushWriters => w.writers == 0
    case CompleteLook => w.phase.Flush? && w.writers == 0
    case DestroyOffset(_) => w.phase.FlushComplete? && w.writers == 0 && w.readers == 0
    case _ => true
  }

  lemma AssertionsNeverFail(b: Buffer, es: seq<Event>, t: nat, strict: bool)
    requires Sound(b) && FairRun(b, START, es, strict)
    ensures AssertionsHold(b, Exec(b, START, es, strict), t)
  {
    InvInit(b);
    RunKeepsInv(b, START, es, strict);
    var s := Exec(b, START, es, strict);
    if t in s.threads {
      assert PcOk(b, s.sh, t, At(s, t));
      match At(s, t) {
        case CheckinLook(i) =>
          assert |s.sh.open| > 0 by { assert s.sh.open != {}; }
          TileBounds(s.sh.granted, s.sh.word.offset, b.align, i);
        case ReadInLook(h) => assert s.sh.readers.Keys != {}; assert |s.sh.readers| > 0;
        case _ =>
      }
    }
  }

  // ----- when a test disagrees

  ghost predicate DestroyedOnce(s: State) {
    forall g :: s.sh.destroys[g] <= 1
  }

  ghost predicate AlwaysDestroyedOnce(b: Buffer, s: State, es: seq<Event>)
    requires b.align > 0
    decreases |es|
  {
    DestroyedOnce(s) && (es == [] || AlwaysDestroyedOnce(b, Do(b, s, es[0], false), es[1..]))
  }

  /** A test that disagrees starts a second destroy: the last reader has started one. */
  lemma DisagreementDestroysTwice(b: Buffer, s: State, e: Event)
    requires Sound(b) && Inv(b, s) && Enabled(s, e) && !Agrees(s, e)
    ensures !DestroyedOnce(Do(b, s, e, false))
  {
    var g := At(s, e.t).g;
    assert PcOk(b, s.sh, e.t, At(s, e.t));
    assert s.sh.destroys[g] == 1;
    assert Do(b, s, e, false).sh.destroys[g] == 2;
  }

  lemma InvDestroysOnce(b: Buffer, s: State)
    requires Sound(b) && Inv(b, s)
    ensures DestroyedOnce(s)
  {
  }

  /** Under the code's own test, no generation is ever destroyed twice along a run if and only if every
      test in flush_complete agrees with the word its swap installed. */
  lemma {:induction false} DestroyedOnceIffTestsAgree(b: Buffer, s: State, es: seq<Event>)
    requires Sound(b) && Inv(b, s) && ValidRun(b, s, es, false)
    ensures AlwaysDestroyedOnce(b, s, es) <==> AllAgree(b, s, es)
    ensures AllAgree(b, s, es) ==> ValidRun(b, s, es, true) && Exec(b, s, es, false) == Exec(b, s, es, true)
    decreases |es|
  {
    InvDestroysOnce(b, s);
    if es != [] {
      var s' := Do(b, s, es[0], false);
      if Agrees(s, es[0]) {
        AgreeingStep(b, s, es[0]);
        StepKeepsInv(b, s, es[0]);
        DestroyedOnceIffTestsAgree(b, s', es[1..]);
      } else {
        DisagreementDestroysTwice(b, s, es[0]);
      }
    }
  }

  lemma ConsRun(b: Buffer, s: State, e: Event, es: seq<Event>)
    requires b.align > 0 && Enabled(s, e) && ValidRun(b, Do(b, s, e, false), es, false)
    ensures ValidRun(b, s, [e] + es, false) && Exec(b, s, [e] + es, false) == Exec(b, Do(b, s, e, false), es, false)
  {
    assert ([e] + es)[1..] == es;
  }

  /** The steps that a thread which is destroying, or about to test for readers, takes to leave the buffer
      if nobody is reading it. */
  function StepsLeft(pc: Pc): nat {
    if pc.CompleteTest? then 3 else if pc.DestroyOffset? then 2 else if pc.DestroyPhase? then 1 else 0
  }

  lemma OwnerFinishes(b: Buffer, s: State, u: nat, t: nat) returns (es: seq<Event>)
    requires b.align > 0 && u != t && s.sh.word.readers == 0 && StepsLeft(At(s, u)) > 0
    ensures |es| == StepsLeft(At(s, u)) && ValidRun(b, s, es, false)
    ensures var s' := Exec(b, s, es, false); s'.sh.word.phase.Unused? && At(s', t) == At(s, t)
    decreases StepsLeft(At(s, u))
  {
    var s' := Do(b, s, Go(u), false);
    if At(s, u).DestroyPhase? {
      es := [];
    } else {
      es := OwnerFinishes(b, s', u, t);
    }
    ConsRun(b, s, Go(u), es);
    es := [Go(u)] + es;
  }

  lemma OwnerIsLeaving(b: Buffer, s: State, e: Event)
    requires Sound(b) && Inv(b, s) && Enabled(s, e) && !Agrees(s, e) && s.sh.word.phase.FlushComplete?
    ensures s.sh.owner != e.t && StepsLeft(At(s, s.sh.owner)) > 0
  {
    assert PcOk(b, s.sh, e.t, At(s, e.t));
  }

  /** And the second destroy is one that the code's assertions forbid: at most three steps of the thread
      that destroys the buffer already make them fail. */
  lemma DisagreementFailsAssertion(b: Buffer, s: State, e: Event)
    requires Sound(b) && Inv(b, s) && Enabled(s, e) && !Agrees(s, e)
    ensures exists es :: |es| <= 3 && ValidRun(b, Do(b, s, e, false), es, false)
                         && !AssertionsHold(b, Exec(b, Do(b, s, e, false), es, false), e.t)
  {
    var s' := Do(b, s, e, false);
    assert PcOk(b, s.sh, e.t, At(s, e.t));
    assert s'.sh.word == s.sh.word && s.sh.word.readers == 0 && At(s', e.t).DestroyOffset?;
    if s.sh.word.phase.FlushComplete? {
      OwnerIsLeaving(b, s, e);
      var es := OwnerFinishes(b, s', s.sh.owner, e.t);
      assert !AssertionsHold(b, Exec(b, s', es, false), e.t);
    } else {
      assert ValidRun(b, s', [], false) && Exec(b, s', [], false) == s';
    }
  }

  // ----- a run in which they disagree

  const SMALL := Buffer(8, 8)

  predicate Reaches(es: seq<Event>, s: State) {
    ValidRun(SMALL, START, es, false) && s == Exec(SMALL, START, es, false)
  }

  lemma Play(es: seq<Event>, s: State, e: Event) returns (es': seq<Event>, s': State)
    requires Reaches(es, s) && Enabled(s, e)
    ensures s' == Do(SMALL, s, e, false) && Reaches(es', s')
  {
    es', s' := es + [e], Do(SMALL, s, e, false);
    SnocRun(SMALL, START, es, e);
  }

  lemma {:induction false} SnocRun(b: Buffer, s: State, es: seq<Event>, e: Event)
    requires b.align > 0 && ValidRun(b, s, es, false) && Enabled(Exec(b, s, es, false), e)
    ensures ValidRun(b, s, es + [e], false) && Exec(b, s, es + [e], false) == Do(b, Exec(b, s, es, false), e, false)
    decreases |es|
  {
    if es != [] {
      assert (es + [e])[1..] == es[1..] + [e];
      SnocRun(b, Do(b, s, es[0], false), es[1..], e);
    } else {
      assert es + [e] == [e];
    }
  }

  /** The first generation, with threads 1 and 2 where stated, and nobody destroying. */
  predicate Scene(s: State, w: Word, one: Pc, two: Pc) {
    && s.sh.word == w && s.sh.gen == 1 && s.sh.destroys == multiset{}
    && At(s, 1) == one && At(s, 2) == two && s.threads.Keys == {1, 2}
  }

  lemma Claimed() returns (es: seq<Event>, s: State)
    ensures Reaches(es, s) && At(s, 1) == InitOffset(8) && s.threads.Keys == {1}
    ensures s.sh == Claim(START.sh, 1)
  {
    es, s := [], START;
    es, s := Play(es, s, BeginWrite(1, 8));
    es, s := Play(es, s, Go(1));
    es, s := Play(es, s, Go(1));
  }

  lemma Initialized() returns (es: seq<Event>, s: State)
    ensures Reaches(es, s) && At(s, 1) == WriteLook(8) && s.threads.Keys == {1}
    ensures s.sh == SetPhase(ZeroOffset(Claim(START.sh, 1)), ReadWrite)
  {
    es, s := Claimed();
    es, s := Play(es, s, Go(1));
    es, s := Play(es, s, Go(1));
  }

  /** Thread 1 has reserved the whole buffer. */
  lemma Reserved() returns (es: seq<Event>, s: State)
    ensures Reaches(es, s) && At(s, 1) == Idle && s.threads.Keys == {1}
    ensures s.sh.word == Word(0, 1, 8, ReadWrite) && s.sh.open == {0} && s.sh.gen == 1 && s.sh.destroys == multiset{}
    ensures s.sh.nextReader == 0
  {
    es, s := Initialized();
    es, s := Play(es, s, Go(1));
    es, s := Play(es, s, Go(1));
  }

  /** Thread 2 has pinned it. */
  lemma Pinned() returns (es: seq<Event>, s: State)
    ensures Reaches(es, s) && Scene(s, Word(1, 1, 8, ReadWrite), Idle, Idle) && s.sh.open == {0} && 0 in s.sh.readers
  {
    es, s := Reserved();
    es, s := Play(es, s, BeginRead(2, 0, 8));
    es, s := Play(es, s, Go(2));
    es, s := Play(es, s, Go(2));
  }

  lemma FoundFull() returns (es: seq<Event>, s: State)
    ensures Reaches(es, s) && s.sh.open == {0} && 0 in s.sh.readers
    ensures Scene(s, Word(1, 1, 8, ReadWrite), Idle, WriteClose(Word(1, 1, 8, ReadWrite)))
  {
    es, s := Pinned();
    es, s := Play(es, s, BeginWrite(2, 8));
    es, s := Play(es, s, Go(2));
    es, s := Play(es, s, Go(2));
  }

  lemma Closed() returns (es: seq<Event>, s: State)
    ensures Reaches(es, s) && Scene(s, Word(1, 1, 8, ReadOnly), Idle, Idle) && s.sh.open == {0} && 0 in s.sh.readers
  {
    es, s := FoundFull();
    es, s := Play(es, s, Go(2));
    es, s := Play(es, s, Go(2));
    es, s := Play(es, s, Go(2));
  }

  lemma CheckingIn() returns (es: seq<Event>, s: State)
    ensures Reaches(es, s) && s.sh.open == {0} && 0 in s.sh.readers
    ensures Scene(s, Word(1, 1, 8, ReadOnly), CheckinTry(0, Word(1, 1, 8, ReadOnly)), Idle)
  {
    es, s := Closed();
    es, s := Play(es, s, BeginCheckin(1, 0));
    es, s := Play(es, s, Go(1));
  }

  lemma CheckedIn() returns (es: seq<Event>, s: State)
    ensures Reaches(es, s) && Scene(s, Word(1, 0, 8, ReadOnly), FlushLook, Idle) && 0 in s.sh.readers && s.sh.open == {}
  {
    es, s := CheckingIn();
    es, s := Play(es, s, Go(1));
  }

  lemma FlushCalled() returns (es: seq<Event>, s: State)
    ensures Reaches(es, s) && Scene(s, Word(1, 0, 8, Flush), FlushPhase, Idle) && 0 in s.sh.readers && s.sh.open == {}
  {
    es, s := CheckedIn();
    es, s := Play(es, s, Go(1));
    es, s := Play(es, s, Go(1));
  }

  lemma Flushed() returns (es: seq<Event>, s: State)
    ensures Reaches(es, s) && Scene(s, Word(1, 0, 8, Flush), Idle, Idle) && s.sh.flushOwed && 0 in s.sh.readers
    ensures s.sh.open == {}
  {
    es, s := FlushCalled();
    es, s := Play(es, s, Go(1));
    es, s := Play(es, s, Go(1));
  }

  lemma Completed() returns (es: seq<Event>, s: State)
    ensures Reaches(es, s) && 0 in s.sh.readers && s.sh.open == {}
    ensures Scene(s, Word(1, 0, 8, FlushComplete), CompleteTest(Word(1, 0, 8, FlushComplete), 1), Idle)
  {
    es, s := Flushed();
    es, s := Play(es, s, BeginComplete(1));
    es, s := Play(es, s, Go(1));
    es, s := Play(es, s, Go(1));
  }

  lemma LeavingReader() returns (es: seq<Event>, s: State)
    ensures Reaches(es, s) && 0 in s.sh.readers && s.sh.open == {}
    ensures var w := Word(1, 0, 8, FlushComplete); Scene(s, w, CompleteTest(w, 1), ReadInTry(0, w))
  {
    es, s := Completed();
    es, s := Play(es, s, BeginReadCheckin(2, 0));
    es, s := Play(es, s, Go(2));
  }

  lemma ReaderDestroys() returns (es: seq<Event>, s: State)
    ensures Reaches(es, s) && s.sh.word == Word(0, 0, 8, FlushComplete) && s.sh.gen == 1 && s.sh.destroys == multiset{1}
    ensures At(s, 1) == CompleteTest(Word(1, 0, 8, FlushComplete), 1) && At(s, 2) == DestroyOffset(1)
    ensures s.threads.Keys == {1, 2} && s.sh.open == {}
  {
    es, s := LeavingReader();
    es, s := Play(es, s, Go(2));
  }

  lemma BothDestroy() returns (es: seq<Event>, s: State)
    ensures Reaches(es, s) && s.sh.word == Word(0, 0, 8, FlushComplete) && s.sh.gen == 1 && s.sh.destroys[1] == 2
    ensures At(s, 1) == At(s, 2) == DestroyOffset(1) && s.threads.Keys == {1, 2} && s.sh.open == {}
  {
    es, s := ReaderDestroys();
    es, s := Play(es, s, Go(1));
  }

  /** The last reader checks in between the swap of flush_complete and its test: both destroy. */
  lemma LastReaderRaces()
    ensures exists es :: ValidRun(SMALL, START, es, false) && !DestroyedOnce(Exec(SMALL, START, es, false))
  {
    var es, s := BothDestroy();
    assert s.sh.destroys[1] == 2;
  }

  // ----- what the second destroyer can do to the next generation

  lemma ReaderGone() returns (es: seq<Event>, s: State)
    ensures Reaches(es, s) && s.sh.word == Word(0, 0, 0, Unused) && s.sh.gen == 1
    ensures At(s, 1) == DestroyOffset(1) && At(s, 2) == Idle && s.threads.Keys == {1, 2} && s.sh.open == {}
  {
    es, s := BothDestroy();
    es, s := Play(es, s, Go(2));
    es, s := Play(es, s, Go(2));
  }

  lemma AssertionFails()
    ensures exists es :: ValidRun(SMALL, START, es, false) && !AssertionsHold(SMALL, Exec(SMALL, START, es, false), 1)
  {
    var es, s := ReaderGone();
    assert !AssertionsHold(SMALL, s, 1);
  }

  lemma Reclaimed() returns (es: seq<Event>, s: State)
    ensures Reaches(es, s) && s.sh.word == Word(0, 0, 0, Initializing) && s.sh.granted == [] && s.sh.open == {}
    ensures At(s, 1) == DestroyOffset(1) && At(s, 2) == InitOffset(8) && s.threads.Keys == {1, 2}
  {
    es, s := ReaderGone();
    es, s := Play(es, s, BeginWrite(2, 8));
    es, s := Play(es, s, Go(2));
    es, s := Play(es, s, Go(2));
  }

  lemma Reopened() returns (es: seq<Event>, s: State)
    ensures Reaches(es, s) && s.sh.word == Word(0, 0, 0, ReadWrite) && s.sh.granted == [] && s.sh.open == {}
    ensures At(s, 1) == DestroyOffset(1) && At(s, 2) == WriteLook(8) && s.threads.Keys == {1, 2}
  {
    es, s := Reclaimed();
    es, s := Play(es, s, Go(2));
    es, s := Play(es, s, Go(2));
  }

  /** A second generation, full, with the second destroyer of the first still at its first write. */
  lemma Refilled() returns (es: seq<Event>, s: State)
    ensures Reaches(es, s) && s.sh.word == Word(0, 1, 8, ReadWrite)
    ensures s.sh.granted == [Reservation(0, 8)] && s.sh.open == {0}
    ensures At(s, 1) == DestroyOffset(1) && At(s, 2) == Idle && s.threads.Keys == {1, 2}
  {
    es, s := Reopened();
    es, s := Play(es, s, Go(2));
    es, s := Play(es, s, Go(2));
  }

  lemma Emptied() returns (es: seq<Event>, s: State)
    ensures Reaches(es, s) && s.sh.word == Word(0, 1, 0, ReadWrite) && s.sh.granted == [Reservation(0, 8)]
    ensures At(s, 2) == WriteLook(8)
  {
    es, s := Refilled();
    es, s := Play(es, s, Go(1));
    es, s := Play(es, s, BeginWrite(2, 8));
    es, s := Play(es, s, Go(2));
  }

  /** It sets the offset back, and the same bytes are reserved again. */
  lemma ReservationsOverlap()
    ensures exists es :: ValidRun(SMALL, START, es, false)
                         && var s := Exec(SMALL, START, es, false).sh;
                            s.word.phase.ReadWrite? && s.granted == [Reservation(0, 8), Reservation(0, 8)]
  {
    var es, s := Emptied();
    es, s := Play(es, s, Go(2));
    es, s := Play(es, s, Go(2));
    assert s.sh.granted == [Reservation(0, 8), Reservation(0, 8)];
  }

  lemma FoundFullAgain() returns (es: seq<Event>, s: State)
    ensures Reaches(es, s) && s.sh.word == Word(0, 1, 8, ReadWrite) && s.sh.open == {0}
    ensures At(s, 1) == DestroyOffset(1) && At(s, 2) == WriteClose(s.sh.word) && s.threads.Keys == {1, 2}
  {
    es, s := Refilled();
    es, s := Play(es, s, BeginWrite(2, 8));
    es, s := Play(es, s, Go(2));
    es, s := Play(es, s, Go(2));
  }

  lemma ClosedAgain() returns (es: seq<Event>, s: State)
    ensures Reaches(es, s) && s.sh.word == Word(0, 1, 8, ReadOnly) && s.sh.open == {0}
    ensures At(s, 1) == DestroyOffset(1) && At(s, 2) == Idle && s.threads.Keys == {1, 2}
  {
    es, s := FoundFullAgain();
    es, s := Play(es, s, Go(2));
    es, s := Play(es, s, Go(2));
    es, s := Play(es, s, Go(2));
  }

  lemma CheckingInAgain() returns (es: seq<Event>, s: State)
    ensures Reaches(es, s) && s.sh.word == Word(0, 1, 8, ReadOnly)
    ensures At(s, 1) == DestroyOffset(1) && At(s, 2) == CheckinTry(0, s.sh.word)
  {
    es, s := ClosedAgain();
    es, s := Play(es, s, BeginCheckin(2, 0));
    es, s := Play(es, s, Go(2));
  }

  lemma DrainedAgain() returns (es: seq<Event>, s: State)
    ensures Reaches(es, s) && Drained(s.sh.word) && At(s, 1) == DestroyPhase(1)
  {
    es, s := CheckingInAgain();
    es, s := Play(es, s, Go(2));
    es, s := Play(es, s, Go(1));
  }

  /** It makes a full buffer without writers unused: the flush is lost. */
  lemma FlushIsLost()
    ensures exists es :: ValidRun(SMALL, START, es, false)
                         && var s := Exec(SMALL, START, es, false);
                            && Drained(s.sh.word) && Enabled(s, Go(1))
                            && Do(SMALL, s, Go(1), false).sh.word.phase.Unused?
  {
    var es, s := DrainedAgain();
    assert Do(SMALL, s, Go(1), false).sh.word.phase.Unused?;
  }
}
