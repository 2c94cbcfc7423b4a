/** Reference-counted publication of configuration objects. `set` swaps an object into a slot and releases
    the old one after a delay; `get` reads the slot and then, in a second step, counts its reference.

    Every call, and every delayed release, is an activity; their atomic accesses interleave freely. */
module ConfigProcessor {

  const MAX_CONFIGS := 100

  datatype Option<T> = None | Some(value: T)

  datatype Act =
    | Idle
    // set
    | Installing(id: nat, obj: nat)
    | Swapping(id: nat, obj: nat, seen: Option<nat>)
    | Retiring(id: nat, obj: nat)
    | Lost(obj: nat)
    // the delayed release of a replaced object
    | Releaser(id: nat, obj: nat)
    // get: the object is read but not yet counted, then it is held
    | Window(id: nat, obj: nat)
    | Handle(id: nat, obj: nat)
    // release: the count has reached zero
    | Deleting(id: nat, obj: nat)

  /** `count` has an entry for every object ever passed to `set`. */
  datatype State = State(slots: map<nat, nat>, ninfos: nat, count: map<nat, int>, dead: set<nat>, acts: map<nat, Act>)

  const START := State(map[], 0, map[], {}, map[])

  datatype Event =
    | SetBegin(t: nat, id: nat, obj: nat)
    | SetLook(t: nat)
    | SetSwap(t: nat)
    | Schedule(t: nat)
    | GetRead(t: nat, id: nat)
    | GetCount(t: nat)
    | Release(t: nat)
    | Delete(t: nat)

  function At(s: State, t: nat): Act {
    if t in s.acts then s.acts[t] else Idle
  }

  function Slot(s: State, id: nat): Option<nat> {
    if id in s.slots then Some(s.slots[id]) else None
  }

  predicate Holds(a: Act, o: nat) {
    !a.Idle? && !a.Window? && !a.Deleting? && a.obj == o
  }

  predicate Retires(a: Act, id: nat, o: nat) {
    a == Retiring(id, o) || a == Releaser(id, o)
  }

  /** Some `get` has read o and not yet counted its reference. */
  predicate InWindow(s: State, o: nat) {
    exists t | t in s.acts :: s.acts[t].Window? && s.acts[t].obj == o
  }

  predicate ValidId(id: nat) {
    0 < id <= MAX_CONFIGS
  }

  /** A new object has never been passed to `set`, and `get` is given an id that has been set. */
  predicate Enabled(s: State, e: Event) {
    match e
    case SetBegin(t, id, o) => At(s, t).Idle? && o !in s.count
    case SetLook(t) => At(s, t).Installing?
    case SetSwap(t) => At(s, t).Swapping?
    case Schedule(t) => At(s, t).Retiring?
    case GetRead(t, id) => At(s, t).Idle? && (ValidId(id) ==> id in s.slots)
    case GetCount(t) => At(s, t).Window?
    case Release(t) => At(s, t).Handle? || At(s, t).Releaser?
    case Delete(t) => At(s, t).Deleting?
  }

  function Count(s: State, o: nat): int {
    if o in s.count then s.count[o] else 0
  }

  function Put(s: State, t: nat, a: Act): State {
    s.(acts := s.acts[t := a])
  }

  function Move(s: State, o: nat, n: int, t: nat, a: Act): State {
    s.(count := s.count[o := n], acts := s.acts[t := a])
  }

  function Begin(s: State, t: nat, id: nat, o: nat): State {
    var id' := if id == 0 then s.ninfos + 1 else id;
    var s' := s.(ninfos := if id == 0 then s.ninfos + 1 else s.ninfos);
    Move(s', o, 1, t, if id' > MAX_CONFIGS then Lost(o) else Installing(id', o))
  }

  function Swap(s: State, t: nat, id: nat, o: nat, seen: Option<nat>): State {
    if Slot(s, id) != seen then Put(s, t, Installing(id, o))
    else State(s.slots[id := o], s.ninfos, s.count, s.dead,
               s.acts[t := if seen.None? then Idle else Retiring(id, seen.value)])
  }

  function Do(s: State, e: Event): State {
    match e
    case SetBegin(t, id, o) => Begin(s, t, id, o)
    case SetLook(t) =>
      if At(s, t).Installing? then Put(s, t, Swapping(At(s, t).id, At(s, t).obj, Slot(s, At(s, t).id))) else s
    case SetSwap(t) => if At(s, t).Swapping? then Swap(s, t, At(s, t).id, At(s, t).obj, At(s, t).seen) else s
    case Schedule(t) => if At(s, t).Retiring? then Put(s, t, Releaser(At(s, t).id, At(s, t).obj)) else s
    case GetRead(t, id) => if ValidId(id) && id in s.slots then Put(s, t, Window(id, s.slots[id])) else Put(s, t, Idle)
    case GetCount(t) =>
      if !At(s, t).Window? then s
      else Move(s, At(s, t).obj, Count(s, At(s, t).obj) + 1, t, Handle(At(s, t).id, At(s, t).obj))
    case Release(t) =>
      if At(s, t).Handle? || At(s, t).Releaser? then
        var id, o := At(s, t).id, At(s, t).obj;
        var n := Count(s, o) - 1;
        Move(s, o, n, t, if n == 0 then Deleting(id, o) else Idle)
      else s
    case Delete(t) =>
      if At(s, t).Deleting? then s.(dead := s.dead + {At(s, t).obj}, acts := s.acts[t := Idle]) else s
  }

  /** What the code asserts at an event, and that no event touches a deleted object. */
  predicate AssertionsHold(s: State, e: Event) {
    match e
    case SetBegin(t, id, o) => Count(s, o) + 1 == 1 && o !in s.dead
    case Schedule(t) => At(s, t).Retiring? ==> Count(s, At(s, t).obj) > 0 && At(s, t).obj !in s.dead
    case GetCount(t) => At(s, t).Window? ==> Count(s, At(s, t).obj) + 1 > 1 && At(s, t).obj !in s.dead
    case Release(t) => At(s, t).Handle? || At(s, t).Releaser? ==> At(s, t).obj !in s.dead
    case Delete(t) => At(s, t).Deleting? ==> Slot(s, At(s, t).id) != Some(At(s, t).obj) && At(s, t).obj !in s.dead
    case _ => true
  }

  // ----- accounting

  function One(c: bool): nat {
    if c then 1 else 0
  }

  function Holders(acts: map<nat, Act>, o: nat): set<nat> {
    set t | t in acts && Holds(acts[t], o)
  }

  function Refs(acts: map<nat, Act>, o: nat): nat {
    |Holders(acts, o)|
  }

  predicate Placed(s: State, o: nat) {
    exists id | id in s.slots :: s.slots[id] == o
  }

  /** Objects whose count has reached zero and that are about to be deleted. */
  predicate Dying(s: State, o: nat) {
    exists t | t in s.acts :: s.acts[t].Deleting? && s.acts[t].obj == o
  }

  lemma PutRefs(acts: map<nat, Act>, t: nat, a: Act, o: nat)
    ensures Refs(acts[t := a], o) == Refs(acts, o) - One(t in acts && Holds(acts[t], o)) + One(Holds(a, o))
  {
    var was, now := Holders(acts, o), Holders(acts[t := a], o);
    assert now - {t} == was - {t};
    assert |now| == |now - {t}| + One(t in now) && |was| == |was - {t}| + One(t in was);
  }

  lemma TwoHolders(acts: map<nat, Act>, t: nat, u: nat, o: nat)
    requires t in acts && u in acts && t != u && Holds(acts[t], o) && Holds(acts[u], o)
    ensures Refs(acts, o) >= 2
  {
    var two := {t, u};
    assert |Holders(acts, o)| == |Holders(acts, o) - two| + |Holders(acts, o) * two|;
    assert Holders(acts, o) * two == two;
  }

  lemma Holder(acts: map<nat, Act>, t: nat, o: nat)
    requires t in acts && Holds(acts[t], o)
    ensures Refs(acts, o) >= 1
  {
    assert t in Holders(acts, o);
  }

  ghost predicate CountsAgree(s: State) {
    forall o :: o in s.count ==> s.count[o] == One(Placed(s, o)) + Refs(s.acts, o)
  }

  ghost predicate SlotsOk(s: State) {
    && (forall id :: id in s.slots ==> s.slots[id] in s.count)
    && (forall i, j :: i in s.slots && j in s.slots && s.slots[i] == s.slots[j] ==> i == j)
  }

  ghost predicate ActOk(s: State, a: Act) {
    match a
    case Idle => true
    case Installing(_, o) => o in s.count && s.count[o] == 1
    case Swapping(_, o, _) => o in s.count && s.count[o] == 1
    case Window(_, o) => o in s.count
    case Deleting(_, o) => o in s.count && s.count[o] == 0 && o !in s.dead
    case _ => a.obj in s.count
  }

  ghost predicate ActsOk(s: State) {
    forall t :: t in s.acts ==> ActOk(s, s.acts[t])
  }

  ghost predicate DeletedOnce(s: State) {
    forall t, u :: t in s.acts && u in s.acts && s.acts[t].Deleting? && s.acts[u].Deleting? ==>
      s.acts[t].obj == s.acts[u].obj ==> t == u
  }

  ghost predicate DeadOk(s: State) {
    && (forall o :: o in s.dead ==> o in s.count && s.count[o] == 0)
    && (forall o :: o in s.count && s.count[o] == 0 ==> o in s.dead || Dying(s, o))
  }

  /** What is being read has been installed. */
  ghost predicate ReadsInstalled(s: State) {
    forall t, u :: t in s.acts && u in s.acts && s.acts[t].Window? && Installs(s.acts[u]) ==>
      s.acts[t].obj != s.acts[u].obj
  }

  predicate Installs(a: Act) {
    a.Installing? || a.Swapping?
  }

  ghost predicate Inv(s: State) {
    CountsAgree(s) && SlotsOk(s) && ActsOk(s) && DeletedOnce(s) && ReadsInstalled(s) && DeadOk(s)
  }

  // ----- every step keeps the invariant

  lemma NewIsUnheld(s: State, o: nat)
    requires Inv(s) && o !in s.count
    ensures Refs(s.acts, o) == 0 && !Placed(s, o)
  {
  }

  /** The other activities do not notice a step that keeps the slots and the counts they rely on. */
  lemma KeepsActs(s: State, s': State, t: nat)
    requires Inv(s) && s'.slots == s.slots && t in s'.acts && s'.acts == s.acts[t := s'.acts[t]]
    requires forall o :: o in s.count ==> o in s'.count
    requires forall u :: u in s.acts && u != t && Fixed(s.acts[u]) ==>
               Count(s', s.acts[u].obj) == Count(s, s.acts[u].obj) &&
               (s.acts[u].obj in s'.dead ==> s.acts[u].obj in s.dead)
    ensures forall u :: u in s.acts && u != t ==> ActOk(s', s'.acts[u])
  {
  }

  /** Activities whose object's count cannot change under them. */
  predicate Fixed(a: Act) {
    Installs(a) || a.Deleting?
  }

  lemma KeepsDying(s: State, s': State, t: nat)
    requires t in s'.acts && s'.acts == s.acts[t := s'.acts[t]]
    ensures forall o :: Dying(s, o) ==> Dying(s', o) || (At(s, t).Deleting? && At(s, t).obj == o)
  {
    forall o | Dying(s, o)
      ensures Dying(s', o) || (At(s, t).Deleting? && At(s, t).obj == o)
    {
      var u :| u in s.acts && s.acts[u].Deleting? && s.acts[u].obj == o;
      assert u in s'.acts;
    }
  }

  lemma KeepsCounts(s: State, s': State, t: nat)
    requires Inv(s) && s'.slots == s.slots && t in s'.acts && s'.acts == s.acts[t := s'.acts[t]]
    requires forall x :: x in s'.count ==>
               s'.count[x] == Count(s, x) - One(Holds(At(s, t), x)) + One(Holds(s'.acts[t], x))
    ensures CountsAgree(s')
  {
    forall x | x in s'.count
      ensures s'.count[x] == One(Placed(s', x)) + Refs(s'.acts, x)
    {
      PutRefs(s.acts, t, s'.acts[t], x);
      assert Placed(s', x) == Placed(s, x);
      if x !in s.count {
        NewIsUnheld(s, x);
      }
    }
  }

  lemma KeepsReads(s: State, s': State, t: nat)
    requires ReadsInstalled(s) && t in s'.acts && s'.acts == s.acts[t := s'.acts[t]]
    requires s'.acts[t].Window? ==> forall u :: u in s.acts && Installs(s.acts[u]) ==> s.acts[u].obj != s'.acts[t].obj
    requires Installs(s'.acts[t]) ==> forall u :: u in s.acts && s.acts[u].Window? ==> s.acts[u].obj != s'.acts[t].obj
    ensures ReadsInstalled(s')
  {
  }

  lemma BeginStep(s: State, t: nat, id: nat, o: nat)
    requires Inv(s) && At(s, t).Idle? && o !in s.count
    ensures Inv(Begin(s, t, id, o))
  {
    var s' := Begin(s, t, id, o);
    BeginCounts(s, s', t, id, o);
    BeginActs(s, s', t, id, o);
    BeginReads(s, s', t, id, o);
    BeginDead(s, s', t, id, o);
  }

  lemma BeginActs(s: State, s': State, t: nat, id: nat, o: nat)
    requires Inv(s) && At(s, t).Idle? && o !in s.count && s' == Begin(s, t, id, o)
    ensures ActsOk(s')
  {
    KeepsActs(s, s', t);
    assert o !in s.dead;
  }

  lemma BeginReads(s: State, s': State, t: nat, id: nat, o: nat)
    requires Inv(s) && At(s, t).Idle? && o !in s.count && s' == Begin(s, t, id, o)
    ensures ReadsInstalled(s')
  {
    NewIsUnread(s, o);
    KeepsReads(s, s', t);
  }

  lemma BeginDead(s: State, s': State, t: nat, id: nat, o: nat)
    requires Inv(s) && At(s, t).Idle? && o !in s.count && s' == Begin(s, t, id, o)
    ensures DeadOk(s') && DeletedOnce(s')
  {
    KeepsDying(s, s', t);
    KeepsDeletedOnce(s, s', t);
  }

  lemma BeginCounts(s: State, s': State, t: nat, id: nat, o: nat)
    requires Inv(s) && At(s, t).Idle? && o !in s.count && s' == Begin(s, t, id, o)
    ensures CountsAgree(s') && !Placed(s, o)
  {
    NewIsUnheld(s, o);
    KeepsCounts(s, s', t);
  }

  lemma NewIsUnread(s: State, o: nat)
    requires ActsOk(s) && o !in s.count
    ensures forall u :: u in s.acts && s.acts[u].Window? ==> s.acts[u].obj != o
  {
    forall u | u in s.acts && s.acts[u].Window?
      ensures s.acts[u].obj != o
    {
      assert ActOk(s, s.acts[u]);
    }
  }

  /** A step that only moves its own activity, which keeps what it holds. */
  lemma LocalStep(s: State, t: nat, a: Act)
    requires Inv(s) && ActOk(s, a) && !At(s, t).Deleting? && !a.Deleting?
    requires forall o :: Holds(At(s, t), o) == Holds(a, o)
    requires a.Window? ==> Placed(s, a.obj)
    requires Installs(a) ==> Installs(At(s, t)) && a.obj == At(s, t).obj
    ensures Inv(Put(s, t, a))
  {
    var s' := Put(s, t, a);
    if a.Window? {
      PlacedIsInstalled(s, a.obj);
    }
    KeepsCounts(s, s', t);
    KeepsActs(s, s', t);
    KeepsReads(s, s', t);
    KeepsDying(s, s', t);
  }

  lemma PlacedIsInstalled(s: State, o: nat)
    requires Inv(s) && Placed(s, o)
    ensures forall u :: u in s.acts && Installs(s.acts[u]) ==> s.acts[u].obj != o
    ensures o in s.count && s.count[o] > 0
  {
    forall u | u in s.acts && Installs(s.acts[u])
      ensures s.acts[u].obj != o
    {
      InstalledIsUnplaced(s, u, s.acts[u].obj);
    }
  }

  lemma KeepsDead(s: State, s': State, t: nat, o: nat)
    requires DeadOk(s) && o in s.count && o !in s.dead && s'.dead == s.dead && !At(s, t).Deleting?
    requires t in s'.acts && s'.acts == s.acts[t := s'.acts[t]] && o in s'.count &&
             s'.count == s.count[o := s'.count[o]]
    requires s'.count[o] == 0 ==> s'.acts[t].Deleting? && s'.acts[t].obj == o
    ensures DeadOk(s')
  {
    KeepsDying(s, s', t);
    if s'.count[o] == 0 {
      assert Dying(s', o);
    }
  }

  lemma CountedStep(s: State, t: nat, id: nat, o: nat, s': State)
    requires Inv(s) && At(s, t) == Window(id, o) && Count(s, o) > 0
    requires s' == Move(s, o, Count(s, o) + 1, t, Handle(id, o))
    ensures Inv(s')
  {
    ReadIsUnfixed(s, t, o);
    KeepsCounts(s, s', t);
    KeepsActs(s, s', t);
    KeepsReads(s, s', t);
    KeepsDead(s, s', t, o);
  }

  lemma ReadIsUnfixed(s: State, t: nat, o: nat)
    requires Inv(s) && At(s, t).Window? && At(s, t).obj == o && Count(s, o) > 0
    ensures o in s.count && o !in s.dead
    ensures forall u :: u in s.acts && Fixed(s.acts[u]) ==> s.acts[u].obj != o
  {
    assert ActOk(s, s.acts[t]);
    forall u | u in s.acts && Fixed(s.acts[u])
      ensures s.acts[u].obj != o
    {
      assert ActOk(s, s.acts[u]);
    }
  }

  lemma HeldIsUnfixed(s: State, t: nat, o: nat)
    requires Inv(s) && t in s.acts && Holds(s.acts[t], o) && !Fixed(s.acts[t])
    ensures o in s.count && s.count[o] > 0 && o !in s.dead
    ensures forall u :: u in s.acts && Fixed(s.acts[u]) ==> s.acts[u].obj != o
  {
    assert ActOk(s, s.acts[t]);
    Holder(s.acts, t, o);
    forall u | u in s.acts && Fixed(s.acts[u])
      ensures s.acts[u].obj != o
    {
      assert ActOk(s, s.acts[u]);
      if s.acts[u].obj == o && !s.acts[u].Deleting? {
        TwoHolders(s.acts, t, u, o);
      }
    }
  }

  lemma KeepsDeletedOnce(s: State, s': State, t: nat)
    requires DeletedOnce(s) && t in s'.acts && s'.acts == s.acts[t := s'.acts[t]]
    requires s'.acts[t].Deleting? ==> forall u :: u in s.acts && s.acts[u].Deleting? ==> s.acts[u].obj != s'.acts[t].obj
    ensures DeletedOnce(s')
  {
  }

  /** Giving up a reference: nobody else relies on this count. */
  lemma ReleaseStep(s: State, t: nat, id: nat, o: nat, n: int, a: Act, s': State)
    requires Inv(s) && (At(s, t) == Handle(id, o) || At(s, t) == Releaser(id, o))
    requires n == Count(s, o) - 1 && a == if n == 0 then Deleting(id, o) else Idle
    requires s' == Move(s, o, n, t, a)
    ensures Inv(s')
  {
    HeldIsUnfixed(s, t, o);
    KeepsCounts(s, s', t);
    KeepsActs(s, s', t);
    KeepsReads(s, s', t);
    KeepsDeletedOnce(s, s', t);
    KeepsDead(s, s', t, o);
  }

  lemma DeleteStep(s: State, t: nat, id: nat, o: nat)
    requires Inv(s) && At(s, t) == Deleting(id, o)
    ensures Inv(s.(dead := s.dead + {o}, acts := s.acts[t := Idle]))
  {
    var s' := s.(dead := s.dead + {o}, acts := s.acts[t := Idle]);
    assert ActOk(s, s.acts[t]);
    KeepsCounts(s, s', t);
    KeepsActs(s, s', t);
    KeepsDying(s, s', t);
  }

  lemma InstalledIsUnplaced(s: State, t: nat, o: nat)
    requires Inv(s) && t in s.acts && (s.acts[t].Installing? || s.acts[t].Swapping?) && s.acts[t].obj == o
    ensures s.count[o] == 1 && !Placed(s, o) && Refs(s.acts, o) == 1 && o !in s.dead
  {
    assert ActOk(s, s.acts[t]);
    Holder(s.acts, t, o);
  }

  /** The swap moves the reference of the new object into the slot and takes over the slot's reference
      to the old one. */
  lemma SwapStep(s: State, t: nat, id: nat, o: nat, seen: Option<nat>)
    requires Inv(s) && At(s, t) == Swapping(id, o, seen) && Slot(s, id) == seen
    ensures Inv(Swap(s, t, id, o, seen))
  {
    var s' := Swap(s, t, id, o, seen);
    InstalledIsUnplaced(s, t, o);
    SwapCounts(s, t, id, o, seen);
    SwapActs(s, s', t);
    SwapSlots(s, s', id, o);
    KeepsReads(s, s', t);
    KeepsDying(s, s', t);
  }

  lemma SwapActs(s: State, s': State, t: nat)
    requires ActsOk(s) && s'.count == s.count && s'.dead == s.dead && t in s'.acts && s'.acts == s.acts[t := s'.acts[t]]
    requires ActOk(s', s'.acts[t])
    ensures ActsOk(s')
  {
    forall u | u in s'.acts && u != t
      ensures ActOk(s', s'.acts[u])
    {
      assert ActOk(s, s.acts[u]);
    }
  }

  lemma SwapSlots(s: State, s': State, id: nat, o: nat)
    requires SlotsOk(s) && !Placed(s, o) && o in s.count && s'.slots == s.slots[id := o] && s'.count == s.count
    ensures SlotsOk(s')
  {
    forall i | i in s.slots
      ensures s.slots[i] != o
    {
    }
  }

  lemma SwapCounts(s: State, t: nat, id: nat, o: nat, seen: Option<nat>)
    requires Inv(s) && At(s, t) == Swapping(id, o, seen) && Slot(s, id) == seen
    requires s.count[o] == 1 && !Placed(s, o) && Refs(s.acts, o) == 1
    ensures CountsAgree(Swap(s, t, id, o, seen))
  {
    var s' := Swap(s, t, id, o, seen);
    forall x | x in s'.count
      ensures s'.count[x] == One(Placed(s', x)) + Refs(s'.acts, x)
    {
      PutRefs(s.acts, t, s'.acts[t], x);
      if x == o {
        assert s'.slots[id] == o;
      } else if Some(x) == seen {
        assert Placed(s, x) && !Placed(s', x);
      } else {
        if Placed(s, x) {
          var i :| i in s.slots && s.slots[i] == x;
          assert i in s'.slots && s'.slots[i] == x;
        }
      }
    }
  }

  lemma SetKeepsInv(s: State, e: Event, a: Act)
    requires Inv(s) && Enabled(s, e) && (e.SetBegin? || e.SetLook? || e.SetSwap? || e.Schedule?) && a == At(s, e.t)
    ensures Inv(Do(s, e))
  {
    assert e.t in s.acts ==> ActOk(s, a);
    match e
    case SetBegin(t, id, o) => BeginStep(s, t, id, o);
    case SetLook(t) => LocalStep(s, t, Swapping(a.id, a.obj, Slot(s, a.id)));
    case SetSwap(t) =>
      if Slot(s, a.id) == a.seen { SwapStep(s, t, a.id, a.obj, a.seen); }
      else { LocalStep(s, t, Installing(a.id, a.obj)); }
    case Schedule(t) => LocalStep(s, t, Releaser(a.id, a.obj));
    case _ =>
  }

  lemma ReadStep(s: State, t: nat, id: nat)
    requires Inv(s) && At(s, t).Idle? && id in s.slots
    ensures Inv(Put(s, t, Window(id, s.slots[id])))
  {
    assert Placed(s, s.slots[id]);
    LocalStep(s, t, Window(id, s.slots[id]));
  }

  lemma ReadKeepsInv(s: State, t: nat, id: nat)
    requires Inv(s) && Enabled(s, GetRead(t, id))
    ensures Inv(Do(s, GetRead(t, id)))
  {
    if ValidId(id) {
      ReadStep(s, t, id);
    } else {
      LocalStep(s, t, Idle);
    }
  }

  lemma CountKeepsInv(s: State, t: nat, a: Act)
    requires Inv(s) && Enabled(s, GetCount(t)) && Safe(s, GetCount(t)) && a == At(s, t)
    ensures Inv(Do(s, GetCount(t)))
  {
    CountedStep(s, t, a.id, a.obj, Do(s, GetCount(t)));
  }

  lemma ReleaseKeepsInv(s: State, e: Event, a: Act)
    requires Inv(s) && Enabled(s, e) && (e.Release? || e.Delete?) && a == At(s, e.t)
    ensures Inv(Do(s, e))
  {
    match e
    case Release(t) =>
      var n := Count(s, a.obj) - 1;
      var a' := if n == 0 then Deleting(a.id, a.obj) else Idle;
      ReleaseStep(s, t, a.id, a.obj, n, a', Do(s, e));
    case Delete(t) => DeleteStep(s, t, a.id, a.obj);
    case _ =>
  }

  /** A `get` counts a reference to an object that still has one. */
  predicate Safe(s: State, e: Event) {
    e.GetCount? && At(s, e.t).Window? ==> Count(s, At(s, e.t).obj) > 0
  }

  lemma StepKeepsInv(s: State, e: Event)
    requires Inv(s) && Enabled(s, e) && Safe(s, e)
    ensures Inv(Do(s, e))
  {
    if e.SetBegin? || e.SetLook? || e.SetSwap? || e.Schedule? { SetKeepsInv(s, e, At(s, e.t)); }
    else if e.GetRead? { ReadKeepsInv(s, e.t, e.id); }
    else if e.GetCount? { CountKeepsInv(s, e.t, At(s, e.t)); }
    else { ReleaseKeepsInv(s, e, At(s, e.t)); }
  }

  /** This is all that the assertions at a step ask for. */
  lemma AssertionsHoldIffSafe(s: State, e: Event)
    requires Inv(s) && Enabled(s, e)
    ensures AssertionsHold(s, e) <==> Safe(s, e)
  {
    match e
    case Schedule(t) => HeldIsUnfixed(s, t, At(s, t).obj);
    case GetCount(t) => assert ActOk(s, s.acts[t]);
    case Release(t) => HeldIsUnfixed(s, t, At(s, t).obj);
    case Delete(t) =>
      assert ActOk(s, s.acts[t]);
      assert !Placed(s, At(s, t).obj);
    case _ =>
  }

  // ----- runs

  predicate ValidRun(s: State, es: seq<Event>)
    decreases |es|
  {
    es == [] || (Enabled(s, es[0]) && ValidRun(Do(s, es[0]), es[1..]))
  }

  function Exec(s: State, es: seq<Event>): State
    decreases |es|
  {
    if es == [] then s else Exec(Do(s, es[0]), es[1..])
  }

  /** The event gives up the last reference to o. */
  predicate GivesUpLast(s: State, e: Event, o: nat) {
    e.Release? && (At(s, e.t).Handle? || At(s, e.t).Releaser?) && At(s, e.t).obj == o && Count(s, o) == 1
  }

  /** The readers that the event leaves with an object which has no reference. */
  function MadeLate(s: State, e: Event): set<nat> {
    set t | t in s.acts && s.acts[t].Window? && GivesUpLast(s, e, s.acts[t].obj)
  }

  /** No `get` counts its reference after the last other reference to the object it has read was given
      up. `late`: the readers for which that has happened. */
  predicate Timely(s: State, es: seq<Event>, late: set<nat>)
    decreases |es|
  {
    es == [] || (!(es[0].GetCount? && es[0].t in late) && Timely(Do(s, es[0]), es[1..], late + MadeLate(s, es[0])))
  }

  predicate AlwaysAsserts(s: State, es: seq<Event>)
    decreases |es|
  {
    es == [] || (AssertionsHold(s, es[0]) && AlwaysAsserts(Do(s, es[0]), es[1..]))
  }

  ghost predicate LateOnes(s: State, late: set<nat>) {
    forall t :: t in late <==> t in s.acts && s.acts[t].Window? && Count(s, s.acts[t].obj) == 0
  }

  lemma LateOnesStep(s: State, e: Event, late: set<nat>)
    requires Inv(s) && Enabled(s, e) && Safe(s, e) && LateOnes(s, late)
    ensures LateOnes(Do(s, e), late + MadeLate(s, e))
  {
    var s', late' := Do(s, e), late + MadeLate(s, e);
    forall t
      ensures t in late' <==> t in s'.acts && s'.acts[t].Window? && Count(s', s'.acts[t].obj) == 0
    {
      LateOneStep(s, e, t);
    }
  }

  lemma LateOneStep(s: State, e: Event, t: nat)
    requires Inv(s) && Enabled(s, e) && Safe(s, e)
    ensures (At(Do(s, e), t).Window? && Count(Do(s, e), At(Do(s, e), t).obj) == 0)
            <==> (At(s, t).Window? && (Count(s, At(s, t).obj) == 0 || GivesUpLast(s, e, At(s, t).obj)))
  {
    if e.t == t {
      LateOwnStep(s, e, t);
    } else {
      LateOtherStep(s, e, t);
    }
  }

  lemma LateOwnStep(s: State, e: Event, t: nat)
    requires Inv(s) && Enabled(s, e) && Safe(s, e) && e.t == t
    ensures !(At(Do(s, e), t).Window? && Count(Do(s, e), At(Do(s, e), t).obj) == 0)
    ensures !(At(s, t).Window? && (Count(s, At(s, t).obj) == 0 || GivesUpLast(s, e, At(s, t).obj)))
  {
    if e.GetRead? && ValidId(e.id) {
      assert Placed(s, s.slots[e.id]);
      PlacedIsInstalled(s, s.slots[e.id]);
    }
  }

  lemma LateOtherStep(s: State, e: Event, t: nat)
    requires Inv(s) && Enabled(s, e) && Safe(s, e) && e.t != t
    ensures At(Do(s, e), t) == At(s, t)
    ensures At(s, t).Window? ==>
              (Count(Do(s, e), At(s, t).obj) == 0
               <==> Count(s, At(s, t).obj) == 0 || GivesUpLast(s, e, At(s, t).obj))
  {
    if t in s.acts {
      assert ActOk(s, s.acts[t]);
    }
    if e.Release? {
      HeldIsUnfixed(s, e.t, At(s, e.t).obj);
    }
  }

  /** No assertion fails along a run, if and only if the run is timely. */
  lemma {:induction false} AssertionsHoldIffTimely(s: State, es: seq<Event>, late: set<nat>)
    requires Inv(s) && LateOnes(s, late) && ValidRun(s, es)
    ensures AlwaysAsserts(s, es) <==> Timely(s, es, late)
    ensures Timely(s, es, late) ==> Inv(Exec(s, es))
    decreases |es|
  {
    if es != [] {
      AssertionsHoldIffSafe(s, es[0]);
      assert Safe(s, es[0]) <==> !(es[0].GetCount? && es[0].t in late) by {
        if es[0].GetCount? {
          assert ActOk(s, s.acts[es[0].t]);
          CountIsNat(s, s.acts[es[0].t].obj);
        }
      }
      if Safe(s, es[0]) {
        StepKeepsInv(s, es[0]);
        LateOnesStep(s, es[0], late);
        AssertionsHoldIffTimely(Do(s, es[0]), es[1..], late + MadeLate(s, es[0]));
      }
    }
  }

  lemma CountIsNat(s: State, o: nat)
    requires Inv(s) && o in s.count
    ensures s.count[o] >= 0
  {
  }

  lemma TimelyRunKeepsInv(es: seq<Event>)
    requires ValidRun(START, es) && Timely(START, es, {})
    ensures Inv(Exec(START, es))
  {
    AssertionsHoldIffTimely(START, es, {});
  }

  /** After any timely run each count is the slot's reference plus the pending releases, the outstanding
      handles and the sets under way; an object is deleted, or about to be, exactly when it has none of
      these; and nobody holds, and no slot has, a deleted object. */
  lemma ReferencesAreCounted(es: seq<Event>)
    requires ValidRun(START, es) && Timely(START, es, {})
    ensures var s := Exec(START, es);
            && (forall o :: o in s.count ==>
                  && s.count[o] == One(Placed(s, o)) + Refs(s.acts, o)
                  && (o in s.dead || Dying(s, o) <==> !Placed(s, o) && Holders(s.acts, o) == {}))
            && (forall t, o :: t in s.acts && Holds(s.acts[t], o) ==> o in s.count && o !in s.dead)
            && (forall id :: id in s.slots ==> s.slots[id] !in s.dead)
  {
    TimelyRunKeepsInv(es);
    var s := Exec(START, es);
    forall o | o in s.count
      ensures o in s.dead || Dying(s, o) <==> !Placed(s, o) && Holders(s.acts, o) == {}
    {
      if Dying(s, o) {
        var t :| t in s.acts && s.acts[t].Deleting? && s.acts[t].obj == o;
        assert ActOk(s, s.acts[t]);
      }
    }
    forall t, o | t in s.acts && Holds(s.acts[t], o)
      ensures o in s.count && o !in s.dead
    {
      assert ActOk(s, s.acts[t]);
      Holder(s.acts, t, o);
    }
    forall id | id in s.slots
      ensures s.slots[id] !in s.dead
    {
      assert Placed(s, s.slots[id]);
    }
  }

  // ----- the grace period

  /** The delay of a release outlasts every `get` that read the object before. */
  predicate Graced(s: State, e: Event) {
    e.Release? && At(s, e.t).Releaser? ==> !InWindow(s, At(s, e.t).obj)
  }

  predicate AllGraced(s: State, es: seq<Event>)
    decreases |es|
  {
    es == [] || (Graced(s, es[0]) && AllGraced(Do(s, es[0]), es[1..]))
  }

  /** The slot, or the release to come, keeps the object of an open window alive. */
  predicate Covered(s: State, id: nat, o: nat) {
    Slot(s, id) == Some(o) || exists u | u in s.acts :: Retires(s.acts[u], id, o)
  }

  ghost predicate AllCovered(s: State) {
    forall t :: t in s.acts && s.acts[t].Window? ==> Covered(s, s.acts[t].id, s.acts[t].obj)
  }

  lemma CoveredIsSafe(s: State, e: Event)
    requires Inv(s) && AllCovered(s) && Enabled(s, e)
    ensures Safe(s, e)
  {
    if e.GetCount? {
      var a := s.acts[e.t];
      if Slot(s, a.id) == Some(a.obj) {
        assert Placed(s, a.obj);
        PlacedIsInstalled(s, a.obj);
      } else {
        var v :| v in s.acts && Retires(s.acts[v], a.id, a.obj);
        HeldIsUnfixed(s, v, a.obj);
      }
    }
  }

  lemma SlotStays(s: State, e: Event, id: nat, o: nat)
    requires Enabled(s, e) && Slot(s, id) == Some(o)
    ensures Covered(Do(s, e), id, o)
  {
    var s' := Do(s, e);
    if Slot(s', id) != Some(o) {
      assert Retires(s'.acts[e.t], id, o);
    }
  }

  lemma ReleaseStays(s: State, e: Event, id: nat, o: nat, v: nat)
    requires Enabled(s, e) && Graced(s, e) && InWindow(s, o) && v in s.acts && Retires(s.acts[v], id, o)
    ensures v in Do(s, e).acts && Retires(Do(s, e).acts[v], id, o)
  {
  }

  /** An open window stays covered: a swap leaves a release to come, which waits for the window. */
  lemma CoverStays(s: State, e: Event, t: nat)
    requires Enabled(s, e) && Graced(s, e) && t in s.acts && s.acts[t].Window?
    requires Covered(s, s.acts[t].id, s.acts[t].obj)
    ensures Covered(Do(s, e), s.acts[t].id, s.acts[t].obj)
  {
    var a := s.acts[t];
    if Slot(s, a.id) == Some(a.obj) {
      SlotStays(s, e, a.id, a.obj);
    } else {
      var v :| v in s.acts && Retires(s.acts[v], a.id, a.obj);
      ReleaseStays(s, e, a.id, a.obj, v);
    }
  }

  lemma GraceKeepsCovered(s: State, e: Event)
    requires Inv(s) && AllCovered(s) && Enabled(s, e) && Graced(s, e)
    ensures AllCovered(Do(s, e))
  {
    var s' := Do(s, e);
    forall t | t in s'.acts && s'.acts[t].Window?
      ensures Covered(s', s'.acts[t].id, s'.acts[t].obj)
    {
      if e.GetRead? && e.t == t {
        assert Slot(s', e.id) == Some(s'.acts[t].obj);
      } else {
        StillReading(s, e, t);
        CoverStays(s, e, t);
      }
    }
  }

  lemma StillReading(s: State, e: Event, t: nat)
    requires Enabled(s, e) && At(Do(s, e), t).Window? && !(e.GetRead? && e.t == t)
    ensures t in s.acts && s.acts[t] == At(Do(s, e), t)
  {
  }

  lemma {:induction false} GracedAsserts(s: State, es: seq<Event>)
    requires Inv(s) && AllCovered(s) && ValidRun(s, es) && AllGraced(s, es)
    ensures AlwaysAsserts(s, es)
    decreases |es|
  {
    if es != [] {
      CoveredIsSafe(s, es[0]);
      AssertionsHoldIffSafe(s, es[0]);
      StepKeepsInv(s, es[0]);
      GraceKeepsCovered(s, es[0]);
      GracedAsserts(Do(s, es[0]), es[1..]);
    }
  }

  /** So a delay that outlasts every `get` under way makes every run timely. */
  lemma GraceSuffices(es: seq<Event>)
    requires ValidRun(START, es) && AllGraced(START, es)
    ensures Timely(START, es, {}) && AlwaysAsserts(START, es)
  {
    GracedAsserts(START, es);
    AssertionsHoldIffTimely(START, es, {});
  }

  // ----- without the grace period

  /** A release that comes while a `get` has its object in hand makes the next step of that `get` fail
      exactly when it gives up the last reference; the object is then deleted under the reader. */
  lemma GraceIsNeeded(s: State, t: nat, r: nat, id: nat, i: nat, o: nat)
    requires Inv(s) && At(s, t) == Releaser(id, o) && At(s, r) == Window(i, o)
    ensures var s' := Do(s, Release(t));
            && (AssertionsHold(s', GetCount(r)) <==> Count(s, o) > 1)
            && (Count(s, o) == 1 ==> o in Do(s', Delete(t)).dead && At(Do(s', Delete(t)), r) == Window(i, o))
  {
  }

  ghost predicate Reached(s: State) {
    exists es :: ValidRun(START, es) && Exec(START, es) == s
  }

  lemma {:induction false} SnocRun(s: State, es: seq<Event>, e: Event)
    requires ValidRun(s, es) && Enabled(Exec(s, es), e)
    ensures ValidRun(s, es + [e]) && Exec(s, es + [e]) == Do(Exec(s, es), e)
    decreases |es|
  {
    if es != [] {
      assert (es + [e])[1..] == es[1..] + [e];
      SnocRun(Do(s, es[0]), es[1..], e);
    } else {
      assert es + [e] == [e];
    }
  }

  lemma Play(s: State, e: Event, s': State)
    requires Reached(s) && Enabled(s, e) && Do(s, e) == s'
    ensures Reached(s')
  {
    var es :| ValidRun(START, es) && Exec(START, es) == s;
    SnocRun(START, es, e);
  }

  /** The reader of object 7 is overtaken by its replacement. */
  ghost predicate Overtaken(s: State) {
    At(s, 0) == Releaser(1, 7) && At(s, 1) == Window(1, 7) && Count(s, 7) == 1
  }

  /** Such a state is reached by setting an object, reading it, and setting another one. */
  lemma ReaderRacesRelease()
    ensures exists s :: Reached(s) && Overtaken(s)
  {
    assert ValidRun(START, []) && Exec(START, []) == START;
    var s1 := State(map[], 0, map[7 := 1], {}, map[0 := Installing(1, 7)]);
    var s2 := State(map[], 0, map[7 := 1], {}, map[0 := Swapping(1, 7, None)]);
    var s3 := State(map[1 := 7], 0, map[7 := 1], {}, map[0 := Idle]);
    Play(START, SetBegin(0, 1, 7), s1);
    Play(s1, SetLook(0), s2);
    Play(s2, SetSwap(0), s3);
    var s4 := s3.(acts := map[0 := Idle, 1 := Window(1, 7)]);
    Play(s3, GetRead(1, 1), s4);
    ReplacementBegins(s4);
  }

  lemma ReplacementBegins(s: State)
    requires Reached(s) && s == State(map[1 := 7], 0, map[7 := 1], {}, map[0 := Idle, 1 := Window(1, 7)])
    ensures exists s' :: Reached(s') && Overtaken(s')
  {
    var s1 := Do(s, SetBegin(0, 1, 8));
    Play(s, SetBegin(0, 1, 8), s1);
    assert At(s1, 0) == Installing(1, 8) && At(s1, 1) == Window(1, 7);
    var s2 := Do(s1, SetLook(0));
    Play(s1, SetLook(0), s2);
    ReplacementSwaps(s2);
  }

  lemma ReplacementSwaps(s: State)
    requires Reached(s) && At(s, 0) == Swapping(1, 8, Some(7)) && Slot(s, 1) == Some(7)
    requires At(s, 1) == Window(1, 7) && Count(s, 7) == 1
    ensures exists s' :: Reached(s') && Overtaken(s')
  {
    var s1 := Do(s, SetSwap(0));
    Play(s, SetSwap(0), s1);
    assert At(s1, 0) == Retiring(1, 7);
    var s2 := Do(s1, Schedule(0));
    Play(s1, Schedule(0), s2);
    assert Overtaken(s2);
  }

  /** If the release comes now, the assertion of the reader's next step fails. */
  lemma EarlyReleaseFails()
    ensures exists s :: Reached(s) && Enabled(s, GetCount(1)) && !AssertionsHold(s, GetCount(1))
  {
    ReaderRacesRelease();
    var s :| Reached(s) && Overtaken(s);
    Play(s, Release(0), Do(s, Release(0)));
  }
}
