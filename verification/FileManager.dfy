/** Snapshots of every managed file, and their restoration with a compensating abort.

    Files are visited in a fixed order, `names[i]` being the base name of file i. */
module Snapshots {
  import opened RollbackStore

  datatype SnapResult = SnapOk | SnapNotFound | SnapDirCreateFailed | SnapFileCreateFailed
                      | SnapFileAccessFailed | SnapWriteFailed | SnapRemoveFailed
                      | SnapNoNameGiven | SnapIllegalName
                      | Fatal  // the manager process gives up

  type Snapshot = map<string, Bytes>

  // ----- restoring

  /** What goes wrong for one file: reading the snapshot, rolling it in, and, in an abort, reading
      back the previous version and rolling that. */
  datatype RestoreFaults = RestoreFaults(readFails: bool, roll: Faults, revertRead: ReadFault, revert: Faults)

  ghost predicate Matching(stores: seq<Store>, names: seq<string>, faults: seq<RestoreFaults>) {
    |stores| == |names| == |faults|
  }

  predicate Readable(name: string, snap: Snapshot, f: RestoreFaults) {
    name in snap && !f.readFails
  }

  function Roll(s: Store, name: string, snap: Snapshot, f: RestoreFaults): (Store, Code) {
    if Readable(name, snap, f) then InternalUpdate(s, snap[name], -1, true, true, f.roll) else (s, FileNotFound)
  }

  function Undo(s: Store, f: RestoreFaults): (Store, Code) {
    Revert(s, s.current - 1, f.revertRead, f.revert)
  }

  /** The first file at or after `i` that cannot be read or rolled; their number if there is none. */
  function FirstFailure(stores: seq<Store>, names: seq<string>, snap: Snapshot, faults: seq<RestoreFaults>,
                        i: nat): (k: nat)
    requires Matching(stores, names, faults) && i <= |stores|
    ensures i <= k <= |stores|
    ensures forall j :: i <= j < k ==> Roll(stores[j], names[j], snap, faults[j]).1 == Ok
    ensures k < |stores| ==> Roll(stores[k], names[k], snap, faults[k]).1 != Ok
    decreases |stores| - i
  {
    if i == |stores| || Roll(stores[i], names[i], snap, faults[i]).1 != Ok then i
    else FirstFailure(stores, names, snap, faults, i + 1)
  }

  /** The state of every file once the first n have been tried. */
  function RolledUpTo(stores: seq<Store>, names: seq<string>, snap: Snapshot, faults: seq<RestoreFaults>,
                      n: nat): (r: seq<Store>)
    requires Matching(stores, names, faults)
  {
    seq(|stores|, j requires 0 <= j < |stores| =>
      if j < n then Roll(stores[j], names[j], snap, faults[j]).0 else stores[j])
  }

  /** The first rolled file whose previous version cannot be read back; k if there is none. */
  function FirstFatal(stores: seq<Store>, faults: seq<RestoreFaults>, i: nat, k: nat): (m: nat)
    requires i <= k <= |stores| == |faults|
    ensures i <= m <= k
    ensures forall j :: i <= j < m ==> Undo(stores[j], faults[j]).1 == Ok
    ensures m < k ==> Undo(stores[m], faults[m]).1 != Ok
    decreases k - i
  {
    if i == k || Undo(stores[i], faults[i]).1 != Ok then i else FirstFatal(stores, faults, i + 1, k)
  }

  function UndoneUpTo(stores: seq<Store>, faults: seq<RestoreFaults>, m: nat): seq<Store>
    requires m <= |stores| == |faults|
  {
    seq(|stores|, j requires 0 <= j < |stores| => if j < m then Undo(stores[j], faults[j]).0 else stores[j])
  }

  /** Undoes the first k files. */
  function Abort(stores: seq<Store>, faults: seq<RestoreFaults>, k: nat): (seq<Store>, SnapResult)
    requires k <= |stores| == |faults|
  {
    var m := FirstFatal(stores, faults, 0, k);
    (UndoneUpTo(stores, faults, m), if m < k then Fatal else SnapFileAccessFailed)
  }

  function Restore(stores: seq<Store>, names: seq<string>, snap: Option<Snapshot>, faults: seq<RestoreFaults>)
    : (seq<Store>, SnapResult)
    requires Matching(stores, names, faults)
  {
    if snap.None? then (stores, SnapNotFound)
    else
      var k := FirstFailure(stores, names, snap.value, faults, 0);
      var rolled := RolledUpTo(stores, names, snap.value, faults, k + 1);
      if k == |stores| then (rolled, SnapOk) else Abort(rolled, faults, k)
  }

  ghost predicate AllIntact(stores: seq<Store>) {
    forall j :: 0 <= j < |stores| ==> Intact(stores[j])
  }

  /** The compensating reverts up to file n can read the previous version. */
  predicate RevertsReadable(faults: seq<RestoreFaults>, n: nat)
    requires n <= |faults|
  {
    forall i :: 0 <= i < n ==> faults[i].revertRead.NoFault?
  }

  predicate RevertsWork(faults: seq<RestoreFaults>) {
    forall f | f in faults :: f.revertRead.NoFault? && Quiet(f.revert)
  }

  lemma RollKeepsOld(s: Store, name: string, snap: Snapshot, f: RestoreFaults)
    requires Intact(s) && Roll(s, name, snap, f).1 == Ok
    ensures var s1 := Roll(s, name, snap, f).0;
            && Intact(s1) && s1.current == s.current + 1 && s1.dir[ACTIVE] == snap[name]
            && s.current in s1.dir && s1.dir[s.current] == s.dir[ACTIVE]
  {
    UpdateCode(s, snap[name], -1, true, true, f.roll);
    UpdateSuccess(s, snap[name], -1, true, true, f.roll);
  }

  lemma UndoReverts(s: Store, f: RestoreFaults)
    requires Intact(s) && s.current - 1 in s.dir && s.current - 1 != ACTIVE
    ensures var (s', code) := Undo(s, f);
            && (code == Ok <==> f.revertRead.NoFault?) && ACTIVE in s'.dir
            && s'.dir[ACTIVE] == s.dir[if code == Ok && Quiet(f.revert) then s.current - 1 else ACTIVE]
            && (code == Ok && Quiet(f.revert) ==> Intact(s') && s'.current == s.current + 1)
  {
    if f.revertRead.NoFault? {
      var bytes := s.dir[s.current - 1];
      if Quiet(f.revert) {
        UpdateSuccess(s, bytes, -1, true, true, f.revert);
      } else {
        UpdateFailure(s, bytes, -1, true, true, f.revert);
      }
    }
  }

  /** A file that has been rolled keeps its previous version as backup current - 1; undoing puts it back exactly
      when that can be read and the undoing update works, or the snapshot held the same bytes anyway. */
  lemma RollThenUndo(s: Store, name: string, snap: Snapshot, f: RestoreFaults)
    requires Intact(s) && Roll(s, name, snap, f).1 == Ok
    ensures var s1 := Roll(s, name, snap, f).0;
            && Intact(s1) && s1.current == s.current + 1 && s1.dir[ACTIVE] == snap[name]
            && s.current in s1.dir && s1.dir[s.current] == s.dir[ACTIVE]
            && var (s2, code) := Undo(s1, f);
               && (code == Ok <==> f.revertRead.NoFault?) && ACTIVE in s2.dir
               && (s2.dir[ACTIVE] == s.dir[ACTIVE] <==>
                     (code == Ok && Quiet(f.revert)) || snap[name] == s.dir[ACTIVE])
               && (code == Ok && Quiet(f.revert) ==> Intact(s2) && s2.current == s.current + 2)
  {
    RollKeepsOld(s, name, snap, f);
    UndoReverts(Roll(s, name, snap, f).0, f);
  }

  /** The abort of a rolled file needs the backup its roll made, so it goes through (otherwise the process gives
      up) if and only if that backup can be read and the file had an active copy before the restore. */
  lemma UndoNeedsActive(s: Store, name: string, snap: Snapshot, f: RestoreFaults)
    requires BackupsOk(s) && Roll(s, name, snap, f).1 == Ok
    ensures Undo(Roll(s, name, snap, f).0, f).1 == Ok <==> ACTIVE in s.dir && f.revertRead.NoFault?
  {
  }

  /** A file that has failed to roll keeps its active bytes. */
  lemma FailedRollKeepsActive(s: Store, name: string, snap: Snapshot, f: RestoreFaults)
    requires Intact(s) && Roll(s, name, snap, f).1 != Ok
    ensures var s1 := Roll(s, name, snap, f).0;
            && ACTIVE in s1.dir && s1.dir[ACTIVE] == s.dir[ACTIVE]
            && s1.current == s.current && s1.backups == s.backups
  {
  }

  lemma RolledUndoes(stores: seq<Store>, names: seq<string>, snap: Snapshot, faults: seq<RestoreFaults>,
                     rolled: seq<Store>, k: nat, i: nat)
    requires Matching(stores, names, faults) && AllIntact(stores) && i < k <= |stores|
    requires rolled == RolledUpTo(stores, names, snap, faults, k + 1)
    requires Roll(stores[i], names[i], snap, faults[i]).1 == Ok
    ensures Undo(rolled[i], faults[i]).1 == Ok <==> faults[i].revertRead.NoFault?
  {
    RollThenUndo(stores[i], names[i], snap, faults[i]);
  }

  /** The abort stops at the first rolled file whose backup cannot be read. */
  lemma AbortStops(rolled: seq<Store>, faults: seq<RestoreFaults>, k: nat, j: nat)
    requires k <= |rolled| == |faults|
    requires forall i :: 0 <= i < k ==> (Undo(rolled[i], faults[i]).1 == Ok <==> faults[i].revertRead.NoFault?)
    ensures var m := FirstFatal(rolled, faults, 0, k);
            && RevertsReadable(faults, m) && (RevertsReadable(faults, k) <==> m == k)
            && (j < k ==> (RevertsReadable(faults, j + 1) <==> j < m))
  {
    var m := FirstFatal(rolled, faults, 0, k);
    assert m < k ==> !faults[m].revertRead.NoFault?;
  }

  /** What is left of file j when file k has failed and the abort has stopped at m. */
  lemma AfterAbort(stores: seq<Store>, names: seq<string>, snap: Snapshot, faults: seq<RestoreFaults>,
                   k: nat, m: nat, j: nat)
    requires Matching(stores, names, faults) && j < |stores| && m <= k < |stores| && Intact(stores[j])
    requires j < k ==> Roll(stores[j], names[j], snap, faults[j]).1 == Ok
    requires j < m ==> faults[j].revertRead.NoFault?
    requires Roll(stores[k], names[k], snap, faults[k]).1 != Ok
    ensures var s := UndoneUpTo(RolledUpTo(stores, names, snap, faults, k + 1), faults, m)[j];
            && ACTIVE in s.dir
            && (s.dir[ACTIVE] == stores[j].dir[ACTIVE] <==>
                  j >= k || (j < m && Quiet(faults[j].revert)) || snap[names[j]] == stores[j].dir[ACTIVE])
  {
    if j < k {
      RollThenUndo(stores[j], names[j], snap, faults[j]);
    } else if j == k {
      FailedRollKeepsActive(stores[j], names[j], snap, faults[j]);
    }
  }

  lemma AbortedAt(stores: seq<Store>, names: seq<string>, snap: Snapshot, faults: seq<RestoreFaults>, k: nat, j: nat)
    requires Matching(stores, names, faults) && AllIntact(stores) && j < |stores| && k < |stores|
    requires forall i :: 0 <= i < k ==> Roll(stores[i], names[i], snap, faults[i]).1 == Ok
    requires Roll(stores[k], names[k], snap, faults[k]).1 != Ok
    ensures var (after, result) := Abort(RolledUpTo(stores, names, snap, faults, k + 1), faults, k);
            && result == (if RevertsReadable(faults, k) then SnapFileAccessFailed else Fatal)
            && |after| == |stores| && ACTIVE in after[j].dir
            && (after[j].dir[ACTIVE] == stores[j].dir[ACTIVE] <==>
                  || j >= k
                  || (RevertsReadable(faults, j + 1) && Quiet(faults[j].revert))
                  || snap[names[j]] == stores[j].dir[ACTIVE])
  {
    var rolled := RolledUpTo(stores, names, snap, faults, k + 1);
    forall i | 0 <= i < k
      ensures Undo(rolled[i], faults[i]).1 == Ok <==> faults[i].revertRead.NoFault?
    {
      RolledUndoes(stores, names, snap, faults, rolled, k, i);
    }
    AbortStops(rolled, faults, k, j);
    AfterAbort(stores, names, snap, faults, k, FirstFatal(rolled, faults, 0, k), j);
  }

  /** Whichever file fails, a failed restore leaves a file with its old active bytes if and only if it was never
      rolled, or its revert was reached and worked, or the snapshot had the same bytes. It is fatal if and
      only if the previous version of a rolled file could not be read. */
  lemma FailedRestore(stores: seq<Store>, names: seq<string>, snap: Snapshot, faults: seq<RestoreFaults>, j: nat)
    requires Matching(stores, names, faults) && AllIntact(stores) && j < |stores|
    ensures var k := FirstFailure(stores, names, snap, faults, 0);
            var (after, result) := Restore(stores, names, Some(snap), faults);
            && (result != SnapOk <==> k < |stores|)
            && (result != SnapOk ==>
                  && result == (if RevertsReadable(faults, k) then SnapFileAccessFailed else Fatal)
                  && |after| == |stores| && ACTIVE in after[j].dir
                  && (after[j].dir[ACTIVE] == stores[j].dir[ACTIVE] <==>
                        || j >= k
                        || (RevertsReadable(faults, j + 1) && Quiet(faults[j].revert))
                        || snap[names[j]] == stores[j].dir[ACTIVE]))
  {
    var k := FirstFailure(stores, names, snap, faults, 0);
    if k < |stores| {
      AbortedAt(stores, names, snap, faults, k, j);
    }
  }

  /** A file whose current version is 0 cannot be rolled: the restore fails there at the latest, and if the files
      before it can be rolled its active copy is removed, unless that unlink fails. */
  lemma VersionZeroFailsRestore(stores: seq<Store>, names: seq<string>, snap: Snapshot, faults: seq<RestoreFaults>,
                                j: nat)
    requires Matching(stores, names, faults) && j < |stores|
    requires stores[j].current == ACTIVE && ACTIVE in stores[j].dir && Readable(names[j], snap, faults[j])
    ensures var (after, result) := Restore(stores, names, Some(snap), faults);
            && result != SnapOk && |after| == |stores|
            && (FirstFailure(stores, names, snap, faults, 0) == j ==>
                  (ACTIVE in after[j].dir <==> faults[j].roll.cleanCurrentFails))
  {
    UpdateRemovesActive(stores[j], snap[names[j]], -1, true, true, faults[j].roll);
    assert Roll(stores[j], names[j], snap, faults[j]).1 != Ok;
  }

  /** All or nothing, for any file j: when the compensating reverts work, a failed restore does not change
      its active bytes, and a successful one makes them the snapshot's. */
  lemma RestoreIsAtomic(stores: seq<Store>, names: seq<string>, snap: Option<Snapshot>, faults: seq<RestoreFaults>,
                        j: nat)
    requires Matching(stores, names, faults) && AllIntact(stores) && RevertsWork(faults) && j < |stores|
    ensures var (after, result) := Restore(stores, names, snap, faults);
            && |after| == |stores| && ACTIVE in after[j].dir
            && (result == SnapOk || result == SnapNotFound || result == SnapFileAccessFailed)
            && (result != SnapOk ==> after[j].dir[ACTIVE] == stores[j].dir[ACTIVE])
            && (result == SnapOk ==> names[j] in snap.value && after[j].dir[ACTIVE] == snap.value[names[j]])
  {
    if snap.Some? {
      assert forall i :: 0 <= i < |faults| ==> faults[i] in faults;
      FailedRestore(stores, names, snap.value, faults, j);
      if FirstFailure(stores, names, snap.value, faults, 0) == |stores| {
        SuccessfulRestore(stores, names, snap.value, faults, j);
      }
    }
  }

  /** Weaker than Wf and kept by every operation, failed clean-ups and removals of the active copy included. */
  ghost predicate Sane(s: Store) {
    s.current > ACTIVE && ACTIVE !in s.backups
  }

  /** A successful restore leaves the snapshot's bytes active. */
  lemma SuccessfulRestore(stores: seq<Store>, names: seq<string>, snap: Snapshot, faults: seq<RestoreFaults>, j: nat)
    requires Matching(stores, names, faults) && j < |stores| && Sane(stores[j])
    requires Restore(stores, names, Some(snap), faults).1 == SnapOk
    ensures var s := Restore(stores, names, Some(snap), faults).0[j];
            names[j] in snap && ACTIVE in s.dir && s.dir[ACTIVE] == snap[names[j]]
  {
  }

  // ----- taking and removing

  /** `written` is what write() reports: None for an error, otherwise how many bytes reached the file. */
  datatype CopyFaults = CopyFaults(read: ReadFault, createFails: bool, written: Option<nat>)

  /** `snaps` maps the name of each snapshot directory to its files. */
  datatype TakeFaults = TakeFaults(mkdirFails: bool, copies: seq<CopyFaults>, unlinkFails: set<string>,
                                   rmdirFails: bool)

  function Prefix(b: Bytes, n: nat): Bytes {
    if n < |b| then b[..n] else b
  }

  /** Only a negative result of write() is noticed. */
  function CopyFile(s: Store, c: CopyFaults): (SnapResult, Bytes) {
    var (code, bytes) := GetVersion(s, s.current, c.read);
    if code != Ok then (SnapFileAccessFailed, [])
    else if c.createFails then (SnapFileCreateFailed, [])
    else if c.written.None? then (SnapWriteFailed, [])
    else (SnapOk, Prefix(bytes, c.written.value))
  }

  predicate Printable(c: char) {
    ' ' <= c <= '~'
  }

  /** Blanks, then a printable character that is not blank. */
  ghost predicate ValidName(name: string) {
    exists i :: 0 <= i < |name| && Printable(name[i]) && name[i] != ' ' && forall j :: 0 <= j < i ==> name[j] == ' '
  }

  method CheckValidName(name: string) returns (ok: bool)
    ensures ok <==> ValidName(name)
  {
    for i := 0 to |name|
      invariant forall j :: 0 <= j < i ==> name[j] == ' '
    {
      if !Printable(name[i]) {
        assert forall k :: 0 <= k < |name| && Printable(name[k]) && name[k] != ' ' ==> k > i && name[i] != ' ';
        return false;
      }
      if name[i] != ' ' {
        return true;
      }
    }
    return false;
  }

  ghost function NameCheck(name: string): SnapResult {
    if name == "" then SnapNoNameGiven
    else if '/' in name || !ValidName(name) then SnapIllegalName
    else SnapOk
  }

  method CheckName(name: string) returns (result: SnapResult)
    ensures result == NameCheck(name)
  {
    if name == "" {
      return SnapNoNameGiven;
    }
    if '/' in name {
      return SnapIllegalName;
    }
    var ok := CheckValidName(name);
    return if ok then SnapOk else SnapIllegalName;
  }

  function FirstUncopied(stores: seq<Store>, copies: seq<CopyFaults>, i: nat): (k: nat)
    requires i <= |stores| == |copies|
    ensures i <= k <= |stores|
    ensures forall j :: i <= j < k ==> CopyFile(stores[j], copies[j]).0 == SnapOk
    ensures k < |stores| ==> CopyFile(stores[k], copies[k]).0 != SnapOk
    decreases |stores| - i
  {
    if i == |stores| || CopyFile(stores[i], copies[i]).0 != SnapOk then i else FirstUncopied(stores, copies, i + 1)
  }

  function CopiesUpTo(stores: seq<Store>, names: seq<string>, copies: seq<CopyFaults>, k: nat): Snapshot
    requires k <= |stores| == |names| == |copies|
  {
    if k == 0 then map[]
    else CopiesUpTo(stores, names, copies, k - 1)[names[k - 1] := CopyFile(stores[k - 1], copies[k - 1]).1]
  }

  /** Unlinks every file of the snapshot, then its directory if nothing is left. */
  function RemoveSnap(snaps: map<string, Snapshot>, name: string, unlinkFails: set<string>, rmdirFails: bool)
    : (map<string, Snapshot>, SnapResult)
  {
    if name !in snaps then (snaps, SnapNotFound)
    else
      var left := map f | f in snaps[name] && f in unlinkFails :: snaps[name][f];
      if left != map[] || rmdirFails then (snaps[name := left], SnapRemoveFailed) else (snaps - {name}, SnapOk)
  }

  /** Copies into a new snapshot, which a failed copy takes away again. */
  function FillSnap(snaps: map<string, Snapshot>, stores: seq<Store>, names: seq<string>, name: string, t: TakeFaults)
    : (map<string, Snapshot>, SnapResult)
    requires |stores| == |names| == |t.copies|
  {
    var k := FirstUncopied(stores, t.copies, 0);
    var filled := snaps[name := CopiesUpTo(stores, names, t.copies, k)];
    if k == |stores| then (filled, SnapOk)
    else (RemoveSnap(filled, name, t.unlinkFails, t.rmdirFails).0, CopyFile(stores[k], t.copies[k]).0)
  }

  ghost function TakeSnap(snaps: map<string, Snapshot>, stores: seq<Store>, names: seq<string>, name: string,
                          t: TakeFaults)
    : (map<string, Snapshot>, SnapResult)
    requires |stores| == |names| == |t.copies|
  {
    if NameCheck(name) != SnapOk then (snaps, NameCheck(name))
    else if name in snaps || t.mkdirFails then (snaps, SnapDirCreateFailed)
    else FillSnap(snaps, stores, names, name, t)
  }

  ghost predicate Distinct(names: seq<string>) {
    forall i, j :: 0 <= i < j < |names| ==> names[i] != names[j]
  }

  lemma {:induction false} CopiesHold(stores: seq<Store>, names: seq<string>, copies: seq<CopyFaults>, k: nat, j: nat)
    requires j < k <= |stores| == |names| == |copies| && Distinct(names)
    ensures var snap := CopiesUpTo(stores, names, copies, k);
            names[j] in snap && snap[names[j]] == CopyFile(stores[j], copies[j]).1
  {
    if j < k - 1 {
      CopiesHold(stores, names, copies, k - 1, j);
    }
  }

  // ----- the manager, and its runs

  datatype Manager = Manager(stores: seq<Store>, names: seq<string>, snaps: map<string, Snapshot>)

  datatype Action =
    | OnFile(i: nat, op: Op)
    | Take(name: string, t: TakeFaults)
    | Discard(name: string, unlinkFails: set<string>, rmdirFails: bool)
    | RestoreFrom(name: string, faults: seq<RestoreFaults>)

  function Find(snaps: map<string, Snapshot>, name: string): Option<Snapshot> {
    if name in snaps then Some(snaps[name]) else None
  }

  ghost predicate Fits(m: Manager, a: Action) {
    && |m.stores| == |m.names|
    && match a
       case OnFile(i, _) => i < |m.stores|
       case Take(_, t) => |t.copies| == |m.stores|
       case Discard(_, _, _) => true
       case RestoreFrom(_, faults) => |faults| == |m.stores|
  }

  ghost function Act(m: Manager, a: Action): (r: Manager)
    requires Fits(m, a)
    ensures r.names == m.names && |r.stores| == |m.stores|
  {
    match a
    case OnFile(i, op) => m.(stores := m.stores[i := Apply(m.stores[i], op)])
    case Take(name, t) => m.(snaps := TakeSnap(m.snaps, m.stores, m.names, name, t).0)
    case Discard(name, unlinkFails, rmdirFails) => m.(snaps := RemoveSnap(m.snaps, name, unlinkFails, rmdirFails).0)
    case RestoreFrom(name, faults) => m.(stores := Restore(m.stores, m.names, Find(m.snaps, name), faults).0)
  }

  ghost predicate Runnable(m: Manager, actions: seq<Action>)
    decreases |actions|
  {
    |m.stores| == |m.names| &&
    (actions == [] || (Fits(m, actions[0]) && Runnable(Act(m, actions[0]), actions[1..])))
  }

  ghost function RunAll(m: Manager, actions: seq<Action>): (r: Manager)
    requires Runnable(m, actions)
    ensures r.names == m.names && |r.stores| == |m.stores|
    decreases |actions|
  {
    if actions == [] then m else RunAll(Act(m, actions[0]), actions[1..])
  }

  ghost predicate AllSane(stores: seq<Store>) {
    forall j :: 0 <= j < |stores| ==> Sane(stores[j])
  }

  lemma {:induction false} RemoveFirstShrinks(q: seq<int>, v: int)
    ensures forall x :: x in RemoveFirst(q, v) ==> x in q
  {
    if q != [] && q[0] != v {
      RemoveFirstShrinks(q[1..], v);
    }
  }

  lemma UpdateKeepsSane(s: Store, buf: Bytes, newVersion: int, notify: bool, inc: bool, f: Faults)
    requires Sane(s)
    ensures Sane(InternalUpdate(s, buf, newVersion, notify, inc, f).0)
  {
  }

  lemma ApplyKeepsSane(s: Store, op: Op)
    requires Sane(s)
    ensures Sane(Apply(s, op))
  {
    match op
    case Update(buf, _, newVersion, notify, inc, f) => UpdateKeepsSane(s, buf, newVersion, notify, inc, f);
    case Force(buf, newVersion, f) => UpdateKeepsSane(s, buf, newVersion, true, true, f);
    case RevertTo(version, rf, f) => UpdateKeepsSane(s, GetVersion(s, version, rf).1, -1, true, true, f);
    case Remove(version, _, _) => RemoveFirstShrinks(s.backups, version);
    case CheckUser(_, _, rf, f) => UpdateKeepsSane(s, GetVersion(s, s.current, rf).1, -1, true, true, f);
    case UserEdit(_) =>
  }

  lemma RollKeepsSane(s: Store, name: string, snap: Snapshot, f: RestoreFaults)
    requires Sane(s)
    ensures Sane(Roll(s, name, snap, f).0)
  {
  }

  lemma UndoKeepsSane(s: Store, f: RestoreFaults)
    requires Sane(s)
    ensures Sane(Undo(s, f).0)
  {
  }

  lemma RestoreKeepsSane(m: Manager, name: string, faults: seq<RestoreFaults>, j: nat)
    requires |m.stores| == |m.names| == |faults| && AllSane(m.stores) && j < |m.stores|
    ensures Sane(Restore(m.stores, m.names, Find(m.snaps, name), faults).0[j])
  {
    if name in m.snaps {
      RollKeepsSane(m.stores[j], m.names[j], m.snaps[name], faults[j]);
      UndoKeepsSane(m.stores[j], faults[j]);
      UndoKeepsSane(Roll(m.stores[j], m.names[j], m.snaps[name], faults[j]).0, faults[j]);
    }
  }

  /** Nothing but its removal touches a snapshot: taking it again is refused. */
  lemma {:induction false} SnapshotSurvives(m: Manager, actions: seq<Action>, name: string)
    requires Runnable(m, actions) && AllSane(m.stores) && name in m.snaps
    requires forall a :: a in actions ==> !(a.Discard? && a.name == name)
    ensures var m' := RunAll(m, actions);
            && AllSane(m'.stores) && m'.names == m.names && |m'.stores| == |m.stores|
            && name in m'.snaps && m'.snaps[name] == m.snaps[name]
    decreases |actions|
  {
    if actions != [] {
      var a := actions[0];
      assert a in actions;
      var m1 := Act(m, a);
      forall j | 0 <= j < |m1.stores|
        ensures Sane(m1.stores[j])
      {
        match a
        case OnFile(i, op) => ApplyKeepsSane(m.stores[i], op);
        case RestoreFrom(from, faults) => RestoreKeepsSane(m, from, faults, j);
        case _ =>
      }
      SnapshotSurvives(m1, actions[1..], name);
    }
  }

  /** A file has the bytes that were written of its copy; they are those it had if and only if all of them were. */
  predicate RoundTrips(before: Store, c: CopyFaults, after: Store) {
    && ACTIVE in before.dir && ACTIVE in after.dir && c.written.Some?
    && after.dir[ACTIVE] == Prefix(before.dir[ACTIVE], c.written.value)
    && (after.dir[ACTIVE] == before.dir[ACTIVE] <==> c.written.value >= |before.dir[ACTIVE]|)
  }

  /** Round trip. After a successful takeSnap and any run that does not discard the snapshot, a
      successful restoreSnap gives each file its bytes of snapshot time if and only if the write of its
      copy was complete; after a short write, which takeSnap does not notice, it gives their prefix. */
  lemma SnapshotRoundTrip(m: Manager, name: string, t: TakeFaults, actions: seq<Action>, faults: seq<RestoreFaults>,
                          j: nat)
    requires |m.stores| == |m.names| == |t.copies| == |faults| && Distinct(m.names) && AllSane(m.stores) &&
             j < |m.stores|
    requires forall a :: a in actions ==> !(a.Discard? && a.name == name)
    ensures var m0 := Act(m, Take(name, t));
            TakeSnap(m.snaps, m.stores, m.names, name, t).1 == SnapOk && Runnable(m0, actions) ==>
              var m1 := RunAll(m0, actions);
              var (after, result) := Restore(m1.stores, m1.names, Find(m1.snaps, name), faults);
              result == SnapOk ==> |after| == |m.stores| && RoundTrips(m.stores[j], t.copies[j], after[j])
  {
    var m0 := Act(m, Take(name, t));
    if TakeSnap(m.snaps, m.stores, m.names, name, t).1 == SnapOk && Runnable(m0, actions) {
      CopiesHold(m.stores, m.names, t.copies, |m.stores|, j);
      assert CopyFile(m.stores[j], t.copies[j]).0 == SnapOk;
      SnapshotSurvives(m0, actions, name);
      var m1 := RunAll(m0, actions);
      if Restore(m1.stores, m1.names, Find(m1.snaps, name), faults).1 == SnapOk {
        SuccessfulRestore(m1.stores, m1.names, m1.snaps[name], faults, j);
      }
    }
  }
}

/** The manager object: its loops over the managed files. */
module SnapshotManager {
  import opened RollbackStore
  import opened VersionedFile
  import opened Snapshots

  class FileManager {
    const rbs: seq<Rollback>
    var snaps: map<string, Snapshot>

    ghost predicate Valid()
    {
      forall i, j :: 0 <= i < j < |rbs| ==> rbs[i] != rbs[j]
    }

    function States(): (r: seq<Store>)
      reads rbs
      ensures |r| == |rbs| && forall i :: 0 <= i < |rbs| ==> r[i] == rbs[i].State()
    {
      seq(|rbs|, i requires 0 <= i < |rbs| reads rbs => rbs[i].State())
    }

    function Names(): seq<string> {
      seq(|rbs|, i requires 0 <= i < |rbs| => rbs[i].name)
    }

    constructor (rbs: seq<Rollback>)
      requires forall i, j :: 0 <= i < j < |rbs| ==> rbs[i] != rbs[j]
      ensures Valid() && this.rbs == rbs && snaps == map[]
    {
      this.rbs := rbs;
      snaps := map[];
    }

    method RestoreSnap(name: string, faults: seq<RestoreFaults>) returns (result: SnapResult)
      requires Valid() && |faults| == |rbs|
      modifies rbs
      ensures (States(), result) == Restore(old(States()), Names(), Find(snaps, name), faults)
    {
      ghost var before := States();
      if name !in snaps {
        return SnapNotFound;
      }
      var k := RollAll(snaps[name], faults);
      RestoreParts(before, Names(), snaps[name], faults, k);
      if k == |rbs| {
        return SnapOk;
      }
      result := AbortRestore(k, faults);
    }

    lemma RestoreParts(stores: seq<Store>, names: seq<string>, snap: Snapshot, faults: seq<RestoreFaults>, k: nat)
      requires Matching(stores, names, faults) && k == FirstFailure(stores, names, snap, faults, 0)
      ensures var rolled := RolledUpTo(stores, names, snap, faults, k + 1);
              Restore(stores, names, Some(snap), faults)
              == if k == |stores| then (rolled, SnapOk) else Abort(rolled, faults, k)
    {
    }

    /** Rolls file after file, up to the first that cannot be read or rolled. */
    method RollAll(snap: Snapshot, faults: seq<RestoreFaults>) returns (k: nat)
      requires Valid() && |faults| == |rbs|
      modifies rbs
      ensures k == FirstFailure(old(States()), Names(), snap, faults, 0)
      ensures States() == RolledUpTo(old(States()), Names(), snap, faults, k + 1)
    {
      ghost var before := States();
      k := 0;
      while k < |rbs|
        invariant k <= |rbs|
        invariant FirstFailure(before, Names(), snap, faults, 0) == FirstFailure(before, Names(), snap, faults, k)
        invariant States() == RolledUpTo(before, Names(), snap, faults, k)
      {
        var code := RollNext(k, snap, faults, before);
        if code != Ok {
          return;
        }
        k := k + 1;
      }
      RolledAll(before, Names(), snap, faults);
    }

    lemma RolledAll(stores: seq<Store>, names: seq<string>, snap: Snapshot, faults: seq<RestoreFaults>)
      requires Matching(stores, names, faults)
      ensures RolledUpTo(stores, names, snap, faults, |stores|) == RolledUpTo(stores, names, snap, faults, |stores| + 1)
    {
    }

    method RollNext(k: nat, snap: Snapshot, faults: seq<RestoreFaults>, ghost before: seq<Store>) returns (code: Code)
      requires Valid() && |faults| == |rbs| == |before| && k < |rbs|
      requires States() == RolledUpTo(before, Names(), snap, faults, k)
      modifies rbs
      ensures States() == RolledUpTo(before, Names(), snap, faults, k + 1)
      ensures code == Roll(before[k], Names()[k], snap, faults[k]).1
    {
      assert States()[k] == before[k];
      code := RollFile(rbs[k], snap, faults[k]);
      ghost var after := RolledUpTo(before, Names(), snap, faults, k + 1);
      forall j | 0 <= j < |rbs|
        ensures States()[j] == after[j]
      {
        assert j != k ==> rbs[j] != rbs[k];
      }
    }

    method RollFile(rb: Rollback, snap: Snapshot, f: RestoreFaults) returns (code: Code)
      modifies rb
      ensures (rb.State(), code) == Roll(old(rb.State()), rb.name, snap, f)
    {
      if !Readable(rb.name, snap, f) {
        return FileNotFound;
      }
      code := rb.InternalUpdate(snap[rb.name], -1, true, true, f.roll);
    }

    /** Reverts every file before `abortTo` to the version it had before it was rolled. */
    method AbortRestore(abortTo: nat, faults: seq<RestoreFaults>) returns (result: SnapResult)
      requires Valid() && |faults| == |rbs| && abortTo <= |rbs|
      modifies rbs
      ensures (States(), result) == Abort(old(States()), faults, abortTo)
    {
      ghost var before := States();
      var i := 0;
      while i < abortTo
        invariant i <= abortTo
        invariant FirstFatal(before, faults, 0, abortTo) == FirstFatal(before, faults, i, abortTo)
        invariant States() == UndoneUpTo(before, faults, i)
      {
        var code := UndoNext(i, faults, before);
        if code != Ok {
          return Fatal;
        }
        i := i + 1;
      }
      return SnapFileAccessFailed;
    }

    method UndoNext(i: nat, faults: seq<RestoreFaults>, ghost before: seq<Store>) returns (code: Code)
      requires Valid() && |faults| == |rbs| == |before| && i < |rbs| && States() == UndoneUpTo(before, faults, i)
      modifies rbs
      ensures code == Undo(before[i], faults[i]).1
      ensures States() == UndoneUpTo(before, faults, if code == Ok then i + 1 else i)
    {
      assert States()[i] == before[i];
      code := UndoFile(rbs[i], faults[i]);
      ghost var after := UndoneUpTo(before, faults, if code == Ok then i + 1 else i);
      forall j | 0 <= j < |rbs|
        ensures States()[j] == after[j]
      {
        assert j != i ==> rbs[j] != rbs[i];
      }
    }

    /** A revert that fails changes nothing. */
    method UndoFile(rb: Rollback, f: RestoreFaults) returns (code: Code)
      modifies rb
      ensures (rb.State(), code) == Undo(old(rb.State()), f)
      ensures code != Ok ==> rb.State() == old(rb.State())
    {
      code := rb.RevertToVersion(rb.currentVersion - 1, f.revertRead, f.revert);
    }

    method TakeSnap(name: string, t: TakeFaults) returns (result: SnapResult)
      requires Valid() && |t.copies| == |rbs|
      modifies this`snaps
      ensures (snaps, result) == Snapshots.TakeSnap(old(snaps), States(), Names(), name, t)
    {
      result := CheckName(name);
      if result != SnapOk {
        return;
      }
      if name in snaps || t.mkdirFails {
        return SnapDirCreateFailed;
      }
      result := FillSnap(name, t);
    }

    method FillSnap(name: string, t: TakeFaults) returns (result: SnapResult)
      requires Valid() && |t.copies| == |rbs|
      modifies this`snaps
      ensures (snaps, result) == Snapshots.FillSnap(old(snaps), States(), Names(), name, t)
    {
      ghost var stores, names := States(), Names();
      var k, files;
      result, k, files := CopyAll(t.copies);
      snaps := snaps[name := files];
      ghost var filled := snaps;
      if k < |rbs| {
        var _ := RemoveSnap(name, t.unlinkFails, t.rmdirFails);
        assert snaps == Snapshots.RemoveSnap(filled, name, t.unlinkFails, t.rmdirFails).0;
      }
      assert States() == stores;
      assert filled == old(snaps)[name := CopiesUpTo(stores, names, t.copies, k)];
    }

    method RemoveSnap(name: string, unlinkFails: set<string>, rmdirFails: bool) returns (result: SnapResult)
      modifies this`snaps
      ensures (snaps, result) == Snapshots.RemoveSnap(old(snaps), name, unlinkFails, rmdirFails)
    {
      if name !in snaps {
        return SnapNotFound;
      }
      var files := snaps[name];
      var entries, left := files.Keys, files;
      while entries != {}
        invariant entries <= files.Keys
        invariant left == map f | f in files && (f in entries || f in unlinkFails) :: files[f]
        decreases entries
      {
        var f :| f in entries;
        entries := entries - {f};
        if f !in unlinkFails {
          left := left - {f};
        }
      }
      assert left == map f | f in files && f in unlinkFails :: files[f];
      if left != map[] || rmdirFails {
        snaps := snaps[name := left];
        return SnapRemoveFailed;
      }
      snaps := snaps - {name};
      return SnapOk;
    }

    /** Copies file after file, up to the first that fails. */
    method CopyAll(copies: seq<CopyFaults>) returns (result: SnapResult, k: nat, files: Snapshot)
      requires |copies| == |rbs|
      ensures k == FirstUncopied(States(), copies, 0) && files == CopiesUpTo(States(), Names(), copies, k)
      ensures result == if k == |rbs| then SnapOk else Snapshots.CopyFile(States()[k], copies[k]).0
    {
      ghost var stores, names := States(), Names();
      result, k, files := SnapOk, 0, map[];
      while k < |rbs|
        invariant k <= |rbs| && result == SnapOk && States() == stores
        invariant Copied(stores, names, copies, k, files)
      {
        var bytes;
        result, bytes := CopyFile(rbs[k], copies[k]);
        CopyStep(stores, names, copies, k, files, result, bytes);
        if result != SnapOk {
          return;
        }
        files := files[rbs[k].name := bytes];
        k := k + 1;
      }
    }

    /** The first k copies are made. */
    ghost predicate Copied(stores: seq<Store>, names: seq<string>, copies: seq<CopyFaults>, k: nat, files: Snapshot)
      requires k <= |stores| == |names| == |copies|
    {
      FirstUncopied(stores, copies, 0) == FirstUncopied(stores, copies, k) &&
      files == CopiesUpTo(stores, names, copies, k)
    }

    lemma CopyStep(stores: seq<Store>, names: seq<string>, copies: seq<CopyFaults>, k: nat, files: Snapshot,
                   result: SnapResult, bytes: Bytes)
      requires k < |stores| == |names| == |copies| && (result, bytes) == Snapshots.CopyFile(stores[k], copies[k])
      requires Copied(stores, names, copies, k, files)
      ensures result != SnapOk ==> FirstUncopied(stores, copies, 0) == k
      ensures result == SnapOk ==> Copied(stores, names, copies, k + 1, files[names[k] := bytes])
    {
    }

    method CopyFile(rb: Rollback, c: CopyFaults) returns (result: SnapResult, bytes: Bytes)
      ensures (result, bytes) == Snapshots.CopyFile(rb.State(), c)
    {
      var code, current := rb.GetVersion(rb.currentVersion, c.read);
      if code != Ok {
        return SnapFileAccessFailed, [];
      }
      if c.createFails {
        return SnapFileCreateFailed, [];
      }
      if c.written.None? {
        return SnapWriteFailed, [];
      }
      return SnapOk, Prefix(current, c.written.value);
    }
  }
}
