/** One managed configuration file: the active copy, its numbered backups, and the
    create / link / rename / unlink sequence that publishes a new version of it.

    A directory is a map from version number to bytes, version 0 being the active copy.
    Which system calls fail is an input of each operation; "file exists" and "no such file"
    are decided by the directory itself. */
module RollbackStore {

  newtype byte = x: int | 0 <= x < 256
  type Bytes = seq<byte>

  datatype Option<+T> = None | Some(value: T)

  const ACTIVE := 0
  const DEFAULT_BACKUPS := 2

  datatype Code = Ok | FileNotFound | VersionNotCurrent | SysCallError | InvalidVersion

  datatype WriteOutcome = Complete | Partial(left: Bytes)

  datatype ReadFault = NoFault | OpenFails | StatFails | ReadFails

  /** What goes wrong during one publication. `linkFails` is a failure other than a missing
      active file or an existing target. */
  datatype Faults = Faults(
    createFails: bool, write: WriteOutcome, linkFails: bool, renameFails: bool,
    pruneStatFails: bool, pruneUnlinkFails: bool, cleanCurrentFails: bool, cleanNextFails: bool)

  /** `count` is numVersions, `backups` the version queue, `limit` numberBackups and `posted`
      the increment flag of every change notification sent so far. */
  datatype Store = Store(
    dir: map<int, Bytes>, current: int, count: int, backups: seq<int>, limit: int, posted: seq<bool>)

  predicate Increasing(q: seq<int>) {
    forall i, j :: 0 <= i < j < |q| ==> q[i] < q[j]
  }

  /** The configured number of backups, at least one. */
  function BackupLimit(setting: Option<int>): (limit: int)
    ensures limit >= 1
  {
    if setting.None? then DEFAULT_BACKUPS else if setting.value > 1 then setting.value else 1
  }

  function RemoveFirst(q: seq<int>, v: int): seq<int> {
    if q == [] then [] else if q[0] == v then q[1..] else [q[0]] + RemoveFirst(q[1..], v)
  }

  function Unlink(dir: map<int, Bytes>, v: int, fails: bool): map<int, Bytes> {
    if fails then dir else dir - {v}
  }

  function Rename(dir: map<int, Bytes>, from: int, to: int): map<int, Bytes>
    requires from in dir
  {
    dir[to := dir[from]] - {from}
  }

  function RemoveVersion(s: Store, v: int, statFails: bool, unlinkFails: bool): (Store, Code) {
    if statFails || (if v == s.current then ACTIVE else v) !in s.dir then (s, FileNotFound)
    else if unlinkFails || v !in s.dir then (s, SysCallError)
    else (s.(dir := s.dir - {v}, backups := RemoveFirst(s.backups, v), count := s.count - 1), Ok)
  }

  function Cleanup(s: Store, dir: map<int, Bytes>, target: int, f: Faults): (Store, Code) {
    (s.(dir := Unlink(Unlink(dir, s.current, f.cleanCurrentFails), target, f.cleanNextFails)), SysCallError)
  }

  /** The part of an update after the rename: prune, enqueue, count, advance, notify. */
  function Publish(s: Store, dir: map<int, Bytes>, target: int, lost: bool, posts: seq<bool>, f: Faults): Store {
    var s1 := s.(dir := dir);
    var s2 := if s1.count >= s1.limit && !lost && s1.backups != []
              then RemoveVersion(s1, s1.backups[0], f.pruneStatFails, f.pruneUnlinkFails).0 else s1;
    s2.(backups := if lost then s2.backups else s2.backups + [s.current],
        count := s2.count + 1, current := target, posted := s2.posted + posts)
  }

  /** Create and write the new version, then link the active file to its own version number:
      the directory reached, whether the rename may follow, and whether there was no active file. */
  function Prepare(s: Store, target: int, buf: Bytes, f: Faults): (r: (map<int, Bytes>, bool, bool))
    ensures r.1 && target != s.current ==> target in r.0 && r.0[target] == buf
  {
    if f.createFails then (s.dir, false, false)
    else if f.write.Partial? then (s.dir[target := f.write.left], false, false)
    else
      var written := s.dir[target := buf];
      if f.linkFails then (written, false, false)
      else if ACTIVE !in written then (written, true, true)
      else if s.current in written then (written, false, false)
      else (written[s.current := written[ACTIVE]], true, false)
  }

  function Install(s: Store, buf: Bytes, target: int, posts: seq<bool>, f: Faults): (Store, Code)
    requires target > s.current
  {
    var (dir, ready, lost) := Prepare(s, target, buf, f);
    if !ready || f.renameFails then Cleanup(s, dir, target, f)
    else (Publish(s, Rename(dir, target, ACTIVE), target, lost, posts, f), Ok)
  }

  function InternalUpdate(s: Store, buf: Bytes, newVersion: int, notify: bool, inc: bool, f: Faults): (Store, Code) {
    var target := if newVersion < 0 then s.current + 1 else newVersion;
    if newVersion >= 0 && newVersion <= s.current then (s, InvalidVersion)
    else Install(s, buf, target, if notify then [newVersion >= 0 && inc] else [], f)
  }

  function UpdateVersion(s: Store, buf: Bytes, basedOn: int, newVersion: int, notify: bool, inc: bool, f: Faults)
    : (Store, Code)
  {
    if basedOn != s.current then (s, VersionNotCurrent) else InternalUpdate(s, buf, newVersion, notify, inc, f)
  }

  function GetVersion(s: Store, version: int, rf: ReadFault): (Code, Bytes) {
    var v := if version == s.current then ACTIVE else version;
    if v !in s.dir || rf.OpenFails? || rf.StatFails? then (FileNotFound, [])
    else if rf.ReadFails? then (SysCallError, [])
    else (Ok, s.dir[v])
  }

  /** The update's own code is dropped: once the old version has been read the answer is Ok. */
  function Revert(s: Store, version: int, rf: ReadFault, f: Faults): (Store, Code) {
    var (code, bytes) := GetVersion(s, version, rf);
    if code != Ok then (s, code) else (InternalUpdate(s, bytes, -1, true, true, f).0, Ok)
  }

  function CheckForUserUpdate(s: Store, statFails: bool, changed: bool, rf: ReadFault, f: Faults): (Store, bool) {
    if statFails || ACTIVE !in s.dir || !changed then (s, false)
    else
      var (code, bytes) := GetVersion(s, s.current, rf);
      (if code == Ok then UpdateVersion(s, bytes, s.current, -1, true, true, f).0 else s, true)
  }

  /** What the scan of the directory reports. */
  datatype Scan = Scan(highest: int, count: int, queue: seq<int>)

  /** Start-up. `scan` is None when the directory cannot be opened; `unset` is what the version count then
      holds. None: the process gives up, or takes the last entry off an empty queue. */
  function Open(dir: map<int, Bytes>, limit: int, scan: Option<Scan>, unset: int,
                statFails: bool, renameFails: bool, createFails: bool, rf: ReadFault, f: Faults): Option<Store>
  {
    var Scan(highest, count, q) := if scan.Some? then scan.value else Scan(-1, unset, []);
    var s := Store(dir, highest + 1, count, q, limit, []);
    if statFails then None
    else if ACTIVE !in dir then
      if highest > 0 && highest in dir && !renameFails then
        if q == [] then None
        else Some(s.(dir := dir[ACTIVE := dir[highest]] - {highest}, current := highest, backups := q[..|q| - 1]))
      else if createFails then None
      else Some(s.(dir := dir[ACTIVE := []]))
    else if highest == 0 then
      var (code, bytes) := GetVersion(s, ACTIVE, rf);
      Some(if code == Ok then InternalUpdate(s, bytes, -1, true, true, f).0 else s)
    else Some(s)
  }

  // ----- what every operation keeps

  /** Queue sorted, equal to the backups on disk, all older than the current version. */
  ghost predicate BackupsOk(s: Store) {
    && ACTIVE < s.current && 1 <= s.limit
    && Increasing(s.backups)
    && (forall v :: v in s.backups ==> ACTIVE < v < s.current)
    && (forall v :: v in s.dir && v != ACTIVE <==> v in s.backups)
  }

  ghost predicate Intact(s: Store) {
    BackupsOk(s) && ACTIVE in s.dir
  }

  ghost predicate WfBackups(s: Store) {
    BackupsOk(s) && s.count == |s.backups|
  }

  /** Backups in order and counted, and an active copy. */
  ghost predicate Wf(s: Store) {
    WfBackups(s) && ACTIVE in s.dir
  }

  /** The pruned queue: without its oldest entry when the limit is reached and the removal works. */
  function Pruned(s: Store, f: Faults): seq<int> {
    if s.count >= s.limit && s.backups != [] && !f.pruneStatFails && !f.pruneUnlinkFails
    then s.backups[1..] else s.backups
  }

  predicate Quiet(f: Faults) {
    !f.createFails && f.write.Complete? && !f.linkFails && !f.renameFails
  }

  predicate ValidTarget(s: Store, newVersion: int) {
    newVersion < 0 || newVersion > s.current
  }

  /** With an intact backup set, the only failures are those of the four calls before completion. */
  lemma UpdateCode(s: Store, buf: Bytes, newVersion: int, notify: bool, inc: bool, f: Faults)
    requires BackupsOk(s)
    ensures var code := InternalUpdate(s, buf, newVersion, notify, inc, f).1;
            && (code == InvalidVersion <==> !ValidTarget(s, newVersion))
            && (code == Ok <==> ValidTarget(s, newVersion) && Quiet(f))
            && (code == SysCallError <==> ValidTarget(s, newVersion) && !Quiet(f))
  {
  }

  lemma TailIncreasing(q: seq<int>)
    requires Increasing(q) && q != []
    ensures Increasing(q[1..]) && forall v :: v in q[1..] <==> v in q && v != q[0]
  {
  }

  lemma SnocIncreasing(q: seq<int>, c: int)
    requires Increasing(q) && forall v :: v in q ==> v < c
    ensures Increasing(q + [c])
  {
    assert forall i :: 0 <= i < |q| ==> q[i] in q;
  }

  /** The state a successful update leaves, written without the intermediate directories. */
  lemma UpdateShape(s: Store, buf: Bytes, newVersion: int, notify: bool, inc: bool, f: Faults)
    requires Intact(s) && ValidTarget(s, newVersion) && Quiet(f)
    ensures var (s', code) := InternalUpdate(s, buf, newVersion, notify, inc, f);
            var kept := if Pruned(s, f) == s.backups then s.dir else s.dir - {s.backups[0]};
            && code == Ok
            && s' == Store(kept[s.current := s.dir[ACTIVE]][ACTIVE := buf],
                           if newVersion < 0 then s.current + 1 else newVersion,
                           s.count - (|s.backups| - |Pruned(s, f)|) + 1, Pruned(s, f) + [s.current], s.limit,
                           s.posted + (if notify then [newVersion >= 0 && inc] else []))
  {
    var target := if newVersion < 0 then s.current + 1 else newVersion;
    assert s.current !in s.dir && target !in s.dir;
    var linked := s.dir[target := buf][s.current := s.dir[ACTIVE]];
    var named := s.dir[s.current := s.dir[ACTIVE]][ACTIVE := buf];
    assert linked[ACTIVE := buf] - {target} == named;
    if Pruned(s, f) != s.backups {
      var head := s.backups[0];
      assert head in s.backups;
      assert named - {head} == (s.dir - {head})[s.current := s.dir[ACTIVE]][ACTIVE := buf];
    }
  }

  lemma PublishedIsIntact(s: Store, s': Store, f: Faults)
    requires Intact(s) && s'.backups == Pruned(s, f) + [s.current] && s.current < s'.current && s'.limit == s.limit
    requires s'.dir.Keys ==
             (if Pruned(s, f) == s.backups then s.dir.Keys else s.dir.Keys - {s.backups[0]}) + {s.current}
    ensures Intact(s') && forall v :: v in Pruned(s, f) ==> v in s.backups && v != s.current
    ensures Pruned(s, f) != s.backups ==> s.backups[0] !in Pruned(s, f)
  {
    var q := Pruned(s, f);
    if q != s.backups {
      TailIncreasing(s.backups);
      assert s.backups[0] in s.backups;
    }
    SnocIncreasing(q, s.current);
    assert forall v :: v in s'.backups <==> v in q || v == s.current;
  }

  /** Success: new active bytes, the old ones readable under the old number, a larger current
      version, every backup but the pruned one intact, the backups in order again and counted as before. */
  lemma UpdateSuccess(s: Store, buf: Bytes, newVersion: int, notify: bool, inc: bool, f: Faults)
    requires Intact(s) && ValidTarget(s, newVersion) && Quiet(f)
    ensures var (s', code) := InternalUpdate(s, buf, newVersion, notify, inc, f);
            && code == Ok && Intact(s') && s'.count - |s'.backups| == s.count - |s.backups|
            && s'.dir[ACTIVE] == buf
            && s.current < s'.current == (if newVersion < 0 then s.current + 1 else newVersion)
            && GetVersion(s', s'.current, NoFault) == (Ok, buf)
            && GetVersion(s', s.current, NoFault) == (Ok, s.dir[ACTIVE])
            && s'.backups == Pruned(s, f) + [s.current]
            && (forall v :: v in Pruned(s, f) ==> v in s'.dir && s'.dir[v] == s.dir[v])
            && s'.limit == s.limit
            && s'.posted == s.posted + (if notify then [newVersion >= 0 && inc] else [])
  {
    UpdateShape(s, buf, newVersion, notify, inc, f);
    PublishedIsIntact(s, InternalUpdate(s, buf, newVersion, notify, inc, f).0, f);
  }

  predicate Litters(f: Faults) {
    || (!f.createFails && f.cleanNextFails)
    || (!f.createFails && f.write.Complete? && !f.linkFails && f.renameFails && f.cleanCurrentFails)
  }

  /** Failure: active bytes, version, queue, count and every file are as before. The set of files
      is as before exactly when no file made on the way survives the clean-up. */
  lemma UpdateFailure(s: Store, buf: Bytes, newVersion: int, notify: bool, inc: bool, f: Faults)
    requires Intact(s) && ValidTarget(s, newVersion) && !Quiet(f)
    ensures var s' := InternalUpdate(s, buf, newVersion, notify, inc, f).0;
            && s' == s.(dir := s'.dir)
            && (forall v :: v in s.dir ==> v in s'.dir && s'.dir[v] == s.dir[v])
            && (s' == s <==> !Litters(f))
  {
    var s' := InternalUpdate(s, buf, newVersion, notify, inc, f).0;
    var target := if newVersion < 0 then s.current + 1 else newVersion;
    assert s.current !in s.dir && target !in s.dir && s.current != target;
    if Litters(f) {
      assert target in s'.dir || s.current in s'.dir;
    } else {
      assert s'.dir == s.dir;
    }
  }

  /** The clean-up unlinks the file named after the current version; when that version is 0 (the
      directory could not be scanned at start-up) the name is the active file's. So a failed update
      keeps the active copy if and only if this is not the case, or the unlink fails too. */
  lemma FailureKeepsActive(s: Store, buf: Bytes, newVersion: int, notify: bool, inc: bool, f: Faults)
    requires 0 <= s.current && ACTIVE in s.dir
    requires InternalUpdate(s, buf, newVersion, notify, inc, f).1 == SysCallError
    ensures var s' := InternalUpdate(s, buf, newVersion, notify, inc, f).0;
            (ACTIVE in s'.dir && s'.dir[ACTIVE] == s.dir[ACTIVE]) <==> (s.current != ACTIVE || f.cleanCurrentFails)
  {
  }

  /** That is the state start-up leaves when the directory cannot be opened, and no fault is needed then:
      the active file already has the name it is to be linked to. So every update fails, and removes the
      active file unless that unlink fails. */
  lemma UpdateRemovesActive(s: Store, buf: Bytes, newVersion: int, notify: bool, inc: bool, f: Faults)
    requires s.current == ACTIVE && ACTIVE in s.dir && ValidTarget(s, newVersion)
    ensures var (s', code) := InternalUpdate(s, buf, newVersion, notify, inc, f);
            code == SysCallError && (ACTIVE in s'.dir <==> f.cleanCurrentFails)
  {
  }

  lemma OpenWithoutScan(dir: map<int, Bytes>, limit: int, unset: int,
                        renameFails: bool, createFails: bool, rf: ReadFault, f: Faults)
    requires ACTIVE in dir
    ensures Open(dir, limit, None, unset, false, renameFails, createFails, rf, f) ==
            Some(Store(dir, ACTIVE, unset, [], limit, []))
  {
  }

  /** An active file lost behind the manager's back: the update still succeeds, but the invariant
      survives it if and only if the active file was there (the count runs ahead of the queue). */
  lemma LostActive(s: Store, buf: Bytes, newVersion: int, notify: bool, inc: bool, f: Faults)
    requires WfBackups(s) && ValidTarget(s, newVersion) && Quiet(f)
    ensures var s' := InternalUpdate(s, buf, newVersion, notify, inc, f).0;
            && (Wf(s') <==> ACTIVE in s.dir)
            && (s'.count == |s'.backups| <==> ACTIVE in s.dir)
            && (ACTIVE !in s.dir ==> s'.dir == s.dir[ACTIVE := buf] && s'.backups == s.backups)
  {
    if ACTIVE in s.dir {
      UpdateSuccess(s, buf, newVersion, notify, inc, f);
    } else {
      var target := if newVersion < 0 then s.current + 1 else newVersion;
      assert target !in s.dir && s.current !in s.dir;
      assert s.dir[target := buf][ACTIVE := buf] - {target} == s.dir[ACTIVE := buf];
    }
  }

  lemma ConsIncreasing(c: int, q: seq<int>)
    requires Increasing(q) && forall v :: v in q ==> c < v
    ensures Increasing([c] + q)
  {
    assert forall i :: 0 <= i < |q| ==> q[i] in q;
  }

  lemma {:induction false} RemoveFirstKeepsRest(q: seq<int>, v: int)
    requires Increasing(q) && v in q
    ensures var r := RemoveFirst(q, v);
            Increasing(r) && |r| == |q| - 1 && forall x :: x in r <==> x in q && x != v
  {
    TailIncreasing(q);
    if q[0] != v {
      RemoveFirstKeepsRest(q[1..], v);
      ConsIncreasing(q[0], RemoveFirst(q[1..], v));
    }
  }

  lemma {:induction false} RemoveFirstAt(q: seq<int>, v: int, i: nat)
    requires i <= |q| && v !in q[..i] && (i < |q| ==> q[i] == v)
    ensures RemoveFirst(q, v) == if i < |q| then q[..i] + q[i + 1..] else q
  {
    if i > 0 {
      var head, tail := q[0], q[1..];
      assert q[..i] == [head] + tail[..i - 1];
      RemoveFirstAt(tail, v, i - 1);
      if i < |q| {
        assert q[i + 1..] == tail[i..];
      }
    }
  }

  lemma RemoveKeepsWf(s: Store, v: int, statFails: bool, unlinkFails: bool)
    requires Wf(s)
    ensures var (s', code) := RemoveVersion(s, v, statFails, unlinkFails);
            && (Wf(s') <==> v != ACTIVE || code != Ok)
            && (code == Ok ==> s'.dir == s.dir - {v})
            && (code != Ok ==> s' == s)
  {
    var (s', code) := RemoveVersion(s, v, statFails, unlinkFails);
    if code == Ok && v != ACTIVE {
      assert v in s.backups;
      RemoveFirstKeepsRest(s.backups, v);
    }
  }

  // ----- runs

  datatype Op =
    | Update(buf: Bytes, basedOn: int, newVersion: int, notify: bool, inc: bool, f: Faults)
    | Force(buf: Bytes, newVersion: int, f: Faults)
    | RevertTo(version: int, rf: ReadFault, f: Faults)
    | Remove(version: int, statFails: bool, unlinkFails: bool)
    | CheckUser(statFails: bool, changed: bool, rf: ReadFault, f: Faults)
    | UserEdit(bytes: Bytes)

  function Apply(s: Store, op: Op): Store {
    match op
    case Update(buf, basedOn, newVersion, notify, inc, f) =>
      UpdateVersion(s, buf, basedOn, newVersion, notify, inc, f).0
    case Force(buf, newVersion, f) => InternalUpdate(s, buf, newVersion, true, true, f).0
    case RevertTo(version, rf, f) => Revert(s, version, rf, f).0
    case Remove(version, statFails, unlinkFails) => RemoveVersion(s, version, statFails, unlinkFails).0
    case CheckUser(statFails, changed, rf, f) => CheckForUserUpdate(s, statFails, changed, rf, f).0
    case UserEdit(bytes) => if ACTIVE in s.dir then s.(dir := s.dir[ACTIVE := bytes]) else s
  }

  function Run(s: Store, ops: seq<Op>): Store
    decreases |ops|
  {
    if ops == [] then s else Run(Apply(s, ops[0]), ops[1..])
  }

  /** An update that is attempted and fails leaves no file behind. */
  predicate Clean(attempted: bool, f: Faults) {
    attempted && !Quiet(f) ==> !Litters(f)
  }

  /** What keeps the backups in order: no litter, and no removal of the active copy. */
  predicate Keeps(s: Store, op: Op) {
    match op
    case Update(_, basedOn, newVersion, _, _, f) => Clean(basedOn == s.current && ValidTarget(s, newVersion), f)
    case Force(_, newVersion, f) => Clean(ValidTarget(s, newVersion), f)
    case RevertTo(version, rf, f) => Clean(GetVersion(s, version, rf).0 == Ok, f)
    case Remove(version, statFails, unlinkFails) => version != ACTIVE || statFails || unlinkFails
    case CheckUser(statFails, changed, rf, f) => Clean(!statFails && changed && rf.NoFault?, f)
    case UserEdit(_) => true
  }

  /** Another file in the directory is not in the queue. */
  lemma Litter(s: Store, s': Store, target: int)
    requires Wf(s) && s' == s.(dir := s'.dir) && s.current <= target
    requires target in s'.dir || s.current in s'.dir
    ensures !Wf(s')
  {
    assert s.current !in s.backups && target !in s.backups;
  }

  lemma UpdateKeepsWf(s: Store, buf: Bytes, newVersion: int, notify: bool, inc: bool, f: Faults)
    requires Wf(s)
    ensures Wf(InternalUpdate(s, buf, newVersion, notify, inc, f).0) <==> Clean(ValidTarget(s, newVersion), f)
  {
    if ValidTarget(s, newVersion) {
      if Quiet(f) {
        UpdateSuccess(s, buf, newVersion, notify, inc, f);
      } else {
        UpdateFailure(s, buf, newVersion, notify, inc, f);
        var s' := InternalUpdate(s, buf, newVersion, notify, inc, f).0;
        if Litters(f) {
          Litter(s, s', if newVersion < 0 then s.current + 1 else newVersion);
        }
      }
    }
  }

  lemma ApplyKeepsWf(s: Store, op: Op)
    requires Wf(s)
    ensures Wf(Apply(s, op)) <==> Keeps(s, op)
  {
    match op
    case Update(buf, _, newVersion, notify, inc, f) => UpdateKeepsWf(s, buf, newVersion, notify, inc, f);
    case Force(buf, newVersion, f) => UpdateKeepsWf(s, buf, newVersion, true, true, f);
    case RevertTo(version, rf, f) => UpdateKeepsWf(s, GetVersion(s, version, rf).1, -1, true, true, f);
    case Remove(version, statFails, unlinkFails) => RemoveKeepsWf(s, version, statFails, unlinkFails);
    case CheckUser(_, _, rf, f) => UpdateKeepsWf(s, GetVersion(s, s.current, rf).1, -1, true, true, f);
    case UserEdit(_) =>
  }

  ghost predicate AlwaysWf(s: Store, ops: seq<Op>)
    decreases |ops|
  {
    Wf(s) && (ops == [] || AlwaysWf(Apply(s, ops[0]), ops[1..]))
  }

  predicate AllKeep(s: Store, ops: seq<Op>)
    decreases |ops|
  {
    ops == [] || (Keeps(s, ops[0]) && AllKeep(Apply(s, ops[0]), ops[1..]))
  }

  /** The invariant holds all along a run if and only if no failed update of it leaves a file behind and
      none of its removals takes the active copy. */
  lemma {:induction false} RunKeepsWf(s: Store, ops: seq<Op>)
    requires Wf(s)
    ensures AlwaysWf(s, ops) <==> AllKeep(s, ops)
    ensures AllKeep(s, ops) ==> Wf(Run(s, ops))
    decreases |ops|
  {
    if ops != [] {
      ApplyKeepsWf(s, ops[0]);
      if Keeps(s, ops[0]) {
        RunKeepsWf(Apply(s, ops[0]), ops[1..]);
      }
    }
  }

  lemma {:induction false} CurrentNeverDecreases(s: Store, ops: seq<Op>)
    ensures s.current <= Run(s, ops).current
    decreases |ops|
  {
    if ops != [] {
      CurrentNeverDecreases(Apply(s, ops[0]), ops[1..]);
    }
  }

  /** Optimistic concurrency: of two updates based on the same version, however far apart and
      whatever happens in between, at most one succeeds. */
  lemma AtMostOneUpdatePerBase(s: Store, basedOn: int, ops: seq<Op>,
                               b1: Bytes, v1: int, n1: bool, i1: bool, f1: Faults,
                               b2: Bytes, v2: int, n2: bool, i2: bool, f2: Faults)
    requires UpdateVersion(s, b1, basedOn, v1, n1, i1, f1).1 == Ok
    ensures var s2 := Run(UpdateVersion(s, b1, basedOn, v1, n1, i1, f1).0, ops);
            UpdateVersion(s2, b2, basedOn, v2, n2, i2, f2) == (s2, VersionNotCurrent)
  {
    CurrentNeverDecreases(UpdateVersion(s, b1, basedOn, v1, n1, i1, f1).0, ops);
  }

  /** A user's edit is rolled: active bytes unchanged, and the new backup repeats them. */
  lemma UserEditIsRolled(s: Store, f: Faults)
    requires Wf(s) && Quiet(f)
    ensures var (s', rolled) := CheckForUserUpdate(s, false, true, NoFault, f);
            && rolled && Wf(s') && s'.current == s.current + 1
            && s'.dir[ACTIVE] == s.dir[ACTIVE] && s.current in s'.dir && s'.dir[s.current] == s.dir[ACTIVE]
  {
    UpdateSuccess(s, s.dir[ACTIVE], -1, true, true, f);
  }

  // ----- what an update asserts when it prunes

  /** The queue has an entry to prune, older than the current version. */
  predicate PruneAsserts(s: Store) {
    s.count >= s.limit ==> s.backups != [] && s.backups[0] < s.current
  }

  /** This holds whenever backups are in order and counted. When they are in order only, it fails exactly if
      the queue is empty and the count has reached the limit all the same. */
  lemma PruneAssertsIff(s: Store)
    requires Intact(s)
    ensures PruneAsserts(s) <==> s.count < s.limit || s.backups != []
    ensures Wf(s) ==> PruneAsserts(s)
  {
    assert s.backups != [] ==> s.backups[0] in s.backups;
  }

  // ----- which backups are kept

  datatype Publication = Publication(buf: Bytes, newVersion: int, f: Faults)

  predicate AllPublished(s: Store, ps: seq<Publication>)
    decreases |ps|
  {
    ps == [] ||
    var (s', code) := InternalUpdate(s, ps[0].buf, ps[0].newVersion, true, true, ps[0].f);
    code == Ok && !ps[0].f.pruneStatFails && !ps[0].f.pruneUnlinkFails && AllPublished(s', ps[1..])
  }

  function PublishAll(s: Store, ps: seq<Publication>): Store
    decreases |ps|
  {
    if ps == [] then s
    else PublishAll(InternalUpdate(s, ps[0].buf, ps[0].newVersion, true, true, ps[0].f).0, ps[1..])
  }

  /** The versions that stop being current along the way, oldest first. */
  function Retired(s: Store, ps: seq<Publication>): seq<int>
    decreases |ps|
  {
    if ps == [] then []
    else [s.current] + Retired(InternalUpdate(s, ps[0].buf, ps[0].newVersion, true, true, ps[0].f).0, ps[1..])
  }

  function Newest(q: seq<int>, n: nat): seq<int> {
    if |q| <= n then q else q[|q| - n..]
  }

  function Window(s: Store): nat
    requires 0 <= s.limit
  {
    if |s.backups| < s.limit then s.limit else |s.backups|
  }

  lemma NewestStep(q: seq<int>, c: int, rest: seq<int>, limit: nat)
    ensures var q' := (if |q| >= limit && q != [] then q[1..] else q) + [c];
            var n := if |q| < limit then limit else |q|;
            var n' := if |q'| < limit then limit else |q'|;
            limit >= 1 ==> Newest(q' + rest, n') == Newest(q + ([c] + rest), n)
  {
    assert (q + [c]) + rest == q + ([c] + rest);
    if |q| >= limit >= 1 {
      assert (q[1..] + [c]) + rest == (q + ([c] + rest))[1..];
    }
  }

  lemma PublicationStep(s: Store, p: Publication)
    requires Wf(s) && AllPublished(s, [p])
    ensures var s' := InternalUpdate(s, p.buf, p.newVersion, true, true, p.f).0;
            && Wf(s') && s'.limit == s.limit
            && s'.backups ==
                 (if |s.backups| >= s.limit && s.backups != [] then s.backups[1..] else s.backups) + [s.current]
  {
    UpdateCode(s, p.buf, p.newVersion, true, true, p.f);
    UpdateSuccess(s, p.buf, p.newVersion, true, true, p.f);
  }

  /** After any run of successful updates the retained backups are the newest ones, up to the limit
      (or up to the number already there, when start-up found more than the limit). */
  lemma {:induction false} KeepsTheNewest(s: Store, ps: seq<Publication>)
    requires Wf(s) && AllPublished(s, ps)
    ensures Wf(PublishAll(s, ps))
    ensures PublishAll(s, ps).backups == Newest(s.backups + Retired(s, ps), Window(s))
    decreases |ps|
  {
    if ps == [] {
      assert s.backups + [] == s.backups;
    } else {
      PublicationStep(s, ps[0]);
      var s' := InternalUpdate(s, ps[0].buf, ps[0].newVersion, true, true, ps[0].f).0;
      KeepsTheNewest(s', ps[1..]);
      NewestStep(s.backups, s.current, Retired(s', ps[1..]), s.limit);
    }
  }

  // ----- the scan at start-up

  /** A directory entry: a backup of this file, perhaps one that cannot be examined, or something else. */
  datatype DirEntry = Other | Backup(version: int, statFails: bool)

  predicate BackupsDistinct(entries: seq<DirEntry>) {
    && (forall i :: 0 <= i < |entries| && entries[i].Backup? ==> entries[i].version > ACTIVE)
    && (forall i, j :: 0 <= i < j < |entries| && entries[i].Backup? && entries[j].Backup? ==>
         entries[i].version != entries[j].version)
  }

  /** The number of backups, or of those that can be examined. */
  function Counted(entries: seq<DirEntry>, examined: bool): nat {
    if entries == [] then 0
    else
      var last := entries[|entries| - 1];
      Counted(entries[..|entries| - 1], examined) + if last.Backup? && !(examined && last.statFails) then 1 else 0
  }

  function Highest(entries: seq<DirEntry>): int {
    if entries == [] then 0
    else
      var h, last := Highest(entries[..|entries| - 1]), entries[|entries| - 1];
      if last.Backup? && last.version > h then last.version else h
  }

  function Examined(entries: seq<DirEntry>): set<int> {
    set e | e in entries && e.Backup? && !e.statFails :: e.version
  }

  predicate AllExamined(entries: seq<DirEntry>) {
    forall e :: e in entries && e.Backup? ==> !e.statFails
  }

  /** Every backup counts, and the highest one decides, whether it can be examined or not; so the count is
      the number of those examined, which are queued, if and only if every backup can be. */
  lemma {:induction false} ScanFacts(entries: seq<DirEntry>)
    requires BackupsDistinct(entries)
    ensures forall e :: e in entries && e.Backup? ==> e.version <= Highest(entries)
    ensures if Counted(entries, false) == 0 then Highest(entries) == 0
            else exists e :: e in entries && e.Backup? && e.version == Highest(entries)
    ensures Counted(entries, true) <= Counted(entries, false)
    ensures Counted(entries, false) == Counted(entries, true) <==> AllExamined(entries)
  {
    if entries != [] {
      var n := |entries| - 1;
      ScanFacts(entries[..n]);
      assert entries == entries[..n] + [entries[n]];
      assert forall e :: e in entries <==> e in entries[..n] || e == entries[n];
      assert entries[n] in entries;
    }
  }

  /** The scan of a directory with these entries, and these files. */
  ghost predicate ScanOf(scan: Scan, entries: seq<DirEntry>) {
    && scan.highest == Highest(entries) && scan.count == Counted(entries, false)
    && Increasing(scan.queue) && |scan.queue| == Counted(entries, true)
    && (forall v :: v in scan.queue <==> v in Examined(entries))
  }

  ghost predicate Lists(entries: seq<DirEntry>, dir: map<int, Bytes>) {
    && BackupsDistinct(entries)
    && (forall v :: v in dir && v != ACTIVE <==> exists e :: e in entries && e.Backup? && e.version == v)
  }

  /** What the scan says of the files: the queue holds every backup exactly when its length is the count. */
  ghost predicate Reflects(scan: Scan, dir: map<int, Bytes>) {
    && scan.highest >= 0 && (scan.highest == 0 <==> scan.count == 0) && |scan.queue| <= scan.count
    && (scan.highest > 0 ==> scan.highest in dir)
    && Increasing(scan.queue) && (forall v :: v in scan.queue ==> ACTIVE < v <= scan.highest && v in dir)
    && (scan.count == |scan.queue| <==> forall v :: v in dir && v != ACTIVE ==> v in scan.queue)
  }

  lemma Unexamined(entries: seq<DirEntry>, e: DirEntry)
    requires BackupsDistinct(entries) && e in entries && e.Backup? && e.statFails
    ensures e.version !in Examined(entries)
  {
    var i :| 0 <= i < |entries| && entries[i] == e;
    forall j | 0 <= j < |entries| && entries[j].Backup? && !entries[j].statFails
      ensures entries[j].version != e.version
    {
      assert entries[j] != entries[i];
    }
  }

  lemma ScanReflects(scan: Scan, entries: seq<DirEntry>, dir: map<int, Bytes>)
    requires ScanOf(scan, entries) && Lists(entries, dir)
    ensures Reflects(scan, dir) && (scan.count == |scan.queue| <==> AllExamined(entries))
  {
    ScanFacts(entries);
    forall v | v in scan.queue
      ensures ACTIVE < v <= scan.highest && v in dir
    {
      var e :| e in entries && e.Backup? && !e.statFails && e.version == v;
    }
    if AllExamined(entries) {
      forall v | v in dir && v != ACTIVE
        ensures v in scan.queue
      {
        var e :| e in entries && e.Backup? && e.version == v;
      }
    } else {
      var e :| e in entries && e.Backup? && e.statFails;
      Unexamined(entries, e);
      assert e.version in dir && e.version != ACTIVE && e.version !in scan.queue;
    }
  }

  /** A missing active file is replaced by the highest backup. */
  predicate Promotes(dir: map<int, Bytes>, scan: Option<Scan>, renameFails: bool) {
    ACTIVE !in dir && scan.Some? && scan.value.highest > 0 && !renameFails
  }

  /** A file without backups gets its first one. */
  predicate FirstRoll(dir: map<int, Bytes>, scan: Option<Scan>, rf: ReadFault) {
    ACTIVE in dir && scan.Some? && scan.value.highest == 0 && rf.NoFault?
  }

  /** The highest of the queue is its last entry. */
  lemma PromotedIsIntact(dir: map<int, Bytes>, limit: int, scan: Scan)
    requires 1 <= limit && ACTIVE !in dir && Reflects(scan, dir) && scan.highest > 0 && scan.queue != []
    ensures var q := scan.queue[..|scan.queue| - 1];
            var s := Store(dir[ACTIVE := dir[scan.highest]] - {scan.highest}, scan.highest, scan.count, q, limit, []);
            && (Intact(s) <==> scan.count == |scan.queue|)
            && (Intact(s) ==> s.count != |s.backups|)
  {
    var last := scan.queue[|scan.queue| - 1];
    var q := scan.queue[..|scan.queue| - 1];
    assert last in scan.queue && forall v :: v in scan.queue <==> v in q || v == last;
    assert last !in q;
  }

  lemma OpenAbsent(dir: map<int, Bytes>, limit: int, scan: Scan, unset: int,
                   renameFails: bool, createFails: bool, rf: ReadFault, f: Faults)
    requires 1 <= limit && ACTIVE !in dir && Reflects(scan, dir)
    ensures var r := Open(dir, limit, Some(scan), unset, false, renameFails, createFails, rf, f);
            var promotes := Promotes(dir, Some(scan), renameFails);
            && (r.None? <==> if promotes then scan.queue == [] else createFails)
            && (r.Some? ==>
                  && (Intact(r.value) <==> scan.count == |scan.queue|)
                  && (Wf(r.value) <==> Intact(r.value) && !promotes))
  {
    if Promotes(dir, Some(scan), renameFails) && scan.queue != [] {
      PromotedIsIntact(dir, limit, scan);
    }
  }

  lemma OpenPresent(dir: map<int, Bytes>, limit: int, scan: Scan, unset: int,
                    renameFails: bool, createFails: bool, rf: ReadFault, f: Faults)
    requires 1 <= limit && ACTIVE in dir && Reflects(scan, dir)
    ensures var r := Open(dir, limit, Some(scan), unset, false, renameFails, createFails, rf, f);
            && r.Some?
            && (Intact(r.value) <==> scan.count == |scan.queue| && Clean(FirstRoll(dir, Some(scan), rf), f))
            && (Wf(r.value) <==> Intact(r.value))
  {
    var s := Store(dir, scan.highest + 1, scan.count, scan.queue, limit, []);
    if FirstRoll(dir, Some(scan), rf) {
      assert Wf(s);
      UpdateKeepsWf(s, dir[ACTIVE], -1, true, true, f);
      UpdateKeepsCount(s, dir[ACTIVE], f);
    }
  }

  lemma UpdateKeepsCount(s: Store, buf: Bytes, f: Faults)
    requires Wf(s)
    ensures var s' := InternalUpdate(s, buf, -1, true, true, f).0;
            s'.count == |s'.backups|
  {
    if Quiet(f) {
      UpdateSuccess(s, buf, -1, true, true, f);
    } else {
      UpdateFailure(s, buf, -1, true, true, f);
    }
  }

  /** Start-up leaves the backups in order exactly when the scan worked, every backup could be examined, and
      a first backup that could not be made left no file behind. They are also counted correctly exactly
      when none was promoted to replace a missing active file (promotion does not lower the count). */
  lemma OpenEstablishes(dir: map<int, Bytes>, limit: int, entries: seq<DirEntry>, scan: Option<Scan>, unset: int,
                        statFails: bool, renameFails: bool, createFails: bool, rf: ReadFault, f: Faults)
    requires 1 <= limit && Lists(entries, dir) && (scan.Some? ==> ScanOf(scan.value, entries))
    ensures var r := Open(dir, limit, scan, unset, statFails, renameFails, createFails, rf, f);
            var promotes := Promotes(dir, scan, renameFails);
            && (r.None? <==>
                  statFails || (ACTIVE !in dir && if promotes then scan.value.queue == [] else createFails))
            && (r.Some? ==>
                  && (Intact(r.value) <==> scan.Some? && AllExamined(entries) && Clean(FirstRoll(dir, scan, rf), f))
                  && (Wf(r.value) <==> Intact(r.value) && !promotes))
  {
    if scan.Some? && !statFails {
      ScanReflects(scan.value, entries, dir);
      if ACTIVE in dir {
        OpenPresent(dir, limit, scan.value, unset, renameFails, createFails, rf, f);
      } else {
        OpenAbsent(dir, limit, scan.value, unset, renameFails, createFails, rf, f);
      }
    }
  }

  /** That is what start-up leaves if and only if it has promoted the only backup and the limit is one. */
  lemma FirstPruneAfterPromotion(dir: map<int, Bytes>, limit: int, entries: seq<DirEntry>, scan: Scan, unset: int,
                                 renameFails: bool, createFails: bool, rf: ReadFault, f: Faults)
    requires 1 <= limit && Lists(entries, dir) && ScanOf(scan, entries)
    ensures var r := Open(dir, limit, Some(scan), unset, false, renameFails, createFails, rf, f);
            r.Some? && Intact(r.value) ==>
              (PruneAsserts(r.value) <==> !(Promotes(dir, Some(scan), renameFails) && scan.count == 1 && limit == 1))
  {
    OpenEstablishes(dir, limit, entries, Some(scan), unset, false, renameFails, createFails, rf, f);
    ScanReflects(scan, entries, dir);
    var r := Open(dir, limit, Some(scan), unset, false, renameFails, createFails, rf, f);
    if r.Some? && Intact(r.value) {
      PruneAssertsIff(r.value);
    }
  }

  lemma InsertAt(q: seq<int>, v: int, i: nat)
    requires Increasing(q) && i <= |q|
    requires (i > 0 ==> q[i - 1] < v) && (i < |q| ==> v < q[i])
    ensures Increasing(q[..i] + [v] + q[i..])
  {
  }

  method Insert(q: seq<int>, v: int) returns (r: seq<int>)
    requires Increasing(q) && v !in q
    ensures Increasing(r) && |r| == |q| + 1 && forall x :: x in r <==> x in q || x == v
  {
    var i := |q|;
    while i > 0 && q[i - 1] > v
      invariant 0 <= i <= |q| && (i < |q| ==> v < q[i])
    {
      i := i - 1;
    }
    InsertAt(q, v, i);
    r := q[..i] + [v] + q[i..];
    assert q == q[..i] + q[i..];
  }

  lemma NextExamined(entries: seq<DirEntry>, i: nat)
    requires BackupsDistinct(entries) && i < |entries|
    ensures var e := entries[i];
            && Examined(entries[..i + 1]) ==
                 Examined(entries[..i]) + (if e.Backup? && !e.statFails then {e.version} else {})
            && (e.Backup? ==> e.version !in Examined(entries[..i]))
  {
  }

  /** The queue is the examined backups in increasing order. */
  method FindVersions(entries: seq<DirEntry>) returns (scan: Scan)
    requires BackupsDistinct(entries)
    ensures ScanOf(scan, entries)
  {
    var highest, count, q := 0, 0, [];
    assert entries[..0] == [];
    for i := 0 to |entries|
      invariant highest == Highest(entries[..i]) && count == Counted(entries[..i], false)
      invariant Increasing(q) && |q| == Counted(entries[..i], true)
      invariant forall v :: v in q <==> v in Examined(entries[..i])
    {
      NextExamined(entries, i);
      assert entries[..i + 1][..i] == entries[..i];
      if entries[i].Backup? {
        count := count + 1;
        if entries[i].version > highest {
          highest := entries[i].version;
        }
        if !entries[i].statFails {
          q := Insert(q, entries[i].version);
        }
      }
    }
    assert entries[..|entries|] == entries;
    return Scan(highest, count, q);
  }
}

/** The object that carries out the operations above, call by call. */
module VersionedFile {
  import opened RollbackStore

  class Rollback {
    const name: string
    const numberBackups: int
    var dir: map<int, Bytes>
    var currentVersion: int
    var numVersions: int
    var versionQ: seq<int>
    var posted: seq<bool>

    function State(): Store
      reads this
    {
      Store(dir, currentVersion, numVersions, versionQ, numberBackups, posted)
    }

    constructor (name: string, store: Store)
      ensures State() == store && this.name == name
    {
      this.name := name;
      numberBackups := store.limit;
      dir, currentVersion, numVersions, versionQ, posted :=
        store.dir, store.current, store.count, store.backups, store.posted;
    }

    method RemoveVersion(version: int, statFails: bool, unlinkFails: bool) returns (code: Code)
      modifies this
      ensures (State(), code) == RollbackStore.RemoveVersion(old(State()), version, statFails, unlinkFails)
    {
      var path := if version == currentVersion then ACTIVE else version;
      if statFails || path !in dir {
        return FileNotFound;
      }
      if unlinkFails || version !in dir {
        return SysCallError;
      }
      dir := dir - {version};
      var i := 0;
      while i < |versionQ| && versionQ[i] != version
        invariant 0 <= i <= |versionQ|
        invariant version !in versionQ[..i]
      {
        i := i + 1;
      }
      RemoveFirstAt(versionQ, version, i);
      if i < |versionQ| {
        versionQ := versionQ[..i] + versionQ[i + 1..];
      }
      numVersions := numVersions - 1;
      return Ok;
    }

    method InternalUpdate(buf: Bytes, newVersion: int, notify: bool, inc: bool, f: Faults) returns (code: Code)
      modifies this
      ensures (State(), code) == RollbackStore.InternalUpdate(old(State()), buf, newVersion, notify, inc, f)
    {
      var target, incVersion := newVersion, inc;
      if newVersion < 0 {
        target, incVersion := currentVersion + 1, false;
      } else if newVersion <= currentVersion {
        return InvalidVersion;
      }
      code := Install(buf, target, if notify then [incVersion] else [], f);
    }

    method Install(buf: Bytes, target: int, posts: seq<bool>, f: Faults) returns (code: Code)
      requires target > currentVersion
      modifies this
      ensures (State(), code) == RollbackStore.Install(old(State()), buf, target, posts, f)
    {
      ghost var before := State();
      var ready, failedLink := Prepare(target, buf, f);
      assert State() == before.(dir := dir);
      if !ready || f.renameFails {
        code := CleanUp(target, f);
        return;
      }
      dir := Rename(dir, target, ACTIVE);
      Publish(target, failedLink, posts, f);
      return Ok;
    }

    method Prepare(target: int, buf: Bytes, f: Faults) returns (ready: bool, failedLink: bool)
      modifies this`dir
      ensures (dir, ready, failedLink) == RollbackStore.Prepare(old(State()), target, buf, f)
    {
      if f.createFails {
        return false, false;
      }
      if f.write.Partial? {
        dir := dir[target := f.write.left];
        return false, false;
      }
      dir := dir[target := buf];
      if f.linkFails {
        return false, false;
      }
      if ACTIVE !in dir {
        return true, true;
      }
      if currentVersion in dir {
        return false, false;
      }
      dir := dir[currentVersion := dir[ACTIVE]];
      return true, false;
    }

    method Publish(target: int, failedLink: bool, posts: seq<bool>, f: Faults)
      modifies this
      ensures State() == RollbackStore.Publish(old(State()), old(dir), target, failedLink, posts, f)
    {
      if numVersions >= numberBackups && !failedLink && versionQ != [] {
        var _ := RemoveVersion(versionQ[0], f.pruneStatFails, f.pruneUnlinkFails);
      }
      if !failedLink {
        versionQ := versionQ + [currentVersion];
      }
      numVersions := numVersions + 1;
      currentVersion := target;
      posted := posted + posts;
    }

    method CleanUp(target: int, f: Faults) returns (code: Code)
      modifies this
      ensures (State(), code) == Cleanup(old(State()), old(dir), target, f)
    {
      if !f.cleanCurrentFails {
        dir := dir - {currentVersion};
      }
      if !f.cleanNextFails {
        dir := dir - {target};
      }
      return SysCallError;
    }

    method UpdateVersion(buf: Bytes, basedOn: int, newVersion: int, notify: bool, inc: bool, f: Faults)
      returns (code: Code)
      modifies this
      ensures (State(), code) == RollbackStore.UpdateVersion(old(State()), buf, basedOn, newVersion, notify, inc, f)
    {
      if basedOn != currentVersion {
        return VersionNotCurrent;
      }
      code := InternalUpdate(buf, newVersion, notify, inc, f);
    }

    method GetVersion(version: int, rf: ReadFault) returns (code: Code, bytes: Bytes)
      ensures (code, bytes) == RollbackStore.GetVersion(State(), version, rf)
    {
      var v := version;
      if v == currentVersion {
        v := ACTIVE;
      }
      if v !in dir || rf.OpenFails? || rf.StatFails? {
        return FileNotFound, [];
      }
      if rf.ReadFails? {
        return SysCallError, [];
      }
      return Ok, dir[v];
    }

    method RevertToVersion(version: int, rf: ReadFault, f: Faults) returns (code: Code)
      modifies this
      ensures (State(), code) == Revert(old(State()), version, rf, f)
    {
      var bytes;
      code, bytes := GetVersion(version, rf);
      if code != Ok {
        return;
      }
      var _ := InternalUpdate(bytes, -1, true, true, f);
      return Ok;
    }

    method CheckForUserUpdate(statFails: bool, changed: bool, rf: ReadFault, f: Faults) returns (result: bool)
      modifies this
      ensures (State(), result) == RollbackStore.CheckForUserUpdate(old(State()), statFails, changed, rf, f)
    {
      if statFails || ACTIVE !in dir || !changed {
        return false;
      }
      var current := currentVersion;
      var code, bytes := GetVersion(current, rf);
      if code == Ok {
        code := UpdateVersion(bytes, current, -1, true, true, f);
      }
      return true;
    }
  }

  /** The start-up of a managed file; null when the process gives up. `entries` is None when the directory
      cannot be opened. A missing active file is replaced by the highest backup, or else by an empty file; a
      file without backups gets its first one. */
  method StartUp(name: string, dir: map<int, Bytes>, setting: Option<int>, entries: Option<seq<DirEntry>>, unset: int,
                 statFails: bool, renameFails: bool, createFails: bool, rf: ReadFault, f: Faults)
    returns (rb: Rollback?, ghost scan: Option<Scan>)
    requires entries.Some? ==> BackupsDistinct(entries.value)
    ensures scan.Some? == entries.Some? && (scan.Some? ==> ScanOf(scan.value, entries.value))
    ensures var r := Open(dir, BackupLimit(setting), scan, unset, statFails, renameFails, createFails, rf, f);
            if rb == null then r.None? else fresh(rb) && rb.name == name && r == Some(rb.State())
  {
    var found := Scan(-1, unset, []);
    scan := None;
    if entries.Some? {
      found := FindVersions(entries.value);
      scan := Some(found);
    }
    if statFails {
      return null, scan;
    }
    rb := new Rollback(name, Store(dir, found.highest + 1, found.count, found.queue, BackupLimit(setting), []));
    if ACTIVE !in dir {
      if found.highest > 0 && found.highest in dir && !renameFails {
        rb.dir := Rename(dir, found.highest, ACTIVE);
        rb.currentVersion := found.highest;
        if found.queue == [] {
          return null, scan;
        }
        rb.versionQ := found.queue[..|found.queue| - 1];
      } else if createFails {
        return null, scan;
      } else {
        rb.dir := dir[ACTIVE := []];
      }
    } else if found.highest == 0 {
      var code, bytes := rb.GetVersion(ACTIVE, rf);
      if code == Ok {
        code := rb.InternalUpdate(bytes, -1, true, true, f);
      }
    }
  }
}
