/**
 The undo manager of the editor extension: before a turn's first write to a file
 its content is recorded, and undoing the turn writes the records back. Reading
 and writing files is asynchronous, so a snapshot starts in one step and lands in
 another, and undo() is a step for its first statements, one for each record it
 writes, and one for its splice. Between these steps anything else may run.
*/
module Undo {
  import opened Options

  type Path = string
  type Content = seq<nat>
  type Disk = map<Path, Content>

  const MAX_HISTORY := 50

  function Lower(c: char): char {
    if 'A' <= c <= 'Z' then c - 'A' + 'a' else c
  }

  /** Forward slashes, and lower case on Windows. */
  function NormalizePath(p: Path, windows: bool): Path {
    if p == "" then "" else
      var c := if p[0] == '\\' then '/' else p[0];
      [if windows then Lower(c) else c] + NormalizePath(p[1..], windows)
  }

  /** The same character of a path: slashes of either kind are one, and on Windows so are the cases of a letter. */
  predicate SameChar(c: char, d: char, windows: bool) {
    || c == d
    || (c in {'/', '\\'} && d in {'/', '\\'})
    || (windows && 'A' <= c <= 'Z' && d as int == c as int + 32)
    || (windows && 'A' <= d <= 'Z' && c as int == d as int + 32)
  }

  /** Two spellings are one file to the manager exactly when they agree character by character in that sense. */
  lemma {:induction false} SamePathIff(p: Path, q: Path, windows: bool)
    ensures NormalizePath(p, windows) == NormalizePath(q, windows) <==>
      |p| == |q| && forall i :: 0 <= i < |p| ==> SameChar(p[i], q[i], windows)
  {
    if p == "" || q == "" {
    } else {
      SamePathIff(p[1..], q[1..], windows);
      var a, b := NormalizePath(p, windows), NormalizePath(q, windows);
      assert a == [a[0]] + NormalizePath(p[1..], windows) && b == [b[0]] + NormalizePath(q[1..], windows);
      assert a[0] == b[0] <==> SameChar(p[0], q[0], windows);
      assert a == b <==> a[0] == b[0] && a[1..] == b[1..];
      assert p == [p[0]] + p[1..] && q == [q[0]] + q[1..];
    }
  }

  /** content is None when the file did not exist. */
  datatype Snapshot = Snapshot(path: Path, content: Option<Content>)

  /** born stands for the identity of the object: turn numbers start again after clear(). */
  datatype Checkpoint = Checkpoint(born: nat, turn: nat, files: map<Path, Snapshot>)

  /** The locals of an undo() under way: the index and checkpoint it found, and the records still to be written. */
  datatype Undoing = Undoing(idx: nat, checkpoint: Checkpoint, left: set<Path>)

  /** The manager's fields, the workspace files, the reads and the undos under way. */
  datatype State = State(
    checkpoints: seq<Checkpoint>,
    current: Option<Checkpoint>,
    snapshotted: set<Path>,
    turnCounter: nat,
    created: nat,
    disk: Disk,
    pending: multiset<Path>,
    undoing: map<nat, Undoing>)

  function Init(disk: Disk): State {
    State([], None, {}, 0, 0, disk, multiset{}, map[])
  }

  function Get(d: Disk, p: Path): Option<Content> {
    if p in d then Some(d[p]) else None
  }

  function Put(d: Disk, p: Path, c: Option<Content>): Disk {
    if c.Some? then d[p := c.value] else d - {p}
  }

  // ----- the operations ------------------------------------------------------------

  function Begin(s: State): State {
    s.(turnCounter := s.turnCounter + 1, created := s.created + 1,
       current := Some(Checkpoint(s.created, s.turnCounter + 1, map[])), snapshotted := {})
  }

  function StartSnapshot(s: State, p: Path, windows: bool): State {
    if s.current.None? || NormalizePath(p, windows) in s.snapshotted then s
    else s.(snapshotted := s.snapshotted + {NormalizePath(p, windows)}, pending := s.pending + multiset{p})
  }

  /**
   The read of p returns with content c, or fails and leaves None. Its record goes
   to whatever checkpoint is current now.
  */
  function FinishSnapshot(s: State, p: Path, c: Option<Content>, windows: bool): State
    requires p in s.pending
  {
    var rest := s.(pending := s.pending - multiset{p});
    if s.current.None? then rest
    else
      var files := s.current.value.files[NormalizePath(p, windows) := Snapshot(p, c)];
      rest.(current := Some(s.current.value.(files := files)))
  }

  /** Keep the newest n. */
  function Newest(cs: seq<Checkpoint>, n: nat): seq<Checkpoint> {
    if |cs| > n then cs[|cs| - n..] else cs
  }

  function Commit(s: State): State {
    if s.current.None? || s.current.value.files == map[] then s.(current := None)
    else s.(checkpoints := Newest(s.checkpoints + [s.current.value], MAX_HISTORY), current := None)
  }

  /** The record of p, if p was snapshotted under its own name. */
  predicate HasRecord(files: map<Path, Snapshot>, p: Path, windows: bool) {
    var k := NormalizePath(p, windows);
    k in files && files[k].path == p
  }

  function Restoring(files: map<Path, Snapshot>, d: Disk, p: Path, windows: bool): Option<Content> {
    if HasRecord(files, p, windows) then files[NormalizePath(p, windows)].content else Get(d, p)
  }

  /** The disk after every record of a checkpoint is written back. */
  function Restored(files: map<Path, Snapshot>, d: Disk, windows: bool): Disk {
    var paths := set k | k in files :: files[k].path;
    map p | p in d.Keys + paths && Restoring(files, d, p, windows).Some? :: Restoring(files, d, p, windows).value
  }

  function Find(cs: seq<Checkpoint>, turn: nat, from: nat): (k: nat)
    requires from <= |cs|
    ensures from <= k <= |cs|
    ensures k < |cs| ==> cs[k].turn == turn
    ensures forall j :: from <= j < k ==> cs[j].turn != turn
    decreases |cs| - from
  {
    if from == |cs| || cs[from].turn == turn then from else Find(cs, turn, from + 1)
  }

  function WithoutAt(cs: seq<Checkpoint>, idx: nat): seq<Checkpoint> {
    if idx < |cs| then cs[..idx] + cs[idx + 1..] else cs
  }

  /** undo() up to its first await. u names this call. */
  function StartUndo(s: State, u: nat, turn: nat): State {
    var k := Find(s.checkpoints, turn, 0);
    if k == |s.checkpoints| then s
    else s.(undoing := s.undoing[u := Undoing(k, s.checkpoints[k], s.checkpoints[k].files.Keys)])
  }

  /** One awaited write or delete takes effect. */
  function WriteRecord(s: State, u: nat, k: Path): State
    requires u in s.undoing && k in s.undoing[u].left && k in s.undoing[u].checkpoint.files
  {
    var x := s.undoing[u];
    s.(disk := Put(s.disk, x.checkpoint.files[k].path, x.checkpoint.files[k].content),
       undoing := s.undoing[u := x.(left := x.left - {k})])
  }

  /** One awaited write or delete fails; the error is logged and the loop goes on. */
  function SkipRecord(s: State, u: nat, k: Path): State
    requires u in s.undoing && k in s.undoing[u].left
  {
    s.(undoing := s.undoing[u := s.undoing[u].(left := s.undoing[u].left - {k})])
  }

  /** splice(idx, 1) with the index found at the start. */
  function EndUndo(s: State, u: nat): State
    requires u in s.undoing
  {
    s.(checkpoints := WithoutAt(s.checkpoints, s.undoing[u].idx), undoing := s.undoing - {u})
  }

  /** A whole undo() with nothing else running in between and no write failing. */
  function Undone(s: State, turn: nat, windows: bool): State {
    var k := Find(s.checkpoints, turn, 0);
    if k == |s.checkpoints| then s
    else s.(disk := Restored(s.checkpoints[k].files, s.disk, windows), checkpoints := WithoutAt(s.checkpoints, k))
  }

  function Cleared(s: State): State {
    s.(checkpoints := [], current := None, snapshotted := {}, turnCounter := 0)
  }

  // ----- runs ----------------------------------------------------------------------------

  datatype Action =
    | DoBegin
    | DoStart(p: Path)
    | DoFinish(p: Path, c: Option<Content>)
    | DoWrite(p: Path, c: Option<Content>)
    | DoCommit
    | DoStartUndo(u: nat, turn: nat)
    | DoWriteRecord(u: nat, k: Path)
    | DoSkipRecord(u: nat, k: Path)
    | DoEndUndo(u: nat)
    | DoClear

  predicate Enabled(s: State, a: Action) {
    match a
    case DoFinish(p, _) => p in s.pending
    case DoStartUndo(u, _) => u !in s.undoing
    case DoWriteRecord(u, k) => u in s.undoing && k in s.undoing[u].left && k in s.undoing[u].checkpoint.files
    case DoSkipRecord(u, k) => u in s.undoing && k in s.undoing[u].left && k in s.undoing[u].checkpoint.files
    case DoEndUndo(u) => u in s.undoing && s.undoing[u].left == {}
    case _ => true
  }

  function Next(s: State, a: Action, windows: bool): State
    requires Enabled(s, a)
  {
    match a
    case DoBegin => Begin(s)
    case DoStart(p) => StartSnapshot(s, p, windows)
    case DoFinish(p, c) => FinishSnapshot(s, p, c, windows)
    case DoWrite(p, c) => s.(disk := Put(s.disk, p, c))
    case DoCommit => Commit(s)
    case DoStartUndo(u, turn) => StartUndo(s, u, turn)
    case DoWriteRecord(u, k) => WriteRecord(s, u, k)
    case DoSkipRecord(u, k) => SkipRecord(s, u, k)
    case DoEndUndo(u) => EndUndo(s, u)
    case DoClear => Cleared(s)
  }

  /** Any interleaving at all. */
  ghost predicate IsRun(ss: seq<State>, acts: seq<Action>, windows: bool) {
    && |ss| == |acts| + 1 && ss[0] == Init(ss[0].disk)
    && forall i :: 0 <= i < |acts| ==> Enabled(ss[i], acts[i]) && ss[i + 1] == Next(ss[i], acts[i], windows)
  }

  // ----- what every run keeps ----------------------------------------------------------------

  /** The history never exceeds fifty checkpoints. */
  lemma {:induction false} HistoryIsBounded(ss: seq<State>, acts: seq<Action>, windows: bool, n: nat)
    requires IsRun(ss, acts, windows) && n < |ss|
    ensures |ss[n].checkpoints| <= 50
  {
    if n == 0 {
    } else {
      HistoryIsBounded(ss, acts, windows, n - 1);
      BoundedStep(ss[n - 1], acts[n - 1], windows);
    }
  }

  lemma BoundedStep(s: State, a: Action, windows: bool)
    requires Enabled(s, a) && |s.checkpoints| <= MAX_HISTORY
    ensures |Next(s, a, windows).checkpoints| <= MAX_HISTORY
  {
    hide NormalizePath;
  }

  /** Every record sits under its own normalised path. */
  ghost predicate Keyed(c: Checkpoint, windows: bool) {
    forall k :: k in c.files ==> NormalizePath(c.files[k].path, windows) == k
  }

  ghost predicate AllKeyed(s: State, windows: bool) {
    && (forall i :: 0 <= i < |s.checkpoints| ==> Keyed(s.checkpoints[i], windows))
    && (s.current.Some? ==> Keyed(s.current.value, windows))
    && (forall u :: u in s.undoing ==> Keyed(s.undoing[u].checkpoint, windows) && s.undoing[u].left <= s.undoing[u].checkpoint.files.Keys)
  }

  lemma FinishKeyed(c: Checkpoint, p: Path, content: Option<Content>, windows: bool)
    requires Keyed(c, windows)
    ensures Keyed(c.(files := c.files[NormalizePath(p, windows) := Snapshot(p, content)]), windows)
  {
    hide NormalizePath;
  }

  lemma KeyedFinish(s: State, p: Path, c: Option<Content>, windows: bool)
    requires AllKeyed(s, windows) && p in s.pending
    ensures AllKeyed(FinishSnapshot(s, p, c, windows), windows)
  {
    hide NormalizePath;
    if s.current.Some? {
      FinishKeyed(s.current.value, p, c, windows);
    }
    hide Keyed;
  }

  lemma KeyedBegin(s: State, windows: bool)
    requires AllKeyed(s, windows)
    ensures AllKeyed(Begin(s), windows) && AllKeyed(Cleared(s), windows)
  {
    assert Keyed(Begin(s).current.value, windows);
    hide Keyed;
  }

  lemma KeyedCommit(s: State, windows: bool)
    requires AllKeyed(s, windows)
    ensures AllKeyed(Commit(s), windows)
  {
    hide Keyed;
  }

  lemma KeyedUndo(s: State, u: nat, windows: bool)
    requires AllKeyed(s, windows)
    ensures forall turn :: AllKeyed(StartUndo(s, u, turn), windows)
    ensures forall k :: Enabled(s, DoWriteRecord(u, k)) ==> AllKeyed(WriteRecord(s, u, k), windows)
    ensures forall k :: Enabled(s, DoSkipRecord(u, k)) ==> AllKeyed(SkipRecord(s, u, k), windows)
    ensures u in s.undoing ==> AllKeyed(EndUndo(s, u), windows)
  {
    hide Keyed;
  }

  lemma SameKeyed(s: State, t: State, windows: bool)
    requires AllKeyed(s, windows) && t.checkpoints == s.checkpoints && t.current == s.current && t.undoing == s.undoing
    ensures AllKeyed(t, windows)
  {
    hide Keyed;
  }

  lemma KeyedStep(s: State, a: Action, windows: bool)
    requires AllKeyed(s, windows) && Enabled(s, a)
    ensures AllKeyed(Next(s, a, windows), windows)
  {
    hide NormalizePath, AllKeyed;
    match a {
      case DoBegin => KeyedBegin(s, windows);
      case DoClear => KeyedBegin(s, windows);
      case DoFinish(p, c) => KeyedFinish(s, p, c, windows);
      case DoCommit => KeyedCommit(s, windows);
      case DoStartUndo(u, _) => KeyedUndo(s, u, windows);
      case DoWriteRecord(u, _) => KeyedUndo(s, u, windows);
      case DoSkipRecord(u, _) => KeyedUndo(s, u, windows);
      case DoEndUndo(u) => KeyedUndo(s, u, windows);
      case _ => SameKeyed(s, Next(s, a, windows), windows);
    }
  }

  lemma {:induction false} RecordsAreKeyed(ss: seq<State>, acts: seq<Action>, windows: bool, n: nat)
    requires IsRun(ss, acts, windows) && n < |ss|
    ensures AllKeyed(ss[n], windows)
  {
    if n == 0 {
    } else {
      RecordsAreKeyed(ss, acts, windows, n - 1);
      KeyedStep(ss[n - 1], acts[n - 1], windows);
    }
  }

  /** Objects enter the history in the order in which they were created. */
  ghost predicate BornInOrder(s: State) {
    && (forall k, l :: 0 <= k < l < |s.checkpoints| ==> s.checkpoints[k].born < s.checkpoints[l].born)
    && (forall k :: 0 <= k < |s.checkpoints| ==> s.checkpoints[k].born < s.created)
    && (s.current.Some? ==> s.current.value.born < s.created)
    && (s.current.Some? ==> forall k :: 0 <= k < |s.checkpoints| ==> s.checkpoints[k].born < s.current.value.born)
  }

  lemma BornCommit(s: State)
    requires BornInOrder(s)
    ensures BornInOrder(Commit(s))
  {
    if s.current.Some? && s.current.value.files != map[] {
      var more := s.checkpoints + [s.current.value];
      assert forall k, l :: 0 <= k < l < |more| ==> more[k].born < more[l].born;
      assert forall k :: 0 <= k < |more| ==> more[k].born < s.created;
    }
  }

  lemma BornEnd(s: State, u: nat)
    requires BornInOrder(s) && u in s.undoing
    ensures BornInOrder(EndUndo(s, u))
  {
  }

  lemma BornBegin(s: State)
    requires BornInOrder(s)
    ensures BornInOrder(Begin(s)) && BornInOrder(Cleared(s))
  {
  }

  lemma SameBirths(s: State, t: State)
    requires BornInOrder(s) && t.checkpoints == s.checkpoints && t.created == s.created
    requires t.current.Some? <==> s.current.Some?
    requires t.current.Some? ==> t.current.value.born == s.current.value.born
    ensures BornInOrder(t)
  {
  }

  lemma BornStep(s: State, a: Action, windows: bool)
    requires BornInOrder(s) && Enabled(s, a)
    ensures BornInOrder(Next(s, a, windows))
  {
    hide NormalizePath, BornInOrder;
    match a {
      case DoBegin => BornBegin(s);
      case DoClear => BornBegin(s);
      case DoCommit => BornCommit(s);
      case DoEndUndo(u) => BornEnd(s, u);
      case _ => SameBirths(s, Next(s, a, windows));
    }
  }

  lemma {:induction false} RunBornInOrder(ss: seq<State>, acts: seq<Action>, windows: bool, n: nat)
    requires IsRun(ss, acts, windows) && n < |ss|
    ensures BornInOrder(ss[n])
  {
    if n == 0 {
    } else {
      RunBornInOrder(ss, acts, windows, n - 1);
      BornStep(ss[n - 1], acts[n - 1], windows);
    }
  }

  // ----- which checkpoint the splice removes ---------------------------------------------------

  /** The step takes an entry at or below idx out of the history. */
  predicate LosesAtOrBelow(s: State, a: Action, idx: nat) {
    match a
    case DoCommit => s.current.Some? && s.current.value.files != map[] && |s.checkpoints| >= MAX_HISTORY
    case DoEndUndo(u) => u in s.undoing && s.undoing[u].idx < |s.checkpoints| && s.undoing[u].idx <= idx
    case DoClear => s.checkpoints != []
    case _ => false
  }

  predicate HoldsAt(s: State, idx: nat, c: Checkpoint) {
    idx < |s.checkpoints| && s.checkpoints[idx] == c
  }

  /** c is older than the open turn, and, once moved, only found below idx. */
  ghost predicate MovedDown(s: State, idx: nat, c: Checkpoint) {
    forall k :: 0 <= k < |s.checkpoints| && s.checkpoints[k].born == c.born ==> k < idx
  }

  ghost predicate IsOlder(s: State, c: Checkpoint) {
    c.born < s.created && (s.current.Some? ==> c.born < s.current.value.born)
  }

  lemma HeldStep(s: State, a: Action, windows: bool, idx: nat, c: Checkpoint)
    requires Enabled(s, a) && BornInOrder(s) && IsOlder(s, c) && HoldsAt(s, idx, c)
    ensures if LosesAtOrBelow(s, a, idx) then MovedDown(Next(s, a, windows), idx, c) else HoldsAt(Next(s, a, windows), idx, c)
  {
    hide NormalizePath;
  }

  lemma MovedStep(s: State, a: Action, windows: bool, idx: nat, c: Checkpoint)
    requires Enabled(s, a) && BornInOrder(s) && IsOlder(s, c) && MovedDown(s, idx, c)
    ensures MovedDown(Next(s, a, windows), idx, c)
  {
    hide NormalizePath;
  }

  lemma OlderStep(s: State, a: Action, windows: bool, c: Checkpoint)
    requires Enabled(s, a) && IsOlder(s, c)
    ensures IsOlder(Next(s, a, windows), c)
  {
    hide NormalizePath;
  }

  /** This call of undo() started in step i and has not ended before step j. */
  ghost predicate IsUndo(ss: seq<State>, acts: seq<Action>, u: nat, i: nat, j: nat) {
    && i < j <= |acts| < |ss|
    && acts[i].DoStartUndo? && acts[i].u == u && u in ss[i + 1].undoing
    && forall k :: i < k < j ==> acts[k] != DoEndUndo(u)
  }

  lemma {:induction false} UndoKeepsItsLocals(ss: seq<State>, acts: seq<Action>, windows: bool, u: nat, i: nat, j: nat)
    requires IsRun(ss, acts, windows) && IsUndo(ss, acts, u, i, j)
    ensures u in ss[j].undoing
    ensures ss[j].undoing[u].idx == ss[i + 1].undoing[u].idx && ss[j].undoing[u].checkpoint == ss[i + 1].undoing[u].checkpoint
    decreases j - i
  {
    hide IsRun, Next, Enabled;
    RunLength(ss, acts, windows);
    if j == i + 1 {
    } else {
      UndoKeepsItsLocals(ss, acts, windows, u, i, j - 1);
      RunStep(ss, acts, windows, j - 1);
      LocalsStep(ss[j - 1], acts[j - 1], windows, u);
    }
  }

  lemma LocalsStep(s: State, a: Action, windows: bool, u: nat)
    requires Enabled(s, a) && u in s.undoing && a != DoEndUndo(u)
    ensures var t := Next(s, a, windows);
      u in t.undoing && t.undoing[u].idx == s.undoing[u].idx && t.undoing[u].checkpoint == s.undoing[u].checkpoint
  {
    hide NormalizePath;
  }

  /** Nothing at or below idx left the history in the steps from i up to j. */
  ghost predicate Undisturbed(ss: seq<State>, acts: seq<Action>, i: nat, j: nat, idx: nat)
    requires j <= |acts| < |ss|
  {
    forall k :: i <= k < j ==> !LosesAtOrBelow(ss[k], acts[k], idx)
  }

  lemma UndisturbedStep(ss: seq<State>, acts: seq<Action>, i: nat, j: nat, idx: nat)
    requires i < j <= |acts| < |ss|
    ensures Undisturbed(ss, acts, i, j, idx) <==> Undisturbed(ss, acts, i, j - 1, idx) && !LosesAtOrBelow(ss[j - 1], acts[j - 1], idx)
  {
    hide LosesAtOrBelow;
  }

  lemma NoStepYet(ss: seq<State>, acts: seq<Action>, i: nat, idx: nat)
    requires i <= |acts| < |ss|
    ensures Undisturbed(ss, acts, i, i, idx)
  {
  }

  lemma RunLength(ss: seq<State>, acts: seq<Action>, windows: bool)
    requires IsRun(ss, acts, windows)
    ensures |ss| == |acts| + 1
  {
    hide Next, Enabled;
  }

  lemma RunStep(ss: seq<State>, acts: seq<Action>, windows: bool, n: nat)
    requires IsRun(ss, acts, windows) && n < |acts|
    ensures |ss| == |acts| + 1 && Enabled(ss[n], acts[n]) && ss[n + 1] == Next(ss[n], acts[n], windows)
  {
    hide Next, Enabled;
  }

  lemma {:induction false} HeldOrMoved(ss: seq<State>, acts: seq<Action>, windows: bool, i: nat, j: nat, idx: nat, c: Checkpoint)
    requires IsRun(ss, acts, windows) && i <= j < |ss|
    requires HoldsAt(ss[i], idx, c) && IsOlder(ss[i], c)
    ensures IsOlder(ss[j], c)
    ensures if Undisturbed(ss, acts, i, j, idx) then HoldsAt(ss[j], idx, c) else MovedDown(ss[j], idx, c)
    decreases j - i
  {
    hide IsRun, Next, Enabled, HoldsAt, MovedDown, IsOlder, LosesAtOrBelow, BornInOrder, Undisturbed;
    RunLength(ss, acts, windows);
    if i == j {
      NoStepYet(ss, acts, i, idx);
    } else {
      HeldOrMoved(ss, acts, windows, i, j - 1, idx, c);
      var s, a := ss[j - 1], acts[j - 1];
      RunBornInOrder(ss, acts, windows, j - 1);
      RunStep(ss, acts, windows, j - 1);
      UndisturbedStep(ss, acts, i, j, idx);
      OlderStep(s, a, windows, c);
      if Undisturbed(ss, acts, i, j - 1, idx) {
        HeldStep(s, a, windows, idx, c);
      } else {
        MovedStep(s, a, windows, idx, c);
      }
    }
  }

  /**
   The splice of an undo() removes the checkpoint that was undone if and only if
   no entry at or below its index has left the history since it started; then it
   removes nothing else, and otherwise it keeps that checkpoint wherever it is now.
  */
  lemma UndoRemovesItsCheckpointIff(ss: seq<State>, acts: seq<Action>, windows: bool, u: nat, i: nat, j: nat)
    requires IsRun(ss, acts, windows) && j < |acts| && IsUndo(ss, acts, u, i, j) && acts[j] == DoEndUndo(u)
    ensures var x := ss[i + 1].undoing[u];
      && (HoldsAt(ss[j], x.idx, x.checkpoint) <==> Undisturbed(ss, acts, i + 1, j, x.idx))
      && ss[j + 1].checkpoints == WithoutAt(ss[j].checkpoints, x.idx)
      && (x.checkpoint in ss[j + 1].checkpoints <==> x.checkpoint in ss[j].checkpoints && !Undisturbed(ss, acts, i + 1, j, x.idx))
  {
    var x := ss[i + 1].undoing[u];
    UndoKeepsItsLocals(ss, acts, windows, u, i, j);
    RunBornInOrder(ss, acts, windows, i + 1);
    RunBornInOrder(ss, acts, windows, j);
    StartedUndoHolds(ss[i], acts[i], windows, u);
    HeldOrMoved(ss, acts, windows, i + 1, j, x.idx, x.checkpoint);
    assert Enabled(ss[j], acts[j]) && ss[j + 1] == EndUndo(ss[j], u);
    hide IsRun, Undisturbed, IsUndo;
    SpliceKeepsOthers(ss[j], x.idx, x.checkpoint);
  }

  lemma StartedUndoHolds(s: State, a: Action, windows: bool, u: nat)
    requires Enabled(s, a) && a.DoStartUndo? && a.u == u && u in Next(s, a, windows).undoing && BornInOrder(Next(s, a, windows))
    ensures var t := Next(s, a, windows);
      HoldsAt(t, t.undoing[u].idx, t.undoing[u].checkpoint) && IsOlder(t, t.undoing[u].checkpoint)
  {
  }

  lemma SpliceKeepsOthers(s: State, idx: nat, c: Checkpoint)
    requires BornInOrder(s) && (HoldsAt(s, idx, c) || MovedDown(s, idx, c))
    ensures c in WithoutAt(s.checkpoints, idx) <==> c in s.checkpoints && !HoldsAt(s, idx, c)
  {
    var rest := WithoutAt(s.checkpoints, idx);
    if c in s.checkpoints && !HoldsAt(s, idx, c) {
      var k :| 0 <= k < |s.checkpoints| && s.checkpoints[k] == c;
      assert k < idx && rest[k] == c;
    }
  }

  /**
   It can go wrong: with a full history, a turn that is committed while the
   newest turn is being undone shifts the history, and the splice removes the new
   turn's checkpoint and keeps the undone one.
  */
  lemma SpliceHitsNextTurn(s: State, u: nat, p: Path, c: Option<Content>, windows: bool)
    requires |s.checkpoints| == MAX_HISTORY && s.current.None? && p !in s.pending
    requires u in s.undoing && s.undoing[u].idx == MAX_HISTORY - 1
    ensures var t := StartSnapshot(Begin(s), p, windows);
      && p in t.pending
      && var v := Commit(FinishSnapshot(t, p, c, windows));
      && v.checkpoints[MAX_HISTORY - 1].turn == s.turnCounter + 1
      && u in v.undoing && EndUndo(v, u).checkpoints == s.checkpoints[1..]
  {
    hide NormalizePath;
    var t := StartSnapshot(Begin(s), p, windows);
    var f := FinishSnapshot(t, p, c, windows);
    var made := f.current.value;
    var v := Commit(f);
    assert NormalizePath(p, windows) in made.files;
    NewestDropsOne(s.checkpoints, made);
    assert WithoutAt(v.checkpoints, MAX_HISTORY - 1) == s.checkpoints[1..] + [];
  }

  lemma NewestDropsOne(cs: seq<Checkpoint>, c: Checkpoint)
    requires |cs| == MAX_HISTORY
    ensures Newest(cs + [c], MAX_HISTORY) == cs[1..] + [c]
  {
  }

  /** So do two undos that overlap: the older one's splice moves the newest out of the other's reach. */
  lemma OverlappingUndos(s: State, u: nat, v: nat)
    requires u != v && u in s.undoing && v in s.undoing && |s.checkpoints| >= 2
    requires s.undoing[u].idx == |s.checkpoints| - 1 && s.undoing[v].idx == |s.checkpoints| - 2
    ensures var n := |s.checkpoints|;
      EndUndo(EndUndo(s, v), u).checkpoints == s.checkpoints[..n - 2] + [s.checkpoints[n - 1]]
  {
    var n := |s.checkpoints|;
    assert s.checkpoints[n - 1..] == [s.checkpoints[n - 1]];
  }

  // ----- one checkpoint --------------------------------------------------------------------

  lemma RestoredGet(files: map<Path, Snapshot>, d: Disk, p: Path, windows: bool)
    ensures Get(Restored(files, d, windows), p) == Restoring(files, d, p, windows)
  {
    if HasRecord(files, p, windows) {
      assert files[NormalizePath(p, windows)].path == p;
    }
  }

  lemma SameDisk(d: Disk, e: Disk)
    requires forall p :: Get(d, p) == Get(e, p)
    ensures d == e
  {
    forall p
      ensures p in d <==> p in e
      ensures p in d ==> p in e && d[p] == e[p]
    {
      assert Get(d, p) == Get(e, p);
    }
  }

  /** An undo with nothing running in between changes only its own paths and keeps all other checkpoints. */
  lemma UndoIsLocal(s: State, turn: nat, windows: bool, p: Path)
    ensures var t := Undone(s, turn, windows);
      var k := Find(s.checkpoints, turn, 0);
      && (k < |s.checkpoints| ==>
            && Get(t.disk, p) == Restoring(s.checkpoints[k].files, s.disk, p, windows)
            && |t.checkpoints| == |s.checkpoints| - 1
            && forall j :: 0 <= j < |t.checkpoints| ==> t.checkpoints[j] == s.checkpoints[if j < k then j else j + 1])
      && (k == |s.checkpoints| ==> t == s)
  {
    var k := Find(s.checkpoints, turn, 0);
    if k < |s.checkpoints| {
      RestoredGet(s.checkpoints[k].files, s.disk, p, windows);
    }
  }

  /** The records of files take the disk d back to the disk before. */
  ghost predicate Records(files: map<Path, Snapshot>, d: Disk, before: Disk, windows: bool) {
    forall p :: if HasRecord(files, p, windows) then files[NormalizePath(p, windows)].content == Get(before, p)
                else Get(d, p) == Get(before, p)
  }

  lemma RecordsRestore(files: map<Path, Snapshot>, d: Disk, before: Disk, windows: bool)
    requires Records(files, d, before, windows)
    ensures Restored(files, d, windows) == before
  {
    forall p
      ensures Get(Restored(files, d, windows), p) == Get(before, p)
    {
      RestoredGet(files, d, p, windows);
    }
    SameDisk(Restored(files, d, windows), before);
  }

  // ----- the inverse, and when it holds ----------------------------------------------------------

  /**
   What the claim is about: a turn begins between turns and while no undo is
   under way; a write follows a snapshot of its path that has landed; the newest
   checkpoint is undone first, between turns, one at a time.
  */
  ghost predicate Disciplined(s: State, a: Action, windows: bool) {
    && (a.DoBegin? ==> s.current.None? && s.undoing == map[])
    && (a.DoWrite? ==> s.current.Some? && HasRecord(s.current.value.files, a.p, windows))
    && (a.DoStartUndo? ==>
          s.current.None? && s.undoing == map[] && s.checkpoints != [] && s.checkpoints[|s.checkpoints| - 1].turn == a.turn)
  }

  ghost predicate IsDisciplinedRun(ss: seq<State>, acts: seq<Action>, windows: bool) {
    IsRun(ss, acts, windows) && forall i :: 0 <= i < |acts| ==> Disciplined(ss[i], acts[i], windows)
  }

  /**
   A read that lands does no harm: outside a turn it is dropped. In a turn it
   brings the content that is recorded already or, without a record, the content
   the file has now, and if it takes the record's place from another spelling of
   the path, that file still has its recorded content.
  */
  predicate IsHarmless(s: State, p: Path, c: Option<Content>, windows: bool) {
    s.current.None? ||
    (var files, k := s.current.value.files, NormalizePath(p, windows);
     && c == (if HasRecord(files, p, windows) then files[k].content else Get(s.disk, p))
     && (k in files && files[k].path != p ==> Get(s.disk, files[k].path) == files[k].content))
  }

  /** The usual case: the first snapshot of a path in this turn, read before anything changes the file. */
  lemma FirstReadIsHarmless(s: State, p: Path, windows: bool)
    requires s.current.Some? && NormalizePath(p, windows) !in s.current.value.files
    ensures IsHarmless(s, p, Get(s.disk, p), windows)
  {
    hide NormalizePath;
  }

  /** The disks at the beginning of the retained turns, oldest first. */
  ghost function StartsAfter(s: State, a: Action, starts: seq<Disk>, open: Disk): seq<Disk> {
    match a
    case DoCommit =>
      if s.current.None? || s.current.value.files == map[] then starts
      else if |starts| + 1 > MAX_HISTORY then (starts + [open])[|starts| + 1 - MAX_HISTORY..]
      else starts + [open]
    case DoEndUndo(_) => if starts == [] then [] else starts[..|starts| - 1]
    case DoClear => []
    case _ => starts
  }

  /** The disk at the beginning of the open turn. */
  ghost function OpenAfter(s: State, a: Action, open: Disk): Disk {
    if a.DoBegin? then s.disk else open
  }

  ghost function Origins(ss: seq<State>, acts: seq<Action>, n: nat): (seq<Disk>, Disk)
    requires n <= |acts| < |ss|
  {
    if n == 0 then ([], ss[0].disk)
    else
      var (starts, open) := Origins(ss, acts, n - 1);
      (StartsAfter(ss[n - 1], acts[n - 1], starts, open), OpenAfter(ss[n - 1], acts[n - 1], open))
  }

  /** The k-th checkpoint's records lead from the start of the next turn, or end, back to starts[k]. */
  ghost predicate Link(cs: seq<Checkpoint>, starts: seq<Disk>, end: Disk, windows: bool, k: nat)
    requires |starts| == |cs| && k < |cs|
  {
    Records(cs[k].files, if k + 1 < |cs| then starts[k + 1] else end, starts[k], windows)
  }

  /** starts[k] is the disk before the k-th retained turn, end the disk after the last. */
  ghost predicate Chained(cs: seq<Checkpoint>, starts: seq<Disk>, end: Disk, windows: bool) {
    |starts| == |cs| <= MAX_HISTORY && forall k :: 0 <= k < |cs| ==> Link(cs, starts, end, windows, k)
  }

  /**
   The records of every retained turn, and of the open one, lead back to the disk
   at its beginning; what an undo has dealt with so far is on the disk.
  */
  ghost predicate RecordsRight(s: State, starts: seq<Disk>, open: Disk, windows: bool) {
    && Chained(s.checkpoints, starts, if s.current.Some? then open else s.disk, windows)
    && (s.current.Some? ==> Records(s.current.value.files, s.disk, open, windows))
    && UndoneSoFar(s)
  }

  /** Unless the history was cleared, the records of an undo that are not left are on the disk. */
  ghost predicate UndoneSoFar(s: State) {
    s.checkpoints != [] ==> forall u :: u in s.undoing ==> IsPartlyWritten(s.disk, s.undoing[u])
  }

  ghost predicate TurnsAscend(s: State) {
    && (forall k, l :: 0 <= k < l < |s.checkpoints| ==> s.checkpoints[k].turn < s.checkpoints[l].turn)
    && (forall k :: 0 <= k < |s.checkpoints| ==> s.checkpoints[k].turn <= s.turnCounter)
    && (s.current.Some? ==> s.current.value.turn == s.turnCounter)
    && (s.current.Some? ==> forall k :: 0 <= k < |s.checkpoints| ==> s.checkpoints[k].turn < s.turnCounter)
  }

  /** No turn is open during an undo, there is one undo at a time, and it is that of the newest checkpoint. */
  ghost predicate UndoOnTop(s: State, windows: bool) {
    && (s.undoing != map[] ==> s.current.None?)
    && (forall u, v :: u in s.undoing && v in s.undoing ==> u == v)
    && (forall u :: u in s.undoing ==> IsOnTop(s, s.undoing[u]))
  }

  predicate IsOnTop(s: State, x: Undoing) {
    s.checkpoints == [] || (x.idx == |s.checkpoints| - 1 && s.checkpoints[x.idx] == x.checkpoint)
  }

  ghost predicate IsPartlyWritten(d: Disk, x: Undoing) {
    forall k :: k in x.checkpoint.files && k !in x.left ==> Get(d, x.checkpoint.files[k].path) == x.checkpoint.files[k].content
  }

  /** What disciplined runs keep whether or not a landing does harm. */
  ghost predicate Shape(s: State, windows: bool) {
    AllKeyed(s, windows) && TurnsAscend(s) && UndoOnTop(s, windows)
  }

  lemma WriteKeepsRecords(files: map<Path, Snapshot>, d: Disk, before: Disk, p: Path, c: Option<Content>, windows: bool)
    requires Records(files, d, before, windows) && HasRecord(files, p, windows)
    ensures Records(files, Put(d, p, c), before, windows)
  {
    forall q
      ensures if HasRecord(files, q, windows) then files[NormalizePath(q, windows)].content == Get(before, q)
              else Get(Put(d, p, c), q) == Get(before, q)
    {
      if !HasRecord(files, q, windows) {
        assert q != p;
      }
    }
  }

  /** A landing keeps the records right if and only if it is harmless. */
  lemma LandingIff(s: State, p: Path, c: Option<Content>, before: Disk, windows: bool)
    requires s.current.Some? && Keyed(s.current.value, windows) && Records(s.current.value.files, s.disk, before, windows)
    ensures Records(s.current.value.files[NormalizePath(p, windows) := Snapshot(p, c)], s.disk, before, windows)
      <==> IsHarmless(s, p, c, windows)
  {
    hide NormalizePath;
    var files, k := s.current.value.files, NormalizePath(p, windows);
    var more := files[k := Snapshot(p, c)];
    assert HasRecord(more, p, windows);
    if k in files {
      assert HasRecord(files, files[k].path, windows);
      assert HasRecord(more, files[k].path, windows) <==> files[k].path == p;
    }
    if IsHarmless(s, p, c, windows) {
      forall q
        ensures if HasRecord(more, q, windows) then more[NormalizePath(q, windows)].content == Get(before, q)
                else Get(s.disk, q) == Get(before, q)
      {
        assert NormalizePath(q, windows) != k ==> (HasRecord(more, q, windows) <==> HasRecord(files, q, windows));
      }
    }
  }

  lemma CommitKeepsChain(cs: seq<Checkpoint>, starts: seq<Disk>, open: Disk, c: Checkpoint, d: Disk, windows: bool)
    requires Chained(cs, starts, open, windows) && Records(c.files, d, open, windows)
    ensures Chained(Newest(cs + [c], MAX_HISTORY),
      if |starts| + 1 > MAX_HISTORY then (starts + [open])[|starts| + 1 - MAX_HISTORY..] else starts + [open], d, windows)
  {
    hide Records;
    var more, opens := cs + [c], starts + [open];
    forall k | 0 <= k < |more|
      ensures Link(more, opens, d, windows, k)
    {
      assert k < |cs| ==> Link(cs, starts, open, windows, k);
    }
    ChainDrops(more, opens, d, windows, if |more| > MAX_HISTORY then |more| - MAX_HISTORY else 0);
    assert more[0..] == more && opens[0..] == opens;
  }

  /** Dropping the oldest checkpoints keeps the rest of the chain. */
  lemma ChainDrops(cs: seq<Checkpoint>, starts: seq<Disk>, end: Disk, windows: bool, n: nat)
    requires |starts| == |cs| && n <= |cs| <= MAX_HISTORY + n
    requires forall k :: 0 <= k < |cs| ==> Link(cs, starts, end, windows, k)
    ensures Chained(cs[n..], starts[n..], end, windows)
  {
    hide Records;
    forall k | 0 <= k < |cs[n..]|
      ensures Link(cs[n..], starts[n..], end, windows, k)
    {
      assert Link(cs, starts, end, windows, n + k);
    }
  }

  lemma NothingRecorded(d: Disk, before: Disk, windows: bool)
    requires Records(map[], d, before, windows)
    ensures d == before
  {
    forall p
      ensures Get(d, p) == Get(before, p)
    {
      assert !HasRecord(map[], p, windows);
    }
    SameDisk(d, before);
  }

  lemma ChainInit(cs: seq<Checkpoint>, starts: seq<Disk>, end: Disk, windows: bool)
    requires Chained(cs, starts, end, windows) && cs != []
    ensures var last := |cs| - 1; Chained(cs[..last], starts[..last], starts[last], windows)
  {
    hide Records;
    var last := |cs| - 1;
    forall k | 0 <= k < last
      ensures Link(cs[..last], starts[..last], starts[last], windows, k)
    {
      assert Link(cs, starts, end, windows, k);
    }
  }

  lemma TurnsAscendStep(s: State, a: Action, windows: bool)
    requires TurnsAscend(s) && Enabled(s, a) && Disciplined(s, a, windows)
    ensures TurnsAscend(Next(s, a, windows))
  {
    hide NormalizePath, BornInOrder;
    match a {
      case DoCommit => AscendCommit(s);
      case DoEndUndo(u) => AscendEnd(s, u);
      case _ =>
    }
  }

  lemma AscendCommit(s: State)
    requires TurnsAscend(s)
    ensures TurnsAscend(Commit(s))
  {
    if s.current.Some? && s.current.value.files != map[] {
      var more := s.checkpoints + [s.current.value];
      assert forall k, l :: 0 <= k < l < |more| ==> more[k].turn < more[l].turn;
      assert forall k :: 0 <= k < |more| ==> more[k].turn <= s.turnCounter;
    }
  }

  lemma AscendEnd(s: State, u: nat)
    requires TurnsAscend(s) && u in s.undoing
    ensures TurnsAscend(EndUndo(s, u))
  {
  }

  lemma PartlyWrittenNext(d: Disk, x: Undoing, k: Path, windows: bool)
    requires IsPartlyWritten(d, x) && Keyed(x.checkpoint, windows) && k in x.left && k in x.checkpoint.files
    ensures IsPartlyWritten(Put(d, x.checkpoint.files[k].path, x.checkpoint.files[k].content), x.(left := x.left - {k}))
  {
    hide NormalizePath;
  }

  lemma OnTopStart(s: State, u: nat, turn: nat, windows: bool)
    requires TurnsAscend(s) && s.current.None? && s.undoing == map[] && s.checkpoints != []
    requires s.checkpoints[|s.checkpoints| - 1].turn == turn
    ensures UndoOnTop(StartUndo(s, u, turn), windows)
  {
    assert Find(s.checkpoints, turn, 0) == |s.checkpoints| - 1;
  }

  lemma OnTopWrite(s: State, u: nat, k: Path, windows: bool)
    requires UndoOnTop(s, windows) && Enabled(s, DoWriteRecord(u, k))
    ensures UndoOnTop(WriteRecord(s, u, k), windows) && UndoOnTop(SkipRecord(s, u, k), windows)
  {
  }

  lemma OnTopEnd(s: State, u: nat, windows: bool)
    requires UndoOnTop(s, windows) && u in s.undoing
    ensures UndoOnTop(EndUndo(s, u), windows)
  {
  }

  lemma OnTopIdle(s: State, t: State, windows: bool)
    requires UndoOnTop(s, windows) && t.undoing == s.undoing
    requires s.undoing != map[] ==> t.current.None? && (t.checkpoints == s.checkpoints || t.checkpoints == [])
    ensures UndoOnTop(t, windows)
  {
  }

  lemma UndoOnTopStep(s: State, a: Action, windows: bool)
    requires Shape(s, windows) && Enabled(s, a) && Disciplined(s, a, windows)
    ensures UndoOnTop(Next(s, a, windows), windows)
  {
    hide NormalizePath, UndoOnTop, AllKeyed, TurnsAscend, HasRecord;
    match a {
      case DoStartUndo(u, turn) => OnTopStart(s, u, turn, windows);
      case DoWriteRecord(u, k) => OnTopWrite(s, u, k, windows);
      case DoSkipRecord(u, k) => OnTopWrite(s, u, k, windows);
      case DoEndUndo(u) => OnTopEnd(s, u, windows);
      case _ =>
        IdleUndo(s, windows);
        OnTopIdle(s, Next(s, a, windows), windows);
    }
  }

  lemma IdleUndo(s: State, windows: bool)
    requires UndoOnTop(s, windows)
    ensures s.undoing != map[] ==> s.current.None?
  {
  }

  lemma FullyLeft(d: Disk, x: Undoing)
    requires x.left == x.checkpoint.files.Keys
    ensures IsPartlyWritten(d, x)
  {
  }

  lemma {:induction false} RunShape(ss: seq<State>, acts: seq<Action>, windows: bool, n: nat)
    requires IsDisciplinedRun(ss, acts, windows) && n < |ss|
    ensures Shape(ss[n], windows)
  {
    if n == 0 {
    } else {
      RunShape(ss, acts, windows, n - 1);
      RunStep(ss, acts, windows, n - 1);
      hide IsRun, Shape, TurnsAscend, UndoOnTop, AllKeyed, Next, Enabled, Disciplined;
      ShapeStep(ss[n - 1], acts[n - 1], windows);
    }
  }

  lemma ShapeStep(s: State, a: Action, windows: bool)
    requires Shape(s, windows) && Enabled(s, a) && Disciplined(s, a, windows)
    ensures Shape(Next(s, a, windows), windows)
  {
    hide TurnsAscend, UndoOnTop, AllKeyed, Next, Enabled, Disciplined;
    KeyedStep(s, a, windows);
    TurnsAscendStep(s, a, windows);
    UndoOnTopStep(s, a, windows);
  }

  lemma CommitRight(s: State, starts: seq<Disk>, open: Disk, windows: bool)
    requires RecordsRight(s, starts, open, windows) && UndoOnTop(s, windows)
    ensures RecordsRight(Commit(s), StartsAfter(s, DoCommit, starts, open), open, windows)
  {
    if s.current.Some? {
      if s.current.value.files == map[] {
        NothingRecorded(s.disk, open, windows);
      } else {
        CommitKeepsChain(s.checkpoints, starts, open, s.current.value, s.disk, windows);
      }
    }
    hide Records, Chained;
  }

  lemma BeginRight(s: State, starts: seq<Disk>, open: Disk, windows: bool)
    requires RecordsRight(s, starts, open, windows) && s.current.None?
    ensures RecordsRight(Begin(s), starts, s.disk, windows)
  {
    hide Chained, NormalizePath;
  }

  /** Writing to the paths of the newest checkpoint keeps the chain. */
  lemma ChainTop(cs: seq<Checkpoint>, starts: seq<Disk>, d: Disk, end: Disk, windows: bool)
    requires Chained(cs, starts, d, windows)
    requires cs != [] ==> Records(cs[|cs| - 1].files, end, starts[|cs| - 1], windows)
    ensures Chained(cs, starts, end, windows)
  {
    hide Records;
    forall k | 0 <= k < |cs|
      ensures Link(cs, starts, end, windows, k)
    {
      assert Link(cs, starts, d, windows, k);
    }
  }

  lemma WriteRecordRight(s: State, u: nat, k: Path, starts: seq<Disk>, open: Disk, windows: bool)
    requires Shape(s, windows) && RecordsRight(s, starts, open, windows) && Enabled(s, DoWriteRecord(u, k))
    ensures RecordsRight(WriteRecord(s, u, k), starts, open, windows)
  {
    hide NormalizePath, TurnsAscend;
    var x := s.undoing[u];
    var r := x.checkpoint.files[k];
    assert NormalizePath(r.path, windows) == k;
    var last := |s.checkpoints| - 1;
    if s.checkpoints != [] {
      assert Link(s.checkpoints, starts, s.disk, windows, last);
      WriteKeepsRecords(x.checkpoint.files, s.disk, starts[last], r.path, r.content, windows);
    }
    if s.checkpoints != [] {
      PartlyWrittenNext(s.disk, x, k, windows);
    }
    hide Records, Link, IsPartlyWritten;
    ChainTop(s.checkpoints, starts, s.disk, Put(s.disk, r.path, r.content), windows);
  }

  /** When every record is written, the disk is the one before the turn. */
  lemma AllWritten(d: Disk, x: Undoing, before: Disk, windows: bool)
    requires IsPartlyWritten(d, x) && x.left == {} && Records(x.checkpoint.files, d, before, windows)
    ensures d == before
  {
    hide NormalizePath;
    forall p
      ensures Get(d, p) == Get(before, p)
    {
      if HasRecord(x.checkpoint.files, p, windows) {
        assert x.checkpoint.files[NormalizePath(p, windows)].path == p;
      }
    }
    SameDisk(d, before);
  }

  lemma EndUndoRight(s: State, u: nat, starts: seq<Disk>, open: Disk, windows: bool)
    requires Shape(s, windows) && RecordsRight(s, starts, open, windows) && Enabled(s, DoEndUndo(u))
    ensures RecordsRight(EndUndo(s, u), StartsAfter(s, DoEndUndo(u), starts, open), open, windows)
  {
    hide NormalizePath, TurnsAscend, AllKeyed;
    var x, last := s.undoing[u], |s.checkpoints| - 1;
    if s.checkpoints != [] {
      assert Link(s.checkpoints, starts, s.disk, windows, last);
      AllWritten(s.disk, x, starts[last], windows);
      ChainInit(s.checkpoints, starts, s.disk, windows);
      assert WithoutAt(s.checkpoints, last) == s.checkpoints[..last];
    }
    hide Records, Link;
  }

  /** A write that fails in an undo does no harm if the file has the recorded content anyway. */
  predicate IsHarmlessFailure(s: State, u: nat, k: Path)
    requires Enabled(s, DoSkipRecord(u, k))
  {
    var r := s.undoing[u].checkpoint.files[k];
    s.checkpoints == [] || Get(s.disk, r.path) == r.content
  }

  lemma SkipRight(s: State, u: nat, k: Path, starts: seq<Disk>, open: Disk, windows: bool)
    requires UndoOnTop(s, windows) && RecordsRight(s, starts, open, windows) && Enabled(s, DoSkipRecord(u, k))
    ensures RecordsRight(SkipRecord(s, u, k), starts, open, windows) <==> IsHarmlessFailure(s, u, k)
  {
    hide Chained, Records, UndoOnTop;
    SkipSoFar(s, u, k, windows);
    hide UndoneSoFar, IsHarmlessFailure;
  }

  lemma SkipSoFar(s: State, u: nat, k: Path, windows: bool)
    requires UndoOnTop(s, windows) && UndoneSoFar(s) && Enabled(s, DoSkipRecord(u, k))
    ensures UndoneSoFar(SkipRecord(s, u, k)) <==> IsHarmlessFailure(s, u, k)
  {
    var x, t := s.undoing[u], SkipRecord(s, u, k);
    assert forall v :: v in t.undoing ==> v == u;
    assert t.undoing[u] == x.(left := x.left - {k});
    if s.checkpoints != [] {
      PartlyWrittenSkip(s.disk, x, k);
      hide IsPartlyWritten;
      assert UndoneSoFar(t) <==> IsPartlyWritten(t.disk, t.undoing[u]);
    }
  }

  lemma PartlyWrittenSkip(d: Disk, x: Undoing, k: Path)
    requires IsPartlyWritten(d, x) && k in x.left && k in x.checkpoint.files
    ensures IsPartlyWritten(d, x.(left := x.left - {k})) <==> Get(d, x.checkpoint.files[k].path) == x.checkpoint.files[k].content
  {
  }

  lemma SameRight(s: State, t: State, starts: seq<Disk>, open: Disk, windows: bool)
    requires RecordsRight(s, starts, open, windows)
    requires t.checkpoints == s.checkpoints && t.current == s.current && t.disk == s.disk && t.undoing == s.undoing
    ensures RecordsRight(t, starts, open, windows)
  {
  }

  lemma StartUndoRight(s: State, u: nat, turn: nat, starts: seq<Disk>, open: Disk, windows: bool)
    requires RecordsRight(s, starts, open, windows)
    ensures RecordsRight(StartUndo(s, u, turn), starts, open, windows)
  {
    var t := StartUndo(s, u, turn);
    if t != s {
      FullyLeft(s.disk, t.undoing[u]);
    }
    hide Chained, Records, IsPartlyWritten;
  }

  lemma WriteRight(s: State, p: Path, c: Option<Content>, starts: seq<Disk>, open: Disk, windows: bool)
    requires UndoOnTop(s, windows) && RecordsRight(s, starts, open, windows) && s.current.Some? && HasRecord(s.current.value.files, p, windows)
    ensures RecordsRight(s.(disk := Put(s.disk, p, c)), starts, open, windows)
  {
    WriteKeepsRecords(s.current.value.files, s.disk, open, p, c, windows);
    hide Records, Chained;
  }

  lemma LandingRight(s: State, p: Path, c: Option<Content>, starts: seq<Disk>, open: Disk, windows: bool)
    requires AllKeyed(s, windows) && RecordsRight(s, starts, open, windows) && p in s.pending
    ensures RecordsRight(FinishSnapshot(s, p, c, windows), starts, open, windows) <==> IsHarmless(s, p, c, windows)
  {
    if s.current.Some? {
      LandingIff(s, p, c, open, windows);
    }
    hide Records, Chained;
  }

  /** A landing brings what is right, and a write that fails in an undo was not needed. */
  predicate StepIsHarmless(s: State, a: Action, windows: bool)
    requires Enabled(s, a)
  {
    match a
    case DoFinish(p, c) => IsHarmless(s, p, c, windows)
    case DoSkipRecord(u, k) => IsHarmlessFailure(s, u, k)
    case _ => true
  }

  /** One step keeps all records right if and only if it is no harmful landing and no harmful failure. */
  lemma RightStep(s: State, a: Action, starts: seq<Disk>, open: Disk, windows: bool)
    requires Shape(s, windows) && RecordsRight(s, starts, open, windows) && Enabled(s, a) && Disciplined(s, a, windows)
    ensures RecordsRight(Next(s, a, windows), StartsAfter(s, a, starts, open), OpenAfter(s, a, open), windows)
      <==> StepIsHarmless(s, a, windows)
  {
    hide RecordsRight, IsHarmless, IsHarmlessFailure, NormalizePath, TurnsAscend, UndoOnTop, AllKeyed, HasRecord;
    match a {
      case DoBegin => BeginRight(s, starts, open, windows);
      case DoFinish(p, c) => LandingRight(s, p, c, starts, open, windows);
      case DoWrite(p, c) => WriteRight(s, p, c, starts, open, windows);
      case DoCommit => CommitRight(s, starts, open, windows);
      case DoStartUndo(u, turn) => StartUndoRight(s, u, turn, starts, open, windows);
      case DoWriteRecord(u, k) => WriteRecordRight(s, u, k, starts, open, windows);
      case DoSkipRecord(u, k) => SkipRight(s, u, k, starts, open, windows);
      case DoEndUndo(u) => EndUndoRight(s, u, starts, open, windows);
      case DoClear => ClearRight(s, open, windows);
      case _ => SameRight(s, Next(s, a, windows), starts, open, windows);
    }
  }

  lemma ClearRight(s: State, open: Disk, windows: bool)
    ensures RecordsRight(Cleared(s), [], open, windows)
  {
  }

  ghost predicate RightAt(ss: seq<State>, acts: seq<Action>, windows: bool, n: nat)
    requires n <= |acts| < |ss|
  {
    RecordsRight(ss[n], Origins(ss, acts, n).0, Origins(ss, acts, n).1, windows)
  }

  ghost predicate HarmlessAt(ss: seq<State>, acts: seq<Action>, windows: bool, i: nat)
    requires i < |acts| < |ss|
  {
    Enabled(ss[i], acts[i]) && StepIsHarmless(ss[i], acts[i], windows)
  }

  /**
   In every disciplined run, the records of all retained turns and of the open
   one are right at every state if and only if every read that lands, and every
   write that fails in an undo, is harmless.
  */
  lemma {:induction false} RecordsRightIff(ss: seq<State>, acts: seq<Action>, windows: bool, n: nat)
    requires IsDisciplinedRun(ss, acts, windows) && n < |ss|
    ensures (forall k :: 0 <= k <= n ==> RightAt(ss, acts, windows, k)) <==> (forall i :: 0 <= i < n ==> HarmlessAt(ss, acts, windows, i))
  {
    RunLength(ss, acts, windows);
    if n == 0 {
      NothingRecordedYet(ss, acts, windows);
    } else {
      RecordsRightIff(ss, acts, windows, n - 1);
      RunShape(ss, acts, windows, n - 1);
      RunStep(ss, acts, windows, n - 1);
      DisciplinedAt(ss, acts, windows, n - 1);
      hide IsDisciplinedRun, IsRun, RecordsRight, StepIsHarmless, Shape, Next, Enabled, Disciplined, StartsAfter, OpenAfter;
      if forall k :: 0 <= k <= n - 1 ==> RightAt(ss, acts, windows, k) {
        assert RightAt(ss, acts, windows, n - 1);
        RightStep(ss[n - 1], acts[n - 1], Origins(ss, acts, n - 1).0, Origins(ss, acts, n - 1).1, windows);
        assert RightAt(ss, acts, windows, n) <==> HarmlessAt(ss, acts, windows, n - 1);
      }
    }
  }

  lemma NothingRecordedYet(ss: seq<State>, acts: seq<Action>, windows: bool)
    requires IsRun(ss, acts, windows)
    ensures RightAt(ss, acts, windows, 0)
  {
  }

  lemma DisciplinedAt(ss: seq<State>, acts: seq<Action>, windows: bool, n: nat)
    requires IsDisciplinedRun(ss, acts, windows) && n < |acts|
    ensures Disciplined(ss[n], acts[n], windows)
  {
  }

  // ----- the failing run is real -----------------------------------------------------------------

  const F_RECORD: map<Path, Snapshot> := map["f" := Snapshot("f", None)]

  lemma Longer(ss: seq<State>, acts: seq<Action>, a: Action, t: State) returns (ss': seq<State>, acts': seq<Action>)
    requires IsRun(ss, acts, false) && |ss| == |acts| + 1 && Enabled(ss[|acts|], a) && t == Next(ss[|acts|], a, false)
    ensures IsRun(ss', acts', false) && |ss'| == |acts'| + 1 && ss'[|acts'|] == t
    ensures ss <= ss' && acts <= acts' && |acts'| == |acts| + 1 && acts'[|acts|] == a
  {
    hide Next, Enabled;
    ss', acts' := ss + [t], acts + [a];
  }

  /** The state after a turn that records one new file. */
  function AfterTurn(s: State): State {
    s.(checkpoints := Newest(s.checkpoints + [Checkpoint(s.created, s.turnCounter + 1, F_RECORD)], MAX_HISTORY),
       turnCounter := s.turnCounter + 1, created := s.created + 1, snapshotted := {"f"})
  }

  lemma TurnSteps(s: State)
    requires s.current.None? && s.pending == multiset{}
    ensures var b := Begin(s);
      var t := StartSnapshot(b, "f", false);
      && "f" in t.pending && Commit(FinishSnapshot(t, "f", None, false)) == AfterTurn(s)
  {
    NormalF();
    var t := StartSnapshot(Begin(s), "f", false);
    assert t.snapshotted == {"f"} && t.pending == multiset{"f"};
    var f := FinishSnapshot(t, "f", None, false);
    assert f.current.value.files == F_RECORD;
    assert "f" in F_RECORD;
  }

  lemma OneTurn(ss: seq<State>, acts: seq<Action>) returns (ss': seq<State>, acts': seq<Action>)
    requires IsRun(ss, acts, false) && |ss| == |acts| + 1
    requires ss[|acts|].current.None? && ss[|acts|].pending == multiset{}
    ensures IsRun(ss', acts', false) && |ss'| == |acts'| + 1 && ss'[|acts'|] == AfterTurn(ss[|acts|])
    ensures ss <= ss' && acts <= acts'
    ensures forall k :: |acts| <= k < |acts'| ==> !acts'[k].DoEndUndo? && !acts'[k].DoStartUndo?
  {
    var s := ss[|acts|];
    TurnSteps(s);
    var t := StartSnapshot(Begin(s), "f", false);
    var f := FinishSnapshot(t, "f", None, false);
    hide IsRun, StartSnapshot, FinishSnapshot, Begin, Commit, AfterTurn;
    ss', acts' := Longer(ss, acts, DoBegin, Begin(s));
    ss', acts' := Longer(ss', acts', DoStart("f"), t);
    ss', acts' := Longer(ss', acts', DoFinish("f", None), f);
    ss', acts' := Longer(ss', acts', DoCommit, AfterTurn(s));
  }

  /** m turns one after the other, each recording one file. */
  lemma {:induction false} FullHistory(m: nat) returns (ss: seq<State>, acts: seq<Action>)
    requires m <= 50
    ensures IsRun(ss, acts, false) && |ss| == |acts| + 1 && IsAfterTurns(ss[|acts|], m)
    ensures forall k :: 0 <= k < |acts| ==> !acts[k].DoEndUndo? && !acts[k].DoStartUndo?
  {
    if m == 0 {
      ss, acts := [Init(map[])], [];
    } else {
      ss, acts := FullHistory(m - 1);
      var s := ss[|acts|];
      ss, acts := OneTurn(ss, acts);
    }
  }

  predicate IsAfterTurns(s: State, m: nat) {
    && s.current.None? && s.pending == multiset{} && s.undoing == map[] && s.turnCounter == m && |s.checkpoints| == m
    && forall k :: 0 <= k < m ==> s.checkpoints[k].turn == k + 1 && s.checkpoints[k].files == F_RECORD
  }

  predicate HasTurn(s: State, turn: nat) {
    exists k :: 0 <= k < |s.checkpoints| && s.checkpoints[k].turn == turn
  }

  /**
   A whole run in which undoing the newest of fifty turns, with another turn
   committed meanwhile, leaves the undone checkpoint in the history and removes
   the one of the new turn.
  */
  lemma SpliceHitsNextTurnRun() returns (ss: seq<State>, acts: seq<Action>, i: nat)
    ensures IsRun(ss, acts, false) && |ss| == |acts| + 1 && i < |acts| && acts[i] == DoStartUndo(0, MAX_HISTORY)
    ensures 0 in ss[i + 1].undoing && acts != [] && acts[|acts| - 1] == DoEndUndo(0)
    ensures ss[i + 1].undoing[0].checkpoint in ss[|acts|].checkpoints
    ensures HasTurn(ss[|acts| - 1], MAX_HISTORY + 1) && !HasTurn(ss[|acts|], MAX_HISTORY + 1)
  {
    hide IsRun;
    ss, acts := FullHistory(MAX_HISTORY);
    var s := ss[|acts|];
    assert s.checkpoints[MAX_HISTORY - 1].turn == MAX_HISTORY;
    assert Find(s.checkpoints, MAX_HISTORY, 0) == MAX_HISTORY - 1;
    i := |acts|;
    var x := Undoing(MAX_HISTORY - 1, s.checkpoints[MAX_HISTORY - 1], {"f"});
    assert F_RECORD.Keys == {"f"};
    var s1 := s.(undoing := map[0 := x]);
    ss, acts := Longer(ss, acts, DoStartUndo(0, MAX_HISTORY), s1);
    ss, acts := OneTurn(ss, acts);
    var s2 := AfterTurn(s1);
    NewestDropsOne(s.checkpoints, Checkpoint(s.created, MAX_HISTORY + 1, F_RECORD));
    assert s2.undoing == map[0 := x] && x.left - {"f"} == {};
    var s3 := WriteRecord(s2, 0, "f");
    assert s3.undoing == map[0 := x.(left := {})];
    ss, acts := Longer(ss, acts, DoWriteRecord(0, "f"), s3);
    assert s3.checkpoints[MAX_HISTORY - 1].turn == MAX_HISTORY + 1;
    ss, acts := Longer(ss, acts, DoEndUndo(0), EndUndo(s3, 0));
    var end := EndUndo(s3, 0).checkpoints;
    assert end == s.checkpoints[1..] + [];
    assert end[MAX_HISTORY - 2] == x.checkpoint;
  }

  // ----- undoing everything ------------------------------------------------------------------------

  /** Undo every retained checkpoint, newest first. */
  function UndoAll(s: State, windows: bool): State
    decreases |s.checkpoints|
  {
    if s.checkpoints == [] then s
    else
      var last := s.checkpoints[|s.checkpoints| - 1].turn;
      var t := Undone(s, last, windows);
      if |t.checkpoints| < |s.checkpoints| then UndoAll(t, windows) else t
  }

  lemma UndoNewest(s: State, starts: seq<Disk>, windows: bool)
    requires Chained(s.checkpoints, starts, s.disk, windows) && TurnsAscend(s) && s.current.None? && s.checkpoints != []
    ensures var last := |s.checkpoints| - 1;
      var t := Undone(s, s.checkpoints[last].turn, windows);
      && t.disk == starts[last] && t.checkpoints == s.checkpoints[..last]
      && Chained(t.checkpoints, starts[..last], t.disk, windows) && TurnsAscend(t) && t.current.None?
  {
    hide NormalizePath, Restored;
    var last := |s.checkpoints| - 1;
    var turn := s.checkpoints[last].turn;
    assert Find(s.checkpoints, turn, 0) == last;
    assert Link(s.checkpoints, starts, s.disk, windows, last);
    RecordsRestore(s.checkpoints[last].files, s.disk, starts[last], windows);
    ChainInit(s.checkpoints, starts, s.disk, windows);
    hide Records, Chained;
    assert WithoutAt(s.checkpoints, last) == s.checkpoints[..last];
  }

  lemma {:induction false} UndoAllRestores(s: State, starts: seq<Disk>, windows: bool)
    requires Chained(s.checkpoints, starts, s.disk, windows) && TurnsAscend(s) && s.current.None?
    ensures UndoAll(s, windows).checkpoints == []
    ensures UndoAll(s, windows).disk == if starts == [] then s.disk else starts[0]
    decreases |s.checkpoints|
  {
    hide NormalizePath, Restored, Records, Undone, TurnsAscend;
    if s.checkpoints == [] {
    } else {
      var last := |s.checkpoints| - 1;
      UndoNewest(s, starts, windows);
      UndoAllRestores(Undone(s, s.checkpoints[last].turn, windows), starts[..last], windows);
    }
  }

  /** Turn number turn began in step b, when the disk was d. */
  ghost predicate Began(ss: seq<State>, acts: seq<Action>, n: nat, b: nat, turn: nat, d: Disk)
    requires n < |ss| == |acts| + 1
  {
    b < n && acts[b].DoBegin? && ss[b].disk == d && ss[b + 1].turnCounter == turn
  }

  ghost predicate WasBegun(ss: seq<State>, acts: seq<Action>, n: nat, turn: nat, d: Disk)
    requires n < |ss| == |acts| + 1
  {
    exists b: nat :: Began(ss, acts, n, b, turn, d)
  }

  /** starts and open are the disks at which the retained turns and the open one began. */
  ghost predicate AllBegun(ss: seq<State>, acts: seq<Action>, n: nat, s: State, starts: seq<Disk>, open: Disk)
    requires n < |ss| == |acts| + 1
  {
    && |starts| == |s.checkpoints|
    && (forall k :: 0 <= k < |starts| ==> WasBegun(ss, acts, n, s.checkpoints[k].turn, starts[k]))
    && (s.current.Some? ==> WasBegun(ss, acts, n, s.current.value.turn, open))
  }

  lemma BegunLater(ss: seq<State>, acts: seq<Action>, n: nat, turn: nat, d: Disk)
    requires 0 < n < |ss| == |acts| + 1 && WasBegun(ss, acts, n - 1, turn, d)
    ensures WasBegun(ss, acts, n, turn, d)
  {
    var b: nat :| Began(ss, acts, n - 1, b, turn, d);
    assert Began(ss, acts, n, b, turn, d);
  }

  lemma AllBegunLater(ss: seq<State>, acts: seq<Action>, n: nat, s: State, starts: seq<Disk>, open: Disk)
    requires 0 < n < |ss| == |acts| + 1 && AllBegun(ss, acts, n - 1, s, starts, open)
    ensures AllBegun(ss, acts, n, s, starts, open)
  {
    hide WasBegun;
    forall k | 0 <= k < |starts|
      ensures WasBegun(ss, acts, n, s.checkpoints[k].turn, starts[k])
    {
      BegunLater(ss, acts, n, s.checkpoints[k].turn, starts[k]);
    }
    if s.current.Some? {
      BegunLater(ss, acts, n, s.current.value.turn, open);
    }
  }

  lemma BegunCommit(ss: seq<State>, acts: seq<Action>, n: nat, s: State, starts: seq<Disk>, open: Disk)
    requires n < |ss| == |acts| + 1 && AllBegun(ss, acts, n, s, starts, open)
    ensures AllBegun(ss, acts, n, Commit(s), StartsAfter(s, DoCommit, starts, open), open)
  {
    hide WasBegun;
    if s.current.Some? && s.current.value.files != map[] {
      var more, opens := s.checkpoints + [s.current.value], starts + [open];
      assert forall k :: 0 <= k < |opens| ==> WasBegun(ss, acts, n, more[k].turn, opens[k]);
    }
  }

  lemma BegunStep(ss: seq<State>, acts: seq<Action>, n: nat, s: State, a: Action, windows: bool, starts: seq<Disk>, open: Disk)
    requires 0 < n < |ss| == |acts| + 1 && s == ss[n - 1] && a == acts[n - 1]
    requires AllBegun(ss, acts, n, s, starts, open) && Shape(s, windows)
    requires Enabled(s, a) && Disciplined(s, a, windows) && ss[n] == Next(s, a, windows)
    ensures AllBegun(ss, acts, n, ss[n], StartsAfter(s, a, starts, open), OpenAfter(s, a, open))
  {
    hide NormalizePath, AllKeyed, TurnsAscend, WasBegun, IsPartlyWritten;
    match a {
      case DoBegin =>
        assert Began(ss, acts, n, n - 1, s.turnCounter + 1, s.disk);
        BegunNow(ss, acts, n, s.turnCounter + 1, s.disk);
      case DoCommit => BegunCommit(ss, acts, n, s, starts, open);
      case DoEndUndo(u) =>
        if s.checkpoints != [] {
          assert WithoutAt(s.checkpoints, |s.checkpoints| - 1) == s.checkpoints[..|s.checkpoints| - 1];
        }
      case _ =>
    }
  }

  lemma BegunNow(ss: seq<State>, acts: seq<Action>, n: nat, turn: nat, d: Disk)
    requires 0 < n < |ss| == |acts| + 1 && Began(ss, acts, n, n - 1, turn, d)
    ensures WasBegun(ss, acts, n, turn, d)
  {
  }

  lemma {:induction false} OriginsAreBegun(ss: seq<State>, acts: seq<Action>, windows: bool, n: nat)
    requires IsDisciplinedRun(ss, acts, windows) && n < |ss| == |acts| + 1
    ensures AllBegun(ss, acts, n, ss[n], Origins(ss, acts, n).0, Origins(ss, acts, n).1)
  {
    if n == 0 {
    } else {
      OriginsAreBegun(ss, acts, windows, n - 1);
      RunShape(ss, acts, windows, n - 1);
      RunStep(ss, acts, windows, n - 1);
      DisciplinedAt(ss, acts, windows, n - 1);
      hide IsDisciplinedRun, IsRun, Shape, Next, Enabled, Disciplined, StartsAfter, OpenAfter, AllBegun;
      var o := Origins(ss, acts, n - 1);
      AllBegunLater(ss, acts, n, ss[n - 1], o.0, o.1);
      BegunStep(ss, acts, n, ss[n - 1], acts[n - 1], windows, o.0, o.1);
    }
  }

  /**
   Undo is a true inverse: after any disciplined run whose steps are harmless,
   undoing the retained checkpoints newest to oldest gives the files exactly as
   they were when the oldest retained turn began.
  */
  lemma UndoIsInverse(ss: seq<State>, acts: seq<Action>, windows: bool)
    requires IsDisciplinedRun(ss, acts, windows) && |ss| == |acts| + 1
    requires forall i :: 0 <= i < |acts| ==> HarmlessAt(ss, acts, windows, i)
    requires ss[|acts|].current.None? && ss[|acts|].undoing == map[] && ss[|acts|].checkpoints != []
    ensures WasBegun(ss, acts, |acts|, ss[|acts|].checkpoints[0].turn, UndoAll(ss[|acts|], windows).disk)
  {
    var n := |acts|;
    RecordsRightIff(ss, acts, windows, n);
    assert RightAt(ss, acts, windows, n);
    RunShape(ss, acts, windows, n);
    OriginsAreBegun(ss, acts, windows, n);
    hide IsDisciplinedRun, IsRun, WasBegun, Origins;
    UndoAllRestores(ss[n], Origins(ss, acts, n).0, windows);
  }

  // ----- a harmful landing ---------------------------------------------------------------------------

  /** Two turns; the read started in the first is still under way in the second. */
  function RaceReads(): State {
    StartSnapshot(Begin(Commit(StartSnapshot(Begin(Init(map["f" := [1]])), "f", false))), "f", false)
  }

  lemma NormalF()
    ensures NormalizePath("f", false) == "f"
  {
    assert "f"[1..] == "" && NormalizePath("", false) == "";
    assert NormalizePath("f", false) == ['f'] + NormalizePath("f"[1..], false) == "f";
  }

  lemma RaceReadsTwice()
    ensures RaceReads() == State([], Some(Checkpoint(1, 2, map[])), {"f"}, 2, 2, map["f" := [1]], multiset{"f", "f"}, map[])
  {
    NormalF();
    var d: Disk := map["f" := [1]];
    var s1 := StartSnapshot(Begin(Init(d)), "f", false);
    assert s1 == State([], Some(Checkpoint(0, 1, map[])), {"f"}, 1, 1, d, multiset{"f"}, map[]);
    assert Commit(s1) == State([], None, {"f"}, 1, 1, d, multiset{"f"}, map[]);
  }

  /**
   A read that outlives its turn can land after the next turn's write and
   overwrite the record; that landing is harmful, and undo keeps the written content.
  */
  lemma StaleReadBreaksUndo()
    ensures "f" in RaceReads().pending
    ensures var s := FinishSnapshot(RaceReads(), "f", Some([1]), false);
      var t := s.(disk := Put(s.disk, "f", Some([2])));
      && "f" in t.pending && !IsHarmless(t, "f", Some([2]), false)
      && var u := Commit(FinishSnapshot(t, "f", Some([2]), false));
      && |u.checkpoints| == 1 && Undone(u, u.checkpoints[0].turn, false).disk == map["f" := [2]]
  {
    RaceLands();
    var t := RaceWritten();
    var v := FinishSnapshot(t, "f", Some([2]), false);
    var u := Commit(v);
    assert "f" in v.current.value.files;
    assert Find(u.checkpoints, 2, 0) == 0;
    UndoKeepsWritten(v.current.value.files, u.disk);
  }

  /** The second turn recorded the file and then wrote it. */
  function RaceWritten(): State {
    State([], Some(Checkpoint(1, 2, map["f" := Snapshot("f", Some([1]))])), {"f"}, 2, 2, map["f" := [2]], multiset{"f"}, map[])
  }

  lemma RaceLands()
    ensures "f" in RaceReads().pending && NormalizePath("f", false) == "f"
    ensures var s := FinishSnapshot(RaceReads(), "f", Some([1]), false); s.(disk := Put(s.disk, "f", Some([2]))) == RaceWritten()
    ensures FinishSnapshot(RaceWritten(), "f", Some([2]), false)
      == RaceWritten().(current := Some(Checkpoint(1, 2, map["f" := Snapshot("f", Some([2]))])), pending := multiset{})
  {
    RaceReadsTwice();
    NormalF();
    var files := map["f" := Snapshot("f", Some([1]))];
    assert files["f" := Snapshot("f", Some([2]))] == map["f" := Snapshot("f", Some([2]))];
  }

  lemma UndoKeepsWritten(files: map<Path, Snapshot>, d: Disk)
    requires files == map["f" := Snapshot("f", Some([2]))] && d == map["f" := [2]]
    ensures Restored(files, d, false) == d
  {
    NormalF();
    forall p
      ensures Get(Restored(files, d, false), p) == Get(d, p)
    {
      RestoredGet(files, d, p, false);
    }
    SameDisk(Restored(files, d, false), d);
  }

  // ----- the class -----------------------------------------------------------------------------------

  /** Restoring, while the records filed under left are not written back yet. */
  ghost function PartlyRestoring(files: map<Path, Snapshot>, left: set<Path>, d: Disk, p: Path, windows: bool): Option<Content> {
    if NormalizePath(p, windows) in left then Get(d, p) else Restoring(files, d, p, windows)
  }

  lemma WriteBack(files: map<Path, Snapshot>, left: set<Path>, before: Disk, d: Disk, k: Path, windows: bool)
    requires k in left && k in files && NormalizePath(files[k].path, windows) == k
    requires forall p :: Get(d, p) == PartlyRestoring(files, left, before, p, windows)
    ensures forall p :: Get(Put(d, files[k].path, files[k].content), p) == PartlyRestoring(files, left - {k}, before, p, windows)
  {
    hide NormalizePath;
    forall p
      ensures Get(Put(d, files[k].path, files[k].content), p) == PartlyRestoring(files, left - {k}, before, p, windows)
    {
      assert Get(d, p) == PartlyRestoring(files, left, before, p, windows);
    }
  }

  lemma RestoredIs(files: map<Path, Snapshot>, before: Disk, d: Disk, windows: bool)
    requires forall p :: Get(d, p) == PartlyRestoring(files, {}, before, p, windows)
    ensures Restored(files, before, windows) == d
  {
    forall p
      ensures Get(Restored(files, before, windows), p) == Get(d, p)
    {
      RestoredGet(files, before, p, windows);
    }
    SameDisk(Restored(files, before, windows), d);
  }

  /** One method for each piece of code between two awaits. */
  class UndoManager {
    const windows: bool
    var checkpoints: seq<Checkpoint>
    var current: Option<Checkpoint>
    var snapshotted: set<Path>
    var turnCounter: nat
    /** The number of checkpoint objects made so far, for their identity. */
    var created: nat
    /** The workspace files. */
    var disk: Disk
    /** The reads and undos under way. */
    ghost var pending: multiset<Path>
    ghost var undoing: map<nat, Undoing>

    constructor (windows: bool, disk: Disk)
      ensures this.windows == windows && Snap() == Init(disk)
    {
      this.windows, this.disk := windows, disk;
      checkpoints, current, snapshotted, turnCounter, created := [], None, {}, 0, 0;
      pending, undoing := multiset{}, map[];
    }

    ghost function Snap(): State
      reads this
    {
      State(checkpoints, current, snapshotted, turnCounter, created, disk, pending, undoing)
    }

    method BeginCheckpoint()
      modifies this
      ensures Snap() == Begin(old(Snap()))
    {
      turnCounter := turnCounter + 1;
      current := Some(Checkpoint(created, turnCounter, map[]));
      created := created + 1;
      snapshotted := {};
    }

    /** The part of snapshotFile before its await. */
    method SnapshotFile(p: Path) returns (reading: bool)
      modifies this
      ensures Snap() == StartSnapshot(old(Snap()), p, windows)
      ensures reading <==> old(current).Some? && NormalizePath(p, windows) !in old(snapshotted)
    {
      if current.None? {
        return false;
      }
      var normalized := NormalizePath(p, windows);
      if normalized in snapshotted {
        return false;
      }
      snapshotted := snapshotted + {normalized};
      pending := pending + multiset{p};
      return true;
    }

    /** The part after the await; content is None when the read failed. */
    method SnapshotRead(p: Path, content: Option<Content>)
      requires p in pending
      modifies this
      ensures Snap() == FinishSnapshot(old(Snap()), p, content, windows)
    {
      pending := pending - multiset{p};
      if current.Some? {
        current := Some(current.value.(files := current.value.files[NormalizePath(p, windows) := Snapshot(p, content)]));
      }
    }

    method CommitCheckpoint() returns (committed: Option<Checkpoint>)
      modifies this
      ensures Snap() == Commit(old(Snap()))
      ensures committed == if old(current).Some? && old(current).value.files != map[] then old(current) else None
    {
      if current.None? || current.value.files == map[] {
        current := None;
        return None;
      }
      checkpoints := checkpoints + [current.value];
      ghost var all := checkpoints;
      ghost var before := Snap();
      while |checkpoints| > MAX_HISTORY
        invariant |checkpoints| <= |all| && checkpoints == all[|all| - |checkpoints|..]
        invariant |all| > MAX_HISTORY ==> |checkpoints| >= MAX_HISTORY
        invariant |all| <= MAX_HISTORY ==> checkpoints == all
        invariant Snap() == before.(checkpoints := checkpoints)
      {
        checkpoints := checkpoints[1..];
      }
      committed := current;
      current := None;
    }

    /** undo up to its first await; x holds its locals. */
    method UndoStart(turn: nat, ghost u: nat) returns (x: Option<Undoing>)
      requires u !in undoing
      modifies this`undoing
      ensures Snap() == StartUndo(old(Snap()), u, turn)
      ensures x == if u in undoing then Some(undoing[u]) else None
    {
      var idx := Find(checkpoints, turn, 0);
      if idx == |checkpoints| {
        return None;
      }
      x := Some(Undoing(idx, checkpoints[idx], checkpoints[idx].files.Keys));
      undoing := undoing[u := x.value];
    }

    /** The write or delete of one record, which may fail. */
    method UndoWrite(x: Undoing, k: Path, ok: bool, ghost u: nat) returns (x': Undoing)
      requires u in undoing && undoing[u] == x && k in x.left && k in x.checkpoint.files
      modifies this
      ensures Snap() == if ok then WriteRecord(old(Snap()), u, k) else SkipRecord(old(Snap()), u, k)
      ensures u in undoing && x' == undoing[u]
    {
      if ok {
        disk := Put(disk, x.checkpoint.files[k].path, x.checkpoint.files[k].content);
      }
      x' := x.(left := x.left - {k});
      undoing := undoing[u := x'];
    }

    /** The rest of undo, after the last await. */
    method UndoEnd(x: Undoing, ghost u: nat)
      requires u in undoing && undoing[u] == x && x.left == {}
      modifies this
      ensures Snap() == EndUndo(old(Snap()), u)
    {
      if x.idx < |checkpoints| {
        checkpoints := checkpoints[..x.idx] + checkpoints[x.idx + 1..];
      }
      undoing := undoing - {u};
    }

    /** undo with nothing else running in between and no write failing. */
    method UndoTurn(turn: nat, ghost u: nat) returns (found: bool)
      requires u !in undoing && AllKeyed(Snap(), windows)
      modifies this
      ensures Snap() == Undone(old(Snap()), turn, windows)
      ensures found <==> exists k :: 0 <= k < |old(checkpoints)| && old(checkpoints)[k].turn == turn
    {
      hide Keyed, NormalizePath, Restored, PartlyRestoring, HasRecord, Get, Put, WithoutAt;
      ghost var before := Snap();
      var start := UndoStart(turn, u);
      if start.None? {
        return false;
      }
      var x := start.value;
      ghost var files := x.checkpoint.files;
      assert Keyed(x.checkpoint, windows);
      hide AllKeyed;
      NothingRestored(files, disk, windows);
      while x.left != {}
        invariant u in undoing && undoing[u] == x && x.left <= files.Keys
        invariant x.checkpoint == start.value.checkpoint && x.idx == start.value.idx
        invariant Snap() == before.(disk := disk, undoing := before.undoing[u := x])
        invariant forall p :: Get(disk, p) == PartlyRestoring(files, x.left, before.disk, p, windows)
        decreases x.left
      {
        var k :| k in x.left;
        KeyedAt(x.checkpoint, k, windows);
        WriteBack(files, x.left, before.disk, disk, k, windows);
        x := UndoWrite(x, k, true, u);
      }
      RestoredIs(files, before.disk, disk, windows);
      UndoEnd(x, u);
      assert undoing == before.undoing;
      return true;
    }

    method Clear()
      modifies this
      ensures Snap() == Cleared(old(Snap()))
      ensures checkpoints == [] && current == None && turnCounter == 0 && disk == old(disk)
    {
      checkpoints, current, snapshotted, turnCounter := [], None, {}, 0;
    }
  }

  lemma KeyedAt(c: Checkpoint, k: Path, windows: bool)
    requires Keyed(c, windows) && k in c.files
    ensures NormalizePath(c.files[k].path, windows) == k
  {
  }

  lemma NothingRestored(files: map<Path, Snapshot>, d: Disk, windows: bool)
    ensures forall p :: Get(d, p) == PartlyRestoring(files, files.Keys, d, p, windows)
  {
    hide NormalizePath;
  }
}
