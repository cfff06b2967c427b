/** Rollback-guarded publication of the four active source groups, with a fault possible at every operation. */
module Publication {
  import opened Wrappers
  import opened Sequences

  type Mode = bv16

  const OWNER_ACCESS: Mode := 0x1C0  // 0o700
  const READ_EXECUTE: Mode := 0x16D  // 0o555
  const READ_ONLY: Mode := 0x124     // 0o444
  const OWNER_WRITE: Mode := 0x1A4   // 0o644

  /** A file or directory tree; `sealed` says that the workbooks inside are read-only. */
  datatype Node = Node(content: string, mode: Mode, sealed: bool)

  /** `source_material/data`, the two source-material JSON files and the expected audit, in publication order. */
  const GROUPS: nat := 4
  const DATA: nat := 0
  const AUDIT: nat := 3

  /** One operation's fate. A failed tree removal may leave any residue behind. */
  datatype Fault = Works | Raises(residue: Option<Node>)

  datatype Snapshot = Snapshot(active: seq<Option<Node>>, backup: seq<Option<Node>>)

  datatype Outcome = Rejected | Published | PublishFailed | RollbackFailed | CleanupFailed

  /** The same tree, up to the mode of its top directory. */
  predicate SameTree(a: Option<Node>, b: Option<Node>) {
    a.Some? == b.Some? && (a.Some? ==> a.value.content == b.value.content && a.value.sealed == b.value.sealed)
  }

  /** The same node; only the data directory may differ in its mode. */
  predicate SameGroup(i: nat, a: Option<Node>, b: Option<Node>) {
    if i == DATA then SameTree(a, b) else a == b
  }

  /** Every group that was there is still there: active, or in its backup. */
  ghost predicate Preserved(s: Snapshot, before: seq<Option<Node>>)
    requires |before| == GROUPS
  {
    && |s.active| == GROUPS && |s.backup| == GROUPS
    && forall i | 0 <= i < GROUPS :: before[i].Some? ==>
         SameGroup(i, s.active[i], before[i]) || SameGroup(i, s.backup[i], before[i])
  }

  ghost predicate AllPreserved(history: seq<Snapshot>, start: nat, before: seq<Option<Node>>)
    requires |before| == GROUPS
  {
    start <= |history| && forall k | start <= k < |history| :: Preserved(history[k], before)
  }

  // ---------- the run as a function of the faults ----------

  /** Operations that all worked, or the last of which raised. */
  ghost predicate Ran(faults: nat -> Fault, ok: bool, from: nat, to: nat, count: nat) {
    && from <= to
    && (forall n: nat | from <= n < to - Bit(!ok) :: faults(n).Works?)
    && (if ok then to == from + count else from < to <= from + count && faults(to - 1).Raises?)
  }

  lemma {:induction false} RanThen(faults: nat -> Fault, from: nat, mid: nat, to: nat, first: nat, second: nat, ok: bool)
    requires Ran(faults, true, from, mid, first) && Ran(faults, ok, mid, to, second)
    ensures Ran(faults, ok, from, to, first + second)
  {
  }

  lemma {:induction false} RanShort(faults: nat -> Fault, from: nat, to: nat, first: nat, second: nat)
    requires Ran(faults, false, from, to, first)
    ensures Ran(faults, false, from, to, first + second)
  {
  }

  lemma {:induction false} RanRaised(
    faults: nat -> Fault, from: nat, mid: nat, to: nat, first: nat, second: nat, third: nat)
    requires Ran(faults, true, from, mid, first) && Ran(faults, false, mid, to, second)
    ensures Ran(faults, false, from, to, first + second + third)
  {
    RanThen(faults, from, mid, to, first, second, false);
    RanShort(faults, from, to, first + second, third);
  }

  /** The first of `count` operations that raises, or the one after them. */
  function FirstFault(faults: nat -> Fault, from: nat, count: nat): (n: nat)
    ensures from <= n <= from + count
    ensures n < from + count ==> faults(n).Raises?
    decreases count
  {
    if count == 0 || faults(from).Raises? then from else FirstFault(faults, from + 1, count - 1)
  }

  lemma {:induction false} RanToFirst(faults: nat -> Fault, from: nat, to: nat, count: nat, ok: bool)
    requires Ran(faults, ok, from, to, count)
    ensures FirstFault(faults, from, count) == if ok then to else to - 1
    decreases count
  {
    if count > 0 && faults(from).Works? {
      RanToFirst(faults, from + 1, to, count - 1, ok);
    }
  }

  lemma {:induction false} FirstFaultExact(faults: nat -> Fault, from: nat, count: nat)
    ensures FirstFault(faults, from, count) == from + count <==> forall n: nat | from <= n < from + count :: faults(n).Works?
    decreases count
  {
    if count > 0 && faults(from).Works? {
      FirstFaultExact(faults, from + 1, count - 1);
    }
  }

  /** The operations that swap the first `n` groups. */
  function SwapSteps(before: seq<Option<Node>>, n: nat): nat
    requires n <= |before|
  {
    if n == 0 then 0 else SwapSteps(before, n - 1) + 3 + Bit(before[n - 1].Some?)
  }

  lemma {:induction false} SwapStepsGrow(before: seq<Option<Node>>, n: nat, m: nat)
    requires n <= m <= |before|
    ensures SwapSteps(before, n) + 3 * (m - n) <= SwapSteps(before, m)
  {
    if n < m {
      SwapStepsGrow(before, n, m - 1);
    }
  }

  lemma {:induction false} SwapRan(
    faults: nat -> Fault, before: seq<Option<Node>>, from: nat, mid: nat, to: nat, i: nat, ok: bool)
    requires i < |before| && Ran(faults, true, from, mid, SwapSteps(before, i))
    requires Ran(faults, ok, mid, to, 3 + Bit(before[i].Some?))
    ensures Ran(faults, ok, from, to, SwapSteps(before, i + 1))
    ensures !ok ==> Ran(faults, ok, from, to, SwapSteps(before, |before|))
  {
    RanThen(faults, from, mid, to, SwapSteps(before, i), 3 + Bit(before[i].Some?), ok);
    SwapStepsGrow(before, i + 1, |before|);
  }

  /** The operations before the swap loop. */
  function PrepareSteps(before: seq<Option<Node>>): nat
    requires |before| == GROUPS
  {
    5 + Bit(before[DATA].Some?)
  }

  /** The operations of the guarded block when none raises. */
  function GuardedSteps(before: seq<Option<Node>>): nat
    requires |before| == GROUPS
  {
    PrepareSteps(before) + SwapSteps(before, |before|) + 6
  }

  /** The operations of a whole publication: validation, the guarded block, and leaving the directory. */
  function FullRun(before: seq<Option<Node>>): nat
    requires |before| == GROUPS
  {
    1 + GuardedSteps(before) + 1
  }

  /** The operation of the guarded block that moves group `j` in; before it the group joins `states`. */
  function MoveInStep(before: seq<Option<Node>>, j: nat): nat
    requires |before| == GROUPS && j < GROUPS
  {
    PrepareSteps(before) + SwapSteps(before, j) + 1 + Bit(before[j].Some?)
  }

  /** How many of the first `n` groups are in `states` when operation `o` of the guarded block raises. */
  function StatesAt(before: seq<Option<Node>>, o: nat, n: nat): (h: nat)
    requires |before| == GROUPS && n <= GROUPS
    ensures h <= n && (h > 0 ==> MoveInStep(before, h - 1) <= o)
  {
    if n == 0 then 0 else if MoveInStep(before, n - 1) <= o then n else StatesAt(before, o, n - 1)
  }

  lemma {:induction false} StatesAtIs(before: seq<Option<Node>>, o: nat, i: nat, n: nat)
    requires |before| == GROUPS && i <= n <= GROUPS
    requires i > 0 ==> MoveInStep(before, i - 1) <= o
    requires i < GROUPS ==> o < MoveInStep(before, i)
    ensures StatesAt(before, o, n) == i
  {
    if n > i {
      SwapStepsGrow(before, i, n - 1);
      StatesAtIs(before, o, i, n - 1);
    }
  }

  /** The rollback so far: the next operation, and what is left of the groups whose own rollback raised. */
  datatype Rolled = Rolled(step: nat, lost: map<nat, Option<Node>>)

  /** The rollback of group `k`: its removal, which has nothing to do when it is absent, then its restoration. */
  function RollOne(faults: nat -> Fault, before: seq<Option<Node>>, absent: bool, r: Rolled, k: nat): Rolled
    requires k < |before|
  {
    if !absent && faults(r.step).Raises? then Rolled(r.step + 1, r.lost[k := faults(r.step).residue])
    else if before[k].None? then Rolled(r.step + 1, r.lost)
    else Rolled(r.step + 2, if faults(r.step + 1).Raises? then r.lost[k := None] else r.lost)
  }

  /** The rollback of the groups `h - 1` down to `k`, from operation `t`; the last one may be absent. */
  function Roll(faults: nat -> Fault, before: seq<Option<Node>>, absent: bool, h: nat, t: nat, k: nat): Rolled
    requires k <= h <= |before|
    decreases h - k
  {
    if k == h then Rolled(t, map[]) else RollOne(faults, before, absent && k == h - 1, Roll(faults, before, absent, h, t, k + 1), k)
  }

  /** Restoring the two directory modes: the next operation, and whether none raised. */
  datatype Restored = Restored(step: nat, ok: bool)

  function RestoreModes(faults: nat -> Fault, before: seq<Option<Node>>, r: Rolled): Restored
    requires |before| == GROUPS
  {
    if before[DATA].None? || (DATA in r.lost && r.lost[DATA].None?) then Restored(r.step + 1, faults(r.step).Works?)
    else if faults(r.step).Raises? then Restored(r.step + 1, false)
    else Restored(r.step + 2, faults(r.step + 1).Works?)
  }

  /** How a run ends. */
  datatype Fate = Fate(outcome: Outcome, verdict: Outcome, lost: map<nat, Option<Node>>, step: nat)

  /** The rollback after operation `o` of the guarded block has raised. */
  function RollAfter(faults: nat -> Fault, before: seq<Option<Node>>, from: nat, o: nat): Rolled
    requires |before| == GROUPS
  {
    var h := StatesAt(before, o, |before|);
    Roll(faults, before, h > 0 && o == MoveInStep(before, h - 1), h, from + o + 1, 0)
  }

  /** The end after operation `o` of the guarded block has raised: clean, or with the losses of the rollback. */
  function RecoveryFate(faults: nat -> Fault, before: seq<Option<Node>>, from: nat, o: nat): Fate
    requires |before| == GROUPS
  {
    var r := RollAfter(faults, before, from, o);
    var m := RestoreModes(faults, before, r);
    var verdict := if r.lost == map[] && m.ok then PublishFailed else RollbackFailed;
    Fate(verdict, verdict, r.lost, m.step)
  }

  /** The guarded block from operation `from`, and its rollback. */
  function AttemptFate(faults: nat -> Fault, before: seq<Option<Node>>, from: nat): Fate
    requires |before| == GROUPS
  {
    var n := FirstFault(faults, from, GuardedSteps(before));
    if n == from + GuardedSteps(before) then Fate(Published, Published, map[], n)
    else RecoveryFate(faults, before, from, n - from)
  }

  /** The end of an attempt whose guarded block ran to operation `to`. */
  ghost function AttemptEnd(faults: nat -> Fault, before: seq<Option<Node>>, from: nat, to: nat, ok: bool): Fate
    requires |before| == GROUPS && Ran(faults, ok, from, to, GuardedSteps(before))
  {
    if ok then Fate(Published, Published, map[], to) else RecoveryFate(faults, before, from, to - 1 - from)
  }

  lemma {:induction false} AttemptIs(faults: nat -> Fault, before: seq<Option<Node>>, from: nat, to: nat, ok: bool)
    requires |before| == GROUPS && Ran(faults, ok, from, to, GuardedSteps(before))
    ensures AttemptFate(faults, before, from) == AttemptEnd(faults, before, from, to, ok)
  {
    RanToFirst(faults, from, to, GuardedSteps(before), ok);
  }

  /** A whole publication: validation, the attempt, and leaving the directory, whose error hides the verdict. */
  function FateOf(faults: nat -> Fault, before: seq<Option<Node>>, from: nat): Fate
    requires |before| == GROUPS
  {
    if faults(from).Raises? then Fate(Rejected, Rejected, map[], from + 1)
    else
      var a := AttemptFate(faults, before, from + 1);
      Fate(if faults(a.step).Works? then a.verdict else CleanupFailed, a.verdict, a.lost, a.step + 1)
  }

  // ---------- what the faults decide ----------

  /** Published exactly when every operation works; anything else by where the first fault lies. */
  lemma {:induction false} FateDecided(faults: nat -> Fault, before: seq<Option<Node>>, from: nat)
    requires |before| == GROUPS
    ensures var f := FateOf(faults, before, from);
      && (f.verdict == Rejected <==> faults(from).Raises?)
      && (f.verdict == Published <==> forall n: nat | from <= n < from + FullRun(before) - 1 :: faults(n).Works?)
      && (f.outcome == Published <==> forall n: nat | from <= n < from + FullRun(before) :: faults(n).Works?)
      && (f.verdict != RollbackFailed ==> f.lost == map[])
  {
    FirstFaultExact(faults, from + 1, GuardedSteps(before));
  }

  /** In a rollback of `h` groups from operation `t`, the removal or the restoration of group `j` itself raises. */
  predicate GroupRaises(faults: nat -> Fault, before: seq<Option<Node>>, absent: bool, h: nat, t: nat, j: nat)
    requires h <= |before|
  {
    j < h && OwnRaises(faults, before, absent && j == h - 1, Roll(faults, before, absent, h, t, j + 1).step, j)
  }

  /** A group is lost exactly when its own removal or its own restoration raises. */
  lemma {:induction false} LostExactly(
    faults: nat -> Fault, before: seq<Option<Node>>, absent: bool, h: nat, t: nat, k: nat, j: nat)
    requires k <= h <= |before|
    ensures j in Roll(faults, before, absent, h, t, k).lost <==> k <= j && GroupRaises(faults, before, absent, h, t, j)
    decreases h - k
  {
    if k < h {
      LostExactly(faults, before, absent, h, t, k + 1, j);
    }
  }

  /** The removal at operation `s` does not raise. */
  predicate Removes(faults: nat -> Fault, absent: bool, s: nat) {
    absent || faults(s).Works?
  }

  /** The removal at operation `s` or the restoration after it raises. */
  predicate OwnRaises(faults: nat -> Fault, before: seq<Option<Node>>, absent: bool, s: nat, j: nat)
    requires j < |before|
  {
    !Removes(faults, absent, s) || (before[j].Some? && faults(s + 1).Raises?)
  }

  lemma {:induction false} RollSteps(faults: nat -> Fault, before: seq<Option<Node>>, absent: bool, h: nat, t: nat, k: nat)
    requires k <= h <= |before|
    ensures var r := Roll(faults, before, absent, h, t, k);
      && t <= r.step <= t + 2 * (h - k)
      && (r.lost != map[] ==> exists n: nat | t <= n < r.step :: faults(n).Raises?)
    decreases h - k
  {
    if k < h {
      RollSteps(faults, before, absent, h, t, k + 1);
      var q := Roll(faults, before, absent, h, t, k + 1);
      if q.lost != map[] {
        var n: nat :| t <= n < q.step && faults(n).Raises?;
      } else if !Removes(faults, absent && k == h - 1, q.step) {
        assert faults(q.step).Raises?;
      } else if before[k].Some? && faults(q.step + 1).Raises? {
        assert faults(q.step + 1).Raises?;
      }
    }
  }

  /** A failed rollback takes a second fault: one fault alone never loses a group. */
  lemma {:induction false} RollbackNeedsTwo(faults: nat -> Fault, before: seq<Option<Node>>, from: nat)
    returns (m: nat, n: nat)
    requires |before| == GROUPS && FateOf(faults, before, from).verdict == RollbackFailed
    ensures from < m < n < FateOf(faults, before, from).step - 1 && faults(m).Raises? && faults(n).Raises?
  {
    m, n := AttemptNeedsTwo(faults, before, from + 1);
  }

  lemma {:induction false} AttemptNeedsTwo(faults: nat -> Fault, before: seq<Option<Node>>, from: nat)
    returns (m: nat, n: nat)
    requires |before| == GROUPS && AttemptFate(faults, before, from).verdict == RollbackFailed
    ensures from <= m < n < AttemptFate(faults, before, from).step && faults(m).Raises? && faults(n).Raises?
  {
    m := FirstFault(faults, from, GuardedSteps(before));
    n := RollNeedsOne(faults, before, from, m - from);
  }

  /** A rollback that is not clean has an operation that raises. */
  lemma {:induction false} RollNeedsOne(faults: nat -> Fault, before: seq<Option<Node>>, from: nat, o: nat) returns (n: nat)
    requires |before| == GROUPS
    requires var r := RollAfter(faults, before, from, o); r.lost != map[] || !RestoreModes(faults, before, r).ok
    ensures from + o < n < RestoreModes(faults, before, RollAfter(faults, before, from, o)).step && faults(n).Raises?
  {
    var r := RollAfter(faults, before, from, o);
    var h := StatesAt(before, o, |before|);
    RollSteps(faults, before, h > 0 && o == MoveInStep(before, h - 1), h, from + o + 1, 0);
    ModesSteps(faults, before, r);
    if r.lost != map[] {
      n :| from + o + 1 <= n < r.step && faults(n).Raises?;
    } else {
      n := RestoreModes(faults, before, r).step - 1;
    }
  }

  lemma {:induction false} ModesSteps(faults: nat -> Fault, before: seq<Option<Node>>, r: Rolled)
    requires |before| == GROUPS
    ensures var m := RestoreModes(faults, before, r);
      r.step < m.step <= r.step + 2 && (!m.ok ==> faults(m.step - 1).Raises?)
  {
  }

  /** One more group rolled back adds its own loss, if any. */
  lemma {:induction false} RollNext(faults: nat -> Fault, before: seq<Option<Node>>, absent: bool, h: nat, t: nat, k: nat)
    requires k < h <= |before|
    ensures var q, r := Roll(faults, before, absent, h, t, k + 1), Roll(faults, before, absent, h, t, k);
      var one := RollOne(faults, before, absent && k == h - 1, Rolled(q.step, map[]), k);
      r.step == one.step && r.lost == if k in one.lost then q.lost[k := one.lost[k]] else q.lost
  {
  }

  /** After operation `n` has raised in a guarded block from `from`, group `j` fails to be removed or restored. */
  predicate FailsToReturn(faults: nat -> Fault, before: seq<Option<Node>>, from: nat, n: nat, j: nat)
    requires |before| == GROUPS && from <= n
  {
    var h := StatesAt(before, n - from, |before|);
    var absent := h > 0 && n - from == MoveInStep(before, h - 1);
    GroupRaises(faults, before, absent, h, n + 1, j)
  }

  /** The guarded block raises, and after it the removal or the restoration of group `j` itself. */
  predicate LosesGroup(faults: nat -> Fault, before: seq<Option<Node>>, from: nat, j: nat)
    requires |before| == GROUPS
  {
    var n := FirstFault(faults, from + 1, GuardedSteps(before));
    faults(from).Works? && n < from + 1 + GuardedSteps(before) && FailsToReturn(faults, before, from + 1, n, j)
  }

  lemma {:induction false} FateLost(faults: nat -> Fault, before: seq<Option<Node>>, from: nat, j: nat)
    requires |before| == GROUPS
    ensures j in FateOf(faults, before, from).lost <==> LosesGroup(faults, before, from, j)
  {
    var n := FirstFault(faults, from + 1, GuardedSteps(before));
    RollLost(faults, before, from + 1, n, j);
  }

  lemma {:induction false} RollLost(faults: nat -> Fault, before: seq<Option<Node>>, from: nat, n: nat, j: nat)
    requires |before| == GROUPS && from <= n
    ensures j in RollAfter(faults, before, from, n - from).lost <==> FailsToReturn(faults, before, from, n, j)
  {
    var h := StatesAt(before, n - from, |before|);
    LostExactly(faults, before, h > 0 && n - from == MoveInStep(before, h - 1), h, n + 1, 0, j);
  }

  /** With four groups present: moving the first one in raises, and so does restoring it. */
  function TwoFaults(n: nat): Fault {
    if n == 9 || n == 11 then Raises(None) else Works
  }

  lemma {:induction false} TwoFaultsFate(before: seq<Option<Node>>)
    requires |before| == GROUPS && forall j | 0 <= j < GROUPS :: before[j].Some?
    ensures FateOf(TwoFaults, before, 0) == Fate(RollbackFailed, RollbackFailed, map[DATA := None], 14)
  {
    SwapStepsGrow(before, 0, |before|);
    assert SwapSteps(before, 1) == 4;
    assert Ran(TwoFaults, false, 1, 10, GuardedSteps(before));
    AttemptIs(TwoFaults, before, 1, 10, false);
    StatesAtIs(before, 8, 1, |before|);
    assert MoveInStep(before, 0) == 8;
    TwoFaultsRoll(before);
  }

  lemma {:induction false} TwoFaultsRoll(before: seq<Option<Node>>)
    requires |before| == GROUPS && before[DATA].Some?
    ensures var r := Roll(TwoFaults, before, true, 1, 10, 0);
      r == Rolled(12, map[DATA := None]) && RestoreModes(TwoFaults, before, r) == Restored(13, true)
  {
    assert Roll(TwoFaults, before, true, 1, 10, 1) == Rolled(10, map[]);
  }

  /** What is active after a publication. */
  function Sealed(candidate: seq<Node>): seq<Option<Node>>
    requires |candidate| == GROUPS
  {
    [Some(Node(candidate[0].content, READ_EXECUTE, true)), Some(candidate[1].(mode := READ_ONLY)),
     Some(candidate[2].(mode := READ_ONLY)), Some(candidate[3].(mode := OWNER_WRITE))]
  }

  class Repository {
    var active: seq<Option<Node>>
    var backup: seq<Option<Node>>
    var staged: seq<Option<Node>>
    var sourceMode: Mode
    var step: nat
    const faults: nat -> Fault
    ghost var history: seq<Snapshot>

    constructor (active: seq<Option<Node>>, sourceMode: Mode, faults: nat -> Fault)
      requires |active| == GROUPS
      ensures Valid() && Idle() && this.active == active && this.sourceMode == sourceMode && this.faults == faults
      ensures step == 0 && history == []
    {
      this.active, this.sourceMode, this.faults, step, history := active, sourceMode, faults, 0, [];
      backup, staged := [None, None, None, None], [None, None, None, None];
    }

    ghost predicate Valid() reads this {
      |active| == GROUPS && |backup| == GROUPS && |staged| == GROUPS
    }

    /** No publication directory exists. */
    ghost predicate Idle() reads this {
      Valid() && forall i | 0 <= i < GROUPS :: backup[i].None?
    }

    ghost function Snap(): Snapshot reads this {
      Snapshot(active, backup)
    }

    // ---------- file operations: each one may raise ----------

    /** The fate of the next operation. */
    method Operate() returns (ok: bool)
      modifies this`step
      ensures ok == faults(old(step)).Works? && step == old(step) + 1
    {
      ok := faults(step).Works?;
      step := step + 1;
    }

    /** An operation that only reads, or writes nothing the model holds. */
    method Other() returns (ok: bool)
      requires Valid()
      modifies this
      ensures Valid() && active == old(active) && backup == old(backup) && staged == old(staged)
      ensures sourceMode == old(sourceMode) && history == old(history) + [Snap()]
      ensures ok == faults(old(step)).Works? && step == old(step) + 1
    {
      ok := Operate();
      history := history + [Snap()];
    }

    /** `shutil.copytree(candidate_root, staging)` */
    method Stage(candidate: seq<Node>) returns (ok: bool)
      requires Valid() && |candidate| == GROUPS
      modifies this
      ensures Valid() && active == old(active) && backup == old(backup) && sourceMode == old(sourceMode)
      ensures ok ==> forall i | 0 <= i < GROUPS :: staged[i] == Some(candidate[i])
      ensures history == old(history) + [Snap()]
      ensures ok == faults(old(step)).Works? && step == old(step) + 1
    {
      ok := Operate();
      if ok {
        staged := [Some(candidate[0]), Some(candidate[1]), Some(candidate[2]), Some(candidate[3])];
      }
      history := history + [Snap()];
    }

    method ChmodStagedData() returns (ok: bool)
      requires Valid() && staged[DATA].Some?
      modifies this
      ensures Valid() && active == old(active) && backup == old(backup) && sourceMode == old(sourceMode)
      ensures forall i | 0 <= i < GROUPS :: SameGroup(i, staged[i], old(staged)[i])
      ensures history == old(history) + [Snap()]
      ensures ok == faults(old(step)).Works? && step == old(step) + 1
    {
      ok := Operate();
      if ok {
        var node := staged[DATA].value;
        staged := staged[DATA := Some(node.(mode := node.mode | OWNER_ACCESS))];
      }
      history := history + [Snap()];
    }

    method ChmodSource(mode: Mode) returns (ok: bool)
      requires Valid()
      modifies this
      ensures Valid() && active == old(active) && backup == old(backup) && staged == old(staged)
      ensures sourceMode == (if ok then mode else old(sourceMode))
      ensures history == old(history) + [Snap()]
      ensures ok == faults(old(step)).Works? && step == old(step) + 1
    {
      ok := Operate();
      if ok { sourceMode := mode; }
      history := history + [Snap()];
    }

    /** `chmod` of an active group. */
    method ChmodActive(i: nat, mode: Mode) returns (ok: bool)
      requires Valid() && i < GROUPS && active[i].Some?
      modifies this
      ensures Valid() && backup == old(backup) && staged == old(staged) && sourceMode == old(sourceMode)
      ensures ok ==> active == old(active)[i := Some(old(active)[i].value.(mode := mode))]
      ensures !ok ==> active == old(active)
      ensures history == old(history) + [Snap()]
      ensures ok == faults(old(step)).Works? && step == old(step) + 1
    {
      ok := Operate();
      if ok { active := active[i := Some(active[i].value.(mode := mode))]; }
      history := history + [Snap()];
    }

    /** `chmod(0o444)` of every workbook under the active data directory. */
    method SealWorkbooks() returns (ok: bool)
      requires Valid() && active[DATA].Some?
      modifies this
      ensures Valid() && backup == old(backup) && staged == old(staged) && sourceMode == old(sourceMode)
      ensures ok ==> active == old(active)[DATA := Some(old(active)[DATA].value.(sealed := true))]
      ensures !ok ==> active == old(active)
      ensures history == old(history) + [Snap()]
      ensures ok == faults(old(step)).Works? && step == old(step) + 1
    {
      ok := Operate();
      if ok { active := active[DATA := Some(active[DATA].value.(sealed := true))]; }
      history := history + [Snap()];
    }

    /** `os.replace(target, backup)` */
    method MoveAside(i: nat) returns (ok: bool)
      requires Valid() && i < GROUPS && active[i].Some?
      modifies this
      ensures Valid() && staged == old(staged) && sourceMode == old(sourceMode)
      ensures ok ==> active == old(active)[i := None] && backup == old(backup)[i := old(active)[i]]
      ensures !ok ==> active == old(active) && backup == old(backup)
      ensures history == old(history) + [Snap()]
      ensures ok == faults(old(step)).Works? && step == old(step) + 1
    {
      ok := Operate();
      if ok { active, backup := active[i := None], backup[i := active[i]]; }
      history := history + [Snap()];
    }

    /** `os.replace(source, target)` */
    method MoveIn(i: nat) returns (ok: bool)
      requires Valid() && i < GROUPS && staged[i].Some?
      modifies this
      ensures Valid() && backup == old(backup) && sourceMode == old(sourceMode)
      ensures ok ==> active == old(active)[i := old(staged)[i]] && staged == old(staged)[i := None]
      ensures !ok ==> active == old(active) && staged == old(staged)
      ensures history == old(history) + [Snap()]
      ensures ok == faults(old(step)).Works? && step == old(step) + 1
    {
      ok := Operate();
      if ok { active, staged := active[i := staged[i]], staged[i := None]; }
      history := history + [Snap()];
    }

    /** `_remove_path(target)`: nothing to do for a missing path; a failed removal may leave a residue. */
    method Remove(i: nat) returns (ok: bool)
      requires Valid() && i < GROUPS
      modifies this
      ensures Valid() && backup == old(backup) && staged == old(staged) && sourceMode == old(sourceMode)
      ensures ok == Removes(faults, old(active)[i].None?, old(step)) && step == old(step) + 1
      ensures active == old(active)[i := if ok then None else faults(old(step)).residue]
      ensures history == old(history) + [Snap()]
    {
      var absent := active[i].None?;
      ok := Operate();
      if absent { ok := true; }
      active := active[i := if ok then None else faults(step - 1).residue];
      history := history + [Snap()];
    }

    /** `os.replace(backup, target)` */
    method Restore(i: nat) returns (ok: bool)
      requires Valid() && i < GROUPS && backup[i].Some?
      modifies this
      ensures Valid() && staged == old(staged) && sourceMode == old(sourceMode)
      ensures ok ==> active == old(active)[i := old(backup)[i]] && backup == old(backup)[i := None]
      ensures !ok ==> active == old(active) && backup == old(backup)
      ensures history == old(history) + [Snap()]
      ensures ok == faults(old(step)).Works? && step == old(step) + 1
    {
      ok := Operate();
      if ok { active, backup := active[i := backup[i]], backup[i := None]; }
      history := history + [Snap()];
    }

    /** Leaving the `with` block deletes staging and every backup. */
    method Cleanup() returns (ok: bool)
      requires Valid()
      modifies this
      ensures Valid() && active == old(active) && sourceMode == old(sourceMode)
      ensures ok ==> Idle()
      ensures history == old(history) + [Snap()]
      ensures ok == faults(old(step)).Works? && step == old(step) + 1
    {
      ok := Operate();
      staged := [None, None, None, None];
      if ok { backup := [None, None, None, None]; }
      history := history + [Snap()];
    }

    // ---------- the guarded body ----------

    /** What rollback relies on: the first `|had|` groups are backed up, the others untouched. */
    ghost predicate Recoverable(had: seq<bool>, before: seq<Option<Node>>)
      requires |before| == GROUPS
      reads this
    {
      && Valid() && |had| <= GROUPS
      && (forall j | 0 <= j < |had| :: had[j] == before[j].Some? && SameGroup(j, backup[j], before[j]))
      && (forall j | |had| <= j < GROUPS :: SameGroup(j, active[j], before[j]) && backup[j].None?)
    }

    /** The first `n` groups hold staged candidate nodes. */
    ghost predicate Swapped(n: nat, candidate: seq<Node>)
      requires |candidate| == GROUPS && n <= GROUPS
      reads this
    {
      && Valid()
      && (forall j | 0 <= j < n :: SameGroup(j, active[j], Some(candidate[j])))
      && (forall j | n <= j < GROUPS :: SameGroup(j, staged[j], Some(candidate[j])))
    }

    /** Where a swap stopped when operation `o` of group `i` raised. */
    ghost predicate Paused(had: seq<bool>, before: seq<Option<Node>>, i: nat, o: int)
      requires Valid() && |before| == GROUPS && i < GROUPS
      reads this
    {
      && 0 <= o < 3 + Bit(before[i].Some?)
      && |had| == i + Bit(o >= 1 + Bit(before[i].Some?))
      && (forall j | 0 <= j < i :: active[j].Some?)
      && (|had| == i + 1 ==> (active[i].None? <==> o == 1 + Bit(before[i].Some?)))
    }

    /** Where the guarded block stopped when its operation `o` raised: the groups in `states`, of which the last is
        absent when it was being moved in. */
    ghost predicate Halted(had: seq<bool>, before: seq<Option<Node>>, o: int)
      requires Valid() && |before| == GROUPS
      reads this
    {
      && o >= 0 && |had| == StatesAt(before, o, |before|)
      && forall j | 0 <= j < |had| :: active[j].None? <==> j == |had| - 1 && o == MoveInStep(before, j)
    }

    lemma {:induction false} PrepareHalts(before: seq<Option<Node>>, o: nat)
      requires Valid() && |before| == GROUPS && o < PrepareSteps(before)
      ensures Halted([], before, o)
    {
      StatesAtIs(before, o, 0, |before|);
    }

    lemma {:induction false} SealHalts(had: seq<bool>, before: seq<Option<Node>>, o: nat)
      requires Valid() && |before| == GROUPS && |had| == GROUPS && o >= PrepareSteps(before) + SwapSteps(before, |before|)
      requires forall j | 0 <= j < GROUPS :: active[j].Some?
      ensures Halted(had, before, o)
    {
      StatesAtIs(before, o, GROUPS, |before|);
    }

    lemma {:induction false} SwapHalts(had: seq<bool>, before: seq<Option<Node>>, i: nat, from: nat, mid: nat)
      requires Valid() && |before| == GROUPS && i < GROUPS && mid == from + SwapSteps(before, i)
      requires Paused(had, before, i, step - 1 - mid)
      ensures Halted(had, before, PrepareSteps(before) + step - 1 - from)
    {
      PausedHalts(had, before, i, step - 1 - mid);
    }

    lemma {:induction false} PausedHalts(had: seq<bool>, before: seq<Option<Node>>, i: nat, o: int)
      requires Valid() && |before| == GROUPS && i < GROUPS && Paused(had, before, i, o)
      ensures Halted(had, before, PrepareSteps(before) + SwapSteps(before, i) + o)
    {
      StatesAtIs(before, PrepareSteps(before) + SwapSteps(before, i) + o, |had|, |before|);
    }

    /** Up to the staged copy. */
    method StageCandidate(candidate: seq<Node>, ghost before: seq<Option<Node>>, ghost start: nat) returns (ok: bool)
      requires Idle() && |candidate| == GROUPS && |before| == GROUPS && active == before
      requires AllPreserved(history, start, before)
      modifies this
      ensures Idle() && active == before && sourceMode == old(sourceMode) && AllPreserved(history, start, before)
      ensures ok ==> Swapped(0, candidate)
      ensures Ran(faults, ok, old(step), step, 3)
    {
      ok := Stage(candidate);
      if !ok { return; }
      ok := Other();
      if !ok { return; }
      ok := ChmodStagedData();
    }

    /** Owner access for the two directories, and the directory for the backups. */
    method OpenDirectories(dataMode: Option<Mode>, ghost before: seq<Option<Node>>, ghost start: nat) returns (ok: bool)
      requires Idle() && |before| == GROUPS && active == before && (dataMode.Some? <==> active[DATA].Some?)
      requires AllPreserved(history, start, before)
      modifies this
      ensures Recoverable([], before) && AllPreserved(history, start, before) && staged == old(staged)
      ensures Ran(faults, ok, old(step), step, 2 + Bit(dataMode.Some?))
    {
      ok := ChmodSource(sourceMode | OWNER_ACCESS);
      if !ok { return; }
      if dataMode.Some? {
        ok := ChmodActive(DATA, dataMode.value | OWNER_ACCESS);
        if !ok { return; }
      }
      ok := Other();
    }

    method Prepare(candidate: seq<Node>, dataMode: Option<Mode>, ghost before: seq<Option<Node>>, ghost start: nat)
      returns (ok: bool)
      requires Idle() && |candidate| == GROUPS && |before| == GROUPS && active == before
      requires dataMode.Some? <==> active[DATA].Some?
      requires AllPreserved(history, start, before)
      modifies this
      ensures Recoverable([], before) && AllPreserved(history, start, before)
      ensures ok ==> Swapped(0, candidate)
      ensures Ran(faults, ok, old(step), step, PrepareSteps(before))
    {
      ok := StageCandidate(candidate, before, start);
      if !ok {
        RanShort(faults, old(step), step, 3, 2 + Bit(dataMode.Some?));
        return;
      }
      ghost var mid := step;
      ok := OpenDirectories(dataMode, before, start);
      RanThen(faults, old(step), mid, step, 3, 2 + Bit(dataMode.Some?), ok);
    }

    /** The first half of a swap; the group joins `had` as soon as its target has been moved aside. */
    method SetAside(i: nat, candidate: seq<Node>, had: seq<bool>, ghost before: seq<Option<Node>>, ghost start: nat)
      returns (ok: bool, grown: seq<bool>)
      requires |candidate| == GROUPS && |before| == GROUPS && i < GROUPS && |had| == i
      requires Recoverable(had, before) && Swapped(i, candidate) && AllPreserved(history, start, before)
      modifies this
      ensures Recoverable(grown, before) && AllPreserved(history, start, before)
      ensures Swapped(i, candidate) && |grown| == i + Bit(ok)
      ensures ok ==> active[i].None?
      ensures Ran(faults, ok, old(step), step, 1 + Bit(before[i].Some?))
    {
      grown := had;
      ok := Other();
      if !ok { return; }
      var hadTarget := active[i].Some?;
      if hadTarget {
        ok := MoveAside(i);
        if !ok { return; }
      }
      grown := had + [hadTarget];
    }

    /** One iteration of the swap loop. */
    method SwapGroup(i: nat, candidate: seq<Node>, had: seq<bool>, ghost before: seq<Option<Node>>, ghost start: nat)
      returns (ok: bool, grown: seq<bool>)
      requires |candidate| == GROUPS && |before| == GROUPS && i < GROUPS && |had| == i
      requires Recoverable(had, before) && Swapped(i, candidate) && AllPreserved(history, start, before)
      modifies this
      ensures Recoverable(grown, before) && AllPreserved(history, start, before)
      ensures ok ==> |grown| == i + 1 && Swapped(i + 1, candidate)
      ensures !ok ==> Paused(grown, before, i, step - 1 - old(step))
      ensures Ran(faults, ok, old(step), step, 3 + Bit(before[i].Some?))
    {
      ok, grown := SetAside(i, candidate, had, before, start);
      if !ok { return; }
      ok := MoveIn(i);
      if !ok { return; }
      ok := Other();
    }

    /** The swap loop that began at operation `from` has come to group `i`. */
    ghost predicate Swapping(
      had: seq<bool>, before: seq<Option<Node>>, candidate: seq<Node>, start: nat, i: nat, from: nat)
      requires |candidate| == GROUPS && |before| == GROUPS && i <= GROUPS
      reads this
    {
      && |had| == i && Recoverable(had, before) && Swapped(i, candidate) && AllPreserved(history, start, before)
      && Ran(faults, true, from, step, SwapSteps(before, i))
    }

    /** The swap loop that began at operation `from` has raised. */
    ghost predicate SwapRaised(had: seq<bool>, before: seq<Option<Node>>, start: nat, from: nat)
      requires |before| == GROUPS
      reads this
    {
      && Recoverable(had, before) && AllPreserved(history, start, before)
      && Halted(had, before, PrepareSteps(before) + step - 1 - from)
      && Ran(faults, false, from, step, SwapSteps(before, |before|))
    }

    /** One iteration, in a loop that began at operation `from`. */
    method SwapNext(
      i: nat, candidate: seq<Node>, had: seq<bool>, ghost before: seq<Option<Node>>, ghost start: nat, ghost from: nat)
      returns (ok: bool, grown: seq<bool>)
      requires |candidate| == GROUPS && |before| == GROUPS && i < GROUPS && Swapping(had, before, candidate, start, i, from)
      modifies this
      ensures if ok then Swapping(grown, before, candidate, start, i + 1, from) else SwapRaised(grown, before, start, from)
    {
      ghost var mid := step;
      ok, grown := SwapGroup(i, candidate, had, before, start);
      SwapRan(faults, before, from, mid, step, i, ok);
      if !ok { SwapHalts(grown, before, i, from, mid); }
    }

    /** The swap loop; `had` is the source's `states` list. */
    method SwapGroups(candidate: seq<Node>, ghost before: seq<Option<Node>>, ghost start: nat)
      returns (ok: bool, had: seq<bool>)
      requires |candidate| == GROUPS && |before| == GROUPS
      requires Recoverable([], before) && Swapped(0, candidate) && AllPreserved(history, start, before)
      modifies this
      ensures if ok then Swapping(had, before, candidate, start, GROUPS, old(step)) else SwapRaised(had, before, start, old(step))
    {
      had := [];
      for i := 0 to GROUPS
        invariant Swapping(had, before, candidate, start, i, old(step))
      {
        ok, had := SwapNext(i, candidate, had, before, start, old(step));
        if !ok { return; }
      }
      ok := true;
    }

    /** Read-only workbooks and source-material files. */
    method SealFiles(candidate: seq<Node>, had: seq<bool>, ghost before: seq<Option<Node>>, ghost start: nat)
      returns (ok: bool)
      requires |candidate| == GROUPS && |before| == GROUPS && |had| == GROUPS
      requires Recoverable(had, before) && Swapped(GROUPS, candidate) && AllPreserved(history, start, before)
      modifies this
      ensures Recoverable(had, before) && AllPreserved(history, start, before)
      ensures ok ==> FilesSealed(candidate)
      ensures forall j | 0 <= j < GROUPS :: active[j].Some?
      ensures Ran(faults, ok, old(step), step, 3)
    {
      ok := SealWorkbooks();
      if !ok { return; }
      ok := ChmodActive(1, READ_ONLY);
      if !ok { return; }
      ok := ChmodActive(2, READ_ONLY);
    }

    /** What the files look like once they are sealed. */
    ghost predicate FilesSealed(candidate: seq<Node>)
      requires Valid() && |candidate| == GROUPS
      reads this
    {
      && SameTree(active[DATA], Some(candidate[DATA].(sealed := true)))
      && active[1] == Some(candidate[1].(mode := READ_ONLY)) && active[2] == Some(candidate[2].(mode := READ_ONLY))
      && active[AUDIT] == Some(candidate[AUDIT])
    }

    method SealDirectories(candidate: seq<Node>, had: seq<bool>, ghost before: seq<Option<Node>>, ghost start: nat)
      returns (ok: bool)
      requires |candidate| == GROUPS && |before| == GROUPS && |had| == GROUPS
      requires Recoverable(had, before) && FilesSealed(candidate) && AllPreserved(history, start, before)
      modifies this
      ensures Recoverable(had, before) && AllPreserved(history, start, before)
      ensures ok ==> sourceMode == READ_EXECUTE && active == Sealed(candidate)
      ensures forall j | 0 <= j < GROUPS :: active[j].Some?
      ensures Ran(faults, ok, old(step), step, 3)
    {
      ok := ChmodActive(AUDIT, OWNER_WRITE);
      if !ok { return; }
      ok := ChmodActive(DATA, READ_EXECUTE);
      if !ok { return; }
      ok := ChmodSource(READ_EXECUTE);
    }

    method SealPermissions(candidate: seq<Node>, had: seq<bool>, ghost before: seq<Option<Node>>, ghost start: nat)
      returns (ok: bool)
      requires |candidate| == GROUPS && |before| == GROUPS && |had| == GROUPS
      requires Recoverable(had, before) && Swapped(GROUPS, candidate) && AllPreserved(history, start, before)
      modifies this
      ensures Recoverable(had, before) && AllPreserved(history, start, before)
      ensures ok ==> sourceMode == READ_EXECUTE && active == Sealed(candidate)
      ensures forall j | 0 <= j < GROUPS :: active[j].Some?
      ensures Ran(faults, ok, old(step), step, 6)
    {
      ok := SealFiles(candidate, had, before, start);
      if !ok {
        RanShort(faults, old(step), step, 3, 3);
        return;
      }
      ghost var mid := step;
      ok := SealDirectories(candidate, had, before, start);
      RanThen(faults, old(step), mid, step, 3, 3, ok);
    }

    /** Up to the end of the swap loop. */
    method Exchange(candidate: seq<Node>, dataMode: Option<Mode>, ghost before: seq<Option<Node>>, ghost start: nat)
      returns (ok: bool, had: seq<bool>)
      requires Idle() && |candidate| == GROUPS && |before| == GROUPS && active == before
      requires dataMode.Some? <==> active[DATA].Some?
      requires AllPreserved(history, start, before)
      modifies this
      ensures if ok then Exchanged(had, before, candidate, start, old(step)) else Raised(had, before, start, old(step))
    {
      had := [];
      ok := Prepare(candidate, dataMode, before, start);
      if !ok {
        PrepareRaised(before, start, old(step));
        return;
      }
      ghost var mid := step;
      ok, had := SwapGroups(candidate, before, start);
      if ok {
        ExchangeDone(had, before, candidate, start, old(step), mid);
      } else {
        ExchangeRaised(had, before, start, old(step), mid);
      }
    }

    /** All groups are swapped, in a guarded block that began at operation `from`. */
    ghost predicate Exchanged(had: seq<bool>, before: seq<Option<Node>>, candidate: seq<Node>, start: nat, from: nat)
      requires |candidate| == GROUPS && |before| == GROUPS
      reads this
    {
      && |had| == GROUPS && Recoverable(had, before) && Swapped(GROUPS, candidate) && AllPreserved(history, start, before)
      && Ran(faults, true, from, step, PrepareSteps(before) + SwapSteps(before, |before|))
    }

    /** A guarded block that began at operation `from` has raised. */
    ghost predicate Raised(had: seq<bool>, before: seq<Option<Node>>, start: nat, from: nat)
      requires |before| == GROUPS
      reads this
    {
      && Recoverable(had, before) && AllPreserved(history, start, before)
      && Halted(had, before, step - 1 - from)
      && Ran(faults, false, from, step, GuardedSteps(before))
    }

    lemma {:induction false} PrepareRaised(before: seq<Option<Node>>, start: nat, from: nat)
      requires |before| == GROUPS && Recoverable([], before) && AllPreserved(history, start, before)
      requires Ran(faults, false, from, step, PrepareSteps(before))
      ensures Raised([], before, start, from)
    {
      RanShort(faults, from, step, PrepareSteps(before), SwapSteps(before, |before|) + 6);
      PrepareHalts(before, step - 1 - from);
    }

    lemma {:induction false} ExchangeDone(
      had: seq<bool>, before: seq<Option<Node>>, candidate: seq<Node>, start: nat, from: nat, mid: nat)
      requires |candidate| == GROUPS && |before| == GROUPS && Ran(faults, true, from, mid, PrepareSteps(before))
      requires Swapping(had, before, candidate, start, GROUPS, mid)
      ensures Exchanged(had, before, candidate, start, from)
    {
      RanThen(faults, from, mid, step, PrepareSteps(before), SwapSteps(before, |before|), true);
    }

    lemma {:induction false} ExchangeRaised(had: seq<bool>, before: seq<Option<Node>>, start: nat, from: nat, mid: nat)
      requires |before| == GROUPS && mid == from + PrepareSteps(before) && Ran(faults, true, from, mid, PrepareSteps(before))
      requires SwapRaised(had, before, start, mid)
      ensures Raised(had, before, start, from)
    {
      RanRaised(faults, from, mid, step, PrepareSteps(before), SwapSteps(before, |before|), 6);
    }

    /** The body of the `try` block. */
    method Guarded(candidate: seq<Node>, dataMode: Option<Mode>, ghost before: seq<Option<Node>>, ghost start: nat)
      returns (ok: bool, had: seq<bool>)
      requires Idle() && |candidate| == GROUPS && |before| == GROUPS && active == before
      requires dataMode.Some? <==> active[DATA].Some?
      requires AllPreserved(history, start, before)
      modifies this
      ensures ok ==> sourceMode == READ_EXECUTE && active == Sealed(candidate)
      ensures ok ==> Valid() && AllPreserved(history, start, before) && Ran(faults, true, old(step), step, GuardedSteps(before))
      ensures !ok ==> Raised(had, before, start, old(step))
    {
      ok, had := Exchange(candidate, dataMode, before, start);
      if !ok { return; }
      ghost var mid := step;
      ok := SealPermissions(candidate, had, before, start);
      RanThen(faults, old(step), mid, step, PrepareSteps(before) + SwapSteps(before, |before|), 6, ok);
      if !ok { SealHalts(had, before, step - 1 - old(step)); }
    }

    // ---------- rollback ----------

    /** The rollback of one group. */
    method RollBackGroup(i: nat, hadTarget: bool, ghost before: seq<Option<Node>>, ghost start: nat) returns (ok: bool)
      requires Valid() && |before| == GROUPS && i < GROUPS
      requires hadTarget == before[i].Some? && SameGroup(i, backup[i], before[i])
      requires AllPreserved(history, start, before) && Preserved(Snap(), before)
      modifies this
      ensures Valid() && sourceMode == old(sourceMode) && AllPreserved(history, start, before)
      ensures Preserved(Snap(), before)
      ensures forall j | 0 <= j < GROUPS && j != i :: active[j] == old(active)[j] && backup[j] == old(backup)[j]
      ensures ok ==> SameGroup(i, active[i], before[i])
      ensures var one := RollOne(faults, before, old(active)[i].None?, Rolled(old(step), map[]), i);
        step == one.step && (ok <==> i !in one.lost) && (!ok ==> active[i] == one.lost[i])
    {
      ok := Remove(i);
      if ok && hadTarget && backup[i].Some? {
        ok := Restore(i);
      }
    }

    /** The groups below `n` still wait for their rollback, the others are restored or lost as `r` tells. */
    ghost predicate Rolling(had: seq<bool>, absent: bool, before: seq<Option<Node>>, failed: set<nat>, r: Rolled, n: nat)
      requires |before| == GROUPS
      reads this
    {
      && Valid() && n <= |had| <= GROUPS && Preserved(Snap(), before)
      && (forall j | 0 <= j < n :: had[j] == before[j].Some? && SameGroup(j, backup[j], before[j]))
      && (forall j | 0 <= j < n :: active[j].None? <==> absent && j == |had| - 1)
      && (forall j | n <= j < GROUPS && j !in failed :: SameGroup(j, active[j], before[j]))
      && RolledTo(r, failed, n)
    }

    /** One iteration of the reverse loop; the failure of a group is remembered. */
    method RollBackNext(
      had: seq<bool>, ghost absent: bool, n: nat, failed: set<nat>, ghost q: Rolled, ghost before: seq<Option<Node>>,
      ghost start: nat)
      returns (grown: set<nat>)
      requires |before| == GROUPS && n < |had| && Rolling(had, absent, before, failed, q, n + 1)
      requires AllPreserved(history, start, before)
      modifies this
      ensures sourceMode == old(sourceMode) && AllPreserved(history, start, before)
      ensures var one := RollOne(faults, before, absent && n == |had| - 1, Rolled(q.step, map[]), n);
        Rolling(had, absent, before, grown, Rolled(one.step, if n in one.lost then q.lost[n := one.lost[n]] else q.lost), n)
    {
      var ok := RollBackGroup(n, had[n], before, start);
      grown := if ok then failed else failed + {n};
    }

    /** The reverse loop over `states`, which goes on after a failed group. */
    method RollBackGroups(had: seq<bool>, ghost absent: bool, ghost before: seq<Option<Node>>, ghost start: nat)
      returns (failed: set<nat>)
      requires |before| == GROUPS && Recoverable(had, before) && AllPreserved(history, start, before)
      requires forall j | 0 <= j < |had| :: active[j].None? <==> absent && j == |had| - 1
      modifies this
      ensures Valid() && sourceMode == old(sourceMode) && AllPreserved(history, start, before)
      ensures Preserved(Snap(), before)
      ensures forall j | 0 <= j < GROUPS && j !in failed :: SameGroup(j, active[j], before[j])
      ensures RolledTo(Roll(faults, before, absent, |had|, old(step), 0), failed, 0)
    {
      failed := {};
      var n: nat := |had|;
      while n > 0
        invariant n <= |had| <= GROUPS && sourceMode == old(sourceMode) && AllPreserved(history, start, before)
        invariant Rolling(had, absent, before, failed, Roll(faults, before, absent, |had|, old(step), n), n)
      {
        n := n - 1;
        RollNext(faults, before, absent, |had|, old(step), n);
        failed := RollBackNext(had, absent, n, failed, Roll(faults, before, absent, |had|, old(step), n + 1), before, start);
      }
    }

    /** The repository stands where the rollback of the groups from `n` on has come. */
    ghost predicate RolledTo(r: Rolled, failed: set<nat>, n: nat)
      requires Valid()
      reads this
    {
      step == r.step && failed == r.lost.Keys && forall j | j in failed :: n <= j < GROUPS && active[j] == r.lost[j]
    }

    /** The two directory modes are put back. */
    method RestoreDirectories(
      dataMode: Option<Mode>, sourceModeBefore: Mode, ghost before: seq<Option<Node>>, ghost start: nat, ghost r: Rolled)
      returns (ok: bool)
      requires Valid() && |before| == GROUPS && AllPreserved(history, start, before) && Preserved(Snap(), before)
      requires dataMode == if before[DATA].Some? then Some(before[DATA].value.mode) else None
      requires step == r.step && SameGroup(DATA, active[DATA], if DATA in r.lost then r.lost[DATA] else before[DATA])
      modifies this
      ensures Valid() && AllPreserved(history, start, before)
      ensures RestoreModes(faults, before, r) == Restored(step, ok)
      ensures SameTree(active[DATA], old(active)[DATA]) && active[1..] == old(active)[1..]
      ensures ok ==> sourceMode == sourceModeBefore
      ensures ok && before[DATA].Some? && active[DATA].Some? ==> active[DATA].value.mode == before[DATA].value.mode
    {
      ok := true;
      if dataMode.Some? && active[DATA].Some? {
        ok := ChmodActive(DATA, dataMode.value);
      }
      if ok {
        ok := ChmodSource(sourceModeBefore);
      }
    }

    /** Rollback of the groups, then of the two directory modes. */
    method RollBack(
      had: seq<bool>, dataMode: Option<Mode>, sourceModeBefore: Mode, ghost absent: bool, ghost before: seq<Option<Node>>,
      ghost start: nat)
      returns (failed: set<nat>, clean: bool)
      requires |before| == GROUPS && Recoverable(had, before) && AllPreserved(history, start, before)
      requires forall j | 0 <= j < |had| :: active[j].None? <==> absent && j == |had| - 1
      requires dataMode == if before[DATA].Some? then Some(before[DATA].value.mode) else None
      modifies this
      ensures Valid() && AllPreserved(history, start, before)
      ensures clean ==> active == before && sourceMode == sourceModeBefore
      ensures forall j | 0 <= j < GROUPS && j !in failed :: SameGroup(j, active[j], before[j])
      ensures var r := Roll(faults, before, absent, |had|, old(step), 0); var m := RestoreModes(faults, before, r);
        && step == m.step && (clean <==> r.lost == map[] && m.ok) && failed == r.lost.Keys
        && forall j | j in failed :: j < GROUPS && SameGroup(j, active[j], r.lost[j])
    {
      failed := RollBackGroups(had, absent, before, start);
      var ok := RestoreDirectories(dataMode, sourceModeBefore, before, start,
                                   Roll(faults, before, absent, |had|, old(step), 0));
      clean := failed == {} && ok;
    }

    /** The repository after a run with this verdict and these losses: the candidate, the groups as they were, or all
        but the lost ones. */
    ghost predicate Left(
      verdict: Outcome, lost: map<nat, Option<Node>>, to: nat, before: seq<Option<Node>>, modeBefore: Mode,
      candidate: seq<Node>, failed: set<nat>)
      requires |before| == GROUPS && |candidate| == GROUPS
      reads this
    {
      && Valid() && step == to && failed == lost.Keys
      && (verdict == Published ==> sourceMode == READ_EXECUTE && active == Sealed(candidate))
      && (verdict == Rejected || verdict == PublishFailed ==> active == before && sourceMode == modeBefore)
      && (verdict == RollbackFailed ==>
            forall j | 0 <= j < GROUPS :: SameGroup(j, active[j], if j in lost then lost[j] else before[j]))
    }

    /** The `except` block, after operation `o` of a guarded block that began at `from`. */
    method Recover(
      candidate: seq<Node>, had: seq<bool>, dataMode: Option<Mode>, sourceModeBefore: Mode, ghost before: seq<Option<Node>>,
      ghost start: nat, ghost from: nat, ghost o: nat)
      returns (verdict: Outcome, failed: set<nat>)
      requires |before| == GROUPS && |candidate| == GROUPS && Recoverable(had, before) && Halted(had, before, o)
      requires AllPreserved(history, start, before) && step == from + o + 1
      requires dataMode == if before[DATA].Some? then Some(before[DATA].value.mode) else None
      modifies this
      ensures AllPreserved(history, start, before)
      ensures verdict == RecoveryFate(faults, before, from, o).verdict
      ensures var fate := RecoveryFate(faults, before, from, o);
        Left(verdict, fate.lost, fate.step, before, sourceModeBefore, candidate, failed)
    {
      var clean;
      failed, clean := RollBack(had, dataMode, sourceModeBefore, |had| > 0 && o == MoveInStep(before, |had| - 1), before, start);
      verdict := if clean then PublishFailed else RollbackFailed;
    }

    /** The `with` block up to its end: the guarded block up to operation `stop`, and rollback when it raises. */
    method Attempt(candidate: seq<Node>, ghost start: nat) returns (verdict: Outcome, failed: set<nat>, ghost stop: nat)
      requires Idle() && |candidate| == GROUPS && AllPreserved(history, start, active)
      modifies this
      ensures AllPreserved(history, start, old(active))
      ensures Ran(faults, verdict == Published, old(step), stop, GuardedSteps(old(active)))
      ensures var fate := AttemptEnd(faults, old(active), old(step), stop, verdict == Published);
        verdict == fate.verdict && Left(verdict, fate.lost, fate.step, old(active), old(sourceMode), candidate, failed)
    {
      var sourceModeBefore := sourceMode;
      var dataMode := if active[DATA].Some? then Some(active[DATA].value.mode) else None;
      var ok, had := Guarded(candidate, dataMode, active, start);
      stop := step;
      if ok { return Published, {}, stop; }
      verdict, failed := Recover(candidate, had, dataMode, sourceModeBefore, old(active), start, old(step), step - 1 - old(step));
    }

    /** The `with` block and its end; the end hides the verdict when it raises. */
    method InDirectory(candidate: seq<Node>, ghost start: nat) returns (outcome: Outcome, verdict: Outcome, failed: set<nat>)
      requires Idle() && |candidate| == GROUPS && AllPreserved(history, start, active)
      modifies this
      ensures var a := AttemptFate(faults, old(active), old(step));
        && verdict == a.verdict && outcome == (if faults(a.step).Works? then verdict else CleanupFailed)
        && Left(verdict, a.lost, a.step + 1, old(active), old(sourceMode), candidate, failed)
      ensures outcome != CleanupFailed ==> Idle()
      ensures |history| > start && AllPreserved(history[..|history| - 1], start, old(active))
    {
      ghost var stop;
      verdict, failed, stop := Attempt(candidate, start);
      AttemptIs(faults, old(active), old(step), stop, verdict == Published);
      ghost var recorded := history;
      var ok := Cleanup();
      assert history[..|history| - 1] == recorded;
      outcome := if ok then verdict else CleanupFailed;
    }

    /** `publish_candidate`. `Published` is the normal return; every other outcome is an exception. Everything follows
        from the faults: the outcome, the number of operations, and which groups are lost. A failed rollback loses
        exactly the groups whose own removal or restoration raised, because the backups are deleted with the temporary
        directory; up to that deletion every earlier group is active or in its backup. `verdict` is the outcome the
        guarded block reached; an error of the deletion hides it and changes no active path. */
    method Publish(candidate: seq<Node>) returns (outcome: Outcome, verdict: Outcome, failed: set<nat>)
      requires Idle() && |candidate| == GROUPS
      modifies this
      ensures var fate := FateOf(faults, old(active), old(step));
        && outcome == fate.outcome && verdict == fate.verdict
        && Left(verdict, fate.lost, fate.step, old(active), old(sourceMode), candidate, failed)
      ensures outcome != CleanupFailed ==> Idle()
      ensures |history| > |old(history)|
      ensures AllPreserved(history[..|history| - 1], |old(history)|, old(active))
    {
      ghost var start := |history|;
      var ok := Other();
      if !ok { return Rejected, Rejected, {}; }
      outcome, verdict, failed := InDirectory(candidate, start);
    }
  }

  /** The failure shown: after these two faults the first group is neither active nor in a backup. */
  method LoseGroup(before: seq<Option<Node>>, sourceMode: Mode, candidate: seq<Node>)
    returns (repository: Repository, outcome: Outcome, failed: set<nat>)
    requires |before| == GROUPS && |candidate| == GROUPS && forall j | 0 <= j < GROUPS :: before[j].Some?
    ensures outcome == RollbackFailed && failed == {DATA} && repository.Idle()
    ensures repository.active[DATA].None? && repository.active[1..] == before[1..]
  {
    TwoFaultsFate(before);
    repository := new Repository(before, sourceMode, TwoFaults);
    var verdict;
    outcome, verdict, failed := repository.Publish(candidate);
    assert repository.active[1] == before[1] && repository.active[2] == before[2] && repository.active[3] == before[3];
  }
}
