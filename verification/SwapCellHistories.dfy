/** Reads and read-copy-updates over whole runs: a load returns a value the cell held
    while the call ran, updates compose in the order their writes land, and every retry of
    either is paid for by a write. */
module SwapCellHistories {
  import opened Options
  import opened SwapCellMachine

  // ---------------------------------------------------------------- loads

  ghost predicate InLoad(s: State, t: nat, c: nat) {
    t < |s.threads| && (s.threads[t].pc.Acquire? || s.threads[t].pc.Load?) && s.threads[t].pc.cell == c
  }

  /** A load of `c` by `t` that begins with state `i` and is still running in state `n`. */
  ghost predicate LoadCall(run: seq<State>, acts: seq<Action>, t: nat, c: nat, i: nat, n: nat) {
    && IsRun(run, acts) && 0 < i <= n < |run| && acts[i - 1] == BeginLoad(t, c)
    && forall k :: i <= k <= n ==> InLoad(run[k], t, c)
  }

  /** The cell held `v` in some state from `i` to `n`. */
  ghost predicate HeldDuring(run: seq<State>, c: nat, v: Option<Val>, i: nat, n: nat) {
    exists m :: i <= m <= n && m < |run| && c in run[m].cells && run[m].cells[c] == v
  }

  /** The load at `pc` works with `v`, read from the cell. */
  predicate WorksWith(pc: Pc, v: Option<Val>) {
    pc.Load? && !pc.load.ReadCell? && (v == Some(pc.load.v) || (pc.load.TakeBack? && v == pc.load.current))
  }

  predicate Moves(a: Action, t: nat) {
    (a.BeginLoad? || a.Swap? || a.CompareAndSet? || a.DropGuard? || a.GiveBack? || a.Advance? || a.WeakFail?) && a.t == t
  }

  lemma AcquireElsewhere(s: State, u: nat, c: nat, acq: AcquirePc)
    requires u < |s.threads| && RecordsOk(s) && AcquireOk(s.records, acq)
    ensures Others(s.threads, AcquireStep(s, u, c, acq).threads, u) && AcquireStep(s, u, c, acq).cells == s.cells
  {
  }

  lemma LoadElsewhere(s: State, u: nat, c: nat, r: nat, load: LoadPc)
    requires u < |s.threads| && c in s.cells && LoadOk(s.records, |s.strong|, r, load)
    ensures Others(s.threads, LoadStep(s, u, c, r, load).threads, u) && LoadStep(s, u, c, r, load).cells == s.cells
  {
  }

  lemma PayElsewhere(s: State, u: nat, c: nat, x: Val, pay: PayPc)
    requires u < |s.threads| && x < |s.strong| && RecordsOk(s) && PayOk(s.records, pay)
    ensures Others(s.threads, PayStep(s, u, c, x, pay).threads, u) && PayStep(s, u, c, x, pay).cells == s.cells
  {
  }

  lemma DropElsewhere(s: State, u: nat, r: nat, drop: DropPc)
    requires u < |s.threads| && DropOk(s.records, |s.strong|, r, drop)
    ensures Others(s.threads, DropStep(s, u, r, drop).threads, u) && DropStep(s, u, r, drop).cells == s.cells
  {
  }

  /** Threads but `u` are as they were. */
  ghost predicate Others(before: seq<Thread>, after: seq<Thread>, u: nat) {
    |after| == |before| && forall t :: 0 <= t < |before| && t != u ==> after[t] == before[t]
  }

  lemma StepElsewhere(s: State, u: nat)
    requires WellFormed(s) && u < |s.threads|
    ensures Others(s.threads, Step(s, u).threads, u) && Step(s, u).cells == s.cells
  {
    assert PcOk(s.cells.Keys, s.records, |s.strong|, s.threads[u].pc);
    match s.threads[u].pc
    case Idle =>
    case Acquire(c, acq) => AcquireElsewhere(s, u, c, acq);
    case Load(c, r, load) => LoadElsewhere(s, u, c, r, load);
    case Pay(c, x, pay) => PayElsewhere(s, u, c, x, pay);
    case Drop(r, drop) => DropElsewhere(s, u, r, drop);
  }

  lemma BeginsElsewhere(s: State, u: nat, c: nat, v: Option<Val>, g: nat)
    requires WellFormed(s) && u < |s.threads|
    ensures Others(s.threads, BeginLoadStep(s, u, c).threads, u)
    ensures Others(s.threads, GiveBackStep(s, u).threads, u)
    ensures c in s.cells ==> Others(s.threads, WriteStep(s, u, c, v).threads, u)
    ensures g in s.guards ==> Others(s.threads, DropGuardStep(s, u, g).threads, u)
  {
  }

  /** A thread stays where it is while others act. */
  lemma Elsewhere(s: State, a: Action, t: nat)
    requires WellFormed(s) && Enabled(s, a) && t < |s.threads| && !Moves(a, t)
    ensures t < |Next(s, a).threads| && Next(s, a).threads[t] == s.threads[t]
  {
    match a
    case Advance(u) => StepElsewhere(s, u);
    case BeginLoad(u, c) => BeginsElsewhere(s, u, c, None, 0);
    case GiveBack(u) => BeginsElsewhere(s, u, 0, None, 0);
    case Swap(u, c, v) => BeginsElsewhere(s, u, c, v, 0);
    case CompareAndSet(u, c, _, v) => BeginsElsewhere(s, u, c, v, 0);
    case DropGuard(u, g) => BeginsElsewhere(s, u, 0, None, g);
    case _ =>
  }

  lemma LoadStepReads(s: State, t: nat, c: nat, r: nat, load: LoadPc, v: Option<Val>)
    requires t < |s.threads| && c in s.cells && LoadOk(s.records, |s.strong|, r, load)
    requires WorksWith(LoadStep(s, t, c, r, load).threads[t].pc, v)
    ensures WorksWith(Load(c, r, load), v) || s.cells[c] == v
  {
  }

  lemma AcquireStepReads(s: State, t: nat, c: nat, acq: AcquirePc, v: Option<Val>)
    requires t < |s.threads| && RecordsOk(s) && AcquireOk(s.records, acq)
    ensures !WorksWith(AcquireStep(s, t, c, acq).threads[t].pc, v)
  {
  }

  /** What a load works with after a step it worked with before, or has just read. */
  lemma LoadReads(s: State, a: Action, t: nat, c: nat, v: Option<Val>)
    requires WellFormed(s) && Enabled(s, a) && InLoad(s, t, c)
    requires t < |Next(s, a).threads| && WorksWith(Next(s, a).threads[t].pc, v)
    ensures WorksWith(s.threads[t].pc, v) || (c in s.cells && s.cells[c] == v)
  {
    if !Moves(a, t) {
      Elsewhere(s, a, t);
    } else if a.Advance? {
      assert PcOk(s.cells.Keys, s.records, |s.strong|, s.threads[t].pc);
      match s.threads[t].pc
      case Acquire(_, acq) => AcquireStepReads(s, t, c, acq, v);
      case Load(_, r, load) => LoadStepReads(s, t, c, r, load, v);
    }
  }

  lemma FreshLoad(s: State, t: nat, c: nat, v: Option<Val>)
    requires WellFormed(s) && Enabled(s, BeginLoad(t, c))
    ensures !WorksWith(Next(s, BeginLoad(t, c)).threads[t].pc, v)
  {
  }

  lemma {:induction false} ReadWasHeld(run: seq<State>, acts: seq<Action>, t: nat, c: nat, i: nat, n: nat, v: Option<Val>)
    requires LoadCall(run, acts, t, c, i, n) && WorksWith(run[n].threads[t].pc, v)
    ensures HeldDuring(run, c, v, i, n)
    decreases n
  {
    assert StepAt(run, acts, n - 1);
    if n == i {
      FreshLoad(run[n - 1], t, c, v);
    } else {
      assert InLoad(run[n - 1], t, c);
      LoadReads(run[n - 1], acts[n - 1], t, c, v);
      if WorksWith(run[n - 1].threads[t].pc, v) {
        ReadWasHeld(run, acts, t, c, i, n - 1, v);
      }
    }
  }

  /** How a step that ends a load leaves the state. */
  lemma LoadEnds(s: State, t: nat, c: nat)
    requires WellFormed(s) && InLoad(s, t, c) && Step(s, t).threads[t].pc == Idle
    ensures s.threads[t].pc.Load? && c in s.cells
    ensures var s', g, load := Step(s, t), s.nextGuard, s.threads[t].pc.load;
            if s'.nextGuard == g then s.cells[c] == None || (load.TakeBack? && load.current == None)
            else !load.ReadCell? && g in s'.guards && s'.guards[g].tid == t && s'.guards[g].cell == c
                 && s'.guards[g].value == load.v
  {
    assert PcOk(s.cells.Keys, s.records, |s.strong|, s.threads[t].pc);
    match s.threads[t].pc
    case Acquire(_, acq) =>
    case Load(_, r, load) => assert Step(s, t) == LoadStep(s, t, c, r, load);
  }

  /** A load that returns at step `n` returns a guard on a value the cell held while the
      call ran, confirmed or paid early, or nothing if the cell was then empty. */
  lemma LoadIsLinearizable(run: seq<State>, acts: seq<Action>, t: nat, c: nat, i: nat, n: nat)
    requires LoadCall(run, acts, t, c, i, n) && n < |acts| && acts[n] == Advance(t)
    requires IdleThread(run[n + 1], t)
    ensures var g := run[n].nextGuard;
            if run[n + 1].nextGuard == g then HeldDuring(run, c, None, i, n)
            else g in run[n + 1].guards && run[n + 1].guards[g].tid == t && run[n + 1].guards[g].cell == c
                 && HeldDuring(run, c, Some(run[n + 1].guards[g].value), i, n)
  {
    assert StepAt(run, acts, n);
    assert InLoad(run[n], t, c);
    LoadEnds(run[n], t, c);
    var pc := run[n].threads[t].pc;
    if run[n + 1].nextGuard != run[n].nextGuard {
      ReadWasHeld(run, acts, t, c, i, n, Some(pc.load.v));
    } else if run[n].cells[c] != None {
      ReadWasHeld(run, acts, t, c, i, n, None);
    }
  }

  // ---------------------------------------------------------------- writes to one cell

  /** What is in cell `c`, if there is such a cell. */
  function Look(s: State, c: nat): Option<Option<Val>> {
    if c in s.cells then Some(s.cells[c]) else None
  }

  ghost predicate Changed(run: seq<State>, c: nat, k: nat)
    requires k + 1 < |run|
  {
    Look(run[k], c) != Look(run[k + 1], c)
  }

  predicate IsWriteTo(a: Action, c: nat) {
    (a.Swap? || a.CompareAndSet?) && a.c == c
  }

  /** Step `k` is a write that changes the cell. */
  ghost predicate Landed(run: seq<State>, acts: seq<Action>, c: nat, k: nat)
    requires k < |acts| && |run| == |acts| + 1
  {
    IsWriteTo(acts[k], c) && Changed(run, c, k)
  }

  /** How many writes land in the cell from state `lo` to state `hi`. */
  ghost function Writes(run: seq<State>, acts: seq<Action>, c: nat, lo: nat, hi: nat): nat
    requires |run| == |acts| + 1 && lo <= hi < |run|
    decreases hi
  {
    if lo == hi then 0 else Writes(run, acts, c, lo, hi - 1) + if Landed(run, acts, c, hi - 1) then 1 else 0
  }

  lemma {:induction false} WritesAdd(run: seq<State>, acts: seq<Action>, c: nat, lo: nat, mid: nat, hi: nat)
    requires |run| == |acts| + 1 && lo <= mid <= hi < |run|
    ensures Writes(run, acts, c, lo, hi) == Writes(run, acts, c, lo, mid) + Writes(run, acts, c, mid, hi)
    decreases hi
  {
    if mid < hi {
      WritesAdd(run, acts, c, lo, mid, hi - 1);
    }
  }

  /** The cell is not dropped from state `lo` to state `hi`: something borrows it. */
  ghost predicate Borrowed(acts: seq<Action>, c: nat, lo: nat, hi: nat) {
    forall k :: lo <= k < hi && k < |acts| ==> acts[k] != DropCell(c)
  }

  /** The cell is there and only a write to it has changed it. */
  predicate OnlyWritten(cells: map<nat, Option<Val>>, cells': map<nat, Option<Val>>, a: Action, c: nat) {
    c in cells && c in cells' && (cells'[c] == cells[c] || IsWriteTo(a, c))
  }

  lemma WriteCells(s: State, t: nat, d: nat, v: Option<Val>)
    requires t < |s.threads| && d in s.cells
    ensures WriteStep(s, t, d, v).cells == s.cells[d := v]
  {
  }

  lemma WriteOnly(s: State, a: Action, c: nat)
    requires WellFormed(s) && Enabled(s, a) && (a.Swap? || a.CompareAndSet?) && c in s.cells
    ensures OnlyWritten(s.cells, Next(s, a).cells, a, c)
  {
    WriteCells(s, a.t, a.c, a.put);
  }

  lemma ThreadCells(s: State, a: Action)
    requires WellFormed(s) && Enabled(s, a) && (a.BeginLoad? || a.WeakFail? || a.GiveBack? || a.DropGuard?)
    ensures Next(s, a).cells == s.cells
  {
  }

  lemma ArcCells(s: State, a: Action)
    requires WellFormed(s) && Enabled(s, a) && (a.NewArc? || a.CloneArc? || a.DropArc? || a.ToArc?)
    ensures Next(s, a).cells == s.cells
  {
  }

  lemma CellCells(s: State, a: Action, c: nat)
    requires WellFormed(s) && Enabled(s, a) && (a.NewCell? || a.DropCell?) && c in s.cells && a != DropCell(c)
    ensures OnlyWritten(s.cells, Next(s, a).cells, a, c)
  {
  }

  /** Only a write changes a cell that is borrowed. */
  lemma ChangedByWrite(s: State, a: Action, c: nat)
    requires WellFormed(s) && Enabled(s, a) && c in s.cells && a != DropCell(c)
    ensures OnlyWritten(s.cells, Next(s, a).cells, a, c)
  {
    if a.Advance? {
      StepElsewhere(s, a.t);
    } else if a.Swap? || a.CompareAndSet? {
      WriteOnly(s, a, c);
    } else if a.BeginLoad? || a.WeakFail? || a.GiveBack? || a.DropGuard? {
      ThreadCells(s, a);
    } else if a.NewCell? || a.DropCell? {
      CellCells(s, a, c);
    } else {
      ArcCells(s, a);
    }
  }

  lemma {:induction false} UnwrittenStays(run: seq<State>, acts: seq<Action>, c: nat, lo: nat, hi: nat)
    requires IsRun(run, acts) && lo <= hi < |run| && c in run[lo].cells && Borrowed(acts, c, lo, hi)
    ensures c in run[hi].cells
    ensures Writes(run, acts, c, lo, hi) == 0 ==> run[hi].cells[c] == run[lo].cells[c]
    decreases hi
  {
    if lo < hi {
      UnwrittenStays(run, acts, c, lo, hi - 1);
      assert StepAt(run, acts, hi - 1);
      ChangedByWrite(run[hi - 1], acts[hi - 1], c);
    }
  }

  // ---------------------------------------------------------------- the loop of a load

  /** A load in progress borrows its cell, which stays. */
  lemma LoadBorrows(run: seq<State>, acts: seq<Action>, t: nat, c: nat, i: nat, n: nat)
    requires LoadCall(run, acts, t, c, i, n)
    ensures c in run[i].cells && Borrowed(acts, c, i, n)
  {
    assert StepAt(run, acts, i - 1);
    forall k | i <= k < n ensures acts[k] != DropCell(c) {
      assert InLoad(run[k], t, c) && StepAt(run, acts, k);
      assert Borrows(run[k].threads[t], c);
    }
  }

  /** The load of `t` finds another value in the cell than the one it stored in its slot,
      and goes round its loop again. */
  ghost predicate Reread(run: seq<State>, acts: seq<Action>, t: nat, k: nat)
    requires k < |acts| && |run| == |acts| + 1
  {
    && acts[k] == Advance(t) && t < |run[k].threads| && t < |run[k + 1].threads|
    && TakesBack(run[k + 1].threads[t].pc) && !TakesBack(run[k].threads[t].pc)
  }

  predicate TakesBack(pc: Pc) {
    pc.Load? && pc.load.TakeBack?
  }

  /** How often the load of `t` goes round again from state `lo` to state `hi`. */
  ghost function Rereads(run: seq<State>, acts: seq<Action>, t: nat, lo: nat, hi: nat): nat
    requires |run| == |acts| + 1 && lo <= hi < |run|
    decreases hi
  {
    if lo == hi then 0 else Rereads(run, acts, t, lo, hi - 1) + if Reread(run, acts, t, hi - 1) then 1 else 0
  }

  /** What the load at `pc` last read in the cell, if it has read it. */
  function LastRead(pc: Pc): Option<Option<Val>> {
    if !pc.Load? || pc.load.ReadCell? then None
    else if pc.load.TakeBack? then Some(pc.load.current)
    else Some(Some(pc.load.v))
  }

  lemma LoadStepRereads(s: State, t: nat, c: nat, r: nat, load: LoadPc)
    requires t < |s.threads| && c in s.cells && LoadOk(s.records, |s.strong|, r, load)
    requires LoadStep(s, t, c, r, load).threads[t].pc.Load?
    ensures var pc, pc' := Load(c, r, load), LoadStep(s, t, c, r, load).threads[t].pc;
            if LastRead(pc) == None then LastRead(pc') == Some(s.cells[c]) && !TakesBack(pc')
            else if TakesBack(pc') then LastRead(pc') == Some(s.cells[c]) && LastRead(pc) != Some(s.cells[c])
            else LastRead(pc') == LastRead(pc)
  {
  }

  lemma AcquireStepRereads(s: State, t: nat, c: nat, acq: AcquirePc)
    requires t < |s.threads| && RecordsOk(s) && AcquireOk(s.records, acq)
    ensures LastRead(AcquireStep(s, t, c, acq).threads[t].pc) == None
  {
  }

  /** How a step changes what the load last read. */
  lemma LoadRereads(s: State, a: Action, t: nat, c: nat)
    requires WellFormed(s) && Enabled(s, a) && InLoad(s, t, c) && InLoad(Next(s, a), t, c)
    ensures c in s.cells
    ensures var pc, pc' := s.threads[t].pc, Next(s, a).threads[t].pc;
            if a == Advance(t) && TakesBack(pc') && !TakesBack(pc) then
              LastRead(pc') == Some(s.cells[c]) && LastRead(pc) != None && LastRead(pc) != Some(s.cells[c])
            else LastRead(pc') == LastRead(pc) || (LastRead(pc) == None && LastRead(pc') == Some(s.cells[c]))
  {
    assert PcOk(s.cells.Keys, s.records, |s.strong|, s.threads[t].pc);
    if !Moves(a, t) {
      Elsewhere(s, a, t);
    } else if a.Advance? {
      match s.threads[t].pc
      case Acquire(_, acq) => AcquireStepRereads(s, t, c, acq);
      case Load(_, r, load) => LoadStepRereads(s, t, c, r, load);
    }
  }

  /** What the load of `t` last read in the cell, if it has read it. */
  function ReadBy(s: State, t: nat): Option<Option<Val>> {
    if t < |s.threads| then LastRead(s.threads[t].pc) else None
  }

  /** The same for a step of a run: a load goes round again only if the cell no longer holds
      what it last read. */
  lemma RereadStep(run: seq<State>, acts: seq<Action>, t: nat, c: nat, i: nat, n: nat)
    requires LoadCall(run, acts, t, c, i, n) && i < n
    ensures var was, now, seen := ReadBy(run[n - 1], t), ReadBy(run[n], t), Look(run[n - 1], c);
            if Reread(run, acts, t, n - 1) then now == seen && was != None && was != seen
            else now == was || now == seen
  {
    assert StepAt(run, acts, n - 1);
    assert InLoad(run[n - 1], t, c) && InLoad(run[n], t, c);
    LoadRereads(run[n - 1], acts[n - 1], t, c);
  }

  /** A cell that changes during a load is written. */
  lemma WritesGrow(run: seq<State>, acts: seq<Action>, t: nat, c: nat, i: nat, m: nat, n: nat)
    requires LoadCall(run, acts, t, c, i, n) && i <= m <= n
    ensures Writes(run, acts, c, i, m) <= Writes(run, acts, c, i, n)
    ensures Look(run[m], c) != Look(run[n], c) ==> Writes(run, acts, c, i, m) < Writes(run, acts, c, i, n)
  {
    LoadBorrows(run, acts, t, c, i, n);
    UnwrittenStays(run, acts, c, i, m);
    UnwrittenStays(run, acts, c, m, n);
    WritesAdd(run, acts, c, i, m, n);
  }

  /** The load of `t` was round `Rereads` times by state `n`, and last read the cell in
      state `m`, before which as many writes had landed. */
  ghost predicate PaidBy(run: seq<State>, acts: seq<Action>, t: nat, c: nat, i: nat, m: nat, n: nat)
    requires |run| == |acts| + 1 && i <= m <= n < |run|
  {
    && Rereads(run, acts, t, i, n) <= Writes(run, acts, c, i, m)
    && (ReadBy(run[n], t) == None || ReadBy(run[n], t) == Look(run[m], c))
  }

  lemma PaidByNext(run: seq<State>, acts: seq<Action>, t: nat, c: nat, i: nat, m: nat, n: nat) returns (m': nat)
    requires LoadCall(run, acts, t, c, i, n) && i <= m < n && PaidBy(run, acts, t, c, i, m, n - 1)
    ensures i <= m' <= n && PaidBy(run, acts, t, c, i, m', n)
  {
    RereadStep(run, acts, t, c, i, n);
    WritesGrow(run, acts, t, c, i, m, n - 1);
    m' := if ReadBy(run[n], t) == Look(run[n - 1], c) then n - 1 else m;
  }

  lemma {:induction false} RereadsPaidBy(run: seq<State>, acts: seq<Action>, t: nat, c: nat, i: nat, n: nat) returns (m: nat)
    requires LoadCall(run, acts, t, c, i, n)
    ensures i <= m <= n && PaidBy(run, acts, t, c, i, m, n)
    decreases n
  {
    if i == n {
      m := i;
      LoadStarts(run, acts, t, c, i);
    } else {
      m := RereadsPaidBy(run, acts, t, c, i, n - 1);
      m := PaidByNext(run, acts, t, c, i, m, n);
    }
  }

  lemma LoadStarts(run: seq<State>, acts: seq<Action>, t: nat, c: nat, i: nat)
    requires LoadCall(run, acts, t, c, i, i)
    ensures ReadBy(run[i], t) == None
  {
    assert StepAt(run, acts, i - 1);
  }

  /** The loop of a load makes progress but for writes: each time it goes round again,
      another write has landed in the cell since the call began. */
  lemma LoadRetriesChargedToWrites(run: seq<State>, acts: seq<Action>, t: nat, c: nat, i: nat, n: nat)
    requires LoadCall(run, acts, t, c, i, n)
    ensures Rereads(run, acts, t, i, n) <= Writes(run, acts, c, i, n)
  {
    var m := RereadsPaidBy(run, acts, t, c, i, n);
    WritesAdd(run, acts, c, i, m, n);
  }

  // ---------------------------------------------------------------- read-copy-update

  /** One round of `rcu`: a load from state `begin` that returns at step `ret`, and the
      compare-and-set of what it returned at step `cas`; the call borrows the cell. */
  datatype Round = Round(begin: nat, ret: nat, cas: nat)

  ghost predicate IsRound(run: seq<State>, acts: seq<Action>, t: nat, c: nat, r: Round, v: Val) {
    && LoadCall(run, acts, t, c, r.begin, r.ret) && r.ret < r.cas < |acts|
    && acts[r.ret] == Advance(t) && IdleThread(run[r.ret + 1], t)
    && run[r.ret].nextGuard in run[r.ret + 1].guards && run[r.ret + 1].nextGuard != run[r.ret].nextGuard
    && run[r.ret + 1].guards[run[r.ret].nextGuard].value == v
    && acts[r.cas].CompareAndSet? && acts[r.cas].t == t && acts[r.cas].c == c && acts[r.cas].current == Some(v)
    && Borrowed(acts, c, r.begin, r.cas)
  }

  /** The round's compare-and-set finds another value in the cell. */
  ghost predicate Retried(run: seq<State>, acts: seq<Action>, t: nat, c: nat, r: Round) {
    exists v: Val :: IsRound(run, acts, t, c, r, v) && Look(run[r.cas], c) != Some(Some(v))
  }

  /** A retry is due to a write that landed between the round's load and its write. */
  lemma RetryPaidFor(run: seq<State>, acts: seq<Action>, t: nat, c: nat, r: Round)
    requires Retried(run, acts, t, c, r)
    ensures r.begin <= r.cas < |run| == |acts| + 1 && Writes(run, acts, c, r.begin, r.cas) >= 1
  {
    var v: Val :| IsRound(run, acts, t, c, r, v) && Look(run[r.cas], c) != Some(Some(v));
    LoadIsLinearizable(run, acts, t, c, r.begin, r.ret);
    assert HeldDuring(run, c, Some(v), r.begin, r.ret);
    var m :| r.begin <= m <= r.ret && m < |run| && c in run[m].cells && run[m].cells[c] == Some(v);
    WritesAdd(run, acts, c, r.begin, m, r.cas);
    UnwrittenStays(run, acts, c, m, r.cas);
  }

  ghost predicate InOrder(rounds: seq<Round>) {
    forall j :: 0 <= j < |rounds| - 1 ==> rounds[j].cas <= rounds[j + 1].begin
  }

  /** Each retry of a thread's `rcu` is charged to a write of its own. */
  lemma {:induction false} RetriesChargedToWrites(run: seq<State>, acts: seq<Action>, t: nat, c: nat, rounds: seq<Round>)
    requires |rounds| > 0 && InOrder(rounds)
    requires forall j :: 0 <= j < |rounds| ==> Retried(run, acts, t, c, rounds[j])
    ensures rounds[0].begin <= rounds[|rounds| - 1].cas < |run|
    ensures |run| == |acts| + 1 && |rounds| <= Writes(run, acts, c, rounds[0].begin, rounds[|rounds| - 1].cas)
  {
    var n := |rounds| - 1;
    RetryPaidFor(run, acts, t, c, rounds[n]);
    if n > 0 {
      RetriesChargedToWrites(run, acts, t, c, rounds[..n]);
      assert rounds[n - 1].cas <= rounds[n].begin;
      WritesOver(run, acts, c, rounds[0].begin, rounds[n - 1].cas, rounds[n].begin, rounds[n].cas);
    }
  }

  /** Writes in two stretches, one after the other, are writes in the whole. */
  lemma WritesOver(run: seq<State>, acts: seq<Action>, c: nat, a: nat, b: nat, d: nat, e: nat)
    requires |run| == |acts| + 1 && a <= b <= d <= e < |run|
    ensures Writes(run, acts, c, a, b) + Writes(run, acts, c, d, e) <= Writes(run, acts, c, a, e)
  {
    WritesAdd(run, acts, c, a, b, d);
    WritesAdd(run, acts, c, a, d, e);
  }

  /** Step `k` is the write of an `rcu` that computed its value with `update`. */
  ghost predicate UpdateAt<T(!new)>(acts: seq<Action>, c: nat, k: nat, content: Val -> T, update: (nat, T) -> T)
    requires k < |acts|
  {
    && acts[k].CompareAndSet? && acts[k].c == c && acts[k].current.Some? && acts[k].put.Some?
    && content(acts[k].put.value) == update(k, content(acts[k].current.value))
  }

  /** The updates that landed from state `lo` to state `hi`, one after another. */
  ghost function Composed<T>(run: seq<State>, c: nat, update: (nat, T) -> T, start: T, lo: nat, hi: nat): T
    requires lo <= hi < |run|
    decreases hi
  {
    if lo == hi then start
    else
      var before := Composed(run, c, update, start, lo, hi - 1);
      if Changed(run, c, hi - 1) then update(hi - 1, before) else before
  }

  /** A cell written only by `rcu` holds its updates applied one after another in the
      order they landed, none lost. */
  lemma {:induction false} UpdatesCompose<T(!new)>(run: seq<State>, acts: seq<Action>, c: nat, content: Val -> T,
                                                   update: (nat, T) -> T, lo: nat, hi: nat, v: Val) returns (w: Val)
    requires IsRun(run, acts) && lo <= hi < |run| && Look(run[lo], c) == Some(Some(v))
    requires forall k :: lo <= k < hi && Changed(run, c, k) ==> UpdateAt(acts, c, k, content, update)
    ensures Look(run[hi], c) == Some(Some(w))
    ensures content(w) == Composed(run, c, update, content(v), lo, hi)
    decreases hi
  {
    if lo == hi {
      w := v;
    } else {
      var u := UpdatesCompose(run, acts, c, content, update, lo, hi - 1, v);
      assert StepAt(run, acts, hi - 1);
      if Changed(run, c, hi - 1) {
        w := acts[hi - 1].put.value;
        CasWrites(run[hi - 1], acts[hi - 1]);
      } else {
        w := u;
      }
    }
  }

  lemma CasWrites(s: State, a: Action)
    requires WellFormed(s) && Enabled(s, a) && a.CompareAndSet?
    ensures Look(Next(s, a), a.c) == if s.cells[a.c] == a.current then Some(a.put) else Some(s.cells[a.c])
  {
  }
}
