/** Spin locks and the interrupt-disable stack, as a machine of single reads and writes.

Any number of CPUs share any number of locks.  Each CPU runs a stack of contexts: the code it was
running and the interrupt handlers that have broken in.  A step of the machine executes one read or
write of spinlock_acquire, spinlock_release, irq_push_intr or irq_pop_intr on one CPU, starts one of
these calls, delivers an interrupt, or returns from one.  Memory is sequentially consistent.
*/
module Locks {
  import opened Common

  type CpuId = nat
  type LockId = nat

  datatype Lock = Lock(locked: bool, cpu: Option<CpuId>)

  /** The next read or write of a context, with the values its locals hold. */
  datatype Pc =
    | Outside
      // irq_push_intr, at the start of an acquire of l
    | PushReadFlag(l: LockId)
    | PushMask(l: LockId, flag: bool)
    | PushReadDepth(l: LockId, flag: bool)
    | PushSaveFlag(l: LockId, flag: bool)
    | PushReload(l: LockId)
    | PushStore(l: LockId, d: int)
      // the rest of spinlock_acquire
    | AcqReadLocked(l: LockId)
    | AcqReadCpu(l: LockId)
    | AcqExchange(l: LockId)
    | AcqWriteCpu(l: LockId)
      // spinlock_release
    | RelReadLocked(l: LockId)
    | RelReadCpu(l: LockId)
    | RelClearCpu(l: LockId)
    | RelUnlock(l: LockId)
      // irq_pop_intr, at the end of a release
    | PopReadFlag
    | PopReadDepth
    | PopStore(d: int)
    | PopReload
    | PopReadSaved
    | PopUnmask

  /** held: locks whose acquire returned and whose release has not passed its check.
      baseline: the interrupt flag this context runs with when it is in no lock. */
  datatype Context = Context(pc: Pc, held: set<LockId>, baseline: bool)

  /** enabled: the CPU's interrupt flag; depth and was: irq_disable_depth and irq_was_enabled. */
  datatype Cpu = Cpu(enabled: bool, depth: int, was: bool, below: seq<Context>, top: Context) {
    function Goto(pc: Pc): Cpu { this.(top := top.(pc := pc)) }
  }

  datatype State = State(cpus: map<CpuId, Cpu>, locks: map<LockId, Lock>)

  datatype Reason = AlreadyHolding(l: LockId) | NotHolding(l: LockId) | EnabledInPop | DepthUnderflow

  /** What one instruction does: change only its own CPU, also write one lock, or panic. */
  datatype Effect = Local(cpu: Cpu) | Write(cpu: Cpu, l: LockId, lock: Lock) | Panic(reason: Reason)

  predicate InPush(pc: Pc) {
    pc.PushReadFlag? || pc.PushMask? || pc.PushReadDepth? || pc.PushSaveFlag? || pc.PushReload? || pc.PushStore?
  }

  predicate InPop(pc: Pc) {
    pc.PopReadFlag? || pc.PopReadDepth? || pc.PopStore? || pc.PopReload? || pc.PopReadSaved? || pc.PopUnmask?
  }

  /** irq_push_intr: note the flag, mask, save the flag on the first push, count up. */
  function Push(s: Cpu): Cpu
    requires InPush(s.top.pc)
  {
    match s.top.pc
    case PushReadFlag(l) => s.Goto(PushMask(l, s.enabled))
    case PushMask(l, flag) => s.(enabled := false).Goto(PushReadDepth(l, flag))
    case PushReadDepth(l, flag) => s.Goto(if s.depth == 0 then PushSaveFlag(l, flag) else PushReload(l))
    case PushSaveFlag(l, flag) => s.(was := flag).Goto(PushReload(l))
    case PushReload(l) => s.Goto(PushStore(l, s.depth))
    case PushStore(l, d) => s.(depth := d + 1).Goto(AcqReadLocked(l))
  }

  /** irq_pop_intr: two checks, count down, unmask after the last pop if the flag was set. */
  function Pop(s: Cpu): Effect
    requires InPop(s.top.pc)
  {
    match s.top.pc
    case PopReadFlag => if s.enabled then Panic(EnabledInPop) else Local(s.Goto(PopReadDepth))
    case PopReadDepth => if s.depth < 1 then Panic(DepthUnderflow) else Local(s.Goto(PopStore(s.depth)))
    case PopStore(d) => Local(s.(depth := d - 1).Goto(PopReload))
    case PopReload => Local(s.Goto(if s.depth == 0 then PopReadSaved else Outside))
    case PopReadSaved => Local(s.Goto(if s.was then PopUnmask else Outside))
    case PopUnmask => Local(s.(enabled := true).Goto(Outside))
  }

  /** The parts of spinlock_acquire and spinlock_release that touch lock k, named l. */
  function Spin(s: Cpu, me: CpuId, l: LockId, k: Lock): Effect
    requires LockOf(s.top.pc) == Some(l) && !InPush(s.top.pc)
  {
    match s.top.pc
    case AcqReadLocked(_) => Local(s.Goto(if k.locked then AcqReadCpu(l) else AcqExchange(l)))
    case AcqReadCpu(_) => if k.cpu == Some(me) then Panic(AlreadyHolding(l)) else Local(s.Goto(AcqExchange(l)))
    case AcqExchange(_) => Write(s.Goto(if k.locked then AcqExchange(l) else AcqWriteCpu(l)), l, k.(locked := true))
    case AcqWriteCpu(_) => Write(s.(top := Context(Outside, s.top.held + {l}, s.top.baseline)), l, k.(cpu := Some(me)))
    case RelReadLocked(_) => if k.locked then Local(s.Goto(RelReadCpu(l))) else Panic(NotHolding(l))
    case RelReadCpu(_) =>
      if k.cpu != Some(me) then Panic(NotHolding(l))
      else Local(s.(top := Context(RelClearCpu(l), s.top.held - {l}, s.top.baseline)))
    case RelClearCpu(_) => Write(s.Goto(RelUnlock(l)), l, k.(cpu := None))
    case RelUnlock(_) => Write(s.Goto(PopReadFlag), l, k.(locked := false))
  }

  /** The instruction at the top context's pc, executed on CPU me. */
  function Execute(s: Cpu, me: CpuId, locks: map<LockId, Lock>): Effect
    requires s.top.pc != Outside && Known(s.top.pc, locks)
  {
    if InPush(s.top.pc) then Local(Push(s))
    else if InPop(s.top.pc) then Pop(s)
    else Spin(s, me, LockOf(s.top.pc).value, locks[LockOf(s.top.pc).value])
  }

  function LockOf(pc: Pc): Option<LockId> {
    match pc
    case Outside | PopReadFlag | PopReadDepth | PopStore(_) | PopReload | PopReadSaved | PopUnmask => None
    case PushReadFlag(l) => Some(l)
    case PushMask(l, _) => Some(l)
    case PushReadDepth(l, _) => Some(l)
    case PushSaveFlag(l, _) => Some(l)
    case PushReload(l) => Some(l)
    case PushStore(l, _) => Some(l)
    case AcqReadLocked(l) => Some(l)
    case AcqReadCpu(l) => Some(l)
    case AcqExchange(l) => Some(l)
    case AcqWriteCpu(l) => Some(l)
    case RelReadLocked(l) => Some(l)
    case RelReadCpu(l) => Some(l)
    case RelClearCpu(l) => Some(l)
    case RelUnlock(l) => Some(l)
  }

  predicate Known(pc: Pc, locks: map<LockId, Lock>) {
    LockOf(pc).Some? ==> LockOf(pc).value in locks
  }

  /** Tick runs one instruction.  The rest start or end something: a call, an interrupt, or the
      kernel switching its own interrupt flag while it is in no lock.  A handler may return only
      when its calls are paired, that is, when it holds nothing. */
  datatype Action = Tick | CallAcquire(l: LockId) | CallRelease(l: LockId) | Interrupt | Return | SetFlag(on: bool)

  predicate CanDo(cpu: Cpu, locks: map<LockId, Lock>, a: Action) {
    match a
    case Tick => cpu.top.pc != Outside && Known(cpu.top.pc, locks)
    case CallAcquire(l) => cpu.top.pc == Outside && l in locks
    case CallRelease(l) => cpu.top.pc == Outside && l in locks
    case Interrupt => cpu.enabled
    case Return => cpu.below != [] && cpu.top.pc == Outside && cpu.top.held == {}
    case SetFlag(_) => cpu.top.pc == Outside && cpu.top.held == {}
  }

  /** The actions that are not instructions of the lock code.  Taking an interrupt masks interrupts;
      returning restores the flag the interrupted code ran with, which was on. */
  function Enter(cpu: Cpu, locks: map<LockId, Lock>, a: Action): Cpu
    requires CanDo(cpu, locks, a) && !a.Tick?
  {
    match a
    case CallAcquire(l) => cpu.Goto(PushReadFlag(l))
    case CallRelease(l) => cpu.Goto(RelReadLocked(l))
    case Interrupt => cpu.(enabled := false, below := cpu.below + [cpu.top], top := Context(Outside, {}, false))
    case Return => AfterReturn(cpu)
    case SetFlag(on) => cpu.(enabled := on, top := cpu.top.(baseline := on))
  }

  function AfterReturn(cpu: Cpu): Cpu
    requires cpu.below != []
  {
    cpu.(enabled := true, below := cpu.below[..|cpu.below| - 1], top := cpu.below[|cpu.below| - 1])
  }

  predicate Enabled(s: State, c: CpuId, a: Action) {
    c in s.cpus && CanDo(s.cpus[c], s.locks, a)
  }

  function Act(s: State, c: CpuId, a: Action): Effect
    requires Enabled(s, c, a)
  {
    if a.Tick? then Execute(s.cpus[c], c, s.locks) else Local(Enter(s.cpus[c], s.locks, a))
  }

  function Apply(s: State, c: CpuId, e: Effect): State
    requires !e.Panic?
  {
    var cpus := s.cpus[c := e.cpu];
    if e.Local? then s.(cpus := cpus) else State(cpus, s.locks[e.l := e.lock])
  }

  // ---------- ownership ----------

  /** From the successful exchange to the store that unlocks. */
  predicate Owns(cpu: Cpu, l: LockId) {
    l in cpu.top.held || cpu.top.pc == AcqWriteCpu(l) || cpu.top.pc == RelClearCpu(l) || cpu.top.pc == RelUnlock(l)
  }

  /** While the lock's cpu field must name the owner. */
  predicate Named(cpu: Cpu, l: LockId) {
    l in cpu.top.held || cpu.top.pc == RelClearCpu(l)
  }

  // ---------- the invariant of one CPU ----------

  /** Pcs at which interrupts are not yet, or no longer, masked by the lock code. */
  predicate Open(pc: Pc) {
    pc.Outside? || pc.PushReadFlag? || pc.PushMask? || pc.RelReadLocked? || pc.RelReadCpu?
  }

  /** 1 where the running call counts in irq_disable_depth besides the locks held. */
  function Pending(pc: Pc): nat {
    if pc.AcqReadLocked? || pc.AcqReadCpu? || pc.AcqExchange? || pc.AcqWriteCpu?
       || pc.RelClearCpu? || pc.RelUnlock? || pc.PopReadFlag? || pc.PopReadDepth? || pc.PopStore? then 1 else 0
  }

  /** Where irq_was_enabled matters although the depth may be zero. */
  predicate SavedMatters(pc: Pc) {
    pc.PushReload? || pc.PushStore? || pc.PopReload? || pc.PopReadSaved? || pc.PopUnmask?
  }

  ghost predicate TopOk(cpu: Cpu) {
    var pc := cpu.top.pc;
    && cpu.depth == |cpu.top.held| + Pending(pc)
    && cpu.enabled == (Open(pc) && cpu.top.baseline && cpu.depth == 0)
    && (0 < cpu.depth || SavedMatters(pc) ==> cpu.was == cpu.top.baseline)
    && (pc.PushMask? || pc.PushReadDepth? ==> pc.flag == (cpu.top.baseline && cpu.depth == 0))
    && (pc.PushSaveFlag? ==> cpu.depth == 0 && pc.flag == cpu.top.baseline)
    && (pc.PushStore? || pc.PopStore? ==> pc.d == cpu.depth)
    && (pc.PopReadSaved? ==> cpu.depth == 0)
    && (pc.PopUnmask? ==> cpu.depth == 0 && cpu.was)
    && (pc.AcqWriteCpu? || pc.RelClearCpu? || pc.RelUnlock? ==> pc.l !in cpu.top.held)
  }

  /** A context that an interrupt suspended held nothing and had interrupts on. */
  ghost predicate SuspendedOk(k: Context) {
    k.held == {} && k.baseline && Open(k.pc) && (k.pc.PushMask? ==> k.pc.flag)
  }

  ghost predicate CpuOk(cpu: Cpu) {
    TopOk(cpu) && forall i :: 0 <= i < |cpu.below| ==> SuspendedOk(cpu.below[i])
  }

  // ---------- the invariant of one lock ----------

  ghost predicate LockOk(cpus: map<CpuId, Cpu>, l: LockId, k: Lock) {
    && (forall c :: c in cpus && Owns(cpus[c], l) ==> k.locked)
    && (k.locked ==> exists c :: c in cpus && Owns(cpus[c], l))
    && (forall c, d :: c in cpus && d in cpus && Owns(cpus[c], l) && Owns(cpus[d], l) ==> c == d)
    && (forall c :: c in cpus ==> (k.cpu == Some(c) <==> Named(cpus[c], l)))
    && (k.cpu.Some? ==> k.cpu.value in cpus)
  }

  ghost predicate Inv(s: State) {
    && (forall c :: c in s.cpus ==> CpuOk(s.cpus[c]))
    && (forall l :: l in s.locks ==> LockOk(s.cpus, l, s.locks[l]))
  }

  ghost predicate Init(s: State) {
    && (forall c :: c in s.cpus ==>
          var cpu := s.cpus[c];
          cpu.depth == 0 && cpu.below == [] && cpu.top == Context(Outside, {}, cpu.enabled))
    && (forall l :: l in s.locks ==> s.locks[l] == Lock(false, None))
  }

  lemma InitOk(s: State)
    requires Init(s)
    ensures Inv(s)
  {
    forall c | c in s.cpus ensures CpuOk(s.cpus[c]) {}
  }

  // ---------- one step ----------

  lemma PushKeepsCpu(cpu: Cpu)
    requires CpuOk(cpu) && InPush(cpu.top.pc)
    ensures CpuOk(Push(cpu)) && forall l :: SameHands(cpu, Push(cpu), l)
  {
  }

  /** Neither panic of irq_pop_intr can happen, and the flag comes back as the context had it. */
  lemma PopKeepsCpu(cpu: Cpu)
    requires CpuOk(cpu) && InPop(cpu.top.pc)
    ensures Pop(cpu).Local? && CpuOk(Pop(cpu).cpu) && forall l :: SameHands(cpu, Pop(cpu).cpu, l)
  {
  }

  lemma SpinKeepsCpu(cpu: Cpu, me: CpuId, l: LockId, k: Lock)
    requires CpuOk(cpu) && LockOf(cpu.top.pc) == Some(l) && !InPush(cpu.top.pc)
    requires (k.cpu == Some(me) <==> Named(cpu, l)) && (Owns(cpu, l) ==> k.locked)
    ensures var e := Spin(cpu, me, l, k); !e.Panic? ==> CpuOk(e.cpu)
  {
    var held := cpu.top.held;
    if cpu.top.pc.AcqWriteCpu? {
      assert |held + {l}| == |held| + 1;
    } else if cpu.top.pc.RelReadCpu? && l in held {
      assert |held - {l}| == |held| - 1;
    }
  }

  lemma EnterKeepsCpu(cpu: Cpu, locks: map<LockId, Lock>, a: Action)
    requires CpuOk(cpu) && CanDo(cpu, locks, a) && !a.Tick?
    ensures CpuOk(Enter(cpu, locks, a))
    ensures forall l :: SameHands(cpu, Enter(cpu, locks, a), l)
  {
    if a.Return? {
      assert SuspendedOk(cpu.below[|cpu.below| - 1]);
    }
  }

  lemma ActKeepsCpu(s: State, c: CpuId, a: Action)
    requires Inv(s) && Enabled(s, c, a)
    ensures var e := Act(s, c, a); !e.Panic? ==> CpuOk(e.cpu)
  {
    var cpu := s.cpus[c];
    assert CpuOk(cpu);
    if a.Tick? {
      var pc := cpu.top.pc;
      if InPush(pc) {
        PushKeepsCpu(cpu);
      } else if InPop(pc) {
        PopKeepsCpu(cpu);
      } else {
        var l := LockOf(pc).value;
        assert LockOk(s.cpus, l, s.locks[l]);
        SpinKeepsCpu(cpu, c, l, s.locks[l]);
      }
    } else {
      EnterKeepsCpu(cpu, s.locks, a);
    }
  }

  /** Locks that a CPU neither gains nor loses stay consistent. */
  lemma SameOwnership(cpus: map<CpuId, Cpu>, c: CpuId, cpu': Cpu, l: LockId, k: Lock)
    requires c in cpus && LockOk(cpus, l, k)
    requires SameHands(cpus[c], cpu', l)
    ensures LockOk(cpus[c := cpu'], l, k)
  {
    var cpus' := cpus[c := cpu'];
    if k.locked {
      var d :| d in cpus && Owns(cpus[d], l);
      assert d in cpus' && Owns(cpus'[d], l);
    }
  }

  /** The exchange takes a free lock, or leaves a taken one as it is. */
  lemma ExchangeOk(cpus: map<CpuId, Cpu>, c: CpuId, l: LockId, k: Lock)
    requires c in cpus && CpuOk(cpus[c]) && LockOk(cpus, l, k) && cpus[c].top.pc == AcqExchange(l)
    ensures var cpu' := cpus[c].Goto(if k.locked then AcqExchange(l) else AcqWriteCpu(l));
            LockOk(cpus[c := cpu'], l, k.(locked := true))
  {
    if k.locked {
      SameOwnership(cpus, c, cpus[c].Goto(AcqExchange(l)), l, k);
    } else {
      var cpus' := cpus[c := cpus[c].Goto(AcqWriteCpu(l))];
      assert Owns(cpus'[c], l);
    }
  }

  lemma WriteCpuOk(cpus: map<CpuId, Cpu>, c: CpuId, l: LockId, k: Lock)
    requires c in cpus && LockOk(cpus, l, k) && cpus[c].top.pc == AcqWriteCpu(l)
    ensures var top := cpus[c].top;
            LockOk(cpus[c := cpus[c].(top := Context(Outside, top.held + {l}, top.baseline))], l, k.(cpu := Some(c)))
  {
    var top := cpus[c].top;
    var cpus' := cpus[c := cpus[c].(top := Context(Outside, top.held + {l}, top.baseline))];
    assert Owns(cpus[c], l) && Owns(cpus'[c], l);
    forall d | d in cpus' && d != c ensures !Named(cpus'[d], l) {
      var other := cpus[d];
      assert !Named(other, l) || Owns(other, l);
    }
  }

  lemma ClearCpuOk(cpus: map<CpuId, Cpu>, c: CpuId, l: LockId, k: Lock)
    requires c in cpus && CpuOk(cpus[c]) && LockOk(cpus, l, k) && cpus[c].top.pc == RelClearCpu(l)
    ensures LockOk(cpus[c := cpus[c].Goto(RelUnlock(l))], l, k.(cpu := None))
  {
    var cpus' := cpus[c := cpus[c].Goto(RelUnlock(l))];
    assert Owns(cpus[c], l) && Owns(cpus'[c], l);
    forall d | d in cpus' ensures !Named(cpus'[d], l) {
      var other := cpus[d];
      assert !Named(other, l) || Owns(other, l);
    }
  }

  lemma UnlockOk(cpus: map<CpuId, Cpu>, c: CpuId, l: LockId, k: Lock)
    requires c in cpus && CpuOk(cpus[c]) && LockOk(cpus, l, k) && cpus[c].top.pc == RelUnlock(l)
    ensures LockOk(cpus[c := cpus[c].Goto(PopReadFlag)], l, k.(locked := false))
  {
    assert Owns(cpus[c], l) && !Named(cpus[c], l);
  }

  predicate SameHands(a: Cpu, b: Cpu, l: LockId) {
    Owns(a, l) == Owns(b, l) && Named(a, l) == Named(b, l)
  }

  lemma SpinKeepsHands(cpu: Cpu, me: CpuId, l: LockId, k: Lock, other: LockId)
    requires CpuOk(cpu) && LockOf(cpu.top.pc) == Some(l) && !InPush(cpu.top.pc) && !Spin(cpu, me, l, k).Panic?
    requires k.cpu == Some(me) <==> Named(cpu, l)
    requires Spin(cpu, me, l, k).Write? ==> other != l
    ensures SameHands(cpu, Spin(cpu, me, l, k).cpu, other)
  {
  }

  /** Only the lock an instruction writes can change hands. */
  lemma ActKeepsHands(s: State, c: CpuId, a: Action, l: LockId)
    requires Inv(s) && Enabled(s, c, a) && l in s.locks && !Act(s, c, a).Panic?
    requires Act(s, c, a).Write? ==> Act(s, c, a).l != l
    ensures SameHands(s.cpus[c], Act(s, c, a).cpu, l)
  {
    var cpu := s.cpus[c];
    var pc := cpu.top.pc;
    assert CpuOk(cpu);
    if !a.Tick? {
      EnterKeepsCpu(cpu, s.locks, a);
    } else if InPush(pc) {
      PushKeepsCpu(cpu);
    } else if InPop(pc) {
      PopKeepsCpu(cpu);
    } else {
      var k := LockOf(pc).value;
      assert LockOk(s.cpus, k, s.locks[k]);
      SpinKeepsHands(cpu, c, k, s.locks[k], l);
    }
  }

  lemma WrittenLockOk(s: State, c: CpuId, a: Action)
    requires Inv(s) && Enabled(s, c, a) && Act(s, c, a).Write?
    ensures var e := Act(s, c, a); e.l in s.locks && LockOk(s.cpus[c := e.cpu], e.l, e.lock)
  {
    var l := Act(s, c, a).l;
    var k := s.locks[l];
    assert CpuOk(s.cpus[c]) && LockOk(s.cpus, l, k);
    match s.cpus[c].top.pc {
      case AcqExchange(_) => ExchangeOk(s.cpus, c, l, k);
      case AcqWriteCpu(_) => WriteCpuOk(s.cpus, c, l, k);
      case RelClearCpu(_) => ClearCpuOk(s.cpus, c, l, k);
      case RelUnlock(_) => UnlockOk(s.cpus, c, l, k);
    }
  }

  lemma StepKeepsInv(s: State, c: CpuId, a: Action)
    requires Inv(s) && Enabled(s, c, a) && !Act(s, c, a).Panic?
    ensures Inv(Apply(s, c, Act(s, c, a)))
  {
    var e := Act(s, c, a);
    var s' := Apply(s, c, e);
    ActKeepsCpu(s, c, a);
    if e.Write? {
      WrittenLockOk(s, c, a);
    }
    forall l | l in s'.locks ensures LockOk(s'.cpus, l, s'.locks[l]) {
      if !(e.Write? && e.l == l) {
        ActKeepsHands(s, c, a, l);
        SameOwnership(s.cpus, c, e.cpu, l, s.locks[l]);
      }
    }
  }

  /** The only panics: acquiring a lock this CPU owns, releasing one it does not.  The two reads of
      `holding` race with every other CPU, and still answer the ownership question exactly. */
  lemma HoldingIsExact(s: State, c: CpuId)
    requires Inv(s) && Enabled(s, c, Tick)
    ensures var cpu, e := s.cpus[c], Act(s, c, Tick);
            match cpu.top.pc
            case AcqReadLocked(l) => !e.Panic? && (e.cpu.top.pc == AcqExchange(l) ==> !Owns(cpu, l))
            case AcqReadCpu(l) => e == Panic(AlreadyHolding(l)) <==> Owns(cpu, l)
            case RelReadLocked(l) => e.Panic? ==> e == Panic(NotHolding(l)) && !Owns(cpu, l)
            case RelReadCpu(l) => e == Panic(NotHolding(l)) <==> !Owns(cpu, l)
            case _ => !e.Panic?
  {
    var pc := s.cpus[c].top.pc;
    assert CpuOk(s.cpus[c]);
    if LockOf(pc).Some? {
      assert LockOk(s.cpus, LockOf(pc).value, s.locks[LockOf(pc).value]);
    }
  }

  // ---------- runs ----------

  datatype Event = Event(c: CpuId, a: Action)

  /** Every interleaving: the states and the events between them. */
  ghost predicate IsRun(states: seq<State>, events: seq<Event>) {
    && |states| == |events| + 1 && Init(states[0])
    && forall i :: 0 <= i < |events| ==>
         && Enabled(states[i], events[i].c, events[i].a)
         && !Act(states[i], events[i].c, events[i].a).Panic?
         && states[i+1] == Apply(states[i], events[i].c, Act(states[i], events[i].c, events[i].a))
  }

  lemma {:induction false} RunKeepsInv(states: seq<State>, events: seq<Event>, n: nat)
    requires IsRun(states, events) && n < |states|
    ensures Inv(states[n])
  {
    if n == 0 {
      InitOk(states[0]);
    } else {
      RunKeepsInv(states, events, n - 1);
      StepKeepsInv(states[n-1], events[n-1].c, events[n-1].a);
    }
  }

  /** Why a handler's calls must be paired: coming back with a lock held is exactly what would leave
      interrupts on at a positive depth. */
  lemma ReturnNeedsPairing(cpu: Cpu)
    requires CpuOk(cpu) && cpu.below != [] && cpu.top.pc == Outside
    ensures CpuOk(AfterReturn(cpu)) <==> cpu.top.held == {}
    ensures cpu.top.held != {} ==> AfterReturn(cpu).enabled && 0 < AfterReturn(cpu).depth
  {
    assert SuspendedOk(cpu.below[|cpu.below| - 1]);
  }

  ghost predicate MutualExclusion(s: State) {
    forall l, c, d :: l in s.locks && c in s.cpus && d in s.cpus && Owns(s.cpus[c], l) && Owns(s.cpus[d], l) ==> c == d
  }

  ghost predicate LockedMeansOwned(s: State) {
    forall l :: l in s.locks ==> (s.locks[l].locked <==> exists c :: c in s.cpus && Owns(s.cpus[c], l))
  }

  /** The depth counts unfinished acquires; it masks interrupts while positive; and in no lock the
      flag is the one the context started with, which is what its outermost push reads. */
  ghost predicate Masking(s: State) {
    forall c :: c in s.cpus ==>
      var cpu := s.cpus[c];
      && cpu.depth == |cpu.top.held| + Pending(cpu.top.pc)
      && (0 < cpu.depth ==> !cpu.enabled)
      && (cpu.depth == 0 && Open(cpu.top.pc) ==> cpu.enabled == cpu.top.baseline)
  }

  /** Every reachable state of every interleaving, and every step out of it. */
  lemma RunIsSafe(states: seq<State>, events: seq<Event>, n: nat)
    requires IsRun(states, events) && n < |states|
    ensures MutualExclusion(states[n]) && LockedMeansOwned(states[n]) && Masking(states[n])
    ensures forall c, a :: Enabled(states[n], c, a) ==>
              var cpu, e := states[n].cpus[c], Act(states[n], c, a);
              e.Panic? ==>
                && a == Tick
                && ((e.reason.AlreadyHolding? && Owns(cpu, e.reason.l))
                    || (e.reason.NotHolding? && !Owns(cpu, e.reason.l)))
  {
    RunKeepsInv(states, events, n);
    var s := states[n];
    forall l | l in s.locks ensures LockOk(s.cpus, l, s.locks[l]) {}
    forall c | c in s.cpus ensures TopOk(s.cpus[c]) {
      assert CpuOk(s.cpus[c]);
    }
    forall c, a | Enabled(s, c, a)
      ensures var cpu, e := s.cpus[c], Act(s, c, a);
              e.Panic? ==>
                && a == Tick
                && ((e.reason.AlreadyHolding? && Owns(cpu, e.reason.l))
                    || (e.reason.NotHolding? && !Owns(cpu, e.reason.l)))
    {
      if a == Tick {
        HoldingIsExact(s, c);
      }
    }
  }

  // ---------- the flag at two moments ----------

  /** The context at level n: the interrupted code is below its handlers. */
  function ContextAt(cpu: Cpu, n: nat): Context
    requires n <= |cpu.below|
  {
    if n < |cpu.below| then cpu.below[n] else cpu.top
  }

  /** The context at level n is there and in a call or in a lock. */
  predicate Busy(cpu: Cpu, n: nat) {
    n <= |cpu.below| && !(ContextAt(cpu, n).pc == Outside && ContextAt(cpu, n).held == {})
  }

  /** While it is, nothing changes the flag it is to come back to. */
  lemma BaselineStays(s: State, c: CpuId, a: Action, d: CpuId, n: nat)
    requires Enabled(s, c, a) && !Act(s, c, a).Panic? && d in s.cpus && Busy(s.cpus[d], n)
    ensures var s' := Apply(s, c, Act(s, c, a));
            && d in s'.cpus && n <= |s'.cpus[d].below|
            && ContextAt(s'.cpus[d], n).baseline == ContextAt(s.cpus[d], n).baseline
  {
  }

  lemma {:induction false} BaselineKept(states: seq<State>, events: seq<Event>, d: CpuId, n: nat, i: nat, j: nat)
    requires IsRun(states, events) && i <= j < |states|
    requires forall x :: i <= x < j ==> d in states[x].cpus && Busy(states[x].cpus[d], n)
    requires d in states[i].cpus && n <= |states[i].cpus[d].below|
    ensures d in states[j].cpus && n <= |states[j].cpus[d].below|
    ensures ContextAt(states[j].cpus[d], n).baseline == ContextAt(states[i].cpus[d], n).baseline
    decreases j - i
  {
    hide Enabled;
    hide Act;
    hide Apply;
    hide Init;
    if i < j {
      BaselineKept(states, events, d, n, i, j - 1);
      BaselineStays(states[j-1], events[j-1].c, events[j-1].a, d, n);
    }
  }

  /** Nested acquires and releases, and the handlers that break in, leave the flag as it was: when a context whose
      outermost push read the flag at i is next out of every lock, at j, the flag is what was read. */
  lemma FlagComesBack(states: seq<State>, events: seq<Event>, d: CpuId, i: nat, j: nat)
    requires IsRun(states, events) && i < j < |states| && d in states[i].cpus
    requires states[i].cpus[d].top.pc.PushReadFlag? && states[i].cpus[d].depth == 0
    requires forall x :: i <= x < j ==> d in states[x].cpus && Busy(states[x].cpus[d], |states[i].cpus[d].below|)
    requires d in states[j].cpus && states[j].cpus[d].top.pc == Outside && states[j].cpus[d].top.held == {}
    requires |states[j].cpus[d].below| == |states[i].cpus[d].below|
    ensures states[j].cpus[d].enabled == states[i].cpus[d].enabled && states[j].cpus[d].depth == 0
  {
    BaselineKept(states, events, d, |states[i].cpus[d].below|, i, j);
    RunIsSafe(states, events, i);
    RunIsSafe(states, events, j);
  }

  // ---------- a call from its start to its return ----------

  /** The context is inside an acquire of l. */
  predicate InAcquire(pc: Pc, l: LockId) {
    || (InPush(pc) && pc.l == l)
    || pc == AcqReadLocked(l) || pc == AcqReadCpu(l) || pc == AcqExchange(l) || pc == AcqWriteCpu(l)
  }

  /** It is inside an acquire of l that found these locks held, and past its check only if l was not among them; or it
      has returned with l added to them. */
  predicate Acquires(k: Context, l: LockId, held: set<LockId>) {
    if k.pc == Outside then l !in held && k.held == held + {l}
    else InAcquire(k.pc, l) && k.held == held && (k.pc.AcqExchange? || k.pc.AcqWriteCpu? ==> l !in held)
  }

  /** It is inside a release of l that found these locks held, and past its check only if l was among them; or it has
      returned without l. */
  predicate Releases(k: Context, l: LockId, held: set<LockId>) {
    if k.pc == RelReadLocked(l) || k.pc == RelReadCpu(l) then k.held == held
    else
      && l in held && k.held == held - {l}
      && (k.pc == Outside || k.pc == RelClearCpu(l) || k.pc == RelUnlock(l) || InPop(k.pc))
  }

  /** What next makes of a context in a call of l. */
  predicate GoesOn(k: Context, k': Context, l: LockId, held: set<LockId>) {
    && (Acquires(k, l, held) ==> Acquires(k', l, held))
    && (Releases(k, l, held) ==> Releases(k', l, held))
  }

  lemma PushGoesOn(cpu: Cpu, l: LockId, held: set<LockId>)
    requires InPush(cpu.top.pc)
    ensures Push(cpu).below == cpu.below && GoesOn(cpu.top, Push(cpu).top, l, held)
  {
  }

  lemma PopGoesOn(cpu: Cpu, l: LockId, held: set<LockId>)
    requires InPop(cpu.top.pc) && !Pop(cpu).Panic?
    ensures Pop(cpu).cpu.below == cpu.below && GoesOn(cpu.top, Pop(cpu).cpu.top, l, held)
  {
  }

  lemma SpinGoesOn(cpu: Cpu, me: CpuId, x: LockId, k: Lock, l: LockId, held: set<LockId>)
    requires LockOf(cpu.top.pc) == Some(x) && !InPush(cpu.top.pc) && !Spin(cpu, me, x, k).Panic?
    requires (k.cpu == Some(me) <==> Named(cpu, x)) && (Owns(cpu, x) ==> k.locked)
    ensures Spin(cpu, me, x, k).cpu.below == cpu.below && GoesOn(cpu.top, Spin(cpu, me, x, k).cpu.top, l, held)
  {
    if Acquires(cpu.top, l, held) {
      SpinAcquires(cpu, me, x, k, held);
    } else if Releases(cpu.top, l, held) {
      SpinReleases(cpu, me, x, k, held);
    }
    hide Acquires;
    hide Releases;
  }

  lemma SpinAcquires(cpu: Cpu, me: CpuId, l: LockId, k: Lock, held: set<LockId>)
    requires LockOf(cpu.top.pc) == Some(l) && !InPush(cpu.top.pc) && !Spin(cpu, me, l, k).Panic?
    requires (k.cpu == Some(me) <==> Named(cpu, l)) && (Owns(cpu, l) ==> k.locked)
    requires Acquires(cpu.top, l, held)
    ensures Acquires(Spin(cpu, me, l, k).cpu.top, l, held)
  {
  }

  lemma SpinReleases(cpu: Cpu, me: CpuId, l: LockId, k: Lock, held: set<LockId>)
    requires LockOf(cpu.top.pc) == Some(l) && !InPush(cpu.top.pc) && !Spin(cpu, me, l, k).Panic?
    requires (k.cpu == Some(me) <==> Named(cpu, l)) && (Owns(cpu, l) ==> k.locked)
    requires Releases(cpu.top, l, held)
    ensures Releases(Spin(cpu, me, l, k).cpu.top, l, held)
  {
  }

  lemma TickGoesOn(s: State, c: CpuId, l: LockId, held: set<LockId>)
    requires Inv(s) && Enabled(s, c, Tick) && !Act(s, c, Tick).Panic?
    ensures var cpu, e := s.cpus[c], Act(s, c, Tick); e.cpu.below == cpu.below && GoesOn(cpu.top, e.cpu.top, l, held)
  {
    hide GoesOn;
    var cpu := s.cpus[c];
    var pc := cpu.top.pc;
    assert CpuOk(cpu);
    if InPush(pc) {
      PushGoesOn(cpu, l, held);
    } else if InPop(pc) {
      PopGoesOn(cpu, l, held);
    } else {
      assert LockOk(s.cpus, LockOf(pc).value, s.locks[LockOf(pc).value]);
      SpinGoesOn(cpu, c, LockOf(pc).value, s.locks[LockOf(pc).value], l, held);
    }
  }

  lemma SameGoesOn(k: Context, l: LockId, held: set<LockId>)
    ensures GoesOn(k, k, l, held)
  {
  }

  /** While the context at level n is in a call, nothing any CPU does takes it out of the call but its return, which
      happens on top of the stack. */
  lemma CallGoesOn(s: State, c: CpuId, a: Action, d: CpuId, n: nat, l: LockId, held: set<LockId>)
    requires Inv(s) && Enabled(s, c, a) && !Act(s, c, a).Panic?
    requires d in s.cpus && n <= |s.cpus[d].below| && ContextAt(s.cpus[d], n).pc != Outside
    ensures var s' := Apply(s, c, Act(s, c, a));
            && d in s'.cpus && n <= |s'.cpus[d].below|
            && GoesOn(ContextAt(s.cpus[d], n), ContextAt(s'.cpus[d], n), l, held)
            && (ContextAt(s'.cpus[d], n).pc == Outside ==> n == |s'.cpus[d].below|)
  {
    hide GoesOn;
    hide Inv;
    hide Execute;
    SameGoesOn(ContextAt(s.cpus[d], n), l, held);
    if c == d && a == Tick { TickGoesOn(s, c, l, held); }
  }

  /** The context at level n of CPU d is in a call in every state from i up to j. */
  ghost predicate InCall(states: seq<State>, d: CpuId, n: nat, i: nat, j: nat) {
    forall x :: i <= x < j && x < |states| ==>
      d in states[x].cpus && n <= |states[x].cpus[d].below| && ContextAt(states[x].cpus[d], n).pc != Outside
  }

  lemma {:induction false} CallRuns(states: seq<State>, events: seq<Event>, d: CpuId, n: nat, i: nat, j: nat, l: LockId,
                                    held: set<LockId>)
    requires IsRun(states, events) && i < j < |states| && InCall(states, d, n, i, j)
    ensures d in states[i].cpus && n <= |states[i].cpus[d].below| && d in states[j].cpus
    ensures n <= |states[j].cpus[d].below|
    ensures GoesOn(ContextAt(states[i].cpus[d], n), ContextAt(states[j].cpus[d], n), l, held)
    ensures ContextAt(states[j].cpus[d], n).pc == Outside ==> n == |states[j].cpus[d].below|
    decreases j - i
  {
    hide Enabled;
    hide Act;
    hide Apply;
    hide Init;
    hide Inv;
    hide Acquires;
    hide Releases;
    if i < j - 1 {
      CallRuns(states, events, d, n, i, j - 1, l, held);
    }
    RunKeepsInv(states, events, j - 1);
    CallGoesOn(states[j-1], events[j-1].c, events[j-1].a, d, n, l, held);
  }

  /** The call made at i has returned by j: the context that made it is outside again, for the first time. */
  ghost predicate Returned(states: seq<State>, events: seq<Event>, i: nat, j: nat) {
    && i < |events| && i + 1 < j < |states| && events[i].c in states[i].cpus
    && var d := events[i].c;
       var n := |states[i].cpus[d].below|;
       && InCall(states, d, n, i + 1, j)
       && d in states[j].cpus && n <= |states[j].cpus[d].below| && ContextAt(states[j].cpus[d], n).pc == Outside
  }

  /** An acquire that returns has its lock: it was not held before, is now, and by nobody else; and the lock says so. */
  lemma AcquireReturns(states: seq<State>, events: seq<Event>, i: nat, j: nat, l: LockId)
    requires IsRun(states, events) && Returned(states, events, i, j) && events[i].a == CallAcquire(l)
    ensures var d := events[i].c;
            var cpu, cpu' := states[i].cpus[d], states[j].cpus[d];
            && |cpu'.below| == |cpu.below| && l !in cpu.top.held && cpu'.top.held == cpu.top.held + {l}
            && cpu'.depth == cpu.depth + 1 && !cpu'.enabled
            && l in states[j].locks && states[j].locks[l] == Lock(true, Some(d))
            && forall c :: c in states[j].cpus && c != d ==> !Owns(states[j].cpus[c], l)
  {
    hide Inv;
    var d := events[i].c;
    var n := |states[i].cpus[d].below|;
    var held := states[i].cpus[d].top.held;
    Starts(states, events, i);
    CallRuns(states, events, d, n, i + 1, j, l, held);
    LocksStay(states, events, i, j);
    RunKeepsInv(states, events, j);
    OwnedHere(states[j], d, l);
    RunKeepsInv(states, events, i);
    DepthIs(states[i], d);
    DepthIs(states[j], d);
  }

  /** A release that returns had its lock and has it no more. */
  lemma ReleaseReturns(states: seq<State>, events: seq<Event>, i: nat, j: nat, l: LockId)
    requires IsRun(states, events) && Returned(states, events, i, j) && events[i].a == CallRelease(l)
    ensures var d := events[i].c;
            var cpu, cpu' := states[i].cpus[d], states[j].cpus[d];
            && |cpu'.below| == |cpu.below| && l in cpu.top.held && cpu'.top.held == cpu.top.held - {l}
            && !Owns(cpu', l) && cpu'.depth == cpu.depth - 1
  {
    hide Inv;
    var d := events[i].c;
    var n := |states[i].cpus[d].below|;
    var held := states[i].cpus[d].top.held;
    Starts(states, events, i);
    CallRuns(states, events, d, n, i + 1, j, l, held);
    RunKeepsInv(states, events, i);
    RunKeepsInv(states, events, j);
    DepthIs(states[i], d);
    DepthIs(states[j], d);
    assert |held - {l}| == |held| - 1;
  }

  lemma Starts(states: seq<State>, events: seq<Event>, i: nat)
    requires IsRun(states, events) && i < |events| && (events[i].a.CallAcquire? || events[i].a.CallRelease?)
    ensures var d, a := events[i].c, events[i].a;
            && d in states[i].cpus && a.l in states[i].locks && states[i].cpus[d].top.pc == Outside
            && d in states[i+1].cpus && states[i+1].cpus[d].below == states[i].cpus[d].below
            && var k, k' := states[i].cpus[d].top, states[i+1].cpus[d].top;
               && (a.CallAcquire? ==> Acquires(k', a.l, k.held))
               && (a.CallRelease? ==> Releases(k', a.l, k.held))
  {
    hide Init;
    var d, a := events[i].c, events[i].a;
    assert Enabled(states[i], d, a);
  }

  lemma {:induction false} LocksStay(states: seq<State>, events: seq<Event>, i: nat, j: nat)
    requires IsRun(states, events) && i <= j < |states|
    ensures states[i].locks.Keys == states[j].locks.Keys
    decreases j - i
  {
    hide Init;
    hide Inv;
    hide Execute;
    hide Enter;
    hide LockOk;
    if i < j {
      LocksStay(states, events, i, j - 1);
      RunKeepsInv(states, events, j - 1);
      var s, e := states[j-1], Act(states[j-1], events[j-1].c, events[j-1].a);
      assert Enabled(s, events[j-1].c, events[j-1].a);
      if e.Write? { WrittenLockOk(s, events[j-1].c, events[j-1].a); }
    }
  }

  lemma OwnedHere(s: State, d: CpuId, l: LockId)
    requires Inv(s) && d in s.cpus && l in s.locks && l in s.cpus[d].top.held
    ensures s.locks[l] == Lock(true, Some(d)) && forall c :: c in s.cpus && c != d ==> !Owns(s.cpus[c], l)
  {
    assert LockOk(s.cpus, l, s.locks[l]);
    assert Owns(s.cpus[d], l) && Named(s.cpus[d], l);
  }

  lemma DepthIs(s: State, d: CpuId)
    requires Inv(s) && d in s.cpus && s.cpus[d].top.pc == Outside
    ensures s.cpus[d].depth == |s.cpus[d].top.held| && (s.cpus[d].top.held != {} ==> !s.cpus[d].enabled)
  {
    assert CpuOk(s.cpus[d]);
  }

  // ---------- an acquire waits only for its lock ----------

  /** How many more instructions a context may be from the end of its call. */
  function Left(pc: Pc): nat {
    match pc
    case Outside => 0
    case PushReadFlag(_) => 10
    case PushMask(_, _) => 9
    case PushReadDepth(_, _) => 8
    case PushSaveFlag(_, _) => 7
    case PushReload(_) => 6
    case PushStore(_, _) => 5
    case AcqReadLocked(_) => 4
    case AcqReadCpu(_) => 3
    case AcqExchange(_) => 2
    case AcqWriteCpu(_) => 1
    case RelReadLocked(_) => 10
    case RelReadCpu(_) => 9
    case RelClearCpu(_) => 8
    case RelUnlock(_) => 7
    case PopReadFlag => 6
    case PopReadDepth => 5
    case PopStore(_) => 4
    case PopReload => 3
    case PopReadSaved => 2
    case PopUnmask => 1
  }

  lemma PushNearer(cpu: Cpu)
    requires InPush(cpu.top.pc)
    ensures Left(Push(cpu).top.pc) < Left(cpu.top.pc)
  {
  }

  lemma PopNearer(cpu: Cpu)
    requires InPop(cpu.top.pc) && !Pop(cpu).Panic?
    ensures Left(Pop(cpu).cpu.top.pc) < Left(cpu.top.pc)
  {
  }

  lemma SpinNearer(cpu: Cpu, me: CpuId, l: LockId, k: Lock)
    requires LockOf(cpu.top.pc) == Some(l) && !InPush(cpu.top.pc) && !Spin(cpu, me, l, k).Panic?
    ensures var e := Spin(cpu, me, l, k);
            if cpu.top.pc == AcqExchange(l) && k.locked then e == Write(cpu, l, k)
            else
              && Left(e.cpu.top.pc) < Left(cpu.top.pc)
              && (cpu.top.pc == AcqExchange(l) ==> e.Write? && e.l == l && e.lock.locked && Owns(e.cpu, l))
  {
  }

  /** Every instruction brings its call nearer to its end, except an exchange on a lock that is taken, which changes
      nothing at all; one on a free lock takes it. */
  lemma WaitsOnlyWhileTaken(s: State, c: CpuId)
    requires Inv(s) && Enabled(s, c, Tick) && !Act(s, c, Tick).Panic?
    ensures var pc, s' := s.cpus[c].top.pc, Apply(s, c, Act(s, c, Tick));
            && c in s'.cpus
            && if pc.AcqExchange? && s.locks[pc.l].locked then s' == s
               else
                 && Left(s'.cpus[c].top.pc) < Left(pc)
                 && (pc.AcqExchange? ==> Owns(s'.cpus[c], pc.l) && pc.l in s'.locks && s'.locks[pc.l].locked)
  {
    hide Inv;
    hide Left;
    hide Push;
    hide Pop;
    hide Spin;
    hide Owns;
    var cpu := s.cpus[c];
    var pc, s' := cpu.top.pc, Apply(s, c, Act(s, c, Tick));
    if InPush(pc) {
      PushNearer(cpu);
    } else if InPop(pc) {
      PopNearer(cpu);
    } else {
      SpinNearer(cpu, c, LockOf(pc).value, s.locks[LockOf(pc).value]);
      if pc.AcqExchange? && s.locks[pc.l].locked {
        assert s'.cpus == s.cpus && s'.locks == s.locks;
      }
    }
  }
}
