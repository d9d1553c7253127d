/**
 * Lazy FPU handling: one hardware register file and two flags per thread
 * refine a private FPU for every thread.
 */
module LazyFpu {

  type Tid = int

  /** What the kernel keeps for a thread; `refaulted` marks a restore instruction that faulted and is to be retried. */
  datatype ThreadFpu<R> = ThreadFpu(usesFpu: bool, stateSaved: bool, area: R, refaulted: bool)

  /** User code; the start of a trap, before anything can switch thread; the rest of the kernel path. */
  datatype Mode = User | Entry | Kernel

  /** The hardware holds the registers of this thread. */
  predicate IsLive<R>(th: ThreadFpu<R>) {
    th.usesFpu && !th.stateSaved
  }

  /** The private FPU state of a thread is in the hardware if it is live there, in its area otherwise. */
  predicate Accounted<R(==)>(th: ThreadFpu<R>, own: R, hw: R, ts: bool, isCurrent: bool) {
    && (if IsLive(th) then isCurrent && !ts && hw == own else th.area == own)
    && (th.refaulted ==> th.usesFpu && th.stateSaved)
  }

  datatype Op<R> =
    | Compute(regs: R)
    | FirstUse
    | Trap
    | SwitchTo(to: Tid)
    | Prepare(t: Tid)
    | Deliver
    | SignalReturn(frame: R)
    | Return

  class Machine<R(==)> {
    const init: R
    const fxsr: bool
    const cve: bool
    var hw: R
    var ts: bool
    var threads: map<Tid, ThreadFpu<R>>
    var current: Tid
    var mode: Mode
    /** The private FPU of each thread. */
    ghost var own: map<Tid, R>

    ghost predicate Valid()
      reads this
    {
      && own.Keys == threads.Keys && current in threads
      && (forall t <- threads :: Accounted(threads[t], own[t], hw, ts, t == current))
      && (!mode.Kernel? ==> !threads[current].refaulted && threads[current].usesFpu == !ts)
      && (!mode.Kernel? && threads[current].usesFpu ==> !threads[current].stateSaved)
      && (mode.Kernel? ==> !IsLive(threads[current]))
    }

    /** The machine without its hardware: the private FPUs, and who may use them. */
    ghost function View(): Private<R>
      reads this
    {
      Private(own, current, mode, Users(threads), Marked(threads))
    }

    /** The machine as the first thread is about to run. */
    constructor (init: R, fxsr: bool, cve: bool, first: Tid)
      ensures Valid() && fresh(this)
      ensures threads == map[first := ThreadFpu(false, false, init, false)] && own[first] == init && current == first && mode == Kernel
      ensures this.init == init && this.fxsr == fxsr && this.cve == cve
    {
      this.init, this.fxsr, this.cve := init, fxsr, cve;
      hw, ts := init, false;
      threads := map[first := ThreadFpu(false, false, init, false)];
      own := map[first := init];
      current, mode := first, Kernel;
    }

    /**
     * An FPU instruction in user code. With the task-switched flag clear it
     * works on the hardware registers, and these are the thread's own.
     */
    method UserCompute(regs: R) returns (seen: R)
      requires Valid() && mode.User? && !ts
      modifies this`hw, this`own
      ensures Valid()
      ensures seen == old(own[current]) && own == old(own)[current := regs]
    {
      assert forall t <- threads :: Accounted(threads[t], own[t], hw, ts, t == current);
      seen := hw;
      hw := regs;
      own := own[current := regs];
    }

    method EnterKernel()
      requires Valid() && mode.User?
      modifies this`mode
      ensures Valid() && mode == Entry
    {
      mode := Entry;
    }

    /** The device-not-available exception; false when the thread already uses the FPU. */
    method UseFpu(thread: Tid) returns (first: bool)
      requires thread in threads
      modifies this`threads
      ensures first == !old(threads[thread].usesFpu)
      ensures threads == if first
                then old(threads)[thread := old(threads[thread]).(usesFpu := true, stateSaved := true)]
                else old(threads)
    {
      if threads[thread].usesFpu {
        return false;
      }
      threads := threads[thread := threads[thread].(usesFpu := true)];
      threads := threads[thread := threads[thread].(stateSaved := true)];
      return true;
    }

    /** First FPU instruction of a thread: it traps, and it is never mistaken for an invalid instruction. */
    method UserFirstUse() returns (first: bool)
      requires Valid() && mode.User? && ts
      modifies this`mode, this`threads
      ensures Valid() && mode == Kernel && first
      ensures threads == old(threads)[current := old(threads[current]).(usesFpu := true, stateSaved := true)]
    {
      first := UseFpu(current);
      mode := Kernel;
    }

    /** FXSAVE leaves the registers alone, FNSAVE initializes them. The instruction must not trap. */
    method DoSaveState() returns (dest: R)
      requires !ts
      modifies this`hw
      ensures dest == old(hw)
      ensures hw == if fxsr then old(hw) else init
    {
      dest := hw;
      if !fxsr {
        hw := init;
      }
    }

    /** Called just before switching to another thread. */
    method SaveFpuState(thread: Tid)
      requires thread in threads && (IsLive(threads[thread]) ==> !ts)
      modifies this`hw, this`threads
      ensures var was := old(threads[thread]);
              threads == old(threads)[thread :=
                if IsLive(was) then was.(stateSaved := true, area := old(hw))
                else was.(stateSaved := was.stateSaved || cve)]
      ensures !old(IsLive(threads[thread])) ==> hw == old(hw)
    {
      var was := threads[thread];
      if cve {
        threads := threads[thread := was.(stateSaved := true)];
      }
      if was.stateSaved || !was.usesFpu {
        return;
      }
      var dest := DoSaveState();
      threads := threads[thread := threads[thread].(area := dest)];
      threads := threads[thread := threads[thread].(stateSaved := true)];
    }

    method SwitchThread(to: Tid)
      requires Valid() && !mode.User? && to in threads && to != current
      modifies this`hw, this`threads, this`current, this`mode
      ensures Valid() && current == to && mode == Kernel && threads.Keys == old(threads.Keys)
      ensures var was := old(threads[current]);
              threads == old(threads)[old(current) :=
                if IsLive(was) then was.(stateSaved := true, area := old(hw))
                else was.(stateSaved := was.stateSaved || cve)]
    {
      SaveFpuState(current);
      current := to;
      mode := Kernel;
    }

    /** Get a thread ready for a first or new run; it starts with the initial FPU state. */
    method PrepareThread(thread: Tid)
      requires Valid() && !mode.User? && thread != current
      modifies this`threads, this`own
      ensures Valid() && own == old(own)[thread := init]
      ensures threads == old(threads)[thread := ThreadFpu(false, false, init, false)]
    {
      threads := threads[thread := ThreadFpu(false, false, init, false)];
      own := own[thread := init];
    }

    /** Saving the registers for a signal initializes them: FNSAVE does, and the thread has used them and not been switched away from. */
    predicate Resets()
      requires current in threads
      reads this
    {
      !fxsr && mode.Entry? && threads[current].usesFpu
    }

    /**
     * Copy the FPU state for a signal frame. The frame always holds the thread's
     * own state; the thread goes on with it unless saving it initializes the
     * registers.
     */
    method SaveForSignal() returns (frame: R)
      requires Valid() && !mode.User? && !threads[current].refaulted
      modifies this`hw, this`own
      ensures Valid() && frame == old(own[current])
      ensures own == if old(Resets()) then old(own)[current := init] else old(own)
      ensures hw == if old(Resets()) then init else old(hw)
    {
      assert forall t <- threads :: Accounted(threads[t], own[t], hw, ts, t == current);
      if threads[current].stateSaved || !threads[current].usesFpu {
        frame := threads[current].area;
        return;
      }
      frame := DoSaveState();
      own := own[current := hw];
    }

    /** Take the FPU state back from a signal frame, which user code may have changed. */
    method RestoreForSignal(frame: R)
      requires Valid() && mode.Entry?
      modifies this`hw, this`threads, this`own
      ensures Valid() && own == old(own)[current := frame]
      ensures var was := old(threads[current]);
              threads == old(threads)[current := if was.usesFpu then was.(stateSaved := false) else was.(area := frame)]
    {
      own := own[current := frame];
      if !threads[current].usesFpu {
        threads := threads[current := threads[current].(area := frame)];
        return;
      }
      hw := frame;
      threads := threads[current := threads[current].(stateSaved := false)];
    }

    /**
     * The way back to user code. With the forced-restore workaround a thread
     * that does not use the FPU has a state to restore while the task-switched
     * flag is set: the restore traps, the handler marks the thread as a user of
     * the FPU, and the instruction is retried on the way out of that trap.
     */
    method ReturnToUser()
      requires Valid() && !mode.User?
      modifies this`hw, this`ts, this`threads, this`mode
      ensures Valid()
      ensures if old(!threads[current].usesFpu && threads[current].stateSaved)
              then mode == Kernel && threads[current].refaulted
              else mode == User
      ensures mode == User ==> ts == !threads[current].usesFpu
      ensures threads == old(threads)[current :=
                if mode == User then old(threads[current]).(stateSaved := false, refaulted := false)
                else old(threads[current]).(usesFpu := true, refaulted := true)]
    {
      var th := threads[current];
      ts := !th.usesFpu;
      if !th.stateSaved {
        mode := User;
        return;
      }
      if ts {
        var _ := UseFpu(current);
        threads := threads[current := threads[current].(refaulted := true)];
        mode := Kernel;
        return;
      }
      hw := th.area;
      threads := threads[current := th.(stateSaved := false, refaulted := false)];
      mode := User;
    }

    predicate Enabled(op: Op<R>)
      requires current in threads
      reads this
    {
      match op
      case Compute(_) => mode.User? && !ts
      case FirstUse => mode.User? && ts
      case Trap => mode.User?
      case SwitchTo(to) => !mode.User? && to in threads && to != current
      case Prepare(t) => !mode.User? && t != current
      case Deliver => !mode.User? && !threads[current].refaulted
      case SignalReturn(_) => mode.Entry?
      case Return => !mode.User?
    }

    /** One step of the machine is one step of the private FPUs. */
    method Step(op: Op<R>) returns (seen: seq<R>)
      requires Valid() && Enabled(op)
      modifies this
      ensures Valid()
      ensures View() == PrivateStep(init, fxsr, cve, old(View()), op) && seen == PrivateRead(old(View()), op)
    {
      seen := [];
      match op {
        case Compute(regs) =>
          var r := UserCompute(regs);
          seen := [r];
        case Trap =>
          EnterKernel();
        case Deliver =>
          var _ := SaveForSignal();
        case FirstUse =>
          var _ := UserFirstUse();
          FlagsOf(old(threads), current, threads[current]);
        case Return =>
          ReturnToUser();
          FlagsOf(old(threads), current, threads[current]);
        case _ =>
          StepOnState(op);
      }
    }

    /** A step that moves the state of one thread. */
    method StepOnState(op: Op<R>)
      requires Valid() && Enabled(op) && (op.SwitchTo? || op.Prepare? || op.SignalReturn?)
      modifies this
      ensures Valid() && View() == PrivateStep(init, fxsr, cve, old(View()), op)
    {
      ghost var t := if op.Prepare? then op.t else current;
      match op {
        case SwitchTo(to) => SwitchThread(to);
        case Prepare(t) => PrepareThread(t);
        case SignalReturn(frame) => RestoreForSignal(frame);
      }
      FlagsOf(old(threads), t, threads[t]);
      assert threads == old(threads)[t := threads[t]];
    }

    /**
     * Every interleaving, with or without FXSAVE and the workaround: what user
     * code finds in the registers is what it would find in a private FPU. What
     * the machine cannot do next is left out.
     */
    method Run(ops: seq<Op<R>>) returns (done: seq<Op<R>>, seen: seq<R>)
      requires Valid()
      modifies this
      ensures Valid()
      ensures View() == PrivateFpus(init, fxsr, cve, old(View()), done)
      ensures seen == PrivateReads(init, fxsr, cve, old(View()), done)
    {
      done, seen := [], [];
      for k := 0 to |ops|
        invariant Valid()
        invariant View() == PrivateFpus(init, fxsr, cve, old(View()), done)
        invariant seen == PrivateReads(init, fxsr, cve, old(View()), done)
      {
        if Enabled(ops[k]) {
          var more := Step(ops[k]);
          ghost var longer := done + [ops[k]];
          assert longer[..|longer| - 1] == done;
          seen := seen + more;
          done := done + [ops[k]];
        }
      }
    }
  }

  // ---- The reference: a machine where every thread has an FPU of its own

  /**
   * The threads' own registers, which thread runs and where, who uses the FPU, and
   * whom the workaround will make use it.
   */
  datatype Private<R> = Private(own: map<Tid, R>, current: Tid, mode: Mode, users: set<Tid>, marked: set<Tid>)

  ghost function Users<R>(threads: map<Tid, ThreadFpu<R>>): set<Tid> {
    set t | t in threads && threads[t].usesFpu
  }

  ghost function Marked<R>(threads: map<Tid, ThreadFpu<R>>): set<Tid> {
    set t | t in threads && !threads[t].usesFpu && threads[t].stateSaved
  }

  lemma FlagsOf<R>(threads: map<Tid, ThreadFpu<R>>, t: Tid, th: ThreadFpu<R>)
    ensures Users(threads[t := th]) == if th.usesFpu then Users(threads) + {t} else Users(threads) - {t}
    ensures Marked(threads[t := th]) == if !th.usesFpu && th.stateSaved then Marked(threads) + {t} else Marked(threads) - {t}
  {}

  /**
   * One step on private FPUs: no hardware and no areas. A signal that is
   * delivered before any switch makes a user of the FPU start over without FXSAVE.
   */
  ghost function PrivateStep<R>(init: R, fxsr: bool, cve: bool, p: Private<R>, op: Op<R>): Private<R> {
    var c := p.current;
    match op
    case Compute(regs) => p.(own := p.own[c := regs])
    case FirstUse => p.(mode := Kernel, users := p.users + {c}, marked := p.marked - {c})
    case Trap => p.(mode := Entry)
    case SwitchTo(to) => p.(current := to, mode := Kernel, marked := if cve && c !in p.users then p.marked + {c} else p.marked)
    case Prepare(t) => p.(own := p.own[t := init], users := p.users - {t}, marked := p.marked - {t})
    case Deliver => if !fxsr && p.mode.Entry? && c in p.users then p.(own := p.own[c := init]) else p
    case SignalReturn(frame) => p.(own := p.own[c := frame])
    case Return =>
      if c in p.marked then p.(mode := Kernel, users := p.users + {c}, marked := p.marked - {c}) else p.(mode := User)
  }

  /** What user code reads in one step. */
  ghost function PrivateRead<R>(p: Private<R>, op: Op<R>): seq<R> {
    if op.Compute? && p.current in p.own then [p.own[p.current]] else []
  }

  ghost function PrivateFpus<R>(init: R, fxsr: bool, cve: bool, p: Private<R>, done: seq<Op<R>>): Private<R> {
    if done == [] then p
    else PrivateStep(init, fxsr, cve, PrivateFpus(init, fxsr, cve, p, done[..|done| - 1]), done[|done| - 1])
  }

  ghost function PrivateReads<R>(init: R, fxsr: bool, cve: bool, p: Private<R>, done: seq<Op<R>>): seq<R> {
    if done == [] then []
    else
      var prefix := done[..|done| - 1];
      PrivateReads(init, fxsr, cve, p, prefix) + PrivateRead(PrivateFpus(init, fxsr, cve, p, prefix), done[|done| - 1])
  }

  // ---- What the reference shows

  /** The step leaves the registers of t alone: it does not start t and is no instruction, signal return or fresh start of t. */
  predicate Spares<R>(fxsr: bool, p: Private<R>, op: Op<R>, t: Tid) {
    match op
    case Prepare(u) => u != t
    case Compute(_) => t != p.current
    case SignalReturn(_) => t != p.current
    case Deliver => t != p.current || fxsr || !p.mode.Entry? || t !in p.users
    case _ => true
  }

  ghost predicate SparesAll<R>(init: R, fxsr: bool, cve: bool, p: Private<R>, done: seq<Op<R>>, t: Tid) {
    done != [] ==>
      var prefix := done[..|done| - 1];
      SparesAll(init, fxsr, cve, p, prefix, t) && Spares(fxsr, PrivateFpus(init, fxsr, cve, p, prefix), done[|done| - 1], t)
  }

  /** Over any run, a thread's registers change only by its own instructions, its signals and its start. */
  lemma {:induction false} Isolated<R>(init: R, fxsr: bool, cve: bool, p: Private<R>, done: seq<Op<R>>, t: Tid)
    requires t in p.own && SparesAll(init, fxsr, cve, p, done, t)
    ensures var q := PrivateFpus(init, fxsr, cve, p, done); t in q.own && q.own[t] == p.own[t]
    decreases |done|
  {
    if done != [] {
      Isolated(init, fxsr, cve, p, done[..|done| - 1], t);
    }
  }

  /** Without FXSAVE: a thread with 7 in its registers takes a signal, and the handler starts with the initial state. */
  method FnsaveExample(cve: bool) returns (frame: int, registers: int)
    ensures frame == 7 && registers == 0
  {
    var m := new Machine(0, false, cve, 1);
    m.ReturnToUser();
    var _ := m.UserFirstUse();
    m.ReturnToUser();
    var _ := m.UserCompute(7);
    m.EnterKernel();
    frame := m.SaveForSignal();
    registers := m.hw;
  }
}
