/**
 * Signals: masks of 64 signals, which one is delivered, and what a handler
 * returns to. Signal numbers go from 1 to 64. A machine word is the set of the
 * positions of its one bits.
 */
module Signals {
  import opened Options

  type Bits = set<int>

  predicate Fits(b: Bits, n: nat) {
    forall i <- b :: 0 <= i < n
  }

  function ShiftLeft(b: Bits, k: nat): Bits {
    set i | i in b :: i + k
  }

  function ShiftRight(b: Bits, k: nat): Bits {
    set i | i in b && i >= k :: i - k
  }

  function LowBits(b: Bits, k: nat): Bits {
    set i | i in b && i < k
  }

  predicate IsInvalid(signo: int) {
    signo < 1 || signo > 64
  }

  /** One, shifted to the position of a signal. */
  function OneMask(signo: int): Bits {
    {signo - 1}
  }

  predicate Has(m: Bits, signo: int) {
    m * OneMask(signo) != {}
  }

  lemma HasBit(m: Bits, signo: int)
    ensures Has(m, signo) <==> signo - 1 in m
  {
    assert signo - 1 in m ==> signo - 1 in m * OneMask(signo);
  }

  // ---- Sets of signals as user space sees them

  datatype Sigset = Sigset(w0: Bits, w1: Bits, w2: Bits, w3: Bits)

  predicate SigsetOk(s: Sigset) {
    Fits(s.w0, 32) && Fits(s.w1, 32) && Fits(s.w2, 32) && Fits(s.w3, 32)
  }

  /** The kernel's encoding of a mask in two words, and back. */
  function Encode(m: Bits): Sigset {
    Sigset(LowBits(m, 32), ShiftRight(m, 32), {}, {})
  }

  function Decode(s: Sigset): Bits {
    ShiftLeft(s.w1, 32) + s.w0
  }

  lemma DecodeEncode(m: Bits)
    requires Fits(m, 64)
    ensures Decode(Encode(m)) == m && SigsetOk(Encode(m))
  {
    forall i | i in m ensures i in Decode(Encode(m)) {
      if i >= 32 {
        assert i - 32 in ShiftRight(m, 32);
      }
    }
  }

  lemma DecodeFits(s: Sigset)
    requires SigsetOk(s)
    ensures Fits(Decode(s), 64)
  {}

  function SignoMask(signo: int): Bits {
    if signo > 32 then {signo - 33} else {signo - 1}
  }

  function WordOf(s: Sigset, signo: int): Bits {
    if signo < 33 then s.w0 else s.w1
  }

  /** Whether a signal is in a set, or -1 if there is no such signal. */
  function IsMember(s: Sigset, signo: int): int {
    if IsInvalid(signo) then -1 else if WordOf(s, signo) * SignoMask(signo) != {} then 1 else 0
  }

  function Add(s: Sigset, signo: int): Sigset {
    if IsInvalid(signo) then s
    else if signo < 33 then s.(w0 := s.w0 + SignoMask(signo)) else s.(w1 := s.w1 + SignoMask(signo))
  }

  function Del(s: Sigset, signo: int): Sigset {
    if IsInvalid(signo) then s
    else if signo < 33 then s.(w0 := s.w0 - SignoMask(signo)) else s.(w1 := s.w1 - SignoMask(signo))
  }

  /** Both sides agree on what is in a set. */
  lemma MembersAgree(s: Sigset, signo: int)
    requires SigsetOk(s) && !IsInvalid(signo)
    ensures IsMember(s, signo) == 1 <==> Has(Decode(s), signo)
  {
    HasBit(Decode(s), signo);
    if signo > 32 {
      assert signo - 33 in s.w1 ==> signo - 33 in s.w1 * SignoMask(signo);
      assert signo - 1 in ShiftLeft(s.w1, 32) <==> signo - 33 in s.w1 by {
        assert signo - 33 in s.w1 ==> signo - 33 + 32 in ShiftLeft(s.w1, 32);
      }
    } else {
      assert signo - 1 in s.w0 ==> signo - 1 in s.w0 * SignoMask(signo);
    }
  }

  /** Adding and removing a signal changes its membership and no other. */
  lemma AddDelete(s: Sigset, k: int, signo: int)
    requires SigsetOk(s) && !IsInvalid(k) && !IsInvalid(signo)
    ensures SigsetOk(Add(s, k)) && SigsetOk(Del(s, k))
    ensures IsMember(Add(s, k), signo) == 1 <==> IsMember(s, signo) == 1 || k == signo
    ensures IsMember(Del(s, k), signo) == 1 <==> IsMember(s, signo) == 1 && k != signo
  {
    MemberBit(s, signo);
    MemberBit(Add(s, k), signo);
    MemberBit(Del(s, k), signo);
  }

  lemma MemberBit(s: Sigset, signo: int)
    requires !IsInvalid(signo)
    ensures IsMember(s, signo) == 1 <==> (if signo > 32 then signo - 33 in s.w1 else signo - 1 in s.w0)
  {
    var b := if signo > 32 then signo - 33 else signo - 1;
    assert b in WordOf(s, signo) ==> b in WordOf(s, signo) * SignoMask(signo);
  }

  // ---- The saved context

  const GS := 0
  const FS := 1
  const ES := 2
  const DS := 3
  const EDI := 4
  const ESI := 5
  const EBP := 6
  const ESP := 7
  const EBX := 8
  const EDX := 9
  const ECX := 10
  const EAX := 11
  const TRAPNO := 12
  const ERR := 13
  const EIP := 14
  const CS := 15
  const EFL := 16
  const UESP := 17
  const SS := 18
  const NGREG := 19

  datatype Frame = Frame(
    gs: int, fs: int, es: int, ds: int, edi: int, esi: int, ebp: int, ebx: int, edx: int, ecx: int, eax: int,
    trapno: int, errcode: int, eip: int, cs: int, eflags: Bits, esp: int, ss: int)

  /** What a slot of a saved context holds: a number, or the flags. */
  datatype Slot = Num(n: int) | Flags(f: Bits)

  type Gregs = g: seq<Slot> | |g| == NGREG && g[EFL].Flags? && (forall i :: 0 <= i < NGREG && i != EFL ==> g[i].Num?)
    witness seq(19, i => if i == 16 then Flags({}) else Num(0))

  datatype UContext = UContext(sigmask: Sigset, gregs: Gregs, fpregs: int)

  /** The flags that user space controls: CF, PF, AF, ZF, SF, TF, DF, OF, NT, AC and ID. */
  const USER_FLAGS: Bits := {0, 2, 4, 6, 7, 8, 10, 11, 14, 18, 21}

  /** Copy the general registers into a context. */
  method SaveRegisters(f: Frame) returns (g: Gregs)
    ensures g[ESP] == Num(0) && SavedIn(f, g)
  {
    var gregs := new Slot[NGREG](i => Num(0));
    SaveFirst(f, gregs);
    SaveOthers(f, gregs);
    assert forall i :: 0 <= i < NGREG && i != EFL ==> gregs[i].Num?;
    g := gregs[..];
  }

  method SaveFirst(f: Frame, gregs: array<Slot>)
    requires gregs.Length == NGREG
    modifies gregs
    ensures gregs[GS] == Num(f.gs) && gregs[FS] == Num(f.fs) && gregs[ES] == Num(f.es) && gregs[DS] == Num(f.ds)
    ensures gregs[EDI] == Num(f.edi) && gregs[ESI] == Num(f.esi) && gregs[EBP] == Num(f.ebp) && gregs[ESP] == Num(0)
    ensures gregs[EBX] == Num(f.ebx) && gregs[EDX] == Num(f.edx)
  {
    gregs[GS] := Num(f.gs);
    gregs[FS] := Num(f.fs);
    gregs[ES] := Num(f.es);
    gregs[DS] := Num(f.ds);
    gregs[EDI] := Num(f.edi);
    gregs[ESI] := Num(f.esi);
    gregs[EBP] := Num(f.ebp);
    gregs[ESP] := Num(0);
    gregs[EBX] := Num(f.ebx);
    gregs[EDX] := Num(f.edx);
  }

  method SaveOthers(f: Frame, gregs: array<Slot>)
    requires gregs.Length == NGREG
    modifies gregs
    ensures gregs[ECX] == Num(f.ecx) && gregs[EAX] == Num(f.eax) && gregs[TRAPNO] == Num(f.trapno) && gregs[ERR] == Num(f.errcode)
    ensures gregs[EIP] == Num(f.eip) && gregs[CS] == Num(f.cs) && gregs[EFL] == Flags(f.eflags) && gregs[UESP] == Num(f.esp)
    ensures gregs[SS] == Num(f.ss) && forall i :: 0 <= i < ECX ==> gregs[i] == old(gregs[i])
  {
    gregs[ECX] := Num(f.ecx);
    gregs[EAX] := Num(f.eax);
    gregs[TRAPNO] := Num(f.trapno);
    gregs[ERR] := Num(f.errcode);
    gregs[EIP] := Num(f.eip);
    gregs[CS] := Num(f.cs);
    gregs[EFL] := Flags(f.eflags);
    gregs[UESP] := Num(f.esp);
    gregs[SS] := Num(f.ss);
  }

  /** Every register of the frame is in its slot. */
  predicate SavedIn(f: Frame, g: Gregs) {
    && g[GS].n == f.gs && g[FS].n == f.fs && g[ES].n == f.es && g[DS].n == f.ds && g[EDI].n == f.edi && g[ESI].n == f.esi
    && g[EBP].n == f.ebp && g[EBX].n == f.ebx && g[EDX].n == f.edx && g[ECX].n == f.ecx && g[EAX].n == f.eax
    && g[TRAPNO].n == f.trapno && g[ERR].n == f.errcode && g[EIP].n == f.eip && g[CS].n == f.cs && g[EFL].f == f.eflags
    && g[UESP].n == f.esp && g[SS].n == f.ss
  }

  /** Copy them back: not the code segment and the error code, and only the flags that user space controls. */
  function Restored(f: Frame, g: Gregs): Frame {
    f.(gs := g[GS].n, fs := g[FS].n, es := g[ES].n, ds := g[DS].n, edi := g[EDI].n, esi := g[ESI].n, ebp := g[EBP].n,
       ebx := g[EBX].n, edx := g[EDX].n, ecx := g[ECX].n, eax := g[EAX].n, trapno := g[TRAPNO].n, eip := g[EIP].n,
       eflags := (f.eflags - USER_FLAGS) + (g[EFL].f * USER_FLAGS), esp := g[UESP].n, ss := g[SS].n)
  }

  /** Two frames that look the same to the program. */
  predicate SameToUser(a: Frame, b: Frame) {
    && a == b.(errcode := a.errcode, cs := a.cs, eflags := a.eflags)
    && a.eflags * USER_FLAGS == b.eflags * USER_FLAGS
  }

  /** Whatever the frame has become, restoring what was saved gives the program its registers and flags back. */
  lemma RestoreSaved(f: Frame, g: Gregs, now: Frame)
    requires SavedIn(f, g)
    ensures SameToUser(Restored(now, g), f) && Restored(now, g).eflags - USER_FLAGS == now.eflags - USER_FLAGS
    ensures Restored(now, g).cs == now.cs
  {
    FlagsRestored(f.eflags, now.eflags, USER_FLAGS);
  }

  lemma FlagsRestored(saved: Bits, now: Bits, mask: Bits)
    ensures ((now - mask) + (saved * mask)) * mask == saved * mask && ((now - mask) + (saved * mask)) - mask == now - mask
  {}

  // ---- The result of a system call

  const EINVAL := 3
  const MINUS_ONE := 0xFFFF_FFFF

  /** Every system call leaves its result in the registers that carried its arguments. */
  function WithResult(f: Frame, eax: int, ebx: int): Frame {
    f.(eax := eax, ebx := ebx, esi := 0, edi := 0)
  }

  function WithStatus(f: Frame, ok: bool): Frame {
    if ok then WithResult(f, 0, 0) else WithResult(f, MINUS_ONE, EINVAL)
  }

  /** The four registers already hold what a call that succeeds puts there. */
  predicate ResultIsZero(f: Frame) {
    f.eax == 0 && f.ebx == 0 && f.esi == 0 && f.edi == 0
  }

  /** What an interrupted program finds when its handler has gone back: its frame, but for the result of the handler's last call. */
  predicate ComesBack(after: Frame, before: Frame) {
    && ResultIsZero(after) && SameToUser(after, WithStatus(before, true))
    && (SameToUser(after, before) <==> ResultIsZero(before))
  }

  /** A frame that was saved is seen again if and only if the result of the call that restores it is in it already. */
  lemma SeenAgainIff(f: Frame, g: Gregs, now: Frame)
    requires SavedIn(f, g)
    ensures ComesBack(WithStatus(Restored(now, g), true), f)
  {
    RestoreSaved(f, g, now);
  }

  /** The ways into the kernel; the two instructions have a way out of their own. */
  datatype Entry = InterruptGate | SyscallInstruction | SysenterInstruction

  const INTERRUPT_FLAG := 9

  function TrapNumber(entry: Entry): int {
    match entry
    case InterruptGate => 128
    case SyscallInstruction => 256
    case SysenterInstruction => 257
  }

  /** The flags in user mode: the way out that belongs to an instruction turns interrupts on, the general one takes them from the frame. */
  function FlagsOnExit(entry: Entry, f: Frame): Bits {
    if entry.InterruptGate? || f.trapno != TrapNumber(entry) then f.eflags else f.eflags + {INTERRUPT_FLAG}
  }

  /**
   * The instructions turn interrupts off before the flags are saved, and going
   * back takes this flag from the handler's frame and the trap number from the
   * context. So a program goes on with interrupts on if and only if its handler
   * came through the interrupt gate, or by the instruction that the program had
   * used when it was interrupted.
   */
  lemma InterruptsOnIff(entry: Entry, now: Frame, f: Frame, g: Gregs)
    requires SavedIn(f, g) && (INTERRUPT_FLAG in now.eflags <==> entry.InterruptGate?)
    ensures INTERRUPT_FLAG in FlagsOnExit(entry, WithStatus(Restored(now, g), true)) <==>
              entry.InterruptGate? || f.trapno == TrapNumber(entry)
  {
    assert INTERRUPT_FLAG !in USER_FLAGS;
  }

  // ---- Delivery

  const KLIMIT := 0xC000_0000
  const UCONTEXT_SIZE := 140
  const SIGINFO_SIZE := 32
  const PADDING := 64
  const FXSAVE_SIZE := 512
  const FSAVE_SIZE := 108

  function AlignStart(x: int): int {
    x - x % 16
  }

  /** Where the FPU registers, the context and the signal information go below a stack pointer. */
  function FpregsAt(esp: int, fpSize: nat): int {
    AlignStart(esp - fpSize)
  }

  function ContextAt(esp: int, fpSize: nat): int {
    AlignStart(FpregsAt(esp, fpSize) - UCONTEXT_SIZE)
  }

  function SiginfoAt(esp: int, fpSize: nat): int {
    AlignStart(ContextAt(esp, fpSize) - SIGINFO_SIZE)
  }

  /** A pointer that has wrapped around below zero is a kernel one, so a negative address is not in user space. */
  predicate InUserSpace(addr: int, size: int) {
    0 <= addr < KLIMIT && size <= KLIMIT - addr
  }

  /** All of it, and some space for the handler, is in user space. */
  predicate Adequate(esp: int, fpSize: nat) {
    var stack := SiginfoAt(esp, fpSize);
    InUserSpace(stack - PADDING, esp - stack + PADDING)
  }

  /** The context is below everything that was on the stack. */
  lemma ContextBelow(esp: int, fpSize: nat)
    requires Adequate(esp, fpSize)
    ensures PADDING <= SiginfoAt(esp, fpSize) < ContextAt(esp, fpSize) < esp <= KLIMIT
  {}

  /** What is delivered can be returned from. */
  lemma ContextAccepted(esp: int, fpSize: nat)
    requires Adequate(esp, fpSize) && fpSize > 0
    ensures InUserSpace(ContextAt(esp, fpSize), UCONTEXT_SIZE) && InUserSpace(FpregsAt(esp, fpSize), fpSize)
  {}

  class Signalling {
    const fpSize: nat
    var threadPending: Bits
    var processPending: Bits
    var blocked: Bits
    var syncSigno: int                     // zero if there is none
    var handler: int                       // zero if there is none
    var frame: Frame
    var contexts: map<int, UContext>       // saved contexts in user memory

    ghost predicate Valid()
      reads this
    {
      && (fpSize == FXSAVE_SIZE || fpSize == FSAVE_SIZE)
      && 0 <= syncSigno <= 64 && Fits(threadPending, 64) && Fits(processPending, 64) && Fits(blocked, 64)
    }

    constructor (fxsr: bool, frame: Frame, handler: int)
      ensures Valid() && blocked == {} && threadPending == {} && processPending == {} && contexts == map[]
      ensures this.frame == frame && this.handler == handler
    {
      this.fpSize, this.frame, this.handler := if fxsr then FXSAVE_SIZE else FSAVE_SIZE, frame, handler;
      threadPending, processPending, blocked, syncSigno, contexts := {}, {}, {}, 0, map[];
    }

    /** The signals that could be delivered. */
    function Deliverable(): Bits
      reads this
    {
      (processPending + threadPending) - blocked
    }

    /** There is a handler, a signal for it and room on the stack. */
    predicate WillInterrupt()
      reads this
    {
      handler != 0 && (Deliverable() != {} || syncSigno != 0) && Adequate(frame.esp, fpSize)
    }

    /**
     * Choose and deliver a signal: the synchronous one if there is one, or the
     * lowest that is pending and not blocked. It is blocked from then on, and one
     * pending bit is cleared unless it was synchronous.
     */
    method CheckForSignal() returns (signo: int)
      requires Valid()
      modifies this
      ensures Valid() && handler == old(handler)
      ensures signo == 0 <==> old(handler) == 0 || (old(Deliverable()) == {} && old(syncSigno) == 0)
      ensures signo == 0 ==>
                && blocked == old(blocked) && threadPending == old(threadPending) && processPending == old(processPending)
                && syncSigno == old(syncSigno) && frame == old(frame) && contexts == old(contexts)
      ensures signo != 0 ==>
                && Taken(old(Deliverable()), old(threadPending), old(processPending), old(syncSigno), signo,
                         threadPending, processPending, syncSigno)
                && blocked == old(blocked) + OneMask(signo)
                && Delivered(old(frame), old(contexts), old(blocked), handler, fpSize, frame, contexts)
    {
      var sigmask := blocked;
      var pending := processPending + threadPending;
      var signals := pending - sigmask;
      if signals == {} && syncSigno == 0 {
        return 0;
      }
      if handler == 0 {
        return 0;
      }
      signo := Take(signals);
      blocked := blocked + OneMask(signo);
      DeliverSignal(sigmask);
    }

    /** Take a signal from where it is pending. */
    method Take(signals: Bits) returns (signo: int)
      requires Valid() && signals == Deliverable() && (signals != {} || syncSigno != 0)
      modifies this`threadPending, this`processPending, this`syncSigno
      ensures Valid()
      ensures Taken(signals, old(threadPending), old(processPending), old(syncSigno), signo, threadPending, processPending, syncSigno)
    {
      if syncSigno != 0 {
        signo := syncSigno;
        syncSigno := 0;
      } else {
        var onemask;
        signo, onemask := FindFirst(signals);
        HasBit(threadPending, signo);
        if threadPending * onemask != {} {
          threadPending := threadPending - onemask;
        } else {
          processPending := processPending - onemask;
        }
      }
    }

    /** Put the context on the user stack and have the thread continue in the handler; give up if the stack is not adequate. */
    method DeliverSignal(sigmask: Bits)
      modifies this`frame, this`contexts
      ensures Delivered(old(frame), old(contexts), sigmask, handler, fpSize, frame, contexts)
    {
      var ucontext, stack := ContextAt(frame.esp, fpSize), SiginfoAt(frame.esp, fpSize);
      if !InUserSpace(stack - PADDING, frame.esp - stack + PADDING) {
        return;
      }
      var g := SaveRegisters(frame);
      contexts := contexts[ucontext := UContext(Encode(sigmask), g, FpregsAt(frame.esp, fpSize))];
      frame := frame.(esp := stack - 16, eip := handler);
    }

    /**
     * Restore what was saved: whatever frame it was, the program would see it
     * again. Refused, without a change, exactly if the FPU registers that the
     * context names are not in user space.
     */
    method ReturnFromSignal(ucontext: int) returns (ok: bool)
      requires ucontext in contexts
      modifies this`frame, this`blocked
      ensures ok <==> InUserSpace(contexts[ucontext].fpregs, fpSize)
      ensures !ok ==> frame == old(frame) && blocked == old(blocked)
      ensures ok ==> frame == Restored(old(frame), contexts[ucontext].gregs) && blocked == Decode(contexts[ucontext].sigmask)
    {
      if !InUserSpace(contexts[ucontext].fpregs, fpSize) {
        return false;
      }
      frame := Restored(frame, contexts[ucontext].gregs);
      blocked := Decode(contexts[ucontext].sigmask);
      return true;
    }

    /**
     * The system call by which a handler goes back, with its result, which is
     * written to the restored frame: the program finds the frame that was saved,
     * but for four registers, and all of it if and only if these were zero. A call
     * that is refused only reports that; it is refused exactly if the context or
     * its FPU registers are not in user space.
     */
    method SysReturnFromSignal(ucontext: int) returns (ok: bool)
      requires InUserSpace(ucontext, UCONTEXT_SIZE) ==> ucontext in contexts
      modifies this`frame, this`blocked
      ensures ok <==> InUserSpace(ucontext, UCONTEXT_SIZE) && InUserSpace(contexts[ucontext].fpregs, fpSize)
      ensures !ok ==> frame == WithStatus(old(frame), false) && blocked == old(blocked)
      ensures ok ==> forall f {:trigger SavedIn(f, contexts[ucontext].gregs)} ::
                       SavedIn(f, contexts[ucontext].gregs) ==> ComesBack(frame, f)
      ensures frame.cs == old(frame.cs) && frame.eflags - USER_FLAGS == old(frame.eflags) - USER_FLAGS
      ensures ok ==> blocked == Decode(contexts[ucontext].sigmask)
    {
      if !InUserSpace(ucontext, UCONTEXT_SIZE) {
        frame := WithStatus(frame, false);
        return false;
      }
      ghost var now, g := frame, contexts[ucontext].gregs;
      ok := ReturnFromSignal(ucontext);
      frame := WithStatus(frame, ok);
      FlagsRestored(g[EFL].f, now.eflags, USER_FLAGS);
      forall f | ok && SavedIn(f, g) ensures ComesBack(frame, f) {
        SeenAgainIff(f, g, now);
      }
    }

    ghost predicate ContextsOk()
      reads this
    {
      forall a <- contexts :: SigsetOk(contexts[a].sigmask)
    }

    /** The contexts from `floor` on are as they were. */
    twostate predicate Undisturbed(floor: int)
      reads this
    {
      forall a :: a >= floor && a in old(contexts) ==> a in contexts && contexts[a] == old(contexts[a])
    }

    /**
     * Carry out a script on a stack that starts at `floor`. Handlers nest to any
     * depth; whenever one goes back, the interrupted program has its signal mask,
     * its flags and its registers again, but for the result of the handler's call.
     */
    method Execute(script: Script, floor: int) returns (log: seq<Round>)
      requires Valid() && ContextsOk() && frame.esp <= floor
      modifies this
      ensures Valid() && ContextsOk() && frame.esp <= floor && Undisturbed(floor) && AllComeBack(log)
      decreases script, 0
    {
      match script {
        case Stop =>
          log := [];
        case Compute(r, rest) =>
          if r.esp <= floor {
            frame := r.(cs := frame.cs, eflags := (frame.eflags - USER_FLAGS) + (r.eflags * USER_FLAGS));
          }
          log := Execute(rest, floor);
        case ChangeMask(how, mask, rest) =>
          if SigsetOk(mask) {
            var done, oset := GetSetMask(how, Some(mask));
            frame := WithStatus(frame, done);
          }
          log := Execute(rest, floor);
        case Raise(signo, toProcess, rest) =>
          if !IsInvalid(signo) {
            if toProcess {
              processPending := processPending + OneMask(signo);
            } else {
              threadPending := threadPending + OneMask(signo);
            }
          }
          log := Execute(rest, floor);
        case Fault(signo, rest) =>
          if !IsInvalid(signo) {
            syncSigno := signo;
          }
          log := Execute(rest, floor);
        case Kernel(inner, rest) =>
          var first := Interrupt(inner, floor);
          var others := Execute(rest, floor);
          log := first + others;
      }
    }

    /** A signal is delivered, if there is one, and its handler runs until it goes back. */
    method Interrupt(inner: Script, floor: int) returns (log: seq<Round>)
      requires Valid() && ContextsOk() && frame.esp <= floor
      modifies this
      ensures Valid() && ContextsOk() && frame.esp <= floor && Undisturbed(floor) && AllComeBack(log)
      ensures if old(WillInterrupt()) then log != [] && log[|log| - 1] == Round(old(frame), old(blocked), true, frame, blocked)
              else log == [] && frame == old(frame)
      decreases inner, 1
    {
      var before, mask := frame, blocked;
      DecodeEncode(blocked);
      var signo := CheckForSignal();
      log := [];
      if signo != 0 && Adequate(before.esp, fpSize) {
        ContextBelow(before.esp, fpSize);
        var ucontext := ContextAt(before.esp, fpSize);
        ContextAccepted(before.esp, fpSize);
        log := Execute(inner, ucontext);
        var back := SysReturnFromSignal(ucontext);
        assert SavedIn(before, contexts[ucontext].gregs);
        log := log + [Round(before, mask, back, frame, blocked)];
      }
    }

    /** Read and change the mask of blocked signals; `set_` is absent for a null pointer. */
    method GetSetMask(how: int, set_: Option<Sigset>) returns (ok: bool, oset: Sigset)
      requires Valid() && (set_.Some? ==> SigsetOk(set_.value))
      modifies this`blocked
      ensures Valid() && (ok <==> set_.None? || how == SIG_NONE || how == SIG_BLOCK || how == SIG_SETMASK || how == SIG_UNBLOCK)
      ensures ok ==> Decode(oset) == old(blocked)
      ensures blocked == if set_.None? || !ok || how == SIG_NONE then old(blocked)
                         else if how == SIG_BLOCK then old(blocked) + Decode(set_.value)
                         else if how == SIG_SETMASK then Decode(set_.value)
                         else old(blocked) - Decode(set_.value)
    {
      DecodeEncode(blocked);
      var original, sigmask, action := blocked, {}, how;
      if set_.None? {
        action := SIG_NONE;
      } else if how != SIG_NONE {
        sigmask := Decode(set_.value);
        DecodeFits(set_.value);
      }
      if action == SIG_NONE {
      } else if action == SIG_BLOCK {
        blocked := blocked + sigmask;
      } else if action == SIG_SETMASK {
        blocked := sigmask;
      } else if action == SIG_UNBLOCK {
        blocked := blocked - sigmask;
      } else {
        return false, Sigset({}, {}, {}, {});
      }
      return true, Encode(original);
    }
  }

  /**
   * What a thread does in user mode, as far as signals are concerned: the program
   * computes, changes its mask or returns to the kernel, where a signal may be
   * delivered; the handler then does the inner script before it goes back.
   */
  datatype Script =
    | Stop
    | Compute(registers: Frame, rest: Script)
    | ChangeMask(how: int, mask: Sigset, rest: Script)
    | Raise(signo: int, toProcess: bool, rest: Script)
    | Fault(signo: int, rest: Script)
    | Kernel(inner: Script, rest: Script)

  /** A program that was interrupted, and what it found when its handler had gone back. */
  datatype Round = Round(before: Frame, mask: Bits, back: bool, after: Frame, maskAfter: Bits)

  predicate AllComeBack(log: seq<Round>) {
    forall i :: 0 <= i < |log| ==> log[i].back && ComesBack(log[i].after, log[i].before) && log[i].maskAfter == log[i].mask
  }

  /** A program that is interrupted with a 7 in a register, and goes on with a 0. */
  method ReturnExample() returns (before: int, after: int)
    ensures before == 7 && after == 0
  {
    var f := Frame(0, 0, 0, 0, 0, 0, 0, 0, 0, 0, 7, 32, 0, 0x1000, 0x23, {INTERRUPT_FLAG}, 0x8000, 0x2B);
    var s := new Signalling(true, f, 0x2000);
    s.threadPending := OneMask(1);
    before := s.frame.eax;
    HasBit(s.threadPending, 1);
    var signo := s.CheckForSignal();
    assert Adequate(f.esp, s.fpSize);
    ContextAccepted(f.esp, s.fpSize);
    var ok := s.SysReturnFromSignal(ContextAt(f.esp, s.fpSize));
    assert SavedIn(f, s.contexts[ContextAt(f.esp, s.fpSize)].gregs);
    after := s.frame.eax;
  }

  const SIG_NONE := 0
  const SIG_BLOCK := 1
  const SIG_SETMASK := 2
  const SIG_UNBLOCK := 3

  /** Which signal is delivered and what it was taken from: t and p are the thread's and the process's pending signals. */
  ghost predicate Taken(signals: Bits, t: Bits, p: Bits, sync: int, signo: int, t1: Bits, p1: Bits, sync1: int) {
    && 1 <= signo <= 64 && sync1 == 0
    && if sync != 0 then signo == sync && t1 == t && p1 == p
       else
         && Chosen(signals, signo)
         && if Has(t, signo) then t1 == t - OneMask(signo) && p1 == p else t1 == t && p1 == p - OneMask(signo)
  }

  /** The lowest signal in a mask. */
  ghost predicate Chosen(signals: Bits, signo: int) {
    Has(signals, signo) && forall k :: 1 <= k < signo ==> !Has(signals, k)
  }

  lemma EmptyOrNot(signals: Bits)
    ensures signals == {} || exists i :: i in signals
  {
    if !(exists i :: i in signals) {
      assert signals == {};
    }
  }

  /** Scan for the lowest signal, with a mask that moves along. */
  method FindFirst(signals: Bits) returns (signo: int, onemask: Bits)
    requires signals != {} && Fits(signals, 64)
    ensures 1 <= signo <= 64 && Chosen(signals, signo) && onemask == OneMask(signo)
  {
    signo, onemask := 1, {0};
    EmptyOrNot(signals);
    ghost var some :| some in signals;
    while signals * onemask == {}
      invariant 1 <= signo <= some + 1 && onemask == {signo - 1} && forall k :: 1 <= k < signo ==> !Has(signals, k)
      decreases 64 - signo
    {
      HasBit(signals, signo);
      signo := signo + 1;
      onemask := ShiftLeft(onemask, 1);
      assert onemask == {signo - 1};
    }
  }

  /** With an adequate stack the interrupted frame and the mask are saved and the handler runs; otherwise nothing happens. */
  ghost predicate Delivered(f: Frame, c: map<int, UContext>, mask: Bits, handler: int, fpSize: nat, f1: Frame, c1: map<int, UContext>) {
    if Adequate(f.esp, fpSize) then
      var at := ContextAt(f.esp, fpSize);
      && f1 == f.(esp := SiginfoAt(f.esp, fpSize) - 16, eip := handler)
      && at in c1 && c1 == c[at := c1[at]] && SavedIn(f, c1[at].gregs) && c1[at].sigmask == Encode(mask)
      && c1[at].fpregs == FpregsAt(f.esp, fpSize)
    else
      f1 == f && c1 == c
  }
}
