/** The spin_lock, trylock and spin_unlock instruction sequences of the four ISAs,
    run by any number of threads, one instruction per step.

    Out-of-line code (".subsection 2") is laid out after the return of its routine. */
module SpinLock {
  import opened Counting
  import opened Specs

  datatype Isa = Arm | X86 | Alpha | Sparc

  /** Register a is the first scratch register of each sequence (x86: `oldval`, Alpha
      trylock: `regx`); register b is Alpha trylock's `success`; eq is the Z flag. */
  datatype Instr =
    | LoadLinked          // ldrex, ldl_l: a := word, start a reservation
    | LoadWord            // ldl, ldub: a := word
    | CmpMem              // cmpb $0,word
    | CmpZero             // cmp a,#0
    | CmpZeroIfEq         // cmpeq a,#0
    | StoreExclusiveIfEq  // strexeq: word := 1 and a := 0, or a := 1
    | StoreCondA          // stl_c a: word := a and a := 1, or a := 0
    | StoreCondB          // stl_c b
    | Swap                // xchgb a,word
    | LoadStoreOnes       // ldstub: a := word, word := 0xff
    | SetA(v: nat) | SetB(v: nat) // lda
    | XorOne              // eor a,a,#1
    | BranchNe(target: nat)       // bne, ja: branch unless eq
    | BranchNonzeroA(target: nat) | BranchZeroA(target: nat) | BranchZeroB(target: nat)
    | Jump(target: nat)
    | StoreZero           // str, movb, stb of zero
    | Fence               // dmb, mb, membar, nop
    | Return              // the end of the sequence, or the client's own code

  datatype Mode = Idle | Locking | Trying | Holding | Unlocking

  function ArmLock(pc: nat): Instr {
    match pc
    case 0 => LoadLinked
    case 1 => CmpZero
    case 2 => StoreExclusiveIfEq
    case 3 => CmpZeroIfEq
    case 4 => BranchNe(0)
    case 5 => Fence
    case _ => Return
  }

  function X86Lock(pc: nat): Instr {
    match pc
    case 0 => CmpMem
    case 1 => BranchNe(0)
    case 2 => Swap
    case 3 => CmpZero
    case 4 => BranchNe(0)
    case _ => Return
  }

  function AlphaLock(pc: nat): Instr {
    match pc
    case 0 => LoadLinked
    case 1 => BranchNonzeroA(7)
    case 2 => SetA(1)
    case 3 => StoreCondA
    case 4 => BranchZeroA(7)
    case 5 => Fence
    case 6 => Return
    case 7 => LoadWord
    case 8 => BranchNonzeroA(7)
    case 9 => Jump(0)
    case _ => Return
  }

  function SparcLock(pc: nat): Instr {
    match pc
    case 0 => LoadStoreOnes
    case 1 => Fence
    case 2 => BranchNonzeroA(5)
    case 3 => Fence
    case 4 => Return
    case 5 => LoadWord
    case 6 => Fence
    case 7 => BranchNonzeroA(5)
    case 8 => Fence
    case 9 => Jump(0)
    case _ => Return
  }

  function ArmTry(pc: nat): Instr {
    match pc
    case 0 => LoadLinked
    case 1 => CmpZero
    case 2 => StoreExclusiveIfEq
    case 3 => XorOne
    case 4 => BranchNe(6)
    case 5 => Fence
    case 6 => Fence
    case _ => Return
  }

  function X86Try(pc: nat): Instr {
    match pc
    case 0 => Swap
    case _ => Return
  }

  function AlphaTry(pc: nat): Instr {
    match pc
    case 0 => LoadLinked
    case 1 => SetB(0)
    case 2 => BranchNonzeroA(6)
    case 3 => SetB(1)
    case 4 => StoreCondB
    case 5 => BranchZeroB(8)
    case 6 => Fence
    case 7 => Return
    case 8 => Jump(0)
    case _ => Return
  }

  function SparcTry(pc: nat): Instr {
    match pc
    case 0 => LoadStoreOnes
    case 1 => Fence
    case _ => Return
  }

  function Unlock(isa: Isa, pc: nat): Instr {
    if pc == StorePc(isa) then StoreZero else if pc < StorePc(isa) then Fence else Return
  }

  /** Where spin_unlock stores: behind a fence, except on x86. */
  function StorePc(isa: Isa): nat { if isa == X86 then 0 else 1 }

  function Fetch(isa: Isa, m: Mode, pc: nat): Instr {
    match m
    case Locking => (match isa case Arm => ArmLock(pc) case X86 => X86Lock(pc) case Alpha => AlphaLock(pc) case Sparc => SparcLock(pc))
    case Trying => (match isa case Arm => ArmTry(pc) case X86 => X86Try(pc) case Alpha => AlphaTry(pc) case Sparc => SparcTry(pc))
    case Unlocking => Unlock(isa, pc)
    case _ => Return
  }

  datatype Thread = Thread(mode: Mode, pc: nat, a: nat, b: nat, eq: bool)

  datatype State = State(word: nat, linked: set<nat>, threads: seq<Thread>)

  /** A client outside the lock chooses the call; a conditional store may fail for no
      reason at all. */
  datatype Choice = Choice(tryIt: bool, spurious: bool)

  predicate Init(s: State) {
    && s.word == 0 && s.linked == {}
    && forall t :: 0 <= t < |s.threads| ==> s.threads[t].mode == Idle
  }

  /** What trylock returns. */
  function Result(isa: Isa, th: Thread): nat {
    match isa
    case Arm => th.a
    case Alpha => th.b
    case X86 => if th.a == 0 then 1 else 0
    case Sparc => if th.a == 0 then 1 else 0
  }

  /** Calls and returns: x86 passes 1 in the exchange register; other registers keep
      whatever they held. Only a holder unlocks. */
  function CallOrReturn(isa: Isa, th: Thread, c: Choice): Thread {
    match th.mode
    case Idle => th.(mode := if c.tryIt then Trying else Locking, pc := 0, a := if isa == X86 then 1 else th.a)
    case Locking => th.(mode := Holding)
    case Trying => th.(mode := if Result(isa, th) == 1 then Holding else Idle)
    case Holding => th.(mode := Unlocking, pc := 0)
    case Unlocking => th.(mode := Idle)
  }

  datatype Effect = Effect(th: Thread, word: nat, stored: bool, link: bool)

  function Exec(isa: Isa, i: Instr, word: nat, linked: bool, th: Thread, c: Choice): Effect {
    var th' := th.(pc := th.pc + 1);
    var ok := linked && !c.spurious;
    match i
    case LoadLinked => Effect(th'.(a := word), word, false, true)
    case LoadWord => Effect(th'.(a := word), word, false, linked)
    case CmpMem => Effect(th'.(eq := word == 0), word, false, linked)
    case CmpZero => Effect(th'.(eq := th.a == 0), word, false, linked)
    case CmpZeroIfEq => Effect(if th.eq then th'.(eq := th.a == 0) else th', word, false, linked)
    case StoreExclusiveIfEq =>
      if !th.eq then Effect(th', word, false, linked)
      else if ok then Effect(th'.(a := 0), 1, true, false)
      else Effect(th'.(a := 1), word, false, false)
    case StoreCondA =>
      if ok then Effect(th'.(a := 1), th.a, true, false) else Effect(th'.(a := 0), word, false, false)
    case StoreCondB =>
      if ok then Effect(th'.(b := 1), th.b, true, false) else Effect(th'.(b := 0), word, false, false)
    case Swap => Effect(th'.(a := word), th.a, true, false)
    case LoadStoreOnes => Effect(th'.(a := word), 255, true, false)
    case SetA(v) => Effect(th'.(a := v), word, false, linked)
    case SetB(v) => Effect(th'.(b := v), word, false, linked)
    case XorOne => Effect(th'.(a := if th.a % 2 == 0 then th.a + 1 else th.a - 1), word, false, linked)
    case BranchNe(k) => Effect(if th.eq then th' else th.(pc := k), word, false, linked)
    case BranchNonzeroA(k) => Effect(if th.a == 0 then th' else th.(pc := k), word, false, linked)
    case BranchZeroA(k) => Effect(if th.a == 0 then th.(pc := k) else th', word, false, linked)
    case BranchZeroB(k) => Effect(if th.b == 0 then th.(pc := k) else th', word, false, linked)
    case Jump(k) => Effect(th.(pc := k), word, false, linked)
    case StoreZero => Effect(th', 0, true, false)
    case Fence => Effect(th', word, false, linked)
    case Return => Effect(CallOrReturn(isa, th, c), word, false, linked)
  }

  function Local(isa: Isa, word: nat, linked: bool, th: Thread, c: Choice): Effect {
    Exec(isa, Fetch(isa, th.mode, th.pc), word, linked, th, c)
  }

  /** A store by anybody ends every reservation. */
  function Apply(isa: Isa, s: State, t: nat, c: Choice): State
    requires t < |s.threads|
  {
    var e := Local(isa, s.word, t in s.linked, s.threads[t], c);
    State(e.word,
          if e.stored then {} else if e.link then s.linked + {t} else s.linked - {t},
          s.threads[t := e.th])
  }

  predicate Run(isa: Isa, tr: seq<State>, sched: seq<(nat, Choice)>) {
    && |tr| == |sched| + 1 && Init(tr[0])
    && forall i {:trigger sched[i]} :: 0 <= i < |sched| ==>
         sched[i].0 < |tr[i].threads| && tr[i + 1] == Apply(isa, tr[i], sched[i].0, sched[i].1)
  }

  // ----- who owns the lock -----

  /** The lock word of a held lock. */
  function HeldWord(isa: Isa): nat { if isa == Sparc then 255 else 1 }

  predicate LockingOwns(isa: Isa, th: Thread) {
    match isa
    case Arm => (th.pc == 3 && th.eq && th.a == 0) || (th.pc == 4 && th.eq) || th.pc >= 5
    case X86 => (th.pc == 3 && th.a == 0) || (th.pc == 4 && th.eq) || th.pc >= 5
    case Alpha => (th.pc == 4 && th.a == 1) || th.pc == 5 || th.pc == 6
    case Sparc => ((th.pc == 1 || th.pc == 2) && th.a == 0) || th.pc == 3 || th.pc == 4
  }

  predicate TryingOwns(isa: Isa, th: Thread) {
    match isa
    case Arm => (th.pc == 3 && th.eq && th.a == 0) || (th.pc >= 4 && th.a == 1)
    case X86 => th.pc >= 1 && th.a == 0
    case Alpha => th.pc >= 5 && th.pc != 8 && th.b == 1
    case Sparc => th.pc >= 1 && th.a == 0
  }

  /** The thread has written the lock word and not yet cleared it. */
  predicate Owns(isa: Isa, th: Thread) {
    match th.mode
    case Idle => false
    case Holding => true
    case Unlocking => th.pc <= StorePc(isa)
    case Locking => LockingOwns(isa, th)
    case Trying => TryingOwns(isa, th)
  }

  function Owner(isa: Isa): Thread -> bool { (th: Thread) => Owns(isa, th) }

  // ----- what holds at each program counter -----

  predicate LockingInv(isa: Isa, word: nat, linked: bool, th: Thread) {
    match isa
    case Arm =>
      && (th.pc == 1 ==> th.a <= 1 && (linked ==> th.a == word))
      && (th.pc == 2 ==> (th.eq <==> th.a == 0) && th.a <= 1 && (linked && th.eq ==> word == 0))
      && (th.pc == 3 ==> th.a <= 1 && (!th.eq ==> th.a == 1))
    case X86 =>
      && (th.pc <= 2 ==> th.a == 1)
      && (th.pc == 3 ==> th.a <= 1)
      && (th.pc == 4 ==> (th.eq <==> th.a == 0) && th.a <= 1)
    case Alpha =>
      && (th.pc == 1 ==> linked ==> th.a == word)
      && (th.pc == 2 ==> linked ==> word == 0)
      && (th.pc == 3 ==> th.a == 1 && (linked ==> word == 0))
      && (th.pc == 4 ==> th.a <= 1)
    case Sparc => true
  }

  predicate TryingInv(isa: Isa, word: nat, linked: bool, th: Thread) {
    match isa
    case Arm =>
      && (th.pc == 1 ==> th.a <= 1 && (linked ==> th.a == word))
      && (th.pc == 2 ==> (th.eq <==> th.a == 0) && th.a <= 1 && (linked && th.eq ==> word == 0))
      && (th.pc == 3 ==> th.a <= 1 && (!th.eq ==> th.a == 1))
      && (th.pc >= 4 ==> th.a <= 1)
    case X86 => th.pc == 0 ==> th.a == 1
    case Alpha =>
      && (th.pc == 1 || th.pc == 2 ==> linked ==> th.a == word)
      && (th.pc == 2 ==> th.b == 0)
      && (th.pc == 3 ==> linked ==> word == 0)
      && (th.pc == 4 ==> th.b == 1 && (linked ==> word == 0))
      && (th.pc >= 5 && th.pc != 8 ==> th.b <= 1)
    case Sparc => true
  }

  predicate LocalInv(isa: Isa, word: nat, linked: bool, th: Thread) {
    && (th.mode == Locking ==> th.pc < 10 && LockingInv(isa, word, linked, th))
    && (th.mode == Trying ==> th.pc < 10 && TryingInv(isa, word, linked, th))
  }

  /** How one instruction may move ownership. */
  predicate OwnershipMove(isa: Isa, word: nat, th: Thread, e: Effect) {
    if !e.stored then e.word == word && (Owns(isa, e.th) <==> Owns(isa, th))
    else
      || (word == 0 && e.word == HeldWord(isa) && !Owns(isa, th) && Owns(isa, e.th))
      || (e.word == 0 && Owns(isa, th) && !Owns(isa, e.th))
      || (word == e.word == HeldWord(isa) && !Owns(isa, th) && !Owns(isa, e.th))
  }

  ghost predicate GoodMove(isa: Isa, word: nat, linked: bool, th: Thread, c: Choice) {
    var e := Local(isa, word, linked, th, c);
    LocalInv(isa, e.word, e.link, e.th) && OwnershipMove(isa, word, th, e)
  }

  predicate Before(isa: Isa, word: nat, linked: bool, th: Thread) {
    LocalInv(isa, word, linked, th) && (word == 0 || word == HeldWord(isa))
  }

  lemma ArmLocking(word: nat, linked: bool, th: Thread, c: Choice)
    requires Before(Arm, word, linked, th) && th.mode == Locking
    ensures GoodMove(Arm, word, linked, th, c)
  {
    match th.pc
    case 0 =>
    case 1 =>
    case 2 =>
    case 3 =>
    case 4 =>
    case 5 =>
    case _ =>
  }

  lemma ArmTryingHead(word: nat, linked: bool, th: Thread, c: Choice)
    requires Before(Arm, word, linked, th) && th.mode == Trying && th.pc < 3
    ensures GoodMove(Arm, word, linked, th, c)
  {
    match th.pc
    case 0 =>
    case 1 =>
    case 2 =>
    case _ =>
  }

  lemma ArmTryingTail(word: nat, linked: bool, th: Thread, c: Choice)
    requires Before(Arm, word, linked, th) && th.mode == Trying && th.pc >= 3
    ensures GoodMove(Arm, word, linked, th, c)
  {
    match th.pc
    case 3 =>
    case 4 =>
    case 5 =>
    case 6 =>
    case _ =>
  }

  lemma X86Locking(word: nat, linked: bool, th: Thread, c: Choice)
    requires Before(X86, word, linked, th) && th.mode == Locking
    ensures GoodMove(X86, word, linked, th, c)
  {
    match th.pc
    case 0 =>
    case 1 =>
    case 2 =>
    case 3 =>
    case 4 =>
    case _ =>
  }

  lemma X86Trying(word: nat, linked: bool, th: Thread, c: Choice)
    requires Before(X86, word, linked, th) && th.mode == Trying
    ensures GoodMove(X86, word, linked, th, c)
  {
  }

  lemma AlphaLockingHead(word: nat, linked: bool, th: Thread, c: Choice)
    requires Before(Alpha, word, linked, th) && th.mode == Locking && th.pc < 4
    ensures GoodMove(Alpha, word, linked, th, c)
  {
    match th.pc
    case 0 =>
    case 1 =>
    case 2 =>
    case 3 =>
    case _ =>
  }

  lemma AlphaLockingTail(word: nat, linked: bool, th: Thread, c: Choice)
    requires Before(Alpha, word, linked, th) && th.mode == Locking && th.pc >= 4
    ensures GoodMove(Alpha, word, linked, th, c)
  {
    match th.pc
    case 4 =>
    case 5 =>
    case 6 =>
    case 7 =>
    case 8 =>
    case 9 =>
    case _ =>
  }

  lemma AlphaTryingHead(word: nat, linked: bool, th: Thread, c: Choice)
    requires Before(Alpha, word, linked, th) && th.mode == Trying && th.pc < 4
    ensures GoodMove(Alpha, word, linked, th, c)
  {
    match th.pc
    case 0 =>
    case 1 =>
    case 2 =>
    case 3 =>
    case _ =>
  }

  lemma AlphaTryingMid(word: nat, linked: bool, th: Thread, c: Choice)
    requires Before(Alpha, word, linked, th) && th.mode == Trying && 4 <= th.pc < 6
    ensures GoodMove(Alpha, word, linked, th, c)
  {
    match th.pc
    case 4 =>
    case 5 =>
    case _ =>
  }

  lemma AlphaTryingTail(word: nat, linked: bool, th: Thread, c: Choice)
    requires Before(Alpha, word, linked, th) && th.mode == Trying && th.pc >= 6
    ensures GoodMove(Alpha, word, linked, th, c)
  {
    match th.pc
    case 6 =>
    case 7 =>
    case 8 =>
    case _ =>
  }

  lemma SparcLockingHead(word: nat, linked: bool, th: Thread, c: Choice)
    requires Before(Sparc, word, linked, th) && th.mode == Locking && th.pc < 5
    ensures GoodMove(Sparc, word, linked, th, c)
  {
    match th.pc
    case 0 =>
    case 1 =>
    case 2 =>
    case 3 =>
    case 4 =>
    case _ =>
  }

  lemma SparcLockingTail(word: nat, linked: bool, th: Thread, c: Choice)
    requires Before(Sparc, word, linked, th) && th.mode == Locking && th.pc >= 5
    ensures GoodMove(Sparc, word, linked, th, c)
  {
    match th.pc
    case 5 =>
    case 6 =>
    case 7 =>
    case 8 =>
    case 9 =>
    case _ =>
  }

  lemma SparcTrying(word: nat, linked: bool, th: Thread, c: Choice)
    requires Before(Sparc, word, linked, th) && th.mode == Trying
    ensures GoodMove(Sparc, word, linked, th, c)
  {
  }

  lemma OutsideMoves(isa: Isa, word: nat, linked: bool, th: Thread, c: Choice)
    requires Before(isa, word, linked, th) && (th.mode == Idle || th.mode == Holding)
    ensures GoodMove(isa, word, linked, th, c)
  {
  }

  lemma UnlockMoves(isa: Isa, word: nat, linked: bool, th: Thread, c: Choice)
    requires Before(isa, word, linked, th) && th.mode == Unlocking
    ensures GoodMove(isa, word, linked, th, c)
  {
    if th.pc == StorePc(isa) {
      UnlockStores(isa, word, linked, th, c);
    } else if th.pc < StorePc(isa) {
    } else {
    }
  }

  lemma UnlockStores(isa: Isa, word: nat, linked: bool, th: Thread, c: Choice)
    requires Before(isa, word, linked, th) && th.mode == Unlocking && th.pc == StorePc(isa)
    ensures GoodMove(isa, word, linked, th, c)
  {}

  /** One instruction of any thread on any ISA keeps what its program counter says and
      takes the lock only when the word is free, releases it only as its owner, or
      rewrites a held word with itself. */
  lemma OneInstruction(isa: Isa, word: nat, linked: bool, th: Thread, c: Choice)
    requires Before(isa, word, linked, th)
    ensures GoodMove(isa, word, linked, th, c)
  {
    match th.mode
    case Idle => OutsideMoves(isa, word, linked, th, c);
    case Holding => OutsideMoves(isa, word, linked, th, c);
    case Unlocking => UnlockMoves(isa, word, linked, th, c);
    case Locking =>
      match isa {
        case Arm => ArmLocking(word, linked, th, c);
        case X86 => X86Locking(word, linked, th, c);
        case Alpha => if th.pc < 4 { AlphaLockingHead(word, linked, th, c); } else { AlphaLockingTail(word, linked, th, c); }
        case Sparc => if th.pc < 5 { SparcLockingHead(word, linked, th, c); } else { SparcLockingTail(word, linked, th, c); }
      }
    case Trying =>
      match isa {
        case Arm => if th.pc < 3 { ArmTryingHead(word, linked, th, c); } else { ArmTryingTail(word, linked, th, c); }
        case X86 => X86Trying(word, linked, th, c);
        case Alpha => if th.pc < 4 { AlphaTryingHead(word, linked, th, c); } else if th.pc < 6 { AlphaTryingMid(word, linked, th, c); } else { AlphaTryingTail(word, linked, th, c); }
        case Sparc => SparcTrying(word, linked, th, c);
      }
  }

  // ----- the whole machine -----

  /** At most one owner, and the lock word is free exactly when there is none. */
  predicate Inv(isa: Isa, s: State) {
    && CountIf(Owner(isa), s.threads) <= 1
    && s.word == (if CountIf(Owner(isa), s.threads) == 0 then 0 else HeldWord(isa))
    && forall t :: 0 <= t < |s.threads| ==> LocalInv(isa, s.word, t in s.linked, s.threads[t])
  }

  lemma InitInv(isa: Isa, s: State)
    requires Init(s)
    ensures Inv(isa, s)
  {
    CountNone(Owner(isa), s.threads);
  }

  /** The end of a reservation takes nothing from what another thread knows. */
  lemma OtherThread(isa: Isa, word: nat, word': nat, linked: bool, th: Thread)
    requires LocalInv(isa, word, linked, th)
    ensures LocalInv(isa, word', false, th)
  {
  }

  lemma StepInv(isa: Isa, s: State, t: nat, c: Choice)
    requires Inv(isa, s) && t < |s.threads|
    ensures Inv(isa, Apply(isa, s, t, c))
  {
    var th, e := s.threads[t], Local(isa, s.word, t in s.linked, s.threads[t], c);
    OneInstruction(isa, s.word, t in s.linked, th, c);
    CountUpdate(Owner(isa), s.threads, t, e.th);
    if Owns(isa, th) { CountHas(Owner(isa), s.threads, t); }
    var s' := Apply(isa, s, t, c);
    forall u | 0 <= u < |s'.threads| ensures LocalInv(isa, s'.word, u in s'.linked, s'.threads[u]) {
      assert LocalInv(isa, s.word, u in s.linked, s.threads[u]);
      if u != t && e.stored { OtherThread(isa, s.word, s'.word, u in s.linked, s.threads[u]); }
    }
  }

  lemma {:induction false} RunInv(isa: Isa, tr: seq<State>, sched: seq<(nat, Choice)>, i: nat)
    requires Run(isa, tr, sched) && i < |tr|
    ensures Inv(isa, tr[i]) && |tr[i].threads| == |tr[0].threads|
  {
    if i == 0 {
      InitInv(isa, tr[0]);
    } else {
      RunInv(isa, tr, sched, i - 1);
      StepInv(isa, tr[i - 1], sched[i - 1].0, sched[i - 1].1);
    }
  }

  /** The lock a client sees. */
  ghost function Abs(isa: Isa, s: State): (l: Lock)
    ensures l.HeldBy? ==> l.owner < |s.threads| && Owns(isa, s.threads[l.owner])
    ensures l.Free? ==> forall t :: 0 <= t < |s.threads| ==> !Owns(isa, s.threads[t])
  {
    if t :| 0 <= t < |s.threads| && Owns(isa, s.threads[t]) then HeldBy(t) else Free
  }

  lemma AbsIs(isa: Isa, s: State, t: nat)
    requires Inv(isa, s) && t < |s.threads| && Owns(isa, s.threads[t])
    ensures Abs(isa, s) == HeldBy(t)
  {
    var u := Abs(isa, s).owner;
    if u < t { CountHasTwo(Owner(isa), s.threads, u, t); }
    if t < u { CountHasTwo(Owner(isa), s.threads, t, u); }
  }

  /** Every instruction of thread t refines one step of the atomic lock: t takes it
      while it is free, t gives it up, or the lock does not change hands. */
  lemma Refines(isa: Isa, s: State, t: nat, c: Choice)
    requires Inv(isa, s) && t < |s.threads|
    ensures
      var a, b := Abs(isa, s), Abs(isa, Apply(isa, s, t, c));
      LockStep(a, b) && (a != b ==> (a == Free && b == HeldBy(t)) || (a == HeldBy(t) && b == Free))
  {
    var s' := Apply(isa, s, t, c);
    StepInv(isa, s, t, c);
    OneInstruction(isa, s.word, t in s.linked, s.threads[t], c);
    var a, b := Abs(isa, s), Abs(isa, s');
    if a.HeldBy? {
      assert Owns(isa, s.threads[a.owner]);
      CountHas(Owner(isa), s.threads, a.owner);
      if a.owner != t || Owns(isa, s'.threads[t]) { AbsIs(isa, s', a.owner); }
      if a.owner == t && !Owns(isa, s'.threads[t]) && b.HeldBy? { AbsIs(isa, s, b.owner); }
    } else {
      CountNone(Owner(isa), s.threads);
      assert b.HeldBy? ==> b.owner == t;
    }
  }

  /** Every run, seen by its clients, is a run of the atomic lock. */
  lemma RunRefines(isa: Isa, tr: seq<State>, sched: seq<(nat, Choice)>, i: nat)
    requires Run(isa, tr, sched) && i < |sched|
    ensures Abs(isa, tr[0]) == Free && LockStep(Abs(isa, tr[i]), Abs(isa, tr[i + 1]))
  {
    assert forall t :: 0 <= t < |tr[0].threads| ==> !Owns(isa, tr[0].threads[t]);
    RunInv(isa, tr, sched, i);
    Refines(isa, tr[i], sched[i].0, sched[i].1);
  }

  /** Mutual exclusion and the meaning of the returns, in every reachable state of any
      number of threads on each ISA: two threads never both hold the lock; spin_lock
      returns only to the owner; trylock returns 1 to the owner and 0 to anybody else;
      and an x86 thread about to exchange always offers a 1. */
  lemma SpinLockSafety(isa: Isa, tr: seq<State>, sched: seq<(nat, Choice)>, i: nat, t: nat, u: nat)
    requires Run(isa, tr, sched) && i < |tr| && t < |tr[0].threads| && u < |tr[0].threads|
    ensures |tr[i].threads| == |tr[0].threads|
    ensures tr[i].threads[t].mode == Holding ==> Abs(isa, tr[i]) == HeldBy(t) && tr[i].word == HeldWord(isa)
    ensures tr[i].threads[t].mode == Holding && tr[i].threads[u].mode == Holding ==> t == u
    ensures AtReturn(isa, tr[i].threads[t]) && tr[i].threads[t].mode == Locking ==> Abs(isa, tr[i]) == HeldBy(t)
    ensures AtReturn(isa, tr[i].threads[t]) && tr[i].threads[t].mode == Trying ==>
              && Result(isa, tr[i].threads[t]) <= 1
              && (Result(isa, tr[i].threads[t]) == 1 <==> Abs(isa, tr[i]) == HeldBy(t))
    ensures isa == X86 && Fetch(isa, tr[i].threads[t].mode, tr[i].threads[t].pc) == Swap ==> tr[i].threads[t].a == 1
  {
    RunInv(isa, tr, sched, i);
    var s := tr[i];
    assert LocalInv(isa, s.word, t in s.linked, s.threads[t]);
    if Owns(isa, s.threads[t]) {
      AbsIs(isa, s, t);
      CountHas(Owner(isa), s.threads, t);
    }
    if Owns(isa, s.threads[u]) { AbsIs(isa, s, u); }
    if AtReturn(isa, s.threads[t]) { ReturnOwns(isa, s.word, t in s.linked, s.threads[t]); }
    SwapOffersOne(s.word, t in s.linked, s.threads[t]);
  }

  lemma SwapOffersOne(word: nat, linked: bool, th: Thread)
    ensures LocalInv(X86, word, linked, th) && Fetch(X86, th.mode, th.pc) == Swap ==> th.a == 1
  {
  }

  predicate AtReturn(isa: Isa, th: Thread) { Fetch(isa, th.mode, th.pc) == Return }

  lemma ReturnOwns(isa: Isa, word: nat, linked: bool, th: Thread)
    requires LocalInv(isa, word, linked, th) && AtReturn(isa, th)
    ensures th.mode == Locking ==> Owns(isa, th)
    ensures th.mode == Trying ==> Result(isa, th) <= 1 && (Result(isa, th) == 1 <==> Owns(isa, th))
  {
    match isa
    case Arm =>
    case X86 =>
    case Alpha =>
    case Sparc =>
  }

  // ----- when trylock fails -----

  /** The instruction that decides a trylock against its caller: a load that finds the lock
      held or, on ARM, a conditional store that is refused. */
  predicate Refused(isa: Isa, word: nat, linked: bool, th: Thread, c: Choice) {
    && th.mode == Trying
    && ((th.pc == 0 && word != 0) || (isa == Arm && th.pc == 2 && th.eq && (!linked || c.spurious)))
  }

  /** The outcome of this trylock is settled and it is a failure. */
  predicate DoomedTry(isa: Isa, th: Thread) {
    && th.mode == Trying
    && match isa
       case Arm => (th.pc == 1 && th.a != 0) || (th.pc == 2 && !th.eq) || (th.pc == 3 && th.a == 1) || (th.pc >= 4 && th.a == 0)
       case X86 => th.pc >= 1 && th.a != 0
       case Alpha => ((th.pc == 1 || th.pc == 2) && th.a != 0) || (th.pc >= 6 && th.pc != 8 && th.b == 0)
       case Sparc => th.pc >= 1 && th.a != 0
  }

  /** A trylock is doomed by being refused, and by nothing else, and stays so. */
  lemma TryStep(isa: Isa, word: nat, linked: bool, th: Thread, c: Choice)
    requires th.mode == Trying && LocalInv(isa, word, linked, th) && !AtReturn(isa, th)
    ensures
      var th' := Local(isa, word, linked, th, c).th;
      th'.mode == Trying && (DoomedTry(isa, th') <==> DoomedTry(isa, th) || Refused(isa, word, linked, th, c))
  {
    match isa
    case Arm => ArmTryStep(word, linked, th, c);
    case Alpha => AlphaTryStep(word, linked, th, c);
    case X86 =>
    case Sparc =>
  }

  lemma ArmTryStep(word: nat, linked: bool, th: Thread, c: Choice)
    requires th.mode == Trying && LocalInv(Arm, word, linked, th) && th.pc < 7
    ensures
      var th' := Local(Arm, word, linked, th, c).th;
      th'.mode == Trying && (DoomedTry(Arm, th') <==> DoomedTry(Arm, th) || Refused(Arm, word, linked, th, c))
  {
    match th.pc
    case 0 =>
    case 1 =>
    case 2 =>
    case 3 =>
    case 4 =>
    case _ =>
  }

  lemma AlphaTryStep(word: nat, linked: bool, th: Thread, c: Choice)
    requires th.mode == Trying && LocalInv(Alpha, word, linked, th) && !AtReturn(Alpha, th)
    ensures
      var th' := Local(Alpha, word, linked, th, c).th;
      th'.mode == Trying && (DoomedTry(Alpha, th') <==> DoomedTry(Alpha, th) || Refused(Alpha, word, linked, th, c))
  {
    match th.pc
    case 0 =>
    case 1 =>
    case 2 =>
    case 3 =>
    case 4 =>
    case 5 =>
    case _ =>
  }

  lemma ReturnsZero(isa: Isa, word: nat, linked: bool, th: Thread)
    requires th.mode == Trying && LocalInv(isa, word, linked, th) && AtReturn(isa, th)
    ensures Result(isa, th) == 0 <==> DoomedTry(isa, th)
  {
    match isa
    case Arm =>
    case X86 =>
    case Alpha =>
    case Sparc =>
  }

  /** At time k, within the trylock thread t is in at time i, t was refused. */
  predicate RefusedAt(isa: Isa, tr: seq<State>, sched: seq<(nat, Choice)>, k: nat, i: nat, t: nat)
    requires i < |tr| == |sched| + 1
  {
    && k < i && sched[k].0 == t && (forall m :: k <= m <= i ==> TriesAt(tr, m, t))
    && TriesAt(tr, k, t) && Refused(isa, tr[k].word, t in tr[k].linked, tr[k].threads[t], sched[k].1)
  }

  predicate TriesAt(tr: seq<State>, m: nat, t: nat)
    requires m < |tr|
  {
    t < |tr[m].threads| && tr[m].threads[t].mode == Trying
  }

  ghost predicate WasRefused(isa: Isa, tr: seq<State>, sched: seq<(nat, Choice)>, i: nat, t: nat)
    requires i < |tr| == |sched| + 1
  {
    exists k :: RefusedAt(isa, tr, sched, k, i, t)
  }

  /** A trylock in progress is as good as refused a step later, if it goes on. */
  lemma RefusedLater(isa: Isa, tr: seq<State>, sched: seq<(nat, Choice)>, i: nat, t: nat)
    requires 0 < i < |tr| == |sched| + 1 && TriesAt(tr, i, t)
    ensures WasRefused(isa, tr, sched, i, t) <==>
            && TriesAt(tr, i - 1, t)
            && (|| WasRefused(isa, tr, sched, i - 1, t)
                || (sched[i - 1].0 == t
                    && Refused(isa, tr[i - 1].word, t in tr[i - 1].linked, tr[i - 1].threads[t], sched[i - 1].1)))
  {
    var j: nat := i - 1;
    if k: nat :| RefusedAt(isa, tr, sched, k, i, t) {
      assert TriesAt(tr, j, t);
      if k < j { assert RefusedAt(isa, tr, sched, k, j, t); }
    }
    if TriesAt(tr, j, t) {
      if k: nat :| RefusedAt(isa, tr, sched, k, j, t) {
        assert RefusedAt(isa, tr, sched, k, i, t);
      }
      if sched[j].0 == t && Refused(isa, tr[j].word, t in tr[j].linked, tr[j].threads[t], sched[j].1) {
        assert RefusedAt(isa, tr, sched, j, i, t);
      }
    }
  }

  lemma {:induction false} DoomIsRefusal(isa: Isa, tr: seq<State>, sched: seq<(nat, Choice)>, i: nat, t: nat)
    requires Run(isa, tr, sched) && i < |tr| && TriesAt(tr, i, t)
    ensures DoomedTry(isa, tr[i].threads[t]) <==> WasRefused(isa, tr, sched, i, t)
  {
    if i > 0 {
      if TriesAt(tr, i - 1, t) { DoomIsRefusal(isa, tr, sched, i - 1, t); }
      RunInv(isa, tr, sched, i - 1);
      RefusedLater(isa, tr, sched, i, t);
      assert tr[i] == Apply(isa, tr[i - 1], sched[i - 1].0, sched[i - 1].1);
      DoomNext(isa, tr[i - 1], sched[i - 1].0, sched[i - 1].1, tr[i], t);
    }
  }

  /** How one instruction of u changes the prospects of t. */
  lemma DoomNext(isa: Isa, s: State, u: nat, c: Choice, s': State, t: nat)
    requires Inv(isa, s) && u < |s.threads| && s' == Apply(isa, s, u, c)
    requires t < |s.threads| && s'.threads[t].mode == Trying
    ensures DoomedTry(isa, s'.threads[t]) <==>
            && s.threads[t].mode == Trying
            && (DoomedTry(isa, s.threads[t]) || (u == t && Refused(isa, s.word, t in s.linked, s.threads[t], c)))
  {
    if u == t {
      assert LocalInv(isa, s.word, t in s.linked, s.threads[t]);
      if s.threads[t].mode == Trying {
        assert !AtReturn(isa, s.threads[t]);
        TryStep(isa, s.word, t in s.linked, s.threads[t], c);
      } else {
        TryBegins(isa, s.word, t in s.linked, s.threads[t], c);
      }
    }
  }

  lemma TryBegins(isa: Isa, word: nat, linked: bool, th: Thread, c: Choice)
    requires th.mode != Trying && Local(isa, word, linked, th, c).th.mode == Trying
    ensures Local(isa, word, linked, th, c).th.pc == 0
  {
  }

  /** What a failed trylock means, in every run on every ISA: it returns 0 if and only if,
      since its call, its load found the lock held or, on ARM, its store was refused. */
  lemma TryReturnsZero(isa: Isa, tr: seq<State>, sched: seq<(nat, Choice)>, i: nat, t: nat)
    requires Run(isa, tr, sched) && i < |tr| && TriesAt(tr, i, t) && AtReturn(isa, tr[i].threads[t])
    ensures Result(isa, tr[i].threads[t]) == 0 <==> WasRefused(isa, tr, sched, i, t)
  {
    RunInv(isa, tr, sched, i);
    assert LocalInv(isa, tr[i].word, t in tr[i].linked, tr[i].threads[t]);
    ReturnsZero(isa, tr[i].word, t in tr[i].linked, tr[i].threads[t]);
    DoomIsRefusal(isa, tr, sched, i, t);
  }

  /** Off ARM a trylock returns 0 only if the lock was held at a moment since its call ... */
  lemma TryFailsOnlyWhenHeld(isa: Isa, tr: seq<State>, sched: seq<(nat, Choice)>, i: nat, t: nat) returns (k: nat)
    requires Run(isa, tr, sched) && i < |tr| && TriesAt(tr, i, t) && AtReturn(isa, tr[i].threads[t])
    requires isa != Arm && Result(isa, tr[i].threads[t]) == 0
    ensures k < i && Abs(isa, tr[k]).HeldBy? && forall m :: k <= m <= i ==> TriesAt(tr, m, t)
  {
    TryReturnsZero(isa, tr, sched, i, t);
    k :| RefusedAt(isa, tr, sched, k, i, t);
    RunInv(isa, tr, sched, k);
    var u := CountWitness(Owner(isa), tr[k].threads);
    AbsIs(isa, tr[k], u);
  }

  /** One thread's trylock on ARM whose store fails for no reason. */
  function Spurious(k: nat): State {
    var th := match k
              case 0 => Thread(Idle, 0, 0, 0, false)
              case 1 => Thread(Trying, 0, 0, 0, false)
              case 2 => Thread(Trying, 1, 0, 0, false)
              case 3 => Thread(Trying, 2, 0, 0, true)
              case 4 => Thread(Trying, 3, 1, 0, true)
              case _ => Thread(Trying, if k < 8 then k - 1 else 7, 0, 0, true);
    State(0, if k == 2 || k == 3 then {0} else {}, [th])
  }

  lemma SpuriousNext(k: nat)
    requires k < 8
    ensures Spurious(k + 1) == Apply(Arm, Spurious(k), 0, Choice(true, true))
  {
    match k
    case 0 =>
    case 1 =>
    case 2 =>
    case 3 =>
    case 4 =>
    case 5 =>
    case 6 =>
    case 7 =>
  }

  /** ... while on ARM one thread alone can be returned 0 without the lock ever being held,
      because its store may fail spuriously and the sequence does not retry. */
  lemma ArmTryMayFailSpuriously() returns (tr: seq<State>, sched: seq<(nat, Choice)>)
    ensures Run(Arm, tr, sched) && |tr| == 9 && forall k :: 0 <= k < |tr| ==> Abs(Arm, tr[k]) == Free
    ensures TriesAt(tr, 8, 0) && AtReturn(Arm, tr[8].threads[0]) && Result(Arm, tr[8].threads[0]) == 0
  {
    tr, sched := seq(9, k requires 0 <= k => Spurious(k)), seq(8, _ => (0, Choice(true, true)));
    forall i | 0 <= i < 8 ensures tr[i + 1] == Apply(Arm, tr[i], sched[i].0, sched[i].1) {
      SpuriousNext(i);
    }
    forall k | 0 <= k < 9 ensures Abs(Arm, tr[k]) == Free {
      assert !Owns(Arm, Spurious(k).threads[0]);
    }
  }

  // ----- a call nobody disturbs -----

  /** n instructions of thread t alone. */
  function Alone(isa: Isa, s: State, t: nat, c: Choice, n: nat): (s': State)
    requires t < |s.threads|
    ensures |s'.threads| == |s.threads|
    decreases n
  {
    if n == 0 then s else Alone(isa, Apply(isa, s, t, c), t, c, n - 1)
  }

  predicate InCall(th: Thread) { th.mode == Locking || th.mode == Trying || th.mode == Unlocking }

  /** Nothing stands in the way of the call: the lock is free or already taken by this very
      call, a trylock has not been refused, and an unlock past its store left the lock free. */
  predicate Clear(isa: Isa, word: nat, linked: bool, th: Thread) {
    match th.mode
    case Locking => word == 0 || Owns(isa, th)
    case Trying =>
      && !DoomedTry(isa, th) && (word == 0 || Owns(isa, th))
      && (isa == Arm && (th.pc == 1 || th.pc == 2) ==> linked)
    case Unlocking => th.pc <= StorePc(isa) || word == 0
    case _ => true
  }

  /** The sequence will not branch back before it returns. */
  predicate Straight(isa: Isa, linked: bool, th: Thread) {
    match th.mode
    case Locking =>
      (match isa
       case Arm =>
         || th.pc == 0 || (th.pc == 1 && linked && th.a == 0) || (th.pc == 2 && linked && th.eq)
         || (th.pc == 3 && th.eq && th.a == 0) || (th.pc == 4 && th.eq) || th.pc >= 5
       case X86 =>
         || th.pc == 0 || (th.pc == 1 && th.eq) || th.pc == 2 || (th.pc == 3 && th.a == 0)
         || (th.pc == 4 && th.eq) || th.pc >= 5
       case Alpha =>
         || th.pc == 0 || (th.pc == 1 && linked && th.a == 0) || ((th.pc == 2 || th.pc == 3) && linked)
         || (th.pc == 4 && th.a == 1) || th.pc == 5 || th.pc == 6
       case Sparc => th.pc == 0 || ((th.pc == 1 || th.pc == 2) && th.a == 0) || th.pc == 3 || th.pc == 4)
    case Trying =>
      isa == Alpha ==> th.pc == 0 || (th.pc <= 4 && linked) || (th.pc == 5 && th.b == 1) || th.pc == 6 || th.pc == 7
    case _ => true
  }

  /** In the wait loop with a value loaded before the lock became free. */
  predicate Stale(isa: Isa, th: Thread) {
    th.mode == Locking && th.a != 0 && ((isa == Alpha && th.pc == 8) || (isa == Sparc && (th.pc == 6 || th.pc == 7)))
  }

  function Rank(isa: Isa, linked: bool, th: Thread): int {
    (if Straight(isa, linked, th) then 10 else if Stale(isa, th) then 50 else 40) - th.pc
  }

  /** One instruction of such a call, when no conditional store is refused. */
  predicate Advances(isa: Isa, word: nat, linked: bool, th: Thread, c: Choice) {
    AdvancesTo(isa, word, linked, th, Local(isa, word, linked, th, c))
  }

  predicate AdvancesTo(isa: Isa, word: nat, linked: bool, th: Thread, e: Effect) {
    if AtReturn(isa, th) then
      match th.mode
      case Locking => e.th.mode == Holding
      case Trying => e.th.mode == Holding || (e.th.mode == Idle && !Clear(isa, word, linked, th))
      case Unlocking => e.th.mode == Idle && e.word == word
      case _ => true
    else
      && e.th.mode == th.mode && (e.stored ==> !e.link) && 0 <= Rank(isa, e.link, e.th) < Rank(isa, linked, th)
      && (Clear(isa, word, linked, th) ==> Clear(isa, e.word, e.link, e.th))
  }

  lemma ArmLoneLock(word: nat, linked: bool, th: Thread, c: Choice)
    requires Before(Arm, word, linked, th) && th.mode == Locking && th.pc < 3 && Clear(Arm, word, linked, th) && !c.spurious
    ensures Advances(Arm, word, linked, th, c)
  {
    match th.pc
    case 0 =>
    case 1 =>
    case 2 =>
    case _ =>
  }

  lemma ArmLoneLockEnd(word: nat, linked: bool, th: Thread, c: Choice)
    requires Before(Arm, word, linked, th) && th.mode == Locking && th.pc >= 3 && Clear(Arm, word, linked, th) && !c.spurious
    ensures Advances(Arm, word, linked, th, c)
  {
    match th.pc
    case 3 =>
    case 4 =>
    case 5 =>
    case _ =>
  }

  lemma X86LoneLock(word: nat, linked: bool, th: Thread, c: Choice)
    requires Before(X86, word, linked, th) && th.mode == Locking && Clear(X86, word, linked, th) && !c.spurious
    ensures Advances(X86, word, linked, th, c)
  {
    match th.pc
    case 0 =>
    case 1 =>
    case 2 =>
    case 3 =>
    case 4 =>
    case _ =>
  }

  lemma AlphaLoneLock(word: nat, linked: bool, th: Thread, c: Choice)
    requires Before(Alpha, word, linked, th) && th.mode == Locking && th.pc < 5
    requires Clear(Alpha, word, linked, th) && !c.spurious
    ensures Advances(Alpha, word, linked, th, c)
  {
    match th.pc
    case 0 =>
    case 1 =>
    case 2 =>
    case 3 =>
    case 4 =>
    case _ =>
  }

  lemma AlphaLoneWait(word: nat, linked: bool, th: Thread, c: Choice)
    requires Before(Alpha, word, linked, th) && th.mode == Locking && th.pc >= 5
    requires Clear(Alpha, word, linked, th) && !c.spurious
    ensures Advances(Alpha, word, linked, th, c)
  {
    match th.pc
    case 5 =>
    case 6 =>
    case 7 =>
    case 8 =>
    case 9 =>
    case _ =>
  }

  lemma SparcLoneLock(word: nat, linked: bool, th: Thread, c: Choice)
    requires Before(Sparc, word, linked, th) && th.mode == Locking && th.pc < 5
    requires Clear(Sparc, word, linked, th) && !c.spurious
    ensures Advances(Sparc, word, linked, th, c)
  {
    match th.pc
    case 0 =>
    case 1 =>
    case 2 =>
    case 3 =>
    case 4 =>
    case _ =>
  }

  lemma SparcLoneWait(word: nat, linked: bool, th: Thread, c: Choice)
    requires Before(Sparc, word, linked, th) && th.mode == Locking && th.pc >= 5
    requires Clear(Sparc, word, linked, th) && !c.spurious
    ensures Advances(Sparc, word, linked, th, c)
  {
    match th.pc
    case 5 =>
    case 6 =>
    case 7 =>
    case 8 =>
    case 9 =>
    case _ =>
  }

  lemma ArmLoneTry(word: nat, linked: bool, th: Thread, c: Choice)
    requires Before(Arm, word, linked, th) && th.mode == Trying && th.pc < 3 && !c.spurious
    ensures Advances(Arm, word, linked, th, c)
  {
    match th.pc
    case 0 =>
    case 1 =>
    case 2 =>
    case _ =>
  }

  lemma ArmLoneTryEnd(word: nat, linked: bool, th: Thread, c: Choice)
    requires Before(Arm, word, linked, th) && th.mode == Trying && th.pc >= 3 && !c.spurious
    ensures Advances(Arm, word, linked, th, c)
  {
    match th.pc
    case 3 =>
    case 4 =>
    case 5 =>
    case 6 =>
    case _ =>
  }

  lemma X86LoneTry(word: nat, linked: bool, th: Thread, c: Choice)
    requires Before(X86, word, linked, th) && th.mode == Trying && !c.spurious
    ensures Advances(X86, word, linked, th, c)
  {
    match th.pc
    case 0 =>
    case _ =>
  }

  lemma AlphaLoneTryLoad(word: nat, linked: bool, th: Thread, c: Choice)
    requires Before(Alpha, word, linked, th) && th.mode == Trying && th.pc == 0 && !c.spurious
    ensures Advances(Alpha, word, linked, th, c)
  {
  }

  lemma AlphaLoneTryClear(word: nat, linked: bool, th: Thread, c: Choice)
    requires Before(Alpha, word, linked, th) && th.mode == Trying && th.pc == 1 && !c.spurious
    ensures Advances(Alpha, word, linked, th, c)
  {
  }

  lemma AlphaLoneTryTest(word: nat, linked: bool, th: Thread, c: Choice)
    requires Before(Alpha, word, linked, th) && th.mode == Trying && th.pc == 2 && !c.spurious
    ensures Advances(Alpha, word, linked, th, c)
  {
  }

  lemma AlphaLoneTryStore(word: nat, linked: bool, th: Thread, c: Choice)
    requires Before(Alpha, word, linked, th) && th.mode == Trying && 3 <= th.pc < 6 && !c.spurious
    ensures Advances(Alpha, word, linked, th, c)
  {
    match th.pc
    case 3 =>
    case 4 =>
    case 5 =>
    case _ =>
  }

  lemma AlphaLoneTryEnd(word: nat, linked: bool, th: Thread, c: Choice)
    requires Before(Alpha, word, linked, th) && th.mode == Trying && th.pc >= 6 && !c.spurious
    ensures Advances(Alpha, word, linked, th, c)
  {
    match th.pc
    case 6 =>
    case 7 =>
    case 8 =>
    case _ =>
  }

  lemma SparcLoneTry(word: nat, linked: bool, th: Thread, c: Choice)
    requires Before(Sparc, word, linked, th) && th.mode == Trying && !c.spurious
    ensures Advances(Sparc, word, linked, th, c)
  {
    match th.pc
    case 0 =>
    case 1 =>
    case _ =>
  }

  lemma LoneUnlock(isa: Isa, word: nat, linked: bool, th: Thread, c: Choice)
    requires th.mode == Unlocking
    ensures Advances(isa, word, linked, th, c)
  {
    if th.pc < StorePc(isa) {
      assert Fetch(isa, th.mode, th.pc) == Fence;
    } else if th.pc == StorePc(isa) {
      assert Fetch(isa, th.mode, th.pc) == StoreZero;
    } else {
      assert Fetch(isa, th.mode, th.pc) == Return;
    }
  }

  lemma LoneInstruction(isa: Isa, word: nat, linked: bool, th: Thread, c: Choice)
    requires Before(isa, word, linked, th) && InCall(th) && !c.spurious
    requires th.mode == Locking ==> Clear(isa, word, linked, th)
    ensures Advances(isa, word, linked, th, c)
  {
    if th.mode == Unlocking { LoneUnlock(isa, word, linked, th, c); }
    else if th.mode == Locking { LoneLock(isa, word, linked, th, c); }
    else { LoneTry(isa, word, linked, th, c); }
  }

  lemma LoneLock(isa: Isa, word: nat, linked: bool, th: Thread, c: Choice)
    requires Before(isa, word, linked, th) && th.mode == Locking && Clear(isa, word, linked, th) && !c.spurious
    ensures Advances(isa, word, linked, th, c)
  {
    match isa
    case Arm => if th.pc < 3 { ArmLoneLock(word, linked, th, c); } else { ArmLoneLockEnd(word, linked, th, c); }
    case X86 => X86LoneLock(word, linked, th, c);
    case Alpha => if th.pc < 5 { AlphaLoneLock(word, linked, th, c); } else { AlphaLoneWait(word, linked, th, c); }
    case Sparc => if th.pc < 5 { SparcLoneLock(word, linked, th, c); } else { SparcLoneWait(word, linked, th, c); }
  }

  lemma LoneTry(isa: Isa, word: nat, linked: bool, th: Thread, c: Choice)
    requires Before(isa, word, linked, th) && th.mode == Trying && !c.spurious
    ensures Advances(isa, word, linked, th, c)
  {
    match isa
    case Arm => if th.pc < 3 { ArmLoneTry(word, linked, th, c); } else { ArmLoneTryEnd(word, linked, th, c); }
    case X86 => X86LoneTry(word, linked, th, c);
    case Alpha =>
      if th.pc == 0 { AlphaLoneTryLoad(word, linked, th, c); }
      else if th.pc == 1 { AlphaLoneTryClear(word, linked, th, c); }
      else if th.pc == 2 { AlphaLoneTryTest(word, linked, th, c); }
      else if th.pc < 6 { AlphaLoneTryStore(word, linked, th, c); }
      else { AlphaLoneTryEnd(word, linked, th, c); }
    case Sparc => SparcLoneTry(word, linked, th, c);
  }

  /** Where a call of a thread in the given mode may end. */
  predicate Ends(isa: Isa, s: State, t: nat, s': State)
    requires t < |s.threads| == |s'.threads|
  {
    var clear := Clear(isa, s.word, t in s.linked, s.threads[t]);
    match s.threads[t].mode
    case Locking => s'.threads[t].mode == Holding
    case Trying => s'.threads[t].mode == Holding || (s'.threads[t].mode == Idle && !clear)
    case Unlocking => s'.threads[t].mode == Idle && (clear ==> s'.word == 0)
    case _ => false
  }

  predicate Finished(isa: Isa, s: State, t: nat, s': State)
    requires t < |s.threads|
  {
    |s'.threads| == |s.threads| && s'.threads == s.threads[t := s'.threads[t]] && Ends(isa, s, t, s')
  }

  /** The call goes on: nearer to its end, and as clear as before. */
  predicate Moved(isa: Isa, s: State, t: nat, s': State)
    requires t < |s.threads|
  {
    && |s'.threads| == |s.threads| && s'.threads == s.threads[t := s'.threads[t]]
    && s'.threads[t].mode == s.threads[t].mode
    && 0 <= Rank(isa, t in s'.linked, s'.threads[t]) < Rank(isa, t in s.linked, s.threads[t])
    && (Clear(isa, s.word, t in s.linked, s.threads[t]) ==> Clear(isa, s'.word, t in s'.linked, s'.threads[t]))
  }

  lemma MoveThenFinish(isa: Isa, s: State, t: nat, s1: State, s': State)
    requires t < |s.threads| && InCall(s.threads[t]) && Moved(isa, s, t, s1) && Finished(isa, s1, t, s')
    ensures Finished(isa, s, t, s')
  {
  }

  lemma MovesOn(isa: Isa, s: State, t: nat, e: Effect, s': State)
    requires t < |s.threads| && InCall(s.threads[t]) && AdvancesTo(isa, s.word, t in s.linked, s.threads[t], e)
    requires s' == State(e.word, if e.stored then {} else if e.link then s.linked + {t} else s.linked - {t},
                         s.threads[t := e.th])
    requires s.threads[t].mode == Unlocking && AtReturn(isa, s.threads[t]) ==> s.threads[t].pc > StorePc(isa)
    ensures if AtReturn(isa, s.threads[t]) then Finished(isa, s, t, s') else Moved(isa, s, t, s')
  {
    assert !e.stored ==> (t in s'.linked <==> e.link);
  }

  /** A call in progress that nothing holds up. */
  predicate Going(isa: Isa, s: State, t: nat) {
    && Inv(isa, s) && t < |s.threads| && InCall(s.threads[t])
    && (s.threads[t].mode == Locking ==> Clear(isa, s.word, t in s.linked, s.threads[t]))
  }

  lemma LoneStep(isa: Isa, s: State, t: nat, c: Choice) returns (s1: State, ends: bool)
    requires Going(isa, s, t) && !c.spurious
    ensures s1 == Apply(isa, s, t, c) && Inv(isa, s1)
    ensures if ends then Finished(isa, s, t, s1) else Moved(isa, s, t, s1) && Going(isa, s1, t)
  {
    StepInv(isa, s, t, c);
    LoneInstruction(isa, s.word, t in s.linked, s.threads[t], c);
    s1, ends := Apply(isa, s, t, c), AtReturn(isa, s.threads[t]);
    MovesOn(isa, s, t, Local(isa, s.word, t in s.linked, s.threads[t], c), s1);
  }

  /** A call that nobody disturbs returns, from whatever instruction it has reached, when no
      conditional store is refused: spin_lock once the lock is free, trylock and spin_unlock
      always; and no other thread has moved. */
  lemma {:induction false} LoneCallReturns(isa: Isa, s: State, t: nat, c: Choice) returns (n: nat)
    requires Going(isa, s, t) && !c.spurious
    ensures Inv(isa, Alone(isa, s, t, c, n)) && Finished(isa, s, t, Alone(isa, s, t, c, n))
    decreases Rank(isa, t in s.linked, s.threads[t])
  {
    var s1, ends := LoneStep(isa, s, t, c);
    if ends {
      n := 1;
      AloneFirst(isa, s, t, c, 1);
    } else {
      var k := LoneCallReturns(isa, s1, t, c);
      n := k + 1;
      AloneFirst(isa, s, t, c, n);
      MoveThenFinish(isa, s, t, s1, Alone(isa, s, t, c, n));
    }
  }

  lemma AloneFirst(isa: Isa, s: State, t: nat, c: Choice, n: nat)
    requires t < |s.threads| && n > 0
    ensures Alone(isa, s, t, c, n) == Alone(isa, Apply(isa, s, t, c), t, c, n - 1)
    ensures Alone(isa, s, t, c, 1) == Apply(isa, s, t, c)
  {
  }

  /** A thread between calls begins one. */
  lemma Begins(isa: Isa, s: State, t: nat, c: Choice)
    requires t < |s.threads| && (s.threads[t].mode == Holding || (s.threads[t].mode == Idle && s.word == 0))
    ensures
      var s' := Apply(isa, s, t, c);
      && InCall(s'.threads[t]) && Clear(isa, s'.word, t in s'.linked, s'.threads[t])
      && s'.word == s.word && s'.threads == s.threads[t := s'.threads[t]] && s'.threads[t].pc == 0
      && s'.threads[t].mode == if s.threads[t].mode == Holding then Unlocking else if c.tryIt then Trying else Locking
  {
  }

  lemma LoneCall(isa: Isa, s: State, t: nat, c: Choice) returns (s1: State, n: nat)
    requires Inv(isa, s) && t < |s.threads| && !c.spurious
    requires s.threads[t].mode == Holding || (s.threads[t].mode == Idle && s.word == 0)
    ensures n > 0 && s1 == Apply(isa, s, t, c) && Alone(isa, s, t, c, n) == Alone(isa, s1, t, c, n - 1)
    ensures Inv(isa, Alone(isa, s, t, c, n)) && Finished(isa, s1, t, Alone(isa, s, t, c, n))
  {
    Begins(isa, s, t, c);
    StepInv(isa, s, t, c);
    s1 := Apply(isa, s, t, c);
    var k := LoneCallReturns(isa, s1, t, c);
    n := k + 1;
    AloneFirst(isa, s, t, c, n);
  }

  /** On a free lock a caller that nobody disturbs gets it, by spin_lock as by trylock ... */
  lemma LoneCallerTakes(isa: Isa, s: State, t: nat, c: Choice) returns (n: nat)
    requires Inv(isa, s) && t < |s.threads| && s.threads[t].mode == Idle && s.word == 0 && !c.spurious
    ensures
      var s' := Alone(isa, s, t, c, n);
      && s'.threads == s.threads[t := s'.threads[t]] && s'.threads[t].mode == Holding
      && Abs(isa, s') == HeldBy(t) && s'.word == if isa == Sparc then 255 else 1
  {
    Begins(isa, s, t, c);
    var s1;
    s1, n := LoneCall(isa, s, t, c);
    var s' := Alone(isa, s, t, c, n);
    AbsIs(isa, s', t);
    CountHas(Owner(isa), s'.threads, t);
  }

  /** ... and a holder that nobody disturbs frees it again. */
  lemma LoneHolderFrees(isa: Isa, s: State, t: nat, c: Choice) returns (n: nat)
    requires Inv(isa, s) && t < |s.threads| && s.threads[t].mode == Holding && !c.spurious
    ensures
      var s' := Alone(isa, s, t, c, n);
      s'.threads == s.threads[t := s'.threads[t]] && s'.threads[t].mode == Idle && s'.word == 0
  {
    Begins(isa, s, t, c);
    var s1;
    s1, n := LoneCall(isa, s, t, c);
  }
}
