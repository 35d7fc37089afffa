/** Any program over tracked values, run beside the same program in two builds that
    differ only in their library functions. */
module DriftMachine {

  import opened Text
  import opened Reals
  import opened DriftArith
  import opened Drift
  import opened DriftOps

  /** One operation on registers. */
  datatype Operation =
    | Literal(value: real)
    | Plus(a: nat, b: nat)
    | Minus(a: nat, b: nat)
    | Product(a: nat, b: nat)
    | Quotient(a: nat, b: nat)
    | Negated(a: nat)
    | Magnitude(a: nat)
    | Remainder(a: nat, m: real)
    | Library(a: nat, g: Libm)
    | Condensed(a: nat, slot: nat)

  datatype Instr =
    | Set(dst: nat, op: Operation)
    | Mark(slot: nat)
    | Branch(relation: Relation, a: nat, b: nat, target: nat)

  /** A build: a program counter and plain values. An unset register reads zero. */
  datatype Build = Build(pc: nat, regs: map<nat, real>)

  /** The tracked run: its values, its symbol marks, the next symbol and the number
      of branch flags raised. */
  datatype Watch = Watch(pc: nat, regs: map<nat, Tracked>, marks: map<nat, nat>, next: nat, flags: nat)

  function Plain(s: Build, r: nat): real { if r in s.regs then s.regs[r] else 0.0 }

  function Lifted(v: real): Tracked { Tracked(v, map[], 0.0) }

  function Held(w: Watch, r: nat): Tracked { if r in w.regs then w.regs[r] else Lifted(0.0) }

  function MarkAt(w: Watch, slot: nat): nat { if slot in w.marks then w.marks[slot] else 0 }

  // ----- one operation -----

  /** The value in one build; none when the operation is undefined. */
  function Value(f: Format, op: Operation, here: bool, s: Build): Option<real> {
    match op
    case Literal(v) => Some(v)
    case Plus(a, b) => Some(f.rnd(Sum(Plain(s, a), Plain(s, b), true)))
    case Minus(a, b) => Some(f.rnd(Sum(Plain(s, a), Plain(s, b), false)))
    case Product(a, b) => Some(f.rnd(Times(Plain(s, a), Plain(s, b))))
    case Quotient(a, b) => if Plain(s, b) == 0.0 then None else Some(f.rnd(Over(Plain(s, a), Plain(s, b))))
    case Negated(a) => Some(NegOf(Plain(s, a)))
    case Magnitude(a) => Some(Abs(Plain(s, a)))
    case Remainder(a, m) => if m == 0.0 then None else Some(FmodOf(Plain(s, a), m))
    case Library(a, g) => Some(if here then g.here(Plain(s, a)) else g.there(Plain(s, a)))
    case Condensed(a, _) => Some(Plain(s, a))
  }

  /** The tracked value; none when tracking raises an arithmetic error. */
  function Track(f: Format, op: Operation, w: Watch): Option<Made> {
    var n := w.next;
    match op
    case Literal(v) => Some(Made(Lifted(v), n))
    case Plus(a, b) => Some(Add(f, Held(w, a), Held(w, b), true, n))
    case Minus(a, b) => Some(Add(f, Held(w, a), Held(w, b), false, n))
    case Product(a, b) => Some(Mul(f, Held(w, a), Held(w, b), n))
    case Quotient(a, b) => if Divides(Held(w, b), n) then Some(Div(f, Held(w, a), Held(w, b), n)) else None
    case Negated(a) => Some(Made(Neg(Held(w, a)), n))
    case Magnitude(a) => Some(Made(Fabs(Held(w, a), n), n))
    case Remainder(a, m) => if m == 0.0 then None else Some(Made(Fmod(Held(w, a), m), n))
    case Library(a, g) =>
      if g.applies(Held(w, a).v, Radius(Held(w, a), n)) then Some(Call(f, g, Held(w, a), n)) else None
    case Condensed(a, slot) => Some(Condense(Held(w, a), MarkAt(w, slot), n))
  }

  predicate Wraps(op: Operation, w: Watch) {
    op.Remainder? && op.m != 0.0 && FmodWraps(Held(w, op.a), op.m, w.next)
  }

  // ----- one step -----

  /** Past the end of the program a run stays where it is. */
  function BuildStep(f: Format, program: seq<Instr>, here: bool, s: Build): Option<Build> {
    if s.pc >= |program| then Some(s) else
    match program[s.pc]
    case Set(dst, op) =>
      (match Value(f, op, here, s)
       case None => None
       case Some(v) => Some(Build(s.pc + 1, s.regs[dst := v])))
    case Mark(_) => Some(Build(s.pc + 1, s.regs))
    case Branch(relation, a, b, target) =>
      Some(Build(if Holds(relation, Plain(s, a), Plain(s, b)) then target else s.pc + 1, s.regs))
  }

  function WatchStep(f: Format, program: seq<Instr>, w: Watch): Option<Watch> {
    if w.pc >= |program| then Some(w) else
    match program[w.pc]
    case Set(dst, op) =>
      (match Track(f, op, w)
       case None => None
       case Some(m) =>
         Some(Watch(w.pc + 1, w.regs[dst := m.t], w.marks, m.next, w.flags + if Wraps(op, w) then 1 else 0)))
    case Mark(slot) => Some(Watch(w.pc + 1, w.regs, w.marks[slot := w.next], w.next + 1, w.flags))
    case Branch(relation, a, b, target) =>
      Some(Watch(if Holds(relation, Held(w, a).v, Held(w, b).v) then target else w.pc + 1, w.regs, w.marks, w.next,
        w.flags + if Ambiguous(Held(w, a), Held(w, b), w.next) then 1 else 0))
  }

  /** `k` steps of one build from `s`. */
  function BuildRun(f: Format, program: seq<Instr>, here: bool, s: Build, k: nat): Option<Build> {
    if k == 0 then Some(s) else
    match BuildRun(f, program, here, s, k - 1)
    case None => None
    case Some(s') => BuildStep(f, program, here, s')
  }

  /** `k` steps of the tracked run from `w`. */
  function WatchRun(f: Format, program: seq<Instr>, w: Watch, k: nat): Option<Watch> {
    if k == 0 then Some(w) else
    match WatchRun(f, program, w, k - 1)
    case None => None
    case Some(w') => WatchStep(f, program, w')
  }

  // ----- soundness -----

  /** The tracked run follows the build `a`, and one assignment of all symbols
      explains every register of the build `b`. */
  ghost predicate Agree(eps: nat -> real, w: Watch, a: Build, b: Build) {
    && Unit(eps)
    && w.pc == a.pc == b.pc
    && (forall r: nat :: AgreeAt(eps, w, a, b, r))
  }

  ghost predicate AgreeAt(eps: nat -> real, w: Watch, a: Build, b: Build, r: nat) {
    Held(w, r).v == Plain(a, r) && Sound(eps, w.next, Held(w, r), Plain(b, r))
  }

  ghost predicate ProgramOk(f: Format, program: seq<Instr>) {
    FormatOk(f) && forall i :: 0 <= i < |program| ==> OperationOk(f, program[i])
  }

  ghost predicate OperationOk(f: Format, i: Instr) {
    i.Set? && i.op.Library? ==> LibmOk(f, i.op.g)
  }

  lemma At(eps: nat -> real, w: Watch, a: Build, b: Build, r: nat)
    requires Agree(eps, w, a, b)
    ensures AgreeAt(eps, w, a, b, r)
  {
  }

  lemma PlusAgrees(f: Format, op: Operation, eps: nat -> real, w: Watch, a: Build, b: Build, m: Made)
    returns (eps': nat -> real)
    requires op.Plus?
    requires FormatOk(f) && Agree(eps, w, a, b)
    requires Track(f, op, w) == Some(m)
    ensures Value(f, op, true, a) == Some(m.t.v)
    ensures Value(f, op, false, b).Some? && Keeps(eps', eps, w.next, m, Value(f, op, false, b).value)
  {
    At(eps, w, a, b, op.a);
    At(eps, w, a, b, op.b);
    hide FormatOk, Sound, Keeps, Agree, Abs, Times, Over, Sum, Merge, Radius, Diverged, MulRest, DivRest;
    eps' := AddSound(f, eps, w.next, Held(w, op.a), Held(w, op.b), true, Plain(b, op.a), Plain(b, op.b));
  }

  lemma MinusAgrees(f: Format, op: Operation, eps: nat -> real, w: Watch, a: Build, b: Build, m: Made)
    returns (eps': nat -> real)
    requires op.Minus?
    requires FormatOk(f) && Agree(eps, w, a, b)
    requires Track(f, op, w) == Some(m)
    ensures Value(f, op, true, a) == Some(m.t.v)
    ensures Value(f, op, false, b).Some? && Keeps(eps', eps, w.next, m, Value(f, op, false, b).value)
  {
    At(eps, w, a, b, op.a);
    At(eps, w, a, b, op.b);
    hide FormatOk, Sound, Keeps, Agree, Abs, Times, Over, Sum, Merge, Radius, Diverged, MulRest, DivRest;
    eps' := AddSound(f, eps, w.next, Held(w, op.a), Held(w, op.b), false, Plain(b, op.a), Plain(b, op.b));
  }

  lemma ProductAgrees(f: Format, op: Operation, eps: nat -> real, w: Watch, a: Build, b: Build, m: Made)
    returns (eps': nat -> real)
    requires op.Product?
    requires FormatOk(f) && Agree(eps, w, a, b)
    requires Track(f, op, w) == Some(m)
    ensures Value(f, op, true, a) == Some(m.t.v)
    ensures Value(f, op, false, b).Some? && Keeps(eps', eps, w.next, m, Value(f, op, false, b).value)
  {
    At(eps, w, a, b, op.a);
    At(eps, w, a, b, op.b);
    hide FormatOk, Sound, Keeps, Agree, Abs, Times, Over, Sum, Merge, Radius, Diverged, MulRest, DivRest;
    eps' := MulSound(f, eps, w.next, Held(w, op.a), Held(w, op.b), Plain(b, op.a), Plain(b, op.b));
  }

  lemma QuotientAgrees(f: Format, op: Operation, eps: nat -> real, w: Watch, a: Build, b: Build, m: Made)
    returns (eps': nat -> real)
    requires op.Quotient?
    requires FormatOk(f) && Agree(eps, w, a, b)
    requires Track(f, op, w) == Some(m)
    ensures Value(f, op, true, a) == Some(m.t.v)
    ensures Value(f, op, false, b).Some? && Keeps(eps', eps, w.next, m, Value(f, op, false, b).value)
  {
    At(eps, w, a, b, op.a);
    At(eps, w, a, b, op.b);
    hide FormatOk, Sound, Keeps, Agree, Abs, Times, Over, Sum, Merge, Radius, Diverged, MulRest, DivRest;
    eps' := DivSound(f, eps, w.next, Held(w, op.a), Held(w, op.b), Plain(b, op.a), Plain(b, op.b));
  }

  lemma ExactKeeps(eps: nat -> real, n: nat, t: Tracked, other: real)
    requires Sound(eps, n, t, other)
    ensures Keeps(eps, eps, n, Made(t, n), other)
  {
  }

  lemma NegatedAgrees(f: Format, op: Operation, eps: nat -> real, w: Watch, a: Build, b: Build, m: Made)
    returns (eps': nat -> real)
    requires op.Negated?
    requires FormatOk(f) && Agree(eps, w, a, b)
    requires Track(f, op, w) == Some(m)
    ensures Value(f, op, true, a) == Some(m.t.v)
    ensures Value(f, op, false, b).Some? && Keeps(eps', eps, w.next, m, Value(f, op, false, b).value)
  {
    At(eps, w, a, b, op.a);
    hide FormatOk, Sound, Keeps, Agree, Abs, Times, Over, Merge, Radius, Diverged, FmodOf, NegOf;
    NegSound(eps, w.next, Held(w, op.a), Plain(b, op.a));
    eps' := eps;
    ExactKeeps(eps, w.next, m.t, Value(f, op, false, b).value);
  }

  lemma MagnitudeAgrees(f: Format, op: Operation, eps: nat -> real, w: Watch, a: Build, b: Build, m: Made)
    returns (eps': nat -> real)
    requires op.Magnitude?
    requires FormatOk(f) && Agree(eps, w, a, b)
    requires Track(f, op, w) == Some(m)
    ensures Value(f, op, true, a) == Some(m.t.v)
    ensures Value(f, op, false, b).Some? && Keeps(eps', eps, w.next, m, Value(f, op, false, b).value)
  {
    At(eps, w, a, b, op.a);
    hide FormatOk, Sound, Keeps, Agree, Abs, Times, Over, Merge, Radius, Diverged, FmodOf, NegOf;
    FabsSound(eps, w.next, Held(w, op.a), Plain(b, op.a));
    eps' := eps;
    ExactKeeps(eps, w.next, m.t, Value(f, op, false, b).value);
  }

  lemma RemainderAgrees(f: Format, op: Operation, eps: nat -> real, w: Watch, a: Build, b: Build, m: Made)
    returns (eps': nat -> real)
    requires op.Remainder? && !Wraps(op, w)
    requires FormatOk(f) && Agree(eps, w, a, b)
    requires Track(f, op, w) == Some(m)
    ensures Value(f, op, true, a) == Some(m.t.v)
    ensures Value(f, op, false, b).Some? && Keeps(eps', eps, w.next, m, Value(f, op, false, b).value)
  {
    At(eps, w, a, b, op.a);
    hide FormatOk, Sound, Keeps, Agree, Abs, Times, Over, Merge, Radius, Diverged, FmodOf, NegOf;
    FmodSound(eps, w.next, Held(w, op.a), op.m, Plain(b, op.a));
    eps' := eps;
    ExactKeeps(eps, w.next, m.t, Value(f, op, false, b).value);
  }

  lemma LibraryAgrees(f: Format, op: Operation, eps: nat -> real, w: Watch, a: Build, b: Build, m: Made)
    returns (eps': nat -> real)
    requires op.Library? && LibmOk(f, op.g) && CallInReach(f, op, w)
    requires FormatOk(f) && Agree(eps, w, a, b)
    requires Track(f, op, w) == Some(m)
    ensures Value(f, op, true, a) == Some(m.t.v)
    ensures Value(f, op, false, b).Some? && Keeps(eps', eps, w.next, m, Value(f, op, false, b).value)
  {
    At(eps, w, a, b, op.a);
    hide FormatOk, Sound, Keeps, Agree, Abs, Times, Over, Merge, Radius, Diverged, FmodOf, NegOf;
    hide LibmOk, UnitsCoverCall;
    eps' := CallSound(f, eps, w.next, op.g, Held(w, op.a), Plain(b, op.a));
  }

  lemma CondensedAgrees(f: Format, op: Operation, eps: nat -> real, w: Watch, a: Build, b: Build, m: Made)
    returns (eps': nat -> real)
    requires op.Condensed?
    requires FormatOk(f) && Agree(eps, w, a, b)
    requires Track(f, op, w) == Some(m)
    ensures Value(f, op, true, a) == Some(m.t.v)
    ensures Value(f, op, false, b).Some? && Keeps(eps', eps, w.next, m, Value(f, op, false, b).value)
  {
    At(eps, w, a, b, op.a);
    hide FormatOk, Sound, Keeps, Agree, Abs, Times, Over, Merge, Radius, Diverged, FmodOf, NegOf;
    eps' := CondenseSound(eps, w.next, Held(w, op.a), MarkAt(w, op.slot), Plain(b, op.a));
  }

  /** The units charged to a library call cover it. */
  ghost predicate CallInReach(f: Format, op: Operation, w: Watch) {
    op.Library? ==> UnitsCoverCall(f, op.g, Held(w, op.a).v, Radius(Held(w, op.a), w.next))
  }

  /** Every operation carries the explanation to its result. */
  lemma OperationSound(f: Format, op: Operation, eps: nat -> real, w: Watch, a: Build, b: Build, m: Made)
    returns (eps': nat -> real)
    requires FormatOk(f) && Agree(eps, w, a, b) && (op.Library? ==> LibmOk(f, op.g))
    requires Track(f, op, w) == Some(m) && !Wraps(op, w) && CallInReach(f, op, w)
    ensures Value(f, op, true, a) == Some(m.t.v)
    ensures Value(f, op, false, b).Some? && Keeps(eps', eps, w.next, m, Value(f, op, false, b).value)
  {
    if op.Literal? {
      LiftedSound(eps, w.next, op.value);
      eps' := eps;
      ExactKeeps(eps, w.next, Lifted(op.value), op.value);
    } else {
      hide FormatOk, LibmOk, Agree, Keeps, Track, Value, Wraps, CallInReach;
      match op {
        case Plus(_, _) => eps' := PlusAgrees(f, op, eps, w, a, b, m);
        case Minus(_, _) => eps' := MinusAgrees(f, op, eps, w, a, b, m);
        case Product(_, _) => eps' := ProductAgrees(f, op, eps, w, a, b, m);
        case Quotient(_, _) => eps' := QuotientAgrees(f, op, eps, w, a, b, m);
        case Negated(_) => eps' := NegatedAgrees(f, op, eps, w, a, b, m);
        case Magnitude(_) => eps' := MagnitudeAgrees(f, op, eps, w, a, b, m);
        case Remainder(_, _) => eps' := RemainderAgrees(f, op, eps, w, a, b, m);
        case Library(_, _) => eps' := LibraryAgrees(f, op, eps, w, a, b, m);
        case Condensed(_, _) => eps' := CondensedAgrees(f, op, eps, w, a, b, m);
      }
    }
  }

  lemma LiftedSound(eps: nat -> real, n: nat, v: real)
    requires Unit(eps)
    ensures Sound(eps, n, Lifted(v), v)
  {
    EmptySums(map[], eps, n);
  }

  /** After a register is written, every register is still explained. */
  lemma WriteAgrees(eps: nat -> real, eps': nat -> real, w: Watch, a: Build, b: Build, dst: nat, m: Made, v: real, flags: nat)
    requires Agree(eps, w, a, b) && Keeps(eps', eps, w.next, m, v)
    ensures Agree(eps', Watch(w.pc + 1, w.regs[dst := m.t], w.marks, m.next, flags),
                  Build(a.pc + 1, a.regs[dst := m.t.v]), Build(b.pc + 1, b.regs[dst := v]))
  {
    var w' := Watch(w.pc + 1, w.regs[dst := m.t], w.marks, m.next, flags);
    var a', b' := Build(a.pc + 1, a.regs[dst := m.t.v]), Build(b.pc + 1, b.regs[dst := v]);
    forall r: nat ensures AgreeAt(eps', w', a', b', r) {
      assert AgreeAt(eps, w, a, b, r);
      if r != dst {
        StillSound(eps, w.next, eps', m.next, Held(w, r), Plain(b, r));
      }
    }
  }

  /** The next step is no library call charged too little. */
  ghost predicate StepInReach(f: Format, program: seq<Instr>, w: Watch) {
    w.pc < |program| && program[w.pc].Set? ==> CallInReach(f, program[w.pc].op, w)
  }

  /** None of the first `k` steps from `w` was. */
  ghost predicate RunInReach(f: Format, program: seq<Instr>, w: Watch, k: nat) {
    k > 0 ==>
      && RunInReach(f, program, w, k - 1)
      && (WatchRun(f, program, w, k - 1).Some? ==> StepInReach(f, program, WatchRun(f, program, w, k - 1).value))
  }

  lemma StepAgrees(f: Format, program: seq<Instr>, eps: nat -> real, w: Watch, a: Build, b: Build, w': Watch)
    returns (eps': nat -> real, a': Build, b': Build)
    requires ProgramOk(f, program) && Agree(eps, w, a, b)
    requires WatchStep(f, program, w) == Some(w') && w'.flags == w.flags && StepInReach(f, program, w)
    ensures BuildStep(f, program, true, a) == Some(a') && BuildStep(f, program, false, b) == Some(b')
    ensures Agree(eps', w', a', b') && Extends(eps', eps, w.next) && w.next <= w'.next
  {
    hide FormatOk, LibmOk, Track, Value, AgreeAt, CallInReach, Sound;
    eps', a', b' := eps, a, b;
    if w.pc < |program| {
      assert OperationOk(f, program[w.pc]);
      match program[w.pc] {
        case Set(dst, op) =>
          var m := Track(f, op, w).value;
          eps' := OperationSound(f, op, eps, w, a, b, m);
          var v := Value(f, op, false, b).value;
          WriteAgrees(eps, eps', w, a, b, dst, m, v, w'.flags);
          a', b' := Build(a.pc + 1, a.regs[dst := m.t.v]), Build(b.pc + 1, b.regs[dst := v]);
        case Mark(slot) =>
          a', b' := Build(a.pc + 1, a.regs), Build(b.pc + 1, b.regs);
          MoveAgrees(eps, w, a, b, w', a', b');
        case Branch(relation, x, y, target) =>
          BranchAgrees(eps, w, a, b, relation, x, y);
          var pc := if Holds(relation, Held(w, x).v, Held(w, y).v) then target else w.pc + 1;
          a', b' := Build(pc, a.regs), Build(pc, b.regs);
          MoveAgrees(eps, w, a, b, w', a', b');
      }
    }
  }

  /** Moving the program counters together, or handing out a symbol, keeps every
      register explained. */
  lemma MoveAgrees(eps: nat -> real, w: Watch, a: Build, b: Build, w': Watch, a': Build, b': Build)
    requires Agree(eps, w, a, b) && w'.pc == a'.pc == b'.pc && w.next <= w'.next
    requires w'.regs == w.regs && a'.regs == a.regs && b'.regs == b.regs
    ensures Agree(eps, w', a', b')
  {
    forall r: nat ensures AgreeAt(eps, w', a', b', r) {
      assert AgreeAt(eps, w, a, b, r);
      StillSound(eps, w.next, eps, w'.next, Held(w, r), Plain(b, r));
    }
  }

  lemma BranchAgrees(eps: nat -> real, w: Watch, a: Build, b: Build, relation: Relation, x: nat, y: nat)
    requires Agree(eps, w, a, b) && !Ambiguous(Held(w, x), Held(w, y), w.next)
    ensures Holds(relation, Plain(a, x), Plain(a, y)) == Holds(relation, Held(w, x).v, Held(w, y).v)
    ensures Holds(relation, Plain(b, x), Plain(b, y)) == Holds(relation, Held(w, x).v, Held(w, y).v)
  {
    assert AgreeAt(eps, w, a, b, x) && AgreeAt(eps, w, a, b, y);
    ComparisonSound(eps, w.next, Held(w, x), Held(w, y), relation, Plain(b, x), Plain(b, y));
  }

  lemma FlagsRise(f: Format, program: seq<Instr>, w: Watch)
    requires WatchStep(f, program, w).Some?
    ensures WatchStep(f, program, w).value.flags >= w.flags
  {
  }

  /** A tracked run and the two builds, at one moment. */
  datatype Moment = Moment(w: Watch, a: Build, b: Build)

  /** The tracked run from `m` makes `k` steps without a new flag, its library calls
      charged enough. */
  ghost predicate Quiet(f: Format, program: seq<Instr>, m: Moment, k: nat) {
    && WatchRun(f, program, m.w, k).Some?
    && WatchRun(f, program, m.w, k).value.flags == m.w.flags
    && RunInReach(f, program, m.w, k)
  }

  /** Both builds made the same `k` steps. */
  ghost predicate BothRan(f: Format, program: seq<Instr>, m: Moment, k: nat) {
    && WatchRun(f, program, m.w, k).Some?
    && BuildRun(f, program, true, m.a, k).Some? && BuildRun(f, program, false, m.b, k).Some?
  }

  function After(f: Format, program: seq<Instr>, m: Moment, k: nat): Moment
    requires BothRan(f, program, m, k)
  {
    Moment(WatchRun(f, program, m.w, k).value, BuildRun(f, program, true, m.a, k).value,
      BuildRun(f, program, false, m.b, k).value)
  }

  ghost predicate Explained(eps: nat -> real, m: Moment) { Agree(eps, m.w, m.a, m.b) }

  lemma {:induction false} RunAgrees(f: Format, program: seq<Instr>, eps0: nat -> real, m: Moment, k: nat)
    returns (eps: nat -> real)
    requires ProgramOk(f, program) && Explained(eps0, m) && Quiet(f, program, m, k)
    ensures BothRan(f, program, m, k) && Explained(eps, After(f, program, m, k)) && Extends(eps, eps0, m.w.next)
    ensures m.w.next <= After(f, program, m, k).w.next
  {
    hide ProgramOk, WatchStep, BuildStep, StepInReach;
    if k == 0 {
      eps := eps0;
    } else {
      hide Agree;
      QuietBefore(f, program, m, k);
      eps := RunAgrees(f, program, eps0, m, k - 1);
      var now := After(f, program, m, k - 1);
      var eps', a, b := StepAgrees(f, program, eps, now.w, now.a, now.b, WatchRun(f, program, m.w, k).value);
      ExtendsOn(eps', eps, eps0, m.w.next, now.w.next);
      eps := eps';
    }
  }

  lemma ExtendsOn(eps'': nat -> real, eps': nat -> real, eps: nat -> real, n: nat, n': nat)
    requires Extends(eps', eps, n) && Extends(eps'', eps', n') && n <= n'
    ensures Extends(eps'', eps, n)
  {
  }

  /** A run without a new flag had none a step earlier. */
  lemma {:induction false} QuietBefore(f: Format, program: seq<Instr>, m: Moment, k: nat)
    requires k > 0 && Quiet(f, program, m, k)
    ensures Quiet(f, program, m, k - 1) && StepInReach(f, program, WatchRun(f, program, m.w, k - 1).value)
  {
    hide WatchStep, StepInReach;
    FlagsRise(f, program, WatchRun(f, program, m.w, k - 1).value);
    FlagsOnlyRise(f, program, m.w, k - 1);
  }

  lemma {:induction false} FlagsOnlyRise(f: Format, program: seq<Instr>, w: Watch, k: nat)
    requires WatchRun(f, program, w, k).Some?
    ensures WatchRun(f, program, w, k).value.flags >= w.flags
  {
    hide WatchStep;
    if k > 0 {
      FlagsOnlyRise(f, program, w, k - 1);
      FlagsRise(f, program, WatchRun(f, program, w, k - 1).value);
    }
  }

  lemma {:induction false} QuietPrefix(f: Format, program: seq<Instr>, m: Moment, k: nat, j: nat)
    requires j <= k && Quiet(f, program, m, k)
    ensures Quiet(f, program, m, j)
    decreases k
  {
    hide Quiet;
    if j < k {
      QuietBefore(f, program, m, k);
      QuietPrefix(f, program, m, k - 1, j);
    }
  }

  // ----- the theorems -----

  /** From any explained moment, after any number of steps without a new flag, one
      assignment of all symbols in [-1, 1] explains the gap in every register at once;
      symbols already handed out keep their values. */
  lemma DriftExplained(f: Format, program: seq<Instr>, eps0: nat -> real, m: Moment, k: nat)
    requires ProgramOk(f, program) && Explained(eps0, m) && Quiet(f, program, m, k)
    ensures BothRan(f, program, m, k)
    ensures exists eps :: Explained(eps, After(f, program, m, k)) && Extends(eps, eps0, m.w.next)
  {
    hide ProgramOk, Quiet, BothRan, Explained, Extends;
    var eps := RunAgrees(f, program, eps0, m, k);
    assert Explained(eps, After(f, program, m, k)) && Extends(eps, eps0, m.w.next);
  }

  /** And each gap is within the radius reported for its register. */
  lemma DriftWithinRadius(f: Format, program: seq<Instr>, eps0: nat -> real, m: Moment, k: nat, r: nat)
    requires ProgramOk(f, program) && Explained(eps0, m) && Quiet(f, program, m, k)
    ensures BothRan(f, program, m, k)
    ensures var now := After(f, program, m, k);
      && Held(now.w, r).v == Plain(now.a, r)
      && Abs(Plain(now.b, r) - Plain(now.a, r)) <= Radius(Held(now.w, r), now.w.next)
  {
    hide ProgramOk, Quiet, BothRan, After, Radius, Held, Plain, Abs, Agree;
    var eps := RunAgrees(f, program, eps0, m, k);
    var now := After(f, program, m, k);
    AgreeGap(eps, now.w, now.a, now.b, r);
  }

  lemma AgreeGap(eps: nat -> real, w: Watch, a: Build, b: Build, r: nat)
    requires Agree(eps, w, a, b)
    ensures Held(w, r).v == Plain(a, r) && Abs(Plain(b, r) - Plain(a, r)) <= Radius(Held(w, r), w.next)
  {
    hide Radius, SumAt;
    assert AgreeAt(eps, w, a, b, r);
    GapWithinRadius(eps, w.next, Held(w, r), Plain(b, r));
  }

  /** Both builds stood at the same instruction before every one of those steps:
      they took the same branches. */
  lemma SameBranches(f: Format, program: seq<Instr>, eps0: nat -> real, m: Moment, k: nat, j: nat)
    requires ProgramOk(f, program) && Explained(eps0, m) && Quiet(f, program, m, k) && j <= k
    ensures BothRan(f, program, m, j)
    ensures After(f, program, m, j).a.pc == After(f, program, m, j).b.pc
  {
    hide ProgramOk, Quiet, BothRan, After, AgreeAt;
    QuietPrefix(f, program, m, k, j);
    var eps := RunAgrees(f, program, eps0, m, j);
  }

  // ----- starts -----

  const FRESH := Moment(Watch(0, map[], map[], 0, 0), Build(0, map[]), Build(0, map[]))

  /** Before anything is set, any assignment explains the two builds. */
  lemma FreshExplained(eps: nat -> real)
    requires Unit(eps)
    ensures Explained(eps, FRESH)
  {
    forall r: nat ensures AgreeAt(eps, FRESH.w, FRESH.a, FRESH.b, r) {
      LiftedSound(eps, 0, 0.0);
    }
  }

  /** The registers of `a`, each with its distance to `b` as remainder. */
  function Apart(a: Build, b: Build): Watch {
    Watch(a.pc, map r | r in a.regs.Keys + b.regs.Keys :: Tracked(Plain(a, r), map[], Abs(Plain(b, r) - Plain(a, r))),
      map[], 0, 0)
  }

  /** Any two builds at the same instruction are an explained start, however far their
      values are apart. */
  lemma ApartExplained(eps: nat -> real, a: Build, b: Build)
    requires Unit(eps) && a.pc == b.pc
    ensures Explained(eps, Moment(Apart(a, b), a, b))
  {
    var w := Apart(a, b);
    forall r: nat ensures AgreeAt(eps, w, a, b, r) {
      EmptySums(map[], eps, 0);
    }
  }

  // ----- programs without library calls -----

  /** A program of arithmetic, magnitudes, remainders, comparisons and condensing. */
  predicate Arithmetic(program: seq<Instr>) {
    forall i :: 0 <= i < |program| && program[i].Set? ==> !program[i].op.Library?
  }

  lemma {:induction false} ArithmeticInReach(f: Format, program: seq<Instr>, w: Watch, k: nat)
    requires Arithmetic(program)
    ensures RunInReach(f, program, w, k)
  {
    hide WatchRun;
    if k > 0 {
      ArithmeticInReach(f, program, w, k - 1);
    }
  }

  lemma ArithmeticQuiet(f: Format, program: seq<Instr>, m: Moment, k: nat)
    requires FormatOk(f) && Arithmetic(program)
    requires WatchRun(f, program, m.w, k).Some? && WatchRun(f, program, m.w, k).value.flags == m.w.flags
    ensures ProgramOk(f, program) && Quiet(f, program, m, k)
  {
    hide WatchRun, RunInReach, FormatOk;
    ArithmeticInReach(f, program, m.w, k);
  }

  /** Arithmetic alone, from any explained moment: nothing is assumed but the rounding
      laws. One assignment explains every register, and each gap is within its radius. */
  lemma ArithmeticDrift(f: Format, program: seq<Instr>, eps0: nat -> real, m: Moment, k: nat)
    requires FormatOk(f) && Arithmetic(program) && Explained(eps0, m)
    requires WatchRun(f, program, m.w, k).Some? && WatchRun(f, program, m.w, k).value.flags == m.w.flags
    ensures BothRan(f, program, m, k)
    ensures exists eps :: Explained(eps, After(f, program, m, k)) && Extends(eps, eps0, m.w.next)
    ensures forall r :: GapCovered(After(f, program, m, k), r)
  {
    hide WatchRun, BothRan, Explained, Quiet, ProgramOk, Arithmetic, FormatOk, Extends;
    ArithmeticQuiet(f, program, m, k);
    DriftExplained(f, program, eps0, m, k);
    forall r ensures GapCovered(After(f, program, m, k), r) {
      DriftWithinRadius(f, program, eps0, m, k, r);
    }
  }

  ghost predicate GapCovered(m: Moment, r: nat) {
    Abs(Plain(m.b, r) - Plain(m.a, r)) <= Radius(Held(m.w, r), m.w.next)
  }

  /** And both builds took the same branches. */
  lemma ArithmeticBranches(f: Format, program: seq<Instr>, eps0: nat -> real, m: Moment, k: nat, j: nat)
    requires FormatOk(f) && Arithmetic(program) && Explained(eps0, m) && j <= k
    requires WatchRun(f, program, m.w, k).Some? && WatchRun(f, program, m.w, k).value.flags == m.w.flags
    ensures BothRan(f, program, m, j)
    ensures After(f, program, m, j).a.pc == After(f, program, m, j).b.pc
  {
    hide WatchRun, BothRan, Explained, Quiet, ProgramOk, Arithmetic, FormatOk, After;
    ArithmeticQuiet(f, program, m, k);
    SameBranches(f, program, eps0, m, k, j);
  }
}
