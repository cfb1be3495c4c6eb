/** The register allocator (src/register_allocator.cc). */
module RegisterAllocation {
  import opened Sequences
  import opened Instructions

  /** A RAT entry: a physical register, or -1 for no mapping. */
  type Mapping = m: int | -1 <= m < 256

  datatype PhysReg = PhysReg(arch: Reg, producer: nat, valid: bool, busy: bool)

  datatype AllocState = AllocState(frontend: seq<Mapping>, backend: seq<Mapping>, free: seq<Reg>, file: seq<PhysReg>)

  /** The value of a RegisterAllocator object. */
  type Alloc = a: AllocState | |a.frontend| == 256 && |a.backend| == 256
    witness AllocState(seq(256, _ => -1), seq(256, _ => -1), [], [])

  function Put(file: seq<PhysReg>, p: Reg, v: PhysReg): (f: seq<PhysReg>)
    ensures |f| == |file|
    ensures forall q :: 0 <= q < |file| ==> f[q] == if q == p then v else file[q]
  {
    if p < |file| then file[p := v] else file
  }

  function Initial(size: nat): Alloc
    requires size <= 256
  {
    AllocState(seq(256, _ => -1), seq(256, _ => -1), seq(size, i requires 0 <= i < size => i as Reg),
      seq(size, _ => PhysReg(0, 0, false, false)))
  }

  predicate IsAllocated(a: Alloc, r: Reg) {
    a.frontend[r] != -1
  }

  predicate IsValid(a: Alloc, p: Reg) {
    p < |a.file| && a.file[p].valid
  }

  function RenameDest(a: Alloc, r: Reg, producer: nat): (Alloc, Reg)
    requires a.free != []
  {
    var p := a.free[0];
    (a.(free := a.free[1..], frontend := a.frontend[r := p], file := Put(a.file, p, PhysReg(r, producer, false, true))),
      p)
  }

  function RenameSrc(a: Alloc, r: Reg): (Alloc, Reg)
    requires IsAllocated(a, r) || a.free != []
  {
    if a.frontend[r] >= 0 then (a, a.frontend[r])
    else
      var p := a.free[0];
      (AllocState(a.frontend[r := p], a.backend[r := p], a.free[1..], Put(a.file, p, PhysReg(r, 0, true, true))), p)
  }

  function CompleteDest(a: Alloc, p: Reg): Alloc {
    if p < |a.file| then a.(file := a.file[p := a.file[p].(valid := true)]) else a
  }

  function FreeRegister(a: Alloc, p: Reg): Alloc {
    a.(file := Put(a.file, p, PhysReg(255, 0, false, false)), free := a.free + [p])
  }

  function RetireDest(a: Alloc, p: Reg): Alloc {
    if p < |a.file| then
      var r := a.file[p].arch;
      var previous := a.backend[r];
      var b := a.(backend := a.backend[r := p]);
      if previous != -1 then FreeRegister(b, previous) else b
    else a
  }

  function RetireDests(a: Alloc, ps: seq<Reg>): Alloc
    decreases |ps|
  {
    if ps == [] then a else RetireDests(RetireDest(a, ps[0]), ps[1..])
  }

  /** How many of `regs` have no mapping yet: what the scheduler's guard counts. */
  function Unallocated(a: Alloc, regs: seq<Reg>): nat {
    CountIf(regs, r => !IsAllocated(a, r))
  }

  lemma {:induction false} UnallocatedShrinks(a: Alloc, b: Alloc, regs: seq<Reg>)
    requires forall r: Reg :: IsAllocated(a, r) ==> IsAllocated(b, r)
    ensures Unallocated(b, regs) <= Unallocated(a, regs)
  {
    if regs != [] { UnallocatedShrinks(a, b, regs[1..]); }
  }

  /** The source loop of do_scheduling. */
  function RenameSources(a: Alloc, regs: seq<Reg>): (res: (Alloc, seq<Reg>))
    requires Unallocated(a, regs) <= |a.free|
    ensures |res.1| == |regs|
    ensures |res.0.free| >= |a.free| - Unallocated(a, regs)
    decreases |regs|
  {
    if regs == [] then (a, [])
    else
      var (b, p) := RenameSrc(a, regs[0]);
      UnallocatedShrinks(a, b, regs[1..]);
      var (c, ps) := RenameSources(b, regs[1..]);
      (c, [p] + ps)
  }

  /** The destination loop of do_scheduling. */
  function RenameDests(a: Alloc, regs: seq<Reg>, producer: nat): (res: (Alloc, seq<Reg>))
    requires |regs| <= |a.free|
    ensures |res.1| == |regs|
    decreases |regs|
  {
    if regs == [] then (a, [])
    else
      var (b, p) := RenameDest(a, regs[0], producer);
      var (c, ps) := RenameDests(b, regs[1..], producer);
      (c, [p] + ps)
  }

  function CompleteDests(a: Alloc, ps: seq<Reg>): Alloc
    decreases |ps|
  {
    if ps == [] then a else CompleteDests(CompleteDest(a, ps[0]), ps[1..])
  }
}
