/** The register allocator as the object the core updates in place
    (src/register_allocator.cc). Each method is proved to take one step of
    RegisterAllocation, whose whole-run properties Renaming and CoreRuns prove. */
module Allocators {
  import opened Sequences
  import opened Instructions
  import opened RegisterAllocation

  class RegisterAllocator {
    const frontendRat: array<Mapping>
    const backendRat: array<Mapping>
    const physicalRegisterFile: array<PhysReg>
    var freeRegisters: seq<Reg>

    ghost predicate Valid()
    {
      && frontendRat.Length == 256 && backendRat.Length == 256 && physicalRegisterFile.Length <= 256
      && frontendRat != backendRat
    }

    ghost function Repr(): set<object> { {this, frontendRat, backendRat, physicalRegisterFile} }

    ghost function State(): Alloc
      requires Valid()
      reads Repr()
    {
      AllocState(frontendRat[..], backendRat[..], freeRegisters, physicalRegisterFile[..])
    }

    constructor (size: nat)
      requires size <= 256
      ensures Valid() && State() == Initial(size)
      ensures fresh(Repr())
    {
      frontendRat := new Mapping[256](_ => -1);
      backendRat := new Mapping[256](_ => -1);
      physicalRegisterFile := new PhysReg[size](_ => PhysReg(0, 0, false, false));
      new;
      freeRegisters := [];
      for i := 0 to size
        invariant freeRegisters == seq(i, k requires 0 <= k < i => k as Reg)
        invariant forall k :: 0 <= k < 256 ==> frontendRat[k] == -1 && backendRat[k] == -1
        invariant forall k :: 0 <= k < size ==> physicalRegisterFile[k] == PhysReg(0, 0, false, false)
      {
        freeRegisters := freeRegisters + [i as Reg];
      }
      assert frontendRat[..] == Initial(size).frontend;
      assert backendRat[..] == Initial(size).backend;
      assert physicalRegisterFile[..] == Initial(size).file;
    }

    method RenameDestRegister(r: Reg, producer: nat) returns (p: Reg)
      requires Valid() && freeRegisters != []
      modifies Repr()
      ensures (State(), p) == RenameDest(old(State()), r, producer)
    {
      p := freeRegisters[0];
      freeRegisters := freeRegisters[1..];
      frontendRat[r] := p;
      SetFile(p, PhysReg(r, producer, false, true));
    }

    method RenameSrcRegister(r: Reg) returns (p: Reg)
      requires Valid() && (IsAllocated(State(), r) || freeRegisters != [])
      modifies Repr()
      ensures (State(), p) == RenameSrc(old(State()), r)
    {
      var mapped := frontendRat[r];
      if mapped < 0 {
        p := freeRegisters[0];
        freeRegisters := freeRegisters[1..];
        frontendRat[r] := p;
        backendRat[r] := p;
        SetFile(p, PhysReg(r, 0, true, true));
      } else {
        p := mapped;
      }
    }

    method CompleteDestRegister(p: Reg)
      requires Valid()
      modifies physicalRegisterFile
      ensures State() == CompleteDest(old(State()), p)
    {
      if p < physicalRegisterFile.Length {
        physicalRegisterFile[p] := physicalRegisterFile[p].(valid := true);
      }
    }

    method RetireDestRegister(p: Reg)
      requires Valid()
      modifies Repr()
      ensures State() == RetireDest(old(State()), p)
    {
      if p < physicalRegisterFile.Length {
        var arch := physicalRegisterFile[p].arch;
        var previous := backendRat[arch];
        backendRat[arch] := p;
        if previous != -1 {
          FreePhysical(previous);
        }
      }
    }

    method FreePhysical(p: Reg)
      requires Valid()
      modifies this`freeRegisters, physicalRegisterFile
      ensures State() == FreeRegister(old(State()), p)
    {
      SetFile(p, PhysReg(255, 0, false, false));
      freeRegisters := freeRegisters + [p];
    }

    method SetFile(p: Reg, v: PhysReg)
      requires Valid()
      modifies physicalRegisterFile
      ensures physicalRegisterFile[..] == Put(old(physicalRegisterFile[..]), p, v)
    {
      if p < physicalRegisterFile.Length {
        physicalRegisterFile[p] := v;
      }
    }

    /** std::count_if over an instruction's sources with !isAllocated. */
    method CountUnallocated(regs: seq<Reg>) returns (n: nat)
      requires Valid()
      ensures n == Unallocated(State(), regs)
    {
      n := 0;
      for i := 0 to |regs|
        invariant n + Unallocated(State(), regs[i..]) == Unallocated(State(), regs)
      {
        assert regs[i..][1..] == regs[i + 1..];
        if frontendRat[regs[i]] == -1 {
          n := n + 1;
        }
      }
    }

    /** std::all_of over an instruction's sources with isValid. */
    method AllValid(regs: seq<Reg>) returns (all: bool)
      requires Valid()
      ensures all <==> forall k :: 0 <= k < |regs| ==> IsValid(State(), regs[k])
    {
      for i := 0 to |regs|
        invariant forall k :: 0 <= k < i ==> IsValid(State(), regs[k])
      {
        if regs[i] >= physicalRegisterFile.Length || !physicalRegisterFile[regs[i]].valid {
          return false;
        }
      }
      return true;
    }
  }
}
