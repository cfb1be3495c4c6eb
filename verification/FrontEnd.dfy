/** The in-order front end (src/ooo_cpu.cc: initialize_instruction, check_dib,
    promote_to_decode, decode_instruction). */
module FrontEnd {
  import opened Sequences
  import opened Instructions

  // ---- initialize_instruction ----

  const REG_STACK_POINTER: Reg := 6
  const REG_FLAGS: Reg := 25
  const REG_INSTRUCTION_POINTER: Reg := 26

  function Without(regs: seq<Reg>, r: Reg): (s: seq<Reg>)
    ensures forall x :: x in s <==> x in regs && x != r
  {
    if regs == [] then [] else (if regs[0] == r then [] else [regs[0]]) + Without(regs[1..], r)
  }

  predicate ReadsOther(regs: seq<Reg>) {
    exists i :: 0 <= i < |regs| && regs[i] != REG_STACK_POINTER && regs[i] != REG_FLAGS
      && regs[i] != REG_INSTRUCTION_POINTER
  }

  /** do_stack_pointer_folding. */
  function FoldStackPointer(x: Instr): Instr {
    if REG_STACK_POINTER in x.dst && (x.front.isBranch || x.MemOps() > 0 || !ReadsOther(x.src))
    then x.(dst := Without(x.dst, REG_STACK_POINTER))
    else x
  }

  /** do_init_instruction without prediction, and the ready time the caller sets. The
      names the instruction has now are what renaming will start from. */
  function InitInstr(x: Instr, now: int, warmup: bool): Instr {
    var y := FoldStackPointer(if warmup then x.(src := [], dst := []) else x);
    y.(archSrc := y.src, archDst := y.dst, ready := now)
  }

  function Repeat(b: bool, n: nat): (s: seq<bool>)
    ensures |s| == n && forall i :: 0 <= i < n ==> s[i] == b
  {
    seq(n, _ => b)
  }

  /** `stops(k)` says whether the k-th instruction read this cycle ends the fetch:
      the branch predictor's decision. */
  function InitFrom(input: seq<Instr>, ifetch: seq<Instr>, bw: nat, stops: nat -> bool, k: nat, now: int,
      warmup: bool): (res: (seq<Instr>, seq<Instr>))
    ensures |res.0| <= |input|
    decreases |input|
  {
    if input == [] || bw == 0 then (input, ifetch)
    else
      var rest := (input[1..], ifetch + [InitInstr(input[0], now, warmup)]);
      if stops(k) then rest else InitFrom(rest.0, rest.1, bw - 1, stops, k + 1, now, warmup)
  }

  // ---- check_dib, fetch_instruction, the instruction side of handle_memory_return ----

  /** `hits(i)` says whether entry `i` hits in the decoded instruction buffer. */
  function CheckDib(ifetch: seq<Instr>, width: nat, hits: nat -> bool, now: int): (r: seq<Instr>)
    ensures |r| == |ifetch|
  {
    var b := SpanLen(ifetch, |ifetch|, (x: Instr) => x.front.dibChecked);
    seq(|ifetch|, i requires 0 <= i < |ifetch| =>
      if b <= i < b + width then
        if hits(i) then ifetch[i].(front := ifetch[i].front.(dibChecked := true, fetchCompleted := true,
          decoded := true), ready := now)
        else ifetch[i].(front := ifetch[i].front.(dibChecked := true))
      else ifetch[i])
  }

  /** `issued(i)` says whether the L1I takes a fetch that covers entry `i`. A fetch starts at an
      entry that the decoded instruction buffer has been checked for, and covers all that
      follow in the same block, checked or not. */
  function FetchIssue(ifetch: seq<Instr>, issued: nat -> bool): (r: seq<Instr>)
    ensures |r| == |ifetch|
  {
    seq(|ifetch|, i requires 0 <= i < |ifetch| =>
      if issued(i) then ifetch[i].(front := ifetch[i].front.(fetchIssued := true)) else ifetch[i])
  }

  /** `returned(i)` says whether a returned block covers an issued entry. */
  function FetchReturn(ifetch: seq<Instr>, returned: nat -> bool): (r: seq<Instr>)
    ensures |r| == |ifetch|
  {
    seq(|ifetch|, i requires 0 <= i < |ifetch| =>
      if ifetch[i].front.fetchIssued && returned(i) then ifetch[i].(front := ifetch[i].front.(fetchCompleted := true))
        else ifetch[i])
  }

  // ---- promote_to_decode ----

  function Filter(s: seq<Instr>, decoded: bool): (r: seq<Instr>)
    ensures |r| <= |s|
    ensures forall x :: x in r ==> x in s && x.front.decoded == decoded
  {
    if s == [] then [] else (if s[0].front.decoded == decoded then [s[0]] else []) + Filter(s[1..], decoded)
  }

  function ReadyAt(s: seq<Instr>, at: int): (r: seq<Instr>)
    ensures |r| == |s|
    ensures forall i :: 0 <= i < |s| ==> r[i] == s[i].(ready := at)
  {
    seq(|s|, i requires 0 <= i < |s| => s[i].(ready := at))
  }

  /** How many entries leave the fetch buffer. */
  function PromoteLen(ifetch: seq<Instr>, bw: nat, now: int): (n: nat)
    ensures n <= |ifetch| && n <= bw
    ensures forall i :: 0 <= i < n ==> ifetch[i].front.fetchCompleted && ifetch[i].ready <= now
  {
    var e := SpanLen(ifetch, |ifetch|, (x: Instr) => x.front.fetchCompleted);
    SpanLen(ifetch[..e], bw, (x: Instr) => x.front.fetchCompleted && x.ready <= now)
  }

  // ---- decode_instruction ----

  datatype Cursor = Cursor(dib: nat, dec: nat, inorder: nat, decode: nat)

  predicate InRange(dib: seq<Instr>, dec: seq<Instr>, c: Cursor) {
    c.dib <= |dib| && c.dec <= |dec|
  }

  /** The loop that compares the heads of both buffers. */
  function BothLoop(dib: seq<Instr>, dec: seq<Instr>, c: Cursor, now: int): (d: Cursor)
    requires InRange(dib, dec, c)
    ensures InRange(dib, dec, d) && d.dib + d.dec + d.inorder == c.dib + c.dec + c.inorder
    decreases c.inorder
  {
    if c.dib < |dib| && c.dec < |dec| && c.inorder > 0 && c.decode > 0
       && (if dec[c.dec].id < dib[c.dib].id then dec[c.dec] else dib[c.dib]).ready <= now
    then
      if dib[c.dib].id < dec[c.dec].id
      then BothLoop(dib, dec, c.(dib := c.dib + 1, inorder := c.inorder - 1), now)
      else BothLoop(dib, dec, c.(dec := c.dec + 1, inorder := c.inorder - 1, decode := c.decode - 1), now)
    else c
  }

  function DibLoop(dib: seq<Instr>, dec: seq<Instr>, c: Cursor, now: int): (d: Cursor)
    requires InRange(dib, dec, c)
    ensures InRange(dib, dec, d) && d.dib + d.dec + d.inorder == c.dib + c.dec + c.inorder
    decreases c.inorder
  {
    if c.dib < |dib| && c.inorder > 0 && dib[c.dib].ready <= now && (c.dec == |dec| || dib[c.dib].id < dec[c.dec].id)
    then DibLoop(dib, dec, c.(dib := c.dib + 1, inorder := c.inorder - 1), now)
    else c
  }

  function DecodeLoop(dib: seq<Instr>, dec: seq<Instr>, c: Cursor, now: int): (d: Cursor)
    requires InRange(dib, dec, c)
    ensures InRange(dib, dec, d) && d.dib + d.dec + d.inorder == c.dib + c.dec + c.inorder
    decreases c.inorder
  {
    if c.dec < |dec| && c.inorder > 0 && c.decode > 0 && dec[c.dec].ready <= now
      && (c.dib == |dib| || dec[c.dec].id < dib[c.dib].id)
    then DecodeLoop(dib, dec, c.(dec := c.dec + 1, inorder := c.inorder - 1, decode := c.decode - 1), now)
    else c
  }

  function DecodeSpan(dib: seq<Instr>, dec: seq<Instr>, inorder: nat, decode: nat, now: int): (c: Cursor)
    ensures InRange(dib, dec, c) && c.dib + c.dec <= inorder
  {
    DecodeLoop(dib, dec, DibLoop(dib, dec, BothLoop(dib, dec, Cursor(0, 0, inorder, decode), now), now), now)
  }

  /** std::merge by program order. */
  function MergeById(s: seq<Instr>, t: seq<Instr>): (r: seq<Instr>)
    ensures |r| == |s| + |t|
    decreases |s| + |t|
  {
    if s == [] then t else if t == [] then s
    else if t[0].id < s[0].id then [t[0]] + MergeById(s, t[1..]) else [s[0]] + MergeById(s[1..], t)
  }
}
