/** The built-in XDP redirect program: its 25 instructions as bytes, a machine that
    decodes and runs eBPF bytes over one received frame, and what the program does to
    every frame. */
module XdpProgram {
  import opened Octets

  // ------------------------------------------------------------- instructions

  type i16 = v: int | -0x8000 <= v < 0x8000
  type i32 = v: int | -0x8000_0000 <= v < 0x8000_0000
  type nibble = v: int | 0 <= v < 16

  datatype Insn = Insn(code: octet, dst: nibble, src: nibble, off: i16, imm: i32)

  const LDX_W: octet := 0x61
  const LDX_H: octet := 0x69
  const LDX_B: octet := 0x71
  const LD_DW_IMM: octet := 0x18
  const MOV64_K: octet := 0xb7
  const MOV64_X: octet := 0xbf
  const ADD64_K: octet := 0x07
  const JA: octet := 0x05
  const JEQ_K: octet := 0x15
  const JGT_X: octet := 0x2d
  const JNE_K: octet := 0x55
  const CALL: octet := 0x85
  const EXIT: octet := 0x95

  const PSEUDO_MAP_FD: nibble := 1
  const MD_DATA: i16 := 0
  const MD_DATA_END: i16 := 4
  const MD_RX_QUEUE_INDEX: i16 := 16
  const FN_REDIRECT_MAP: i32 := 51
  const XDP_PASS: i32 := 2
  const XDP_REDIRECT: nat := 4

  const ETH_TYPE: i16 := 12
  const IP_PROTO: i16 := 23
  const VLAN_TAG: i16 := 4
  const HEADERS: i32 := 42
  // network-order 0x0800 and 0x8100 as a little-endian halfword load reads them
  const ETH_P_IP: i32 := 0x0008
  const ETH_P_8021Q: i32 := 0x0081
  const IPPROTO_UDP: i32 := 17

  const UNTAGGED_PROTO := 15
  const UDP_CHECK := 16
  const PASS := 23

  /** The low `width` octets of `v`, least significant first. */
  function ToLittleEndian(v: nat, width: nat): (s: Octets)
    ensures |s| == width
  {
    if width == 0 then [] else [v % 256] + ToLittleEndian(v / 256, width - 1)
  }

  /** The eight bytes of `struct bpf_insn`: `dst` in the low nibble, `off` and `imm` in
      two's complement, least significant byte first. */
  function Bytes(i: Insn): (b: Octets)
    ensures |b| == 8
  {
    [i.code, i.src * 16 + i.dst] + ToLittleEndian(i.off % 0x1_0000, 2) + ToLittleEndian(i.imm % 0x1_0000_0000, 4)
  }

  function Jump(at: i16, target: i16): i16
    requires 0 <= at && 0 <= target
  {
    target - at - 1
  }

  function Program(fd: i32): (p: seq<Insn>)
    ensures |p| == 25
  {
    [ // 0: frame start and end, untagged headers fit
      Insn(LDX_W, 2, 1, MD_DATA, 0),
      Insn(LDX_W, 3, 1, MD_DATA_END, 0),
      Insn(MOV64_X, 4, 2, 0, 0),
      Insn(ADD64_K, 4, 0, 0, HEADERS),
      Insn(JGT_X, 4, 3, Jump(4, PASS), 0),
      // 5: ethertype
      Insn(LDX_H, 4, 2, ETH_TYPE, 0),
      Insn(JEQ_K, 4, 0, Jump(6, UNTAGGED_PROTO), ETH_P_IP),
      Insn(JNE_K, 4, 0, Jump(7, PASS), ETH_P_8021Q),
      // 8: tagged headers fit, inner ethertype, protocol
      Insn(MOV64_X, 4, 2, 0, 0),
      Insn(ADD64_K, 4, 0, 0, HEADERS + VLAN_TAG),
      Insn(JGT_X, 4, 3, Jump(10, PASS), 0),
      Insn(LDX_H, 4, 2, ETH_TYPE + VLAN_TAG, 0),
      Insn(JNE_K, 4, 0, Jump(12, PASS), ETH_P_IP),
      Insn(LDX_B, 4, 2, IP_PROTO + VLAN_TAG, 0),
      Insn(JA, 0, 0, Jump(14, UDP_CHECK), 0),
      // 15: untagged protocol
      Insn(LDX_B, 4, 2, IP_PROTO, 0),
      // 16: UDP goes to the socket map
      Insn(JNE_K, 4, 0, Jump(16, PASS), IPPROTO_UDP),
      Insn(LDX_W, 2, 1, MD_RX_QUEUE_INDEX, 0),
      Insn(LD_DW_IMM, 1, PSEUDO_MAP_FD, 0, fd),
      Insn(0, 0, 0, 0, 0),
      Insn(MOV64_K, 3, 0, 0, XDP_PASS),
      Insn(CALL, 0, 0, 0, FN_REDIRECT_MAP),
      Insn(EXIT, 0, 0, 0, 0),
      // 23: everything else to the kernel stack
      Insn(MOV64_K, 0, 0, 0, XDP_PASS),
      Insn(EXIT, 0, 0, 0, 0)
    ]
  }

  /** What is loaded into the kernel. */
  function Instructions(fd: i32): (bytes: seq<Octets>)
    ensures |bytes| == 25 && forall k :: 0 <= k < 25 ==> |bytes[k]| == 8
  {
    seq(25, k requires 0 <= k < 25 => Bytes(Program(fd)[k]))
  }

  // ------------------------------------------------------------------ machine

  /** A register as the kernel's verifier sees it: pointers keep what they point into. */
  datatype Reg = Unset | Number(n: nat) | Context | Packet(at: int) | Map(fd: i32)

  /** One received frame, its queue, and the (map, queue) pairs that hold a socket. */
  datatype Env = Env(frame: Octets, queue: nat, sockets: set<(i32, nat)>)

  datatype Machine = Machine(pc: nat, regs: seq<Reg>)

  /** `Fault` is a program the kernel would not run: a load outside context or frame, a
      jump backwards or out of the program, an unset register, an unknown opcode. */
  datatype Outcome = Continue(m: Machine) | Exit(action: nat) | Fault

  function Signed16(v: nat): i16
    requires v < 0x1_0000
  {
    if v < 0x8000 then v else v - 0x1_0000
  }

  function Signed32(v: nat): i32
    requires v < 0x1_0000_0000
  {
    if v < 0x8000_0000 then v else v - 0x1_0000_0000
  }

  function Decode(b: Octets): Insn
    requires |b| == 8
  {
    Insn(b[0], b[1] % 16, b[1] / 16, Signed16(LittleEndian(b[2..4])), Signed32(LittleEndian(b[4..8])))
  }

  function LittleEndian(s: Octets): (v: nat)
    ensures v < Pow256(|s|)
  {
    if s == [] then 0 else s[0] + 256 * LittleEndian(s[1..])
  }

  function Load(env: Env, base: Reg, off: int, size: nat): Option<Reg>
  {
    match base
    case Context =>
      if size != 4 then None
      else if off == MD_DATA then Some(Packet(0))
      else if off == MD_DATA_END then Some(Packet(|env.frame|))
      else if off == MD_RX_QUEUE_INDEX then Some(Number(env.queue))
      else None
    case Packet(at) =>
      if 0 <= at + off && at + off + size <= |env.frame|
      then Some(Number(LittleEndian(env.frame[at + off..at + off + size])))
      else None
    case _ => None
  }

  function Added(r: Reg, imm: i32): Option<Reg>
  {
    match r
    case Number(n) => Some(Number((n + imm) % 0x1_0000_0000_0000_0000))
    case Packet(at) => Some(Packet(at + imm))
    case _ => None
  }

  /** `None` when the registers cannot be compared. */
  function Taken(i: Insn, dst: Reg, src: Reg): Option<bool>
  {
    if i.code == JA then Some(true)
    else if i.code == JEQ_K && dst.Number? then Some(dst.n == i.imm % 0x1_0000_0000_0000_0000)
    else if i.code == JNE_K && dst.Number? then Some(dst.n != i.imm % 0x1_0000_0000_0000_0000)
    else if i.code == JGT_X && dst.Packet? && src.Packet? then Some(dst.at > src.at)
    else if i.code == JGT_X && dst.Number? && src.Number? then Some(dst.n > src.n)
    else None
  }

  /** `bpf_redirect_map`: the queue's socket when the map holds one, else the low bits
      of the flags. Argument registers are lost. */
  function Called(i: Insn, env: Env, m: Machine): Outcome
    requires |m.regs| == 11
  {
    if i.imm == FN_REDIRECT_MAP && m.regs[1].Map? && m.regs[2].Number? && m.regs[3].Number? then
      var action := if (m.regs[1].fd, m.regs[2].n) in env.sockets then XDP_REDIRECT else m.regs[3].n % 4;
      Continue(Machine(m.pc + 1, [Number(action), Unset, Unset, Unset, Unset, Unset] + m.regs[6..]))
    else Fault
  }

  function Write(m: Machine, dst: nat, value: Option<Reg>, pc: nat): Outcome
    requires |m.regs| == 11
  {
    if dst <= 9 && value.Some? then Continue(Machine(pc, m.regs[dst := value.value])) else Fault
  }

  function Step(i: Insn, env: Env, m: Machine): (out: Outcome)
    requires |m.regs| == 11
    ensures out.Continue? ==> |out.m.regs| == 11 && out.m.pc > m.pc
  {
    if i.dst > 10 || i.src > 10 then Fault
    else if i.code == LDX_W then Write(m, i.dst, Load(env, m.regs[i.src], i.off, 4), m.pc + 1)
    else if i.code == LDX_H then Write(m, i.dst, Load(env, m.regs[i.src], i.off, 2), m.pc + 1)
    else if i.code == LDX_B then Write(m, i.dst, Load(env, m.regs[i.src], i.off, 1), m.pc + 1)
    else if i.code == LD_DW_IMM && i.src == PSEUDO_MAP_FD then Write(m, i.dst, Some(Map(i.imm)), m.pc + 2)
    else if i.code == MOV64_K then Write(m, i.dst, Some(Number(i.imm % 0x1_0000_0000_0000_0000)), m.pc + 1)
    else if i.code == MOV64_X then
      Write(m, i.dst, if m.regs[i.src] == Unset then None else Some(m.regs[i.src]), m.pc + 1)
    else if i.code == ADD64_K then Write(m, i.dst, Added(m.regs[i.dst], i.imm), m.pc + 1)
    else if i.code == CALL then Called(i, env, m)
    else if i.code == EXIT then if m.regs[0].Number? then Exit(m.regs[0].n) else Fault
    else match Taken(i, m.regs[i.dst], m.regs[i.src])
      case None => Fault
      case Some(taken) =>
        if !taken then Continue(m.(pc := m.pc + 1))
        else if i.off < 0 then Fault
        else Continue(m.(pc := m.pc + 1 + i.off))
  }

  /** Runs to the exit; every step moves forward, so it always ends. */
  function Run(prog: seq<Octets>, env: Env, m: Machine): (out: Outcome)
    requires |m.regs| == 11 && forall k :: 0 <= k < |prog| ==> |prog[k]| == 8
    ensures !out.Continue?
    decreases |prog| - m.pc
  {
    if m.pc >= |prog| then Fault
    else
      var next := Step(Decode(prog[m.pc]), env, m);
      if next.Continue? then Run(prog, env, next.m) else next
  }

  /** The kernel enters with the context in register 1 and the stack in register 10,
      which this program never uses. */
  const ENTRY := Machine(0, [Unset, Context, Unset, Unset, Unset, Unset, Unset, Unset, Unset, Unset, Unset])

  // --------------------------------------------------------------- properties

  predicate UdpAt(frame: Octets, etherType: nat)
  {
    && etherType + 30 <= |frame|
    && frame[etherType..etherType + 2] == [0x08, 0x00]
    && frame[etherType + 11] == 17
  }

  /** A whole IPv4 and UDP header behind Ethernet, untagged or under one 802.1Q tag. */
  predicate Wanted(frame: Octets)
  {
    || UdpAt(frame, 12)
    || (UdpAt(frame, 16) && frame[12..14] == [0x81, 0x00])
  }

  /** The byte form loses nothing. */
  lemma DecodeOfBytes(i: Insn)
    ensures Decode(Bytes(i)) == i
  {
    var off, imm := ToLittleEndian(i.off % 0x1_0000, 2), ToLittleEndian(i.imm % 0x1_0000_0000, 4);
    Widths();
    LittleEndianOfEncoding(i.off % 0x1_0000, 2);
    LittleEndianOfEncoding(i.imm % 0x1_0000_0000, 4);
    Nibbles(i.dst, i.src);
    hide ToLittleEndian;
    hide LittleEndian;
    assert Bytes(i)[2..4] == off && Bytes(i)[4..8] == imm;
  }

  lemma {:induction false} LittleEndianOfEncoding(v: nat, width: nat)
    requires v < Pow256(width)
    ensures LittleEndian(ToLittleEndian(v, width)) == v
  {
    if width > 0 {
      LittleEndianOfEncoding(v / 256, width - 1);
      assert ToLittleEndian(v, width)[1..] == ToLittleEndian(v / 256, width - 1);
    }
  }

  lemma Nibbles(low: nat, high: nat)
    requires low < 16 && high < 16
    ensures (high * 16 + low) % 16 == low && (high * 16 + low) / 16 == high
  {
  }

  lemma Fetched(fd: i32, k: nat)
    requires k < 25
    ensures Decode(Instructions(fd)[k]) == Program(fd)[k]
  {
    DecodeOfBytes(Program(fd)[k]);
  }

  /** One step of the loaded program. */
  lemma Unrolled(fd: i32, env: Env, m: Machine)
    requires |m.regs| == 11 && m.pc < 25
    ensures var next := Step(Program(fd)[m.pc], env, m);
            Run(Instructions(fd), env, m) == if next.Continue? then Run(Instructions(fd), env, next.m) else next
  {
    hide Decode;
    hide Step;
    hide Program;
    hide Instructions;
    Fetched(fd, m.pc);
  }

  lemma Halfword(frame: Octets, at: nat)
    requires at + 2 <= |frame|
    ensures LittleEndian(frame[at..at + 2]) == Word(frame[at + 1], frame[at])
    ensures frame[at..at + 2] == [frame[at], frame[at + 1]]
  {
    assert frame[at..at + 2][1..] == [frame[at + 1]];
    assert [frame[at + 1]][1..] == [];
    assert LittleEndian([frame[at + 1]]) == frame[at + 1];
  }

  lemma Byte(frame: Octets, at: nat)
    requires at < |frame|
    ensures LittleEndian(frame[at..at + 1]) == frame[at]
  {
    assert frame[at..at + 1] == [frame[at]] && [frame[at]][1..] == [];
  }

  lemma Passes(fd: i32, env: Env, m: Machine)
    requires |m.regs| == 11 && m.pc == PASS
    ensures Run(Instructions(fd), env, m) == Exit(XDP_PASS)
  {
    hide Run;
    hide Instructions;
    Unrolled(fd, env, m);
    Unrolled(fd, env, Machine(24, m.regs[0 := Number(2)]));
  }

  /** From the protocol check on, with the protocol in register 4. */
  lemma Checked(fd: i32, env: Env, m: Machine)
    requires |m.regs| == 11 && m.pc == UDP_CHECK && m.regs[4].Number? && m.regs[1] == Context
    ensures Run(Instructions(fd), env, m) ==
            Exit(if m.regs[4].n == 17 && (fd, env.queue) in env.sockets then XDP_REDIRECT else XDP_PASS)
  {
    hide Run;
    hide Instructions;
    Unrolled(fd, env, m);
    if m.regs[4].n != 17 {
      Passes(fd, env, m.(pc := PASS));
    } else {
      var m1 := m.(pc := 17);
      Unrolled(fd, env, m1);
      var m2 := Machine(18, m1.regs[2 := Number(env.queue)]);
      Unrolled(fd, env, m2);
      var m3 := Machine(20, m2.regs[1 := Map(fd)]);
      Unrolled(fd, env, m3);
      Returned(fd, env, Machine(21, m3.regs[3 := Number(2)]));
    }
  }

  lemma Returned(fd: i32, env: Env, m: Machine)
    requires |m.regs| == 11 && m.pc == 21
    requires m.regs[1] == Map(fd) && m.regs[2] == Number(env.queue) && m.regs[3] == Number(2)
    ensures Run(Instructions(fd), env, m) ==
            Exit(if (fd, env.queue) in env.sockets then XDP_REDIRECT else XDP_PASS)
  {
    hide Run;
    hide Instructions;
    Unrolled(fd, env, m);
    var next := Step(Program(fd)[21], env, m).m;
    Unrolled(fd, env, next);
  }

  /** What register 2 and 3 hold once the frame bounds are loaded. */
  predicate Bounds(env: Env, m: Machine)
  {
    |m.regs| == 11 && m.regs[1] == Context && m.regs[2] == Packet(0) && m.regs[3] == Packet(|env.frame|)
  }

  lemma Untagged(fd: i32, env: Env, m: Machine)
    requires Bounds(env, m) && m.pc == UNTAGGED_PROTO && 42 <= |env.frame|
    ensures Run(Instructions(fd), env, m) ==
            Exit(if env.frame[23] == 17 && (fd, env.queue) in env.sockets then XDP_REDIRECT else XDP_PASS)
  {
    hide Run;
    hide Instructions;
    hide LittleEndian;
    Unrolled(fd, env, m);
    Byte(env.frame, 23);
    Checked(fd, env, Machine(UDP_CHECK, m.regs[4 := Number(env.frame[23])]));
  }

  /** From the tagged bound check on. */
  lemma Tagged(fd: i32, env: Env, m: Machine)
    requires Bounds(env, m) && m.pc == 8 && 42 <= |env.frame|
    ensures Run(Instructions(fd), env, m) ==
            Exit(if UdpAt(env.frame, 16) && (fd, env.queue) in env.sockets then XDP_REDIRECT else XDP_PASS)
  {
    hide Run;
    hide Instructions;
    hide LittleEndian;
    Unrolled(fd, env, m);
    var m1 := Machine(9, m.regs[4 := Packet(0)]);
    Unrolled(fd, env, m1);
    var m2 := Machine(10, m1.regs[4 := Packet(46)]);
    Unrolled(fd, env, m2);
    if 46 > |env.frame| {
      Passes(fd, env, m2.(pc := PASS));
    } else {
      Inner(fd, env, m2.(pc := 11));
    }
  }

  lemma Inner(fd: i32, env: Env, m: Machine)
    requires Bounds(env, m) && m.pc == 11 && 46 <= |env.frame|
    ensures Run(Instructions(fd), env, m) ==
            Exit(if UdpAt(env.frame, 16) && (fd, env.queue) in env.sockets then XDP_REDIRECT else XDP_PASS)
  {
    hide Run;
    hide Instructions;
    hide LittleEndian;
    Unrolled(fd, env, m);
    Halfword(env.frame, 16);
    var m1 := Machine(12, m.regs[4 := Number(Word(env.frame[17], env.frame[16]))]);
    Unrolled(fd, env, m1);
    if Word(env.frame[17], env.frame[16]) != ETH_P_IP {
      Passes(fd, env, m1.(pc := PASS));
    } else {
      Unrolled(fd, env, m1.(pc := 13));
      Byte(env.frame, 27);
      var m2 := Machine(14, m1.regs[4 := Number(env.frame[27])]);
      Unrolled(fd, env, m2);
      Checked(fd, env, m2.(pc := UDP_CHECK));
    }
  }

  lemma WantedByType(frame: Octets)
    requires 42 <= |frame|
    ensures var ty := Word(frame[13], frame[12]);
            Wanted(frame) == (if ty == ETH_P_IP then frame[23] == 17 else ty == ETH_P_8021Q && UdpAt(frame, 16))
  {
    assert frame[12..14] == [frame[12], frame[13]];
  }

  /** From the ethertype load on. */
  lemma Typed(fd: i32, env: Env, m: Machine)
    requires Bounds(env, m) && m.pc == 5 && 42 <= |env.frame|
    ensures Run(Instructions(fd), env, m) ==
            Exit(if Wanted(env.frame) && (fd, env.queue) in env.sockets then XDP_REDIRECT else XDP_PASS)
  {
    hide Run;
    hide Instructions;
    hide LittleEndian;
    hide Wanted;
    hide UdpAt;
    WantedByType(env.frame);
    Unrolled(fd, env, m);
    Halfword(env.frame, 12);
    var ty := Word(env.frame[13], env.frame[12]);
    var m1 := Machine(6, m.regs[4 := Number(ty)]);
    Unrolled(fd, env, m1);
    if ty == ETH_P_IP {
      Untagged(fd, env, Machine(UNTAGGED_PROTO, m1.regs));
    } else {
      NotIp(fd, env, Machine(7, m1.regs), ty);
    }
  }

  /** From the second ethertype test on. */
  lemma NotIp(fd: i32, env: Env, m: Machine, ty: nat)
    requires Bounds(env, m) && m.pc == 7 && 42 <= |env.frame|
    requires m.regs[4] == Number(ty) && ty == Word(env.frame[13], env.frame[12]) != ETH_P_IP
    ensures Run(Instructions(fd), env, m) ==
            Exit(if Wanted(env.frame) && (fd, env.queue) in env.sockets then XDP_REDIRECT else XDP_PASS)
  {
    hide Run;
    hide Instructions;
    hide LittleEndian;
    hide Wanted;
    hide UdpAt;
    WantedByType(env.frame);
    Unrolled(fd, env, m);
    if ty != ETH_P_8021Q {
      Passes(fd, env, Machine(PASS, m.regs));
    } else {
      Tagged(fd, env, Machine(8, m.regs));
    }
  }

  /** From the first bound check on. */
  lemma Bounded(fd: i32, env: Env, m: Machine)
    requires Bounds(env, m) && m.pc == 2
    ensures Run(Instructions(fd), env, m) ==
            Exit(if Wanted(env.frame) && (fd, env.queue) in env.sockets then XDP_REDIRECT else XDP_PASS)
  {
    hide Run;
    hide Instructions;
    hide LittleEndian;
    Unrolled(fd, env, m);
    var m1 := Machine(3, m.regs[4 := Packet(0)]);
    Unrolled(fd, env, m1);
    var m2 := Machine(4, m1.regs[4 := Packet(42)]);
    Unrolled(fd, env, m2);
    if 42 > |env.frame| {
      Passes(fd, env, m2.(pc := PASS));
    } else {
      Typed(fd, env, m2.(pc := 5));
    }
  }

  /** For every frame, queue, map and set of bound sockets the loaded bytes run to an
      exit without a fault (so every load is inside the frame and every jump goes
      forward inside the program), and send the frame to the queue's socket exactly
      when it holds an IPv4 UDP datagram behind at most one 802.1Q tag and the queue
      has a socket; every other frame stays with the kernel. */
  lemma RedirectsExactlyUdp(fd: i32, env: Env)
    ensures Run(Instructions(fd), env, ENTRY) ==
            Exit(if Wanted(env.frame) && (fd, env.queue) in env.sockets then XDP_REDIRECT else XDP_PASS)
  {
    hide Run;
    hide Instructions;
    hide LittleEndian;
    Unrolled(fd, env, ENTRY);
    var m1 := Machine(1, ENTRY.regs[2 := Packet(0)]);
    Unrolled(fd, env, m1);
    Bounded(fd, env, Machine(2, m1.regs[3 := Packet(|env.frame|)]));
  }
}
