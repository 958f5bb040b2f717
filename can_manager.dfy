/** The message shape of the CAN manager and its arbitration id: the axis id
    in the upper bits and the command code in the low five bits
    (`(axis_id as u16) << 5 | command as u16`). The manager's channels,
    socket and message matching are outside this model. */
module CanManager {
  import opened Bytes
  import opened LittleEndian
  import State

  /** `a | b` on naturals, bit by bit from the least significant. */
  function BitOr(a: nat, b: nat): (r: nat)
    decreases a + b
  {
    if a == 0 then b
    else if b == 0 then a
    else 2 * BitOr(a / 2, b / 2) + (if a % 2 == 1 || b % 2 == 1 then 1 else 0)
  }

  /** `2^k`, the bit-level counterpart of `Pow256` (see `Pow256IsPow2`). */
  function Pow2(k: nat): (r: nat)
    ensures r >= 1
  {
    if k == 0 then 1 else 2 * Pow2(k - 1)
  }

  lemma {:induction false} Pow2Add(a: nat, b: nat)
    ensures Pow2(a + b) == Pow2(a) * Pow2(b)
  {
    if a > 0 {
      Pow2Add(a - 1, b);
    }
  }

  /** A byte is eight bits: `256^n == 2^(8n)`. */
  lemma {:induction false} Pow256IsPow2(n: nat)
    ensures Pow256(n) == Pow2(8 * n)
  {
    if n > 0 {
      Pow256IsPow2(n - 1);
      Pow2Add(8, 8 * (n - 1));
      Pow2Values();
    }
  }

  /** `|` keeps values below `2^k` below `2^k`. */
  lemma {:induction false} BitOrBound(a: nat, b: nat, k: nat)
    requires a < Pow2(k) && b < Pow2(k)
    ensures BitOr(a, b) < Pow2(k)
    decreases a + b
  {
    if a != 0 && b != 0 {
      BitOrBound(a / 2, b / 2, k - 1);
    }
  }

  /** A value below `2^k` or-ed into a multiple of `2^k` is added to it: the
      two share no bit. */
  lemma {:induction false} BitOrDisjoint(x: nat, c: nat, k: nat)
    requires c < Pow2(k)
    ensures BitOr(x * Pow2(k), c) == x * Pow2(k) + c
  {
    if k > 0 && x != 0 && c != 0 {
      var a := x * Pow2(k);
      assert a == 2 * (x * Pow2(k - 1));
      assert a / 2 == x * Pow2(k - 1) && a % 2 == 0;
      BitOrDisjoint(x, c / 2, k - 1);
    }
  }

  /** `x << 5` on a `u16`: the bits shifted past bit 15 are lost. */
  function Shl5(x: U16): (r: U16)
  {
    (x * 32) % 0x1_0000
  }

  /** `ODriveMessage`: the command is kept as its `u16` discriminant. */
  datatype ODriveMessage = ODriveMessage(axisId: nat, command: U16, data: Bytes8)
  {
    /** `can_id`: `axis_id as u16` keeps the low 16 bits of the id, the shift
        drops the top five of those, and the command is or-ed in. For a
        five-bit command the id is the axis, modulo 2^11, times 32 plus the
        command: the two fields do not overlap. */
    function CanId(): (r: U16)
      ensures command < 32 ==> r == (axisId % 2048) * 32 + command
    {
      Pow2Values();
      BitOrBound(Shl5(axisId % 0x1_0000), command, 16);
      ShiftedAxis(axisId);
      if command < 32 then
        BitOrDisjoint(axisId % 2048, command, 5);
        BitOr(Shl5(axisId % 0x1_0000), command)
      else
        BitOr(Shl5(axisId % 0x1_0000), command)
    }
  }

  /** The manager's `ODriveError`: a send can only fail. */
  datatype ODriveError = FailedToSend

  /** The manager's `ODriveResponse`: the eight payload bytes, or a failure. */
  datatype ODriveResponse = Ok(data: Bytes8) | Err(error: ODriveError)

  lemma ModOfMod(x: nat)
    ensures x % 0x1_0000 % 2048 == x % 2048
  {
    var q := x / 0x1_0000;
    var a := x % 0x1_0000;
    assert x == 0x1_0000 * q + a;
    var h := a / 2048;
    var l := a % 2048;
    assert a == 2048 * h + l;
    assert x == 2048 * (32 * q + h) + l;
  }

  lemma ShiftKeepsLowBits(a: U16)
    ensures Shl5(a) == (a % 2048) * 32
  {
    var h := a / 2048;
    var l := a % 2048;
    assert a == 2048 * h + l;
    assert a * 32 == 0x1_0000 * h + 32 * l;
  }

  /** `(x as u16) << 5` keeps `x mod 2^11`, moved up five bits. */
  lemma ShiftedAxis(x: nat)
    ensures Shl5(x % 0x1_0000) == (x % 2048) * 32
  {
    ShiftKeepsLowBits(x % 0x1_0000);
    ModOfMod(x);
  }

  lemma Pow2Values()
    ensures Pow2(5) == 32 && Pow2(8) == 256 && Pow2(16) == 0x1_0000
  {
    assert Pow2(4) == 16;
    assert Pow2(8) == 256 by { assert Pow2(6) == 64; }
    assert Pow2(12) == 4096 by { assert Pow2(10) == 1024; }
    assert Pow2(16) == 0x1_0000 by { assert Pow2(14) == 16384; }
  }

  /** The low five bits of the id are the command. */
  lemma CommandInLowBits(m: ODriveMessage)
    requires m.command < 32
    ensures m.CanId() % 32 == m.command
  {
    var h := m.axisId % 2048;
    assert m.CanId() == 32 * h + m.command;
  }

  /** Shifting the id right by five gives back the axis when it is below 2^11. */
  lemma AxisInHighBits(m: ODriveMessage)
    requires m.command < 32 && m.axisId < 2048
    ensures m.CanId() / 32 == m.axisId
  {
    assert m.CanId() == 32 * m.axisId + m.command;
  }

  /** Axes below 2^11 and five-bit commands give pairwise distinct ids. */
  lemma CanIdInjective(m1: ODriveMessage, m2: ODriveMessage)
    requires m1.command < 32 && m2.command < 32
    requires m1.axisId < 2048 && m2.axisId < 2048
    requires m1.CanId() == m2.CanId()
    ensures m1.axisId == m2.axisId && m1.command == m2.command
  {
    CommandInLowBits(m1);
    CommandInLowBits(m2);
    AxisInHighBits(m1);
    AxisInHighBits(m2);
  }

  lemma ModAxis(x: nat)
    ensures (x + 2048) % 2048 == x % 2048 && (x % 2048) % 2048 == x % 2048
  {
    var h, l := x / 2048, x % 2048;
    assert x == 2048 * h + l;
    assert x + 2048 == 2048 * (h + 1) + l;
  }

  /** Axis bits above bit 10 are lost: axes that agree modulo 2^11 collide. */
  lemma CanIdTruncates(m: ODriveMessage)
    requires m.command < 32
    ensures m.CanId() == m.(axisId := m.axisId % 2048).CanId()
    ensures m.CanId() == m.(axisId := m.axisId + 2048).CanId()
  {
    ModAxis(m.axisId);
  }

  /** A message whose command is a registry command, its discriminant being
      the registry code. */
  function MessageFor(axis: nat, c: State.ODriveCommand, data: Bytes8): (m: ODriveMessage)
    ensures m.axisId == axis && m.command == State.Code(c) < 32
  {
    State.CodesFitFiveBits(c);
    ODriveMessage(axis, State.Code(c), data)
  }

  /** Two messages to axes below 2^11 share an id only when axis and
      registry command agree. */
  lemma RegistryIdsDistinct(axis1: nat, c1: State.ODriveCommand, axis2: nat, c2: State.ODriveCommand, data: Bytes8)
    requires axis1 < 2048 && axis2 < 2048
    requires (axis1, c1) != (axis2, c2)
    ensures MessageFor(axis1, c1, data).CanId() != MessageFor(axis2, c2, data).CanId()
  {
    var m1 := MessageFor(axis1, c1, data);
    var m2 := MessageFor(axis2, c2, data);
    if m1.CanId() == m2.CanId() {
      CanIdInjective(m1, m2);
      State.CodeInjective(c1, c2);
    }
  }
}
