/** Where the register fields are: every field put at its place in EXECCTRL, SHIFTCTRL or PINCTRL,
with anything around it, reads back as itself. */
module Fields {
  import opened Values
  import opened Encoding
  import opened Instructions

  lemma FieldAt(n: nat, unit: nat, size: nat, low: nat, f: nat, high: nat)
    requires unit > 0 && size > 0 && low < unit && f < size && n == low + unit * (f + size * high)
    ensures (n / unit) % size == f
  {
    QuotientIs(n, unit, f + size * high, low);
    RemainderIs(f, size, high);
  }

  lemma RemainderIs(f: nat, size: nat, high: nat)
    requires size > 0 && f < size
    ensures (f + size * high) % size == f
  {
    var n := f + size * high;
    QuotientIs(n, size, high, f);
    assert n == size * (n / size) + n % size;
  }

  /** EXECCTRL: STATUS_N, STATUS_SEL, WRAP_BOTTOM, WRAP_TOP and JMP_PIN. */
  lemma ExecCtrlFields(r: Regs, n: Five, sel: nat, bottom: Five, top: Five, between: nat, pin: Five, rest: nat)
    requires sel < 4 && between < 128
    requires r.execctrl == n + 32 * sel + 128 * bottom + 4096 * top + 0x2_0000 * between + 0x100_0000 * pin
                           + 0x2000_0000 * rest
    ensures r.StatusN() == n && r.StatusSel() == sel && r.WrapBottom() == bottom && r.WrapTop() == top
    ensures r.JmpPin() == pin
  {
    var e := r.execctrl;
    FieldAt(e, 1, 32, 0, n, sel + 4 * bottom + 128 * top + 4096 * between + 0x8_0000 * pin + 0x100_0000 * rest);
    FieldAt(e, 32, 4, n, sel, bottom + 32 * top + 1024 * between + 0x2_0000 * pin + 0x40_0000 * rest);
    FieldAt(e, 128, 32, n + 32 * sel, bottom, top + 32 * between + 4096 * pin + 0x2_0000 * rest);
    FieldAt(e, 4096, 32, n + 32 * sel + 128 * bottom, top, between + 128 * pin + 4096 * rest);
    FieldAt(e, 0x100_0000, 32, n + 32 * sel + 128 * bottom + 4096 * top + 0x2_0000 * between, pin, rest);
  }

  /** SHIFTCTRL: IN_COUNT, autopush and autopull, the shift directions and the thresholds, where a
  threshold of 0 means 32. */
  lemma ShiftCtrlFields(r: Regs, count: Five, between: nat, push: bool, pull: bool, right: bool, outRight: bool,
                        pushAt: Five, pullAt: Five, rest: nat)
    requires between < 2048
    requires r.shiftctrl == count + 32 * between + 0x1_0000 * Number(push) + 0x2_0000 * Number(pull)
                            + 0x4_0000 * Number(right) + 0x8_0000 * Number(outRight) + 0x10_0000 * pushAt
                            + 0x200_0000 * pullAt + 0x4000_0000 * rest
    ensures r.InCount() == count && r.AutoPush() == push && r.AutoPull() == pull
    ensures r.InRight() == right && r.OutRight() == outRight
    ensures r.PushThreshold() == (if pushAt == 0 then 32 else pushAt)
    ensures r.PullThreshold() == (if pullAt == 0 then 32 else pullAt)
  {
    var s, a, b, c, d := r.shiftctrl, Number(push), Number(pull), Number(right), Number(outRight);
    var top := pushAt + 32 * pullAt + 1024 * rest;
    FieldAt(s, 1, 32, 0, count, between + 2048 * a + 4096 * b + 8192 * c + 16384 * d + 32768 * top);
    var low := count + 32 * between;
    FieldAt(s, 0x1_0000, 2, low, a, b + 2 * c + 4 * d + 8 * top);
    FieldAt(s, 0x2_0000, 2, low + 0x1_0000 * a, b, c + 2 * d + 4 * top);
    FieldAt(s, 0x4_0000, 2, low + 0x1_0000 * a + 0x2_0000 * b, c, d + 2 * top);
    FieldAt(s, 0x8_0000, 2, low + 0x1_0000 * a + 0x2_0000 * b + 0x4_0000 * c, d, top);
    var all := low + 0x1_0000 * a + 0x2_0000 * b + 0x4_0000 * c + 0x8_0000 * d;
    FieldAt(s, 0x10_0000, 32, all, pushAt, pullAt + 32 * rest);
    FieldAt(s, 0x200_0000, 32, all + 0x10_0000 * pushAt, pullAt, rest);
  }

  /** PINCTRL: OUT_BASE, SET_BASE, IN_BASE, and the counts as far as the emulator reads them. */
  lemma PinCtrlFields(r: Regs, outBase: Five, setBase: Five, side: Five, inBase: Five, outCount: Five, bit: bool,
                      setCount: Five, rest: nat)
    requires r.pinctrl == outBase + 32 * setBase + 1024 * side + 0x8000 * inBase + 0x10_0000 * outCount
                          + 0x200_0000 * Number(bit) + 0x400_0000 * setCount + 0x8000_0000 * rest
    ensures r.OutBase() == outBase && r.SetBase() == setBase && r.InBase() == inBase
    ensures r.OutCount() == outCount && r.SetCount() == setCount
  {
    var p, b := r.pinctrl, Number(bit);
    var top := b + 2 * setCount + 64 * rest;
    FieldAt(p, 1, 32, 0, outBase, setBase + 32 * side + 1024 * inBase + 32768 * outCount + 0x10_0000 * top);
    FieldAt(p, 32, 32, outBase, setBase, side + 32 * inBase + 1024 * outCount + 32768 * top);
    var low := outBase + 32 * setBase + 1024 * side;
    FieldAt(p, 0x8000, 32, low, inBase, outCount + 32 * top);
    FieldAt(p, 0x10_0000, 32, low + 0x8000 * inBase, outCount, top);
    FieldAt(p, 0x400_0000, 32, low + 0x8000 * inBase + 0x10_0000 * outCount + 0x200_0000 * b, setCount, rest);
  }
}
