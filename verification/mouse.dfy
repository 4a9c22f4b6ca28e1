/** The mouse proxy: it keeps the button mask and the relative motion of one
    input mouse and, on every SYN_REPORT, writes a 7-byte report to its HID
    output. */
module Mouse {
  import opened Bytes
  import opened Wrappers
  import opened InputEvents

  // Linux input event codes of the mouse (linux/input-event-codes.h).
  const BTN_LEFT := 0x110
  const BTN_RIGHT := 0x111
  const BTN_MIDDLE := 0x112
  const BTN_SIDE := 0x113
  const BTN_EXTRA := 0x114
  const REL_X := 0x00
  const REL_Y := 0x01
  const REL_WHEEL := 0x08

  // Byte offsets of the mouse report (MouseIndex); MAX is its length.
  const TIP_SW := 0
  const X_LSB := 1
  const X_MSB := 2
  const Y_LSB := 3
  const Y_MSB := 4
  const WHEEL_LSB := 5
  const WHEEL_MSB := 6
  const MAX := 7

  /** The report `update_state` writes for a button mask and three motion
      values; each motion value is sent as the low/high byte pair of its
      16-bit residue. */
  function EncodeReport(btn: Mask, movex: int, movey: int, scrolly: int): (r: seq<byte>)
    ensures |r| == MAX && r[TIP_SW] == MaskByte(btn)
    ensures Unsigned16(r[X_LSB], r[X_MSB]) == movex % 65536
    ensures Unsigned16(r[Y_LSB], r[Y_MSB]) == movey % 65536
    ensures Unsigned16(r[WHEEL_LSB], r[WHEEL_MSB]) == scrolly % 65536
  {
    LowHighModulo(movex);
    LowHighModulo(movey);
    LowHighModulo(scrolly);
    [MaskByte(btn), LowByte(movex), HighByte(movex), LowByte(movey), HighByte(movey),
     LowByte(scrolly), HighByte(scrolly)]
  }

  /** What a host reads from a mouse report: the button byte and the three
      signed 16-bit little-endian deltas. */
  datatype Decoded = Decoded(buttons: byte, x: int, y: int, wheel: int)

  function DecodeReport(r: seq<byte>): (d: Option<Decoded>)
    ensures d.Some? <==> |r| == MAX
    ensures d.Some? ==> -32768 <= d.value.x <= 32767 && -32768 <= d.value.y <= 32767
                        && -32768 <= d.value.wheel <= 32767
  {
    if |r| != MAX then None
    else Some(Decoded(r[TIP_SW], DecodeInt16LE(r[X_LSB], r[X_MSB]),
                      DecodeInt16LE(r[Y_LSB], r[Y_MSB]), DecodeInt16LE(r[WHEEL_LSB], r[WHEEL_MSB])))
  }

  /** Decoding an encoded report gives back the button byte and each motion
      value truncated to 16 bits; the values themselves when they fit. */
  lemma {:induction false} ReportRoundTrip(btn: Mask, movex: int, movey: int, scrolly: int)
    ensures DecodeReport(EncodeReport(btn, movex, movey, scrolly))
         == Some(Decoded(MaskByte(btn), ToInt16(movex), ToInt16(movey), ToInt16(scrolly)))
    ensures -32768 <= movex <= 32767 && -32768 <= movey <= 32767 && -32768 <= scrolly <= 32767
         ==> DecodeReport(EncodeReport(btn, movex, movey, scrolly)) == Some(Decoded(MaskByte(btn), movex, movey, scrolly))
  {
    Int16RoundTrip(movex);
    Int16RoundTrip(movey);
    Int16RoundTrip(scrolly);
  }

  /** The five button fields of the proxy, each 0 or that button's own bit. */
  datatype Buttons = Buttons(left: Mask, right: Mask, center: Mask, back: Mask, forward: Mask)

  predicate ButtonsValid(b: Buttons) {
    && b.left in {0, 1}
    && b.right in {0, 2}
    && b.center in {0, 4}
    && b.back in {0, 8}
    && b.forward in {0, 16}
  }

  /** `btn`: the OR of the five fields. */
  function ButtonMask(b: Buttons): Mask {
    b.left | b.right | b.center | b.back | b.forward
  }

  /** `handle_key_event` on the button fields: value 1 presses, any other
      value releases, and a code that names no button changes nothing. */
  function KeyEvent(b: Buttons, code: int, value: int): (r: Buttons)
    ensures ButtonsValid(b) ==> ButtonsValid(r)
  {
    var isPress := value == 1;
    if code == BTN_LEFT then b.(left := if isPress then 1 else 0)
    else if code == BTN_RIGHT then b.(right := if isPress then 1 << 1 else 0)
    else if code == BTN_MIDDLE then b.(center := if isPress then 1 << 2 else 0)
    else if code == BTN_SIDE then b.(back := if isPress then 1 << 3 else 0)
    else if code == BTN_EXTRA then b.(forward := if isPress then 1 << 4 else 0)
    else b
  }

  /** The mask of valid fields has exactly the bits of the pressed buttons,
      and none above bit 4. */
  lemma MaskBits(b: Buttons)
    requires ButtonsValid(b)
    ensures ButtonMask(b) <= 31
    ensures BitSet(ButtonMask(b), 0) == (b.left != 0)
    ensures BitSet(ButtonMask(b), 1) == (b.right != 0)
    ensures BitSet(ButtonMask(b), 2) == (b.center != 0)
    ensures BitSet(ButtonMask(b), 3) == (b.back != 0)
    ensures BitSet(ButtonMask(b), 4) == (b.forward != 0)
    ensures !BitSet(ButtonMask(b), 5) && !BitSet(ButtonMask(b), 6) && !BitSet(ButtonMask(b), 7)
  {
  }

  /** A button event sets its button's bit of the mask when `value` is 1 and
      clears it otherwise; every other bit keeps its value. */
  lemma {:induction false} KeyEventBits(b: Buttons, code: int, value: int)
    requires ButtonsValid(b)
    ensures var m, m' := ButtonMask(b), ButtonMask(KeyEvent(b, code, value));
      && m' <= 31
      && BitSet(m', 0) == (if code == BTN_LEFT then value == 1 else BitSet(m, 0))
      && BitSet(m', 1) == (if code == BTN_RIGHT then value == 1 else BitSet(m, 1))
      && BitSet(m', 2) == (if code == BTN_MIDDLE then value == 1 else BitSet(m, 2))
      && BitSet(m', 3) == (if code == BTN_SIDE then value == 1 else BitSet(m, 3))
      && BitSet(m', 4) == (if code == BTN_EXTRA then value == 1 else BitSet(m, 4))
  {
    var r := KeyEvent(b, code, value);
    MaskBits(b);
    MaskBits(r);
    if code == BTN_LEFT {
      assert r.right == b.right && r.center == b.center && r.back == b.back && r.forward == b.forward;
    } else if code == BTN_RIGHT {
      assert r.left == b.left && r.center == b.center && r.back == b.back && r.forward == b.forward;
    } else if code == BTN_MIDDLE {
      assert r.left == b.left && r.right == b.right && r.back == b.back && r.forward == b.forward;
    } else if code == BTN_SIDE {
      assert r.left == b.left && r.right == b.right && r.center == b.center && r.forward == b.forward;
    } else if code == BTN_EXTRA {
      assert r.left == b.left && r.right == b.right && r.center == b.center && r.back == b.back;
    } else {
      assert r == b;
    }
  }

  class MouseProxy {
    const inputDevicePath: string
    const hidOutputPath: string

    // One field per button: 0, or that button's own bit.
    var buttonLeft: Mask
    var buttonRight: Mask
    var buttonCenter: Mask
    var back: Mask
    var forward: Mask
    var movex: int
    var movey: int
    var scrolly: int
    var btn: Mask
    /** Every report written to `hidOutputPath`, oldest first. */
    var reports: seq<seq<byte>>

    function ButtonFields(): Buttons
      reads this
    {
      Buttons(buttonLeft, buttonRight, buttonCenter, back, forward)
    }

    /** Each button field is 0 or its own bit, and `btn` is their OR. */
    predicate Valid()
      reads this
    {
      ButtonsValid(ButtonFields()) && btn == ButtonMask(ButtonFields())
    }

    /** The source's constructor: remembers the paths and resets the state. */
    constructor (inputDevicePath: string, hidOutputPath: string)
      ensures Valid()
      ensures this.inputDevicePath == inputDevicePath && this.hidOutputPath == hidOutputPath
      ensures btn == 0 && movex == 0 && movey == 0 && scrolly == 0 && reports == []
    {
      this.inputDevicePath := inputDevicePath;
      this.hidOutputPath := hidOutputPath;
      buttonLeft, buttonRight, buttonCenter, back, forward := 0, 0, 0, 0, 0;
      movex, movey, scrolly, btn := 0, 0, 0, 0;
      reports := [];
    }

    method ResetState()
      modifies this`buttonLeft, this`buttonRight, this`buttonCenter, this`back, this`forward,
               this`movex, this`movey, this`scrolly, this`btn
      ensures Valid()
      ensures btn == 0 && movex == 0 && movey == 0 && scrolly == 0
    {
      buttonLeft, buttonRight, buttonCenter, back, forward := 0, 0, 0, 0, 0;
      movex, movey, scrolly, btn := 0, 0, 0, 0;
    }

    /** A button event: value 1 presses, any other value releases. */
    method HandleKeyEvent(code: int, value: int)
      requires Valid()
      modifies this`buttonLeft, this`buttonRight, this`buttonCenter, this`back, this`forward, this`btn
      ensures Valid()
      ensures ButtonFields() == KeyEvent(old(ButtonFields()), code, value)
      ensures btn <= 31
      ensures BitSet(btn, 0) == if code == BTN_LEFT then value == 1 else BitSet(old(btn), 0)
      ensures BitSet(btn, 1) == if code == BTN_RIGHT then value == 1 else BitSet(old(btn), 1)
      ensures BitSet(btn, 2) == if code == BTN_MIDDLE then value == 1 else BitSet(old(btn), 2)
      ensures BitSet(btn, 3) == if code == BTN_SIDE then value == 1 else BitSet(old(btn), 3)
      ensures BitSet(btn, 4) == if code == BTN_EXTRA then value == 1 else BitSet(old(btn), 4)
    {
      var next := KeyEvent(ButtonFields(), code, value);
      KeyEventBits(ButtonFields(), code, value);
      buttonLeft, buttonRight, buttonCenter, back, forward := next.left, next.right, next.center, next.back, next.forward;
      btn := ButtonMask(next);
    }

    /** A relative-motion event overwrites the one axis its code names. */
    method HandleRelEvent(code: int, value: int)
      modifies this`movex, this`movey, this`scrolly
      ensures movex == (if code == REL_X then value else old(movex))
      ensures movey == (if code == REL_Y then value else old(movey))
      ensures scrolly == (if code == REL_WHEEL then value else old(scrolly))
    {
      if code == REL_X {
        movex := value;
      } else if code == REL_Y {
        movey := value;
      } else if code == REL_WHEEL {
        scrolly := value;
      }
    }

    /** The HID output file; failures to write are not modelled. */
    method WriteReport(buffer: seq<byte>)
      modifies this`reports
      ensures reports == old(reports) + [buffer]
    {
      reports := reports + [buffer];
    }

    /** SYN_REPORT: write the current state as one report, then zero the motion. */
    method UpdateState()
      modifies this`reports, this`movex, this`movey, this`scrolly
      ensures reports == old(reports) + [EncodeReport(btn, old(movex), old(movey), old(scrolly))]
      ensures movex == 0 && movey == 0 && scrolly == 0
      ensures btn == old(btn)
    {
      var data := new byte[MAX];
      data[TIP_SW] := MaskByte(btn);
      data[X_LSB] := LowByte(movex);
      data[X_MSB] := HighByte(movex);
      data[Y_LSB] := LowByte(movey);
      data[Y_MSB] := HighByte(movey);
      data[WHEEL_LSB] := LowByte(scrolly);
      data[WHEEL_MSB] := HighByte(scrolly);
      assert data[..] == EncodeReport(btn, movex, movey, scrolly);
      WriteReport(data[..]);
      movex, movey, scrolly := 0, 0, 0;
    }

    /** One event of the read loop: (type, code, value). EV_KEY goes to the
        button handler, EV_REL to the motion handler, SYN_REPORT writes the
        report; any other event changes nothing. */
    method HandleEvent(evType: int, code: int, value: int)
      requires Valid()
      modifies this`buttonLeft, this`buttonRight, this`buttonCenter, this`back, this`forward, this`btn,
               this`movex, this`movey, this`scrolly, this`reports
      ensures Valid()
      ensures evType == EV_KEY ==>
                && ButtonFields() == KeyEvent(old(ButtonFields()), code, value)
                && movex == old(movex) && movey == old(movey) && scrolly == old(scrolly)
                && reports == old(reports)
      ensures evType == EV_REL ==>
                && movex == (if code == REL_X then value else old(movex))
                && movey == (if code == REL_Y then value else old(movey))
                && scrolly == (if code == REL_WHEEL then value else old(scrolly))
                && reports == old(reports)
      ensures evType == EV_SYN && code == SYN_REPORT ==>
                && reports == old(reports) + [EncodeReport(old(btn), old(movex), old(movey), old(scrolly))]
                && movex == 0 && movey == 0 && scrolly == 0
      ensures evType != EV_KEY && evType != EV_REL && !(evType == EV_SYN && code == SYN_REPORT) ==>
                && movex == old(movex) && movey == old(movey) && scrolly == old(scrolly)
                && reports == old(reports)
      ensures evType != EV_KEY ==> ButtonFields() == old(ButtonFields()) && btn == old(btn)
    {
      if evType == EV_KEY {
        HandleKeyEvent(code, value);
      } else if evType == EV_REL {
        HandleRelEvent(code, value);
      } else if evType == EV_SYN && code == SYN_REPORT {
        UpdateState();
      }
    }
  }
}
