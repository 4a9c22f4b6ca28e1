/** The KeyBow manager: two GPIO buttons. A short press of a button sends one
    fixed key combination (Alt+A, Alt+Y) to the keyboard HID output as a press
    report followed by a release report; holding both buttons past the hold
    time asks the service to shut down. */
module KeyBow {
  import opened Bytes
  import opened Keyboard

  /** The keyboard HID output the manager writes to. */
  const KEYBOARD_HID_PATH := "/dev/hidg0"

  /** Left Alt in byte 0 of a keyboard report, and the usage codes of A and Y
      (HID Usage Tables, Keyboard/Keypad page 0x07). */
  const LEFT_ALT: byte := 0x04
  const USAGE_A: byte := 0x04
  const USAGE_Y: byte := 0x1c

  /** The press report of `send_key_combination`: `bytearray(8)` with the
      modifier byte and the first key slot filled in. It is the boot-protocol
      layout the keyboard proxy builds: the modifier, the reserved byte, then
      the one key packed to the front (a zero key leaves the slots empty). */
  function PressReport(modifierBits: byte, keyCode: byte): (r: seq<byte>)
    ensures r == [modifierBits, 0] + PackKeys([keyCode])
  {
    if keyCode != 0 then
      assert NonZero([keyCode]) == NonZero([]) + [keyCode];
      [modifierBits, 0, keyCode, 0, 0, 0, 0, 0]
    else
      assert NonZero([keyCode]) == NonZero([]);
      [modifierBits, 0, keyCode, 0, 0, 0, 0, 0]
  }

  /** The release report, `bytearray(8)`: the keyboard proxy's layout with no
      modifier and no key. */
  function ReleaseReport(): (r: seq<byte>)
    ensures r == [MaskByte(0), 0] + PackKeys([])
  {
    assert NonZero([]) == [];
    seq(REPORT_LENGTH, _ => 0)
  }

  /** The keyboard proxy, holding Left Alt and one key that it sends
      unchanged, writes exactly the press report of that key. */
  lemma {:induction false} SameAsKeyboardProxy(key: string, hidKeys: map<string, byte>, r: seq<byte>)
    requires key in hidKeys && key !in UNSHIFTED_REMAP
    requires IsReportOf(r, LEFT_ALT as bv8, {key}, hidKeys)
    ensures r == PressReport(LEFT_ALT, hidKeys[key])
  {
    OnlyEnumeration(r, LEFT_ALT as bv8, key, hidKeys);
    AltKeyReport(key, hidKeys);
  }

  /** The report of Left Alt with one key that is sent unchanged. */
  lemma AltKeyReport(key: string, hidKeys: map<string, byte>)
    requires key in hidKeys && key !in UNSHIFTED_REMAP
    ensures KeyboardReport(LEFT_ALT as bv8, [key], hidKeys) == PressReport(LEFT_ALT, hidKeys[key])
  {
    var alt := LEFT_ALT as bv8;
    assert !Shifted(alt);
    var k := RemapKey(alt, key, hidKeys);
    OneKeyReport(alt, key, hidKeys);
    RemapPassThrough(alt, key, hidKeys);
    assert k.code == hidKeys[key] && !k.shiftUp && !k.shiftDown;
    assert MaskByte(ReportModifier(alt, k.shiftUp, k.shiftDown)) == LEFT_ALT;
  }

  /** With nothing held the keyboard proxy writes the release report. */
  lemma {:induction false} ReleaseIsEmptyKeyboardReport(hidKeys: map<string, byte>, r: seq<byte>)
    requires IsReportOf(r, 0, {}, hidKeys)
    ensures r == ReleaseReport()
  {
    var keys :| Enumerates(keys, {}) && r == KeyboardReport(0, keys, hidKeys);
    EnumerationLength(keys, {});
    assert keys == [];
    assert NonZero([]) == [];
  }

  /** The two combinations, byte by byte. */
  lemma AltAAndAltY()
    ensures PressReport(LEFT_ALT, USAGE_A) == [0x04, 0x00, 0x04, 0x00, 0x00, 0x00, 0x00, 0x00]
    ensures PressReport(LEFT_ALT, USAGE_Y) == [0x04, 0x00, 0x1c, 0x00, 0x00, 0x00, 0x00, 0x00]
    ensures LEFT_ALT as bv8 == Bit(MODIFIERS_MAP["KEY_LEFTALT"])
  {
  }

  class KeyBowManager {
    const keyboardHidPath: string
    /** `btn1.was_held` and `btn2.was_held`. */
    var btn1WasHeld: bool
    var btn2WasHeld: bool
    /** Every report written to `keyboardHidPath`, oldest first. */
    var reports: seq<seq<byte>>
    /** How many shutdown tasks the manager has started. */
    var shutdownRequests: nat

    /** The source's constructor: neither button has been held. */
    constructor ()
      ensures keyboardHidPath == KEYBOARD_HID_PATH
      ensures !btn1WasHeld && !btn2WasHeld && reports == [] && shutdownRequests == 0
    {
      keyboardHidPath := KEYBOARD_HID_PATH;
      btn1WasHeld, btn2WasHeld := false, false;
      reports := [];
      shutdownRequests := 0;
    }

    /** Writes the press report, then the release report. The 10 ms pause
        between them and write failures are not modelled. */
    method SendKeyCombination(modifierBits: byte, keyCode: byte)
      modifies this`reports
      ensures reports == old(reports) + [PressReport(modifierBits, keyCode), ReleaseReport()]
    {
      var pressReport := new byte[REPORT_LENGTH](_ => 0);
      pressReport[0] := modifierBits;
      pressReport[2] := keyCode;
      var releaseReport := new byte[REPORT_LENGTH](_ => 0);
      assert pressReport[..] == PressReport(modifierBits, keyCode);
      assert releaseReport[..] == ReleaseReport();
      reports := reports + [pressReport[..]];
      reports := reports + [releaseReport[..]];
    }

    /** Button 1 held past its hold time: mark it, and shut down if button 2
        is held too. */
    method Held1()
      modifies this`btn1WasHeld, this`shutdownRequests
      ensures btn1WasHeld
      ensures shutdownRequests == old(shutdownRequests) + (if btn2WasHeld then 1 else 0)
    {
      btn1WasHeld := true;
      if btn2WasHeld {
        shutdownRequests := shutdownRequests + 1;
      }
    }

    /** Button 1 released: a release that ends a hold sends nothing. */
    method Released1()
      modifies this`btn1WasHeld, this`reports
      ensures !btn1WasHeld
      ensures reports == old(reports) +
                (if old(btn1WasHeld) then [] else [PressReport(LEFT_ALT, USAGE_A), ReleaseReport()])
    {
      if !btn1WasHeld {
        Pressed1();
      }
      btn1WasHeld := false;
    }

    /** A short press of button 1 sends Alt+A. */
    method Pressed1()
      modifies this`reports
      ensures reports == old(reports) + [PressReport(LEFT_ALT, USAGE_A), ReleaseReport()]
    {
      SendKeyCombination(LEFT_ALT, USAGE_A);
    }

    /** Button 2 held past its hold time: mark it, and shut down if button 1
        is held too. */
    method Held2()
      modifies this`btn2WasHeld, this`shutdownRequests
      ensures btn2WasHeld
      ensures shutdownRequests == old(shutdownRequests) + (if btn1WasHeld then 1 else 0)
    {
      btn2WasHeld := true;
      if btn1WasHeld {
        shutdownRequests := shutdownRequests + 1;
      }
    }

    /** Button 2 released: a release that ends a hold sends nothing. */
    method Released2()
      modifies this`btn2WasHeld, this`reports
      ensures !btn2WasHeld
      ensures reports == old(reports) +
                (if old(btn2WasHeld) then [] else [PressReport(LEFT_ALT, USAGE_Y), ReleaseReport()])
    {
      if !btn2WasHeld {
        Pressed2();
      }
      btn2WasHeld := false;
    }

    /** A short press of button 2 sends Alt+Y. */
    method Pressed2()
      modifies this`reports
      ensures reports == old(reports) + [PressReport(LEFT_ALT, USAGE_Y), ReleaseReport()]
    {
      SendKeyCombination(LEFT_ALT, USAGE_Y);
    }
  }

  /** A hold of button 1 followed by its release writes no report, and it
      starts a shutdown exactly when button 2 was already held. */
  method HoldThenRelease1(m: KeyBowManager)
    modifies m
    ensures m.reports == old(m.reports)
    ensures !m.btn1WasHeld && m.btn2WasHeld == old(m.btn2WasHeld)
    ensures m.shutdownRequests == old(m.shutdownRequests) + (if old(m.btn2WasHeld) then 1 else 0)
  {
    m.Held1();
    m.Released1();
  }
}
