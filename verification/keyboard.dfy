/** The keyboard proxy: it keeps the modifier mask and the set of pressed key
    names of one input keyboard, remaps US key positions to a JIS host layout,
    and after every change writes an 8-byte boot-protocol keyboard report
    (HID 1.11, Appendix B.1) to its HID output. */
module Keyboard {
  import opened Bytes
  import opened InputEvents

  /** Bit of each modifier key in byte 0 of the report, in the order of
      section 8.3 and Appendix B.1 of HID 1.11. */
  const MODIFIERS_MAP: map<string, BitIndex> := map[
    "KEY_LEFTCTRL" := 0, "KEY_LEFTSHIFT" := 1, "KEY_LEFTALT" := 2, "KEY_LEFTMETA" := 3,
    "KEY_RIGHTCTRL" := 4, "KEY_RIGHTSHIFT" := 5, "KEY_RIGHTALT" := 6, "KEY_RIGHTMETA" := 7]

  /** Left shift and right shift (`Shiftbit`). */
  const SHIFT_BITS: Mask := 0x22
  const LEFT_SHIFT: Mask := 0x02

  const REPORT_LENGTH := 8
  const MAX_KEYS := 6

  /** `SHIFT_BITS` is exactly the two shift modifiers of the map. */
  lemma ShiftBitsAreShiftKeys()
    ensures SHIFT_BITS == Bit(MODIFIERS_MAP["KEY_LEFTSHIFT"]) | Bit(MODIFIERS_MAP["KEY_RIGHTSHIFT"])
    ensures LEFT_SHIFT == Bit(MODIFIERS_MAP["KEY_LEFTSHIFT"])
  {
  }

  // ---------------------------------------------------------------------
  // Modifier mask

  /** The mask after a modifier key event: the key's bit is set when the key
      goes down and cleared when it goes up; no other bit moves. */
  function ApplyModifier(mask: Mask, bit: BitIndex, down: bool): (r: Mask)
    ensures BitSet(r, bit) == down
    ensures forall b: BitIndex | b != bit :: BitSet(r, b) == BitSet(mask, b)
  {
    if down then mask | Bit(bit) else mask & !Bit(bit)
  }

  /** Repeating a modifier event changes nothing more. */
  lemma ApplyModifierIdempotent(mask: Mask, bit: BitIndex, down: bool)
    ensures ApplyModifier(ApplyModifier(mask, bit, down), bit, down) == ApplyModifier(mask, bit, down)
  {
    var once := ApplyModifier(mask, bit, down);
    var twice := ApplyModifier(once, bit, down);
    BitsDetermineMask(twice, once);
  }

  // ---------------------------------------------------------------------
  // US -> JIS remap

  /** Either shift key is down. */
  predicate Shifted(modifier: Mask)
    ensures Shifted(modifier) <==> BitSet(modifier, MODIFIERS_MAP["KEY_LEFTSHIFT"]) || BitSet(modifier, MODIFIERS_MAP["KEY_RIGHTSHIFT"])
  {
    modifier & SHIFT_BITS != 0
  }

  /** Keys whose remap asks for shift to be forced on (only while no shift is
      down), and keys whose remap asks for it to be forced off (only while a
      shift is down). */
  const FORCE_SHIFT_ON_KEYS: set<string> := {"KEY_APOSTROPHE", "KEY_GRAVE", "KEY_EQUAL"}
  const FORCE_SHIFT_OFF_KEYS: set<string> := {"KEY_2", "KEY_6", "KEY_SEMICOLON"}

  /** The key name a physical key is sent as, and whether it forces shift on
      (`isShiftUp`) or off (`isShiftDown`). */
  datatype Translation = Translation(name: string, shiftUp: bool, shiftDown: bool)

  /** The chain of cases of `remap` for a known key. Shift is forced on only
      by the listed keys while no shift is down, and off only by the listed
      keys while one is. */
  function Translate(key: string, shifted: bool): (t: Translation)
    ensures t.shiftUp <==> !shifted && key in FORCE_SHIFT_ON_KEYS
    ensures t.shiftDown <==> shifted && key in FORCE_SHIFT_OFF_KEYS
  {
    if key == "KEY_LEFTBRACE" then Translation("KEY_RIGHTBRACE", false, false)
    else if key == "KEY_RIGHTBRACE" then Translation("KEY_BACKSLASH", false, false)
    else if shifted then
      if key == "KEY_7" then Translation("KEY_6", false, false)
      else if key == "KEY_8" then Translation("KEY_APOSTROPHE", false, false)
      else if key == "KEY_9" then Translation("KEY_8", false, false)
      else if key == "KEY_0" then Translation("KEY_9", false, false)
      else if key == "KEY_EQUAL" then Translation("KEY_SEMICOLON", false, false)
      else if key == "KEY_GRAVE" then Translation("KEY_EQUAL", false, false)
      else if key == "KEY_MINUS" then Translation("KEY_RO", false, false)
      else if key == "KEY_2" then Translation("KEY_LEFTBRACE", false, true)
      else if key == "KEY_6" then Translation("KEY_EQUAL", false, true)
      else if key == "KEY_BACKSLASH" then Translation("KEY_YEN", false, false)
      else if key == "KEY_SEMICOLON" then Translation("KEY_APOSTROPHE", false, true)
      else if key == "KEY_APOSTROPHE" then Translation("KEY_2", false, false)
      else Translation(key, false, false)
    else
      if key == "KEY_APOSTROPHE" then Translation("KEY_7", true, false)
      else if key == "KEY_GRAVE" then Translation("KEY_LEFTBRACE", true, false)
      else if key == "KEY_EQUAL" then Translation("KEY_MINUS", true, false)
      else if key == "KEY_BACKSLASH" then Translation("KEY_RO", false, false)
      else Translation(key, false, false)
  }

  /** `hid_keys.get(name, 0)`. */
  function Lookup(hidKeys: map<string, byte>, name: string): byte {
    if name in hidKeys then hidKeys[name] else 0
  }

  /** The result of remapping one pressed key: its code and the flags it raises. */
  datatype Remapped = Remapped(code: byte, shiftUp: bool, shiftDown: bool)

  /** `remap` as a value: a key unknown to `hidKeys` gives code 0 and raises
      no flag; shift is forced on only by the keys of `FORCE_SHIFT_ON_KEYS`
      while unshifted, and forced off only by those of `FORCE_SHIFT_OFF_KEYS`
      while shifted. */
  function RemapKey(modifier: Mask, key: string, hidKeys: map<string, byte>): (r: Remapped)
    ensures key !in hidKeys ==> r == Remapped(0, false, false)
    ensures r.shiftUp <==> key in hidKeys && !Shifted(modifier) && key in FORCE_SHIFT_ON_KEYS
    ensures r.shiftDown <==> key in hidKeys && Shifted(modifier) && key in FORCE_SHIFT_OFF_KEYS
  {
    if key !in hidKeys then Remapped(0, false, false)
    else
      var t := Translate(key, Shifted(modifier));
      Remapped(Lookup(hidKeys, t.name), t.shiftUp, t.shiftDown)
  }

  /** The remap as two tables, one per shift state (the braces are swapped
      in both). */
  const SHIFTED_REMAP: map<string, string> := map[
    "KEY_LEFTBRACE" := "KEY_RIGHTBRACE", "KEY_RIGHTBRACE" := "KEY_BACKSLASH",
    "KEY_7" := "KEY_6", "KEY_8" := "KEY_APOSTROPHE", "KEY_9" := "KEY_8", "KEY_0" := "KEY_9",
    "KEY_EQUAL" := "KEY_SEMICOLON", "KEY_GRAVE" := "KEY_EQUAL", "KEY_MINUS" := "KEY_RO",
    "KEY_2" := "KEY_LEFTBRACE", "KEY_6" := "KEY_EQUAL", "KEY_BACKSLASH" := "KEY_YEN",
    "KEY_SEMICOLON" := "KEY_APOSTROPHE", "KEY_APOSTROPHE" := "KEY_2"]
  const UNSHIFTED_REMAP: map<string, string> := map[
    "KEY_LEFTBRACE" := "KEY_RIGHTBRACE", "KEY_RIGHTBRACE" := "KEY_BACKSLASH",
    "KEY_APOSTROPHE" := "KEY_7", "KEY_GRAVE" := "KEY_LEFTBRACE", "KEY_EQUAL" := "KEY_MINUS",
    "KEY_BACKSLASH" := "KEY_RO"]

  /** The remap agrees with the tables: a known key is sent as its table
      entry for the current shift state, and as itself when it has none. */
  lemma RemapMatchesTables(modifier: Mask, key: string, hidKeys: map<string, byte>)
    requires key in hidKeys
    ensures var table := if Shifted(modifier) then SHIFTED_REMAP else UNSHIFTED_REMAP;
      RemapKey(modifier, key, hidKeys).code == Lookup(hidKeys, if key in table then table[key] else key)
  {
    if Shifted(modifier) {
      TranslateShifted(key);
    } else {
      TranslateUnshifted(key);
    }
  }

  lemma TranslateShifted(key: string)
    ensures Translate(key, true).name == if key in SHIFTED_REMAP then SHIFTED_REMAP[key] else key
  {
    if key in SHIFTED_REMAP {
      TranslateShiftedListed(key);
    } else {
      assert key != "KEY_LEFTBRACE" && key != "KEY_RIGHTBRACE" && key != "KEY_7" && key != "KEY_8";
      assert key != "KEY_9" && key != "KEY_0" && key != "KEY_EQUAL" && key != "KEY_GRAVE";
      assert key != "KEY_MINUS" && key != "KEY_2" && key != "KEY_6" && key != "KEY_BACKSLASH";
      assert key != "KEY_SEMICOLON" && key != "KEY_APOSTROPHE";
    }
  }

  lemma TranslateShiftedListed(key: string)
    requires key in SHIFTED_REMAP
    ensures Translate(key, true).name == SHIFTED_REMAP[key]
  {
    assert key in SHIFTED_REMAP.Keys;
    if key == "KEY_LEFTBRACE" {
    } else if key == "KEY_RIGHTBRACE" {
    } else if key == "KEY_7" {
    } else if key == "KEY_8" {
    } else if key == "KEY_9" {
    } else if key == "KEY_0" {
    } else if key == "KEY_EQUAL" {
    } else if key == "KEY_GRAVE" {
    } else if key == "KEY_MINUS" {
    } else if key == "KEY_2" {
    } else if key == "KEY_6" {
    } else if key == "KEY_BACKSLASH" {
    } else if key == "KEY_SEMICOLON" {
    } else if key == "KEY_APOSTROPHE" {
    }
  }

  lemma TranslateUnshifted(key: string)
    ensures Translate(key, false).name == if key in UNSHIFTED_REMAP then UNSHIFTED_REMAP[key] else key
  {
  }

  /** The braces are remapped whatever the shift state. */
  lemma RemapBraces(modifier: Mask, hidKeys: map<string, byte>)
    ensures "KEY_LEFTBRACE" in hidKeys ==>
      RemapKey(modifier, "KEY_LEFTBRACE", hidKeys) == Remapped(Lookup(hidKeys, "KEY_RIGHTBRACE"), false, false)
    ensures "KEY_RIGHTBRACE" in hidKeys ==>
      RemapKey(modifier, "KEY_RIGHTBRACE", hidKeys) == Remapped(Lookup(hidKeys, "KEY_BACKSLASH"), false, false)
  {
  }

  /** A known key that the active branch does not name is sent unchanged. */
  lemma RemapPassThrough(modifier: Mask, key: string, hidKeys: map<string, byte>)
    requires key in hidKeys
    requires key !in (if Shifted(modifier) then SHIFTED_REMAP else UNSHIFTED_REMAP)
    ensures RemapKey(modifier, key, hidKeys) == Remapped(hidKeys[key], false, false)
  {
  }

  // ---------------------------------------------------------------------
  // The report

  /** The codes of the pressed keys, in the order they are enumerated. */
  function KeyCodes(modifier: Mask, keys: seq<string>, hidKeys: map<string, byte>): (codes: seq<byte>)
    ensures |codes| == |keys|
    ensures forall i | 0 <= i < |keys| :: codes[i] == RemapKey(modifier, keys[i], hidKeys).code
  {
    if keys == [] then []
    else KeyCodes(modifier, keys[..|keys| - 1], hidKeys) + [RemapKey(modifier, keys[|keys| - 1], hidKeys).code]
  }

  /** Some pressed key forces shift on. */
  predicate ForcesShiftOn(modifier: Mask, keys: seq<string>, hidKeys: map<string, byte>)
    ensures ForcesShiftOn(modifier, keys, hidKeys) ==> !Shifted(modifier)
  {
    exists k | k in keys :: RemapKey(modifier, k, hidKeys).shiftUp
  }

  /** Some pressed key forces shift off. */
  predicate ForcesShiftOff(modifier: Mask, keys: seq<string>, hidKeys: map<string, byte>)
    ensures ForcesShiftOff(modifier, keys, hidKeys) ==> Shifted(modifier)
  {
    exists k | k in keys :: RemapKey(modifier, k, hidKeys).shiftDown
  }

  /** The flags of one more key: raised when they were already, or when that
      key raises them. */
  lemma ForcesStep(modifier: Mask, keys: seq<string>, k: string, hidKeys: map<string, byte>)
    ensures ForcesShiftOn(modifier, keys + [k], hidKeys)
         == (ForcesShiftOn(modifier, keys, hidKeys) || RemapKey(modifier, k, hidKeys).shiftUp)
    ensures ForcesShiftOff(modifier, keys + [k], hidKeys)
         == (ForcesShiftOff(modifier, keys, hidKeys) || RemapKey(modifier, k, hidKeys).shiftDown)
  {
    assert forall x :: x in keys + [k] <==> x in keys || x == k;
  }

  /** `filter(None, s)`: the non-zero bytes of `s`, in order. */
  function NonZero(s: seq<byte>): (r: seq<byte>)
    ensures |r| <= |s|
    ensures forall i | 0 <= i < |r| :: r[i] != 0
    ensures forall x: byte | x != 0 :: multiset(r)[x] == multiset(s)[x]
  {
    if s == [] then []
    else
      var init, last := s[..|s| - 1], s[|s| - 1];
      assert s == init + [last];
      assert multiset(s) == multiset(init) + multiset{last};
      var kept, tail := NonZero(init), if last != 0 then [last] else [];
      assert multiset(kept + tail) == multiset(kept) + multiset(tail);
      kept + tail
  }

  /** `codes[:6]`: the longest prefix of at most six codes. */
  function FirstSix(codes: seq<byte>): (r: seq<byte>)
    ensures |r| == if |codes| <= MAX_KEYS then |codes| else MAX_KEYS
    ensures r == codes[..|r|]
  {
    if |codes| <= MAX_KEYS then codes else codes[..MAX_KEYS]
  }

  /** Bytes 2..7: the non-zero codes among the first six, packed, then zeros. */
  function PackKeys(codes: seq<byte>): (r: seq<byte>)
    ensures |r| == MAX_KEYS
    ensures forall x: byte | x != 0 :: multiset(r)[x] == multiset(FirstSix(codes))[x]
  {
    var packed := NonZero(FirstSix(codes));
    PaddingHasNoKeys(packed, MAX_KEYS - |packed|);
    packed + seq(MAX_KEYS - |packed|, _ => 0)
  }

  /** Byte 0: forcing shift on sets left shift; otherwise forcing it off
      clears both shifts; every other modifier bit is the live one. */
  function ReportModifier(modifier: Mask, shiftUp: bool, shiftDown: bool): (m: Mask)
    ensures shiftUp ==> BitSet(m, 1) && forall b: BitIndex | b != 1 :: BitSet(m, b) == BitSet(modifier, b)
    ensures !shiftUp && shiftDown ==>
      !BitSet(m, 1) && !BitSet(m, 5) && forall b: BitIndex | b != 1 && b != 5 :: BitSet(m, b) == BitSet(modifier, b)
    ensures !shiftUp && !shiftDown ==> m == modifier
  {
    if shiftUp then modifier | LEFT_SHIFT
    else if shiftDown then modifier & !SHIFT_BITS
    else modifier
  }

  /** The report `update_state` builds when the pressed keys are enumerated
      in the order `keys`. */
  function KeyboardReport(modifier: Mask, keys: seq<string>, hidKeys: map<string, byte>): (r: seq<byte>)
    ensures |r| == REPORT_LENGTH && r[1] == 0
  {
    [MaskByte(ReportModifier(modifier, ForcesShiftOn(modifier, keys, hidKeys), ForcesShiftOff(modifier, keys, hidKeys))), 0]
      + PackKeys(KeyCodes(modifier, keys, hidKeys))
  }

  /** `keys` lists each element of `s` exactly once (a Python set's iteration). */
  ghost predicate Enumerates(keys: seq<string>, s: set<string>) {
    && (forall i, j | 0 <= i < j < |keys| :: keys[i] != keys[j])
    && (forall k :: k in keys <==> k in s)
  }

  /** `r` is the report built from `pressed` under some iteration order. */
  ghost predicate IsReportOf(r: seq<byte>, modifier: Mask, pressed: set<string>, hidKeys: map<string, byte>) {
    exists keys | Enumerates(keys, pressed) :: r == KeyboardReport(modifier, keys, hidKeys)
  }

  /** `after` is `before` with one report of the given state appended. */
  ghost predicate ReportAppended(before: seq<seq<byte>>, after: seq<seq<byte>>, modifier: Mask,
                                 pressed: set<string>, hidKeys: map<string, byte>) {
    && |after| == |before| + 1
    && after[..|before|] == before
    && IsReportOf(after[|before|], modifier, pressed, hidKeys)
  }

  /** The force-shift flags as building a report leaves them: each is set
      exactly when the remap of some pressed key asks for it. */
  ghost predicate FlagsForced(up: bool, down: bool, modifier: Mask, pressed: set<string>, hidKeys: map<string, byte>) {
    && up == (exists k | k in pressed :: RemapKey(modifier, k, hidKeys).shiftUp)
    && down == (exists k | k in pressed :: RemapKey(modifier, k, hidKeys).shiftDown)
  }

  // ---------------------------------------------------------------------
  // Properties of the report

  /** Zeros added after the packed codes do not change the count of any
      non-zero byte. */
  lemma {:induction false} PaddingHasNoKeys(packed: seq<byte>, n: nat)
    ensures forall x: byte | x != 0 :: multiset(packed + seq(n, _ => 0))[x] == multiset(packed)[x]
  {
    var zeros: seq<byte> := seq(n, _ => 0);
    assert multiset(packed + zeros) == multiset(packed) + multiset(zeros);
    assert forall i | 0 <= i < |zeros| :: zeros[i] == 0;
    forall x: byte | x != 0
      ensures multiset(zeros)[x] == 0
    {
      assert x !in zeros;
    }
  }

  /** The layout of a keyboard report: byte 0 is the live modifier adjusted by
      the shift flags of all pressed keys; byte 1 is 0; bytes 2.. hold the
      non-zero codes of the first six enumerated keys, packed from byte 2, and
      zeros after them. */
  lemma {:induction false} ReportLayout(modifier: Mask, keys: seq<string>, hidKeys: map<string, byte>)
    ensures var r := KeyboardReport(modifier, keys, hidKeys);
      var first := FirstSix(KeyCodes(modifier, keys, hidKeys));
      var n := |NonZero(first)|;
      && |r| == REPORT_LENGTH && r[1] == 0
      && r[0] == MaskByte(ReportModifier(modifier, ForcesShiftOn(modifier, keys, hidKeys), ForcesShiftOff(modifier, keys, hidKeys)))
      && n <= MAX_KEYS
      && (forall i | 2 <= i < 2 + n :: r[i] != 0)
      && (forall i | 2 + n <= i < REPORT_LENGTH :: r[i] == 0)
      && (forall x: byte | x != 0 :: multiset(r[2..])[x] == multiset(first)[x])
  {
    var r := KeyboardReport(modifier, keys, hidKeys);
    var codes := KeyCodes(modifier, keys, hidKeys);
    var packed := NonZero(FirstSix(codes));
    assert r[2..] == packed + seq(MAX_KEYS - |packed|, _ => 0);
    PaddingHasNoKeys(packed, MAX_KEYS - |packed|);
  }

  /** Two enumerations of the same set list the same elements equally often. */
  lemma {:induction false} EnumerationsArePermutations(a: seq<string>, b: seq<string>, s: set<string>)
    requires Enumerates(a, s) && Enumerates(b, s)
    ensures multiset(a) == multiset(b)
  {
    DistinctMultiplicity(a);
    DistinctMultiplicity(b);
    assert forall k :: multiset(a)[k] == multiset(b)[k];
  }

  /** In a sequence without repetitions every element occurs once. */
  lemma {:induction false} DistinctMultiplicity(a: seq<string>)
    requires forall i, j | 0 <= i < j < |a| :: a[i] != a[j]
    ensures forall k :: multiset(a)[k] == if k in a then 1 else 0
  {
    if a != [] {
      var init := a[..|a| - 1];
      assert a == init + [a[|a| - 1]];
      DistinctMultiplicity(init);
      assert a[|a| - 1] !in init;
    }
  }

  /** Taking out the element at `j` takes one copy of it out of the multiset. */
  lemma MultisetRemoveAt<T>(b: seq<T>, j: nat)
    requires j < |b|
    ensures multiset(b) == multiset(b[..j] + b[j + 1..]) + multiset{b[j]}
  {
    assert b == b[..j] + [b[j]] + b[j + 1..];
  }

  /** The codes of `b` are those of `b` without its element `j`, plus that
      element's code. */
  lemma KeyCodesRemoveAt(modifier: Mask, b: seq<string>, j: nat, hidKeys: map<string, byte>)
    requires j < |b|
    ensures multiset(KeyCodes(modifier, b, hidKeys))
         == multiset(KeyCodes(modifier, b[..j] + b[j + 1..], hidKeys)) + multiset{RemapKey(modifier, b[j], hidKeys).code}
  {
    assert b == b[..j] + ([b[j]] + b[j + 1..]);
    KeyCodesConcat(modifier, b[..j], [b[j]] + b[j + 1..], hidKeys);
    KeyCodesConcat(modifier, [b[j]], b[j + 1..], hidKeys);
    KeyCodesConcat(modifier, b[..j], b[j + 1..], hidKeys);
  }

  /** Mapping a permutation of keys to their codes gives a permutation of codes. */
  lemma {:induction false} KeyCodesPermutation(modifier: Mask, a: seq<string>, b: seq<string>, hidKeys: map<string, byte>)
    requires multiset(a) == multiset(b)
    ensures multiset(KeyCodes(modifier, a, hidKeys)) == multiset(KeyCodes(modifier, b, hidKeys))
    decreases |a|
  {
    if a != [] {
      var last, init := a[|a| - 1], a[..|a| - 1];
      assert a == init + [last];
      assert multiset(a) == multiset(init) + multiset{last};
      assert last in multiset(b);
      var j :| 0 <= j < |b| && b[j] == last;
      var rest := b[..j] + b[j + 1..];
      MultisetRemoveAt(b, j);
      forall x
        ensures multiset(init)[x] == multiset(rest)[x]
      {
        assert (multiset(init) + multiset{last})[x] == (multiset(rest) + multiset{last})[x];
      }
      assert multiset(init) == multiset(rest);
      KeyCodesPermutation(modifier, init, rest, hidKeys);
      KeyCodesRemoveAt(modifier, b, j, hidKeys);
      assert KeyCodes(modifier, a, hidKeys) == KeyCodes(modifier, init, hidKeys) + [RemapKey(modifier, last, hidKeys).code];
    }
  }

  /** The codes of a concatenation are the concatenation of the codes. */
  lemma KeyCodesConcat(modifier: Mask, a: seq<string>, b: seq<string>, hidKeys: map<string, byte>)
    ensures KeyCodes(modifier, a + b, hidKeys) == KeyCodes(modifier, a, hidKeys) + KeyCodes(modifier, b, hidKeys)
  {
  }

  lemma NoZeroIn(s: seq<byte>)
    requires forall i | 0 <= i < |s| :: s[i] != 0
    ensures multiset(s)[0] == 0
  {
    assert 0 !in s;
  }

  /** A permutation of codes has the same non-zero codes. */
  lemma NonZeroPermutation(a: seq<byte>, b: seq<byte>)
    requires multiset(a) == multiset(b)
    ensures multiset(NonZero(a)) == multiset(NonZero(b))
  {
    var na, nb := NonZero(a), NonZero(b);
    assert multiset(na)[0] == 0 && multiset(nb)[0] == 0 by {
      NoZeroIn(na);
      NoZeroIn(nb);
    }
    forall x: byte
      ensures multiset(na)[x] == multiset(nb)[x]
    {
      if x != 0 {
        assert multiset(na)[x] == multiset(a)[x];
        assert multiset(nb)[x] == multiset(b)[x];
      }
    }
  }

  /** Bytes 2.. of a report are the packed codes. */
  lemma ReportKeyBytes(modifier: Mask, keys: seq<string>, hidKeys: map<string, byte>)
    ensures KeyboardReport(modifier, keys, hidKeys)[2..] == PackKeys(KeyCodes(modifier, keys, hidKeys))
  {
  }

  /** At most six codes in two orders pack to the same bytes up to order. */
  lemma PackKeysPermutation(a: seq<byte>, b: seq<byte>)
    requires multiset(a) == multiset(b) && |a| <= MAX_KEYS
    ensures multiset(PackKeys(a)) == multiset(PackKeys(b))
  {
    assert |b| == |multiset(b)| == |multiset(a)| == |a|;
    assert FirstSix(a) == a && FirstSix(b) == b;
    NonZeroPermutation(a, b);
    var na, nb := NonZero(a), NonZero(b);
    assert PackKeys(a) == na + seq(MAX_KEYS - |na|, _ => 0);
    assert PackKeys(b) == nb + seq(MAX_KEYS - |nb|, _ => 0);
    PaddedPermutation(na, nb);
  }

  /** Padding two permutations of at most six codes with zeros to six bytes
      keeps them permutations. */
  lemma PaddedPermutation(na: seq<byte>, nb: seq<byte>)
    requires multiset(na) == multiset(nb) && |na| <= MAX_KEYS && |nb| <= MAX_KEYS
    ensures multiset(na + seq(MAX_KEYS - |na|, _ => 0)) == multiset(nb + seq(MAX_KEYS - |nb|, _ => 0))
  {
    assert |na| == |nb| by {
      assert |multiset(na)| == |na| && |multiset(nb)| == |nb|;
    }
    var zeros: seq<byte> := seq(MAX_KEYS - |na|, _ => 0);
    assert multiset(na + zeros) == multiset(na) + multiset(zeros);
    assert multiset(nb + zeros) == multiset(nb) + multiset(zeros);
  }

  /** Byte 0 of the report does not depend on the order in which the set of
      pressed keys is enumerated. */
  lemma {:induction false} ReportModifierOrderIndependent(modifier: Mask, a: seq<string>, b: seq<string>,
                                                          pressed: set<string>, hidKeys: map<string, byte>)
    requires Enumerates(a, pressed) && Enumerates(b, pressed)
    ensures KeyboardReport(modifier, a, hidKeys)[0] == KeyboardReport(modifier, b, hidKeys)[0]
  {
    assert ForcesShiftOn(modifier, a, hidKeys) == ForcesShiftOn(modifier, b, hidKeys);
    assert ForcesShiftOff(modifier, a, hidKeys) == ForcesShiftOff(modifier, b, hidKeys);
  }

  /** With at most six keys pressed, the key bytes of the report do not depend
      on the enumeration order, up to their own order. */
  lemma {:induction false} ReportKeysOrderIndependent(modifier: Mask, a: seq<string>, b: seq<string>,
                                                      pressed: set<string>, hidKeys: map<string, byte>)
    requires Enumerates(a, pressed) && Enumerates(b, pressed)
    requires |pressed| <= MAX_KEYS
    ensures multiset(KeyboardReport(modifier, a, hidKeys)[2..]) == multiset(KeyboardReport(modifier, b, hidKeys)[2..])
  {
    EnumerationsArePermutations(a, b, pressed);
    EnumerationLength(a, pressed);
    KeyCodesPermutation(modifier, a, b, hidKeys);
    PackKeysPermutation(KeyCodes(modifier, a, hidKeys), KeyCodes(modifier, b, hidKeys));
    ReportKeyBytes(modifier, a, hidKeys);
    ReportKeyBytes(modifier, b, hidKeys);
  }

  /** An enumeration of a set is as long as the set is large. */
  lemma {:induction false} EnumerationLength(keys: seq<string>, s: set<string>)
    requires Enumerates(keys, s)
    ensures |keys| == |s|
  {
    if keys != [] {
      var last := keys[|keys| - 1];
      var init := keys[..|keys| - 1];
      assert keys == init + [last];
      assert last !in init;
      assert Enumerates(init, s - {last});
      EnumerationLength(init, s - {last});
    }
  }

  /** Every non-zero key byte of a report is the code of one of the first
      six enumerated keys. */
  lemma {:induction false} KeyBytesComeFromKeys(modifier: Mask, keys: seq<string>, hidKeys: map<string, byte>, i: int)
    requires 2 <= i < REPORT_LENGTH && KeyboardReport(modifier, keys, hidKeys)[i] != 0
    ensures exists j | 0 <= j < |keys| && j < MAX_KEYS :: RemapKey(modifier, keys[j], hidKeys).code == KeyboardReport(modifier, keys, hidKeys)[i]
  {
    var r := KeyboardReport(modifier, keys, hidKeys);
    var codes := KeyCodes(modifier, keys, hidKeys);
    ReportKeyBytes(modifier, keys, hidKeys);
    assert r[i] == PackKeys(codes)[i - 2] by {
      assert r[2..][i - 2] == r[i];
    }
    PackedComesFromFirstSix(codes, r[i]);
    var j :| 0 <= j < |codes| && j < MAX_KEYS && codes[j] == r[i];
    assert RemapKey(modifier, keys[j], hidKeys).code == r[i];
  }

  /** A non-zero packed byte is one of the first six codes. */
  lemma {:induction false} PackedComesFromFirstSix(codes: seq<byte>, x: byte)
    requires x != 0 && x in PackKeys(codes)
    ensures exists j | 0 <= j < |codes| && j < MAX_KEYS :: codes[j] == x
  {
    var first := FirstSix(codes);
    assert multiset(PackKeys(codes))[x] > 0;
    assert x in first;
    var j :| 0 <= j < |first| && first[j] == x;
    assert codes[j] == x;
  }

  /** Every key byte of a report is the code of some pressed key. */
  lemma {:induction false} ReportKeysArePressed(r: seq<byte>, modifier: Mask, pressed: set<string>,
                                                hidKeys: map<string, byte>)
    requires IsReportOf(r, modifier, pressed, hidKeys)
    ensures |r| == REPORT_LENGTH && r[1] == 0
    ensures forall i | 2 <= i < REPORT_LENGTH && r[i] != 0 ::
              exists k | k in pressed :: RemapKey(modifier, k, hidKeys).code == r[i]
  {
    var keys :| Enumerates(keys, pressed) && r == KeyboardReport(modifier, keys, hidKeys);
    forall i | 2 <= i < REPORT_LENGTH && r[i] != 0
      ensures exists k | k in pressed :: RemapKey(modifier, k, hidKeys).code == r[i]
    {
      KeyBytesComeFromKeys(modifier, keys, hidKeys, i);
      var j :| 0 <= j < |keys| && j < MAX_KEYS && RemapKey(modifier, keys[j], hidKeys).code == r[i];
      assert keys[j] in pressed;
    }
  }

  /** With at most six keys pressed, the report carries the code of every
      pressed key that has a non-zero one. */
  lemma {:induction false} ReportCarriesPressedKeys(r: seq<byte>, modifier: Mask, pressed: set<string>,
                                                    hidKeys: map<string, byte>)
    requires IsReportOf(r, modifier, pressed, hidKeys)
    requires |pressed| <= MAX_KEYS
    ensures forall k | k in pressed && RemapKey(modifier, k, hidKeys).code != 0 ::
              RemapKey(modifier, k, hidKeys).code in r[2..]
  {
    var keys :| Enumerates(keys, pressed) && r == KeyboardReport(modifier, keys, hidKeys);
    var first := FirstSix(KeyCodes(modifier, keys, hidKeys));
    ReportLayout(modifier, keys, hidKeys);
    EnumerationLength(keys, pressed);
    forall k | k in pressed && RemapKey(modifier, k, hidKeys).code != 0
      ensures RemapKey(modifier, k, hidKeys).code in r[2..]
    {
      var j :| 0 <= j < |keys| && keys[j] == k;
      var x := first[j];
      assert x == RemapKey(modifier, k, hidKeys).code;
      assert multiset(first)[x] > 0;
      assert multiset(r[2..])[x] > 0;
    }
  }

  /** With one key pressed there is one enumeration, so one report: the
      modifier byte the key's remap asks for, then its code alone. */
  lemma {:induction false} SingleKeyReport(r: seq<byte>, modifier: Mask, key: string, hidKeys: map<string, byte>)
    requires IsReportOf(r, modifier, {key}, hidKeys)
    ensures var k := RemapKey(modifier, key, hidKeys);
      r == [MaskByte(ReportModifier(modifier, k.shiftUp, k.shiftDown)), 0] + PackKeys([k.code])
  {
    OnlyEnumeration(r, modifier, key, hidKeys);
    OneKeyReport(modifier, key, hidKeys);
  }

  /** A one-key set has one enumeration, so one report. */
  lemma {:induction false} OnlyEnumeration(r: seq<byte>, modifier: Mask, key: string, hidKeys: map<string, byte>)
    requires IsReportOf(r, modifier, {key}, hidKeys)
    ensures r == KeyboardReport(modifier, [key], hidKeys)
  {
    var keys :| Enumerates(keys, {key}) && r == KeyboardReport(modifier, keys, hidKeys);
    EnumerationLength(keys, {key});
    assert keys == [key];
  }

  /** The report of the one-key enumeration. */
  lemma OneKeyReport(modifier: Mask, key: string, hidKeys: map<string, byte>)
    ensures var k := RemapKey(modifier, key, hidKeys);
      KeyboardReport(modifier, [key], hidKeys)
        == [MaskByte(ReportModifier(modifier, k.shiftUp, k.shiftDown)), 0] + PackKeys([k.code])
  {
    var k := RemapKey(modifier, key, hidKeys);
    assert ForcesShiftOn(modifier, [key], hidKeys) == k.shiftUp by {
      assert key in [key];
    }
    assert ForcesShiftOff(modifier, [key], hidKeys) == k.shiftDown by {
      assert key in [key];
    }
    assert KeyCodes(modifier, [key], hidKeys) == [k.code];
  }

  /** Bytes 2..7 for one non-zero code: the code, then five zeros. */
  lemma OneKeyPacked(code: byte)
    requires code != 0
    ensures PackKeys([code]) == [code, 0, 0, 0, 0, 0]
  {
    assert NonZero([code]) == NonZero([]) + [code];
  }

  /** A pressed A with left shift held, under a table that sends A as usage
      0x04, gives the report 02 00 04 00 00 00 00 00. */
  lemma ShiftedAReport(r: seq<byte>, hidKeys: map<string, byte>)
    requires "KEY_A" in hidKeys && hidKeys["KEY_A"] == 0x04
    requires IsReportOf(r, 0x02, {"KEY_A"}, hidKeys)
    ensures r == [0x02, 0x00, 0x04, 0x00, 0x00, 0x00, 0x00, 0x00]
  {
    var k := RemapKey(0x02, "KEY_A", hidKeys);
    SingleKeyReport(r, 0x02, "KEY_A", hidKeys);
    KeyANotRemapped();
    assert Shifted(0x02);
    RemapPassThrough(0x02, "KEY_A", hidKeys);
    assert k == Remapped(0x04, false, false);
    assert MaskByte(ReportModifier(0x02, k.shiftUp, k.shiftDown)) == 0x02;
    OneKeyPacked(0x04);
  }

  /** A is in neither remap table. */
  lemma KeyANotRemapped()
    ensures "KEY_A" !in SHIFTED_REMAP && "KEY_A" !in UNSHIFTED_REMAP
  {
    assert "KEY_A" !in SHIFTED_REMAP.Keys;
  }

  /** Whether an enumeration forces shift on or off depends only on the set
      it enumerates. */
  lemma EnumerationForces(modifier: Mask, keys: seq<string>, s: set<string>, hidKeys: map<string, byte>)
    requires Enumerates(keys, s)
    ensures ForcesShiftOn(modifier, keys, hidKeys) == exists k | k in s :: RemapKey(modifier, k, hidKeys).shiftUp
    ensures ForcesShiftOff(modifier, keys, hidKeys) == exists k | k in s :: RemapKey(modifier, k, hidKeys).shiftDown
  {
  }

  /** The six-key cut comes before the zero codes are dropped: when the first
      six keys of the enumeration are unknown to `hidKeys`, no key code is
      sent at all, however many known keys follow. */
  lemma {:induction false} UnknownKeysTakeSlots(modifier: Mask, keys: seq<string>, hidKeys: map<string, byte>)
    requires |keys| > MAX_KEYS
    requires forall i | 0 <= i < MAX_KEYS :: keys[i] !in hidKeys
    ensures KeyboardReport(modifier, keys, hidKeys)[2..] == [0, 0, 0, 0, 0, 0]
  {
    var first := FirstSix(KeyCodes(modifier, keys, hidKeys));
    AllZeroDropped(first);
    ReportKeyBytes(modifier, keys, hidKeys);
  }

  /** Only zeros leave nothing to send. */
  lemma {:induction false} AllZeroDropped(s: seq<byte>)
    requires forall i | 0 <= i < |s| :: s[i] == 0
    ensures NonZero(s) == []
  {
    if s != [] {
      AllZeroDropped(s[..|s| - 1]);
    }
  }

  /** No build raises both flags: forcing shift on needs no shift down,
      forcing it off needs one, so the precedence of shift-up never hides a
      shift-down request. */
  lemma {:induction false} FlagsExclusive(modifier: Mask, keys: seq<string>, hidKeys: map<string, byte>)
    ensures !(ForcesShiftOn(modifier, keys, hidKeys) && ForcesShiftOff(modifier, keys, hidKeys))
  {
    if ForcesShiftOn(modifier, keys, hidKeys) {
      var k :| k in keys && RemapKey(modifier, k, hidKeys).shiftUp;
      assert !Shifted(modifier);
    }
  }

  /** Fills the 8-byte buffer of `update_state`: `mask` in byte 0, then
      `filter(None, codes[:6])`, the non-zero codes among the first six, one
      after another from byte 2. */
  method FillReport(mask: Mask, codes: seq<byte>) returns (r: seq<byte>)
    ensures r == [MaskByte(mask), 0] + PackKeys(codes)
  {
    var report := new byte[REPORT_LENGTH](_ => 0);
    report[0] := MaskByte(mask);
    var packed := NonZero(FirstSix(codes));
    for i := 0 to |packed|
      invariant report[0] == MaskByte(mask) && report[1] == 0
      invariant report[2..2 + i] == packed[..i]
      invariant forall t | 2 + i <= t < REPORT_LENGTH :: report[t] == 0
    {
      report[2 + i] := packed[i];
    }
    assert packed[..|packed|] == packed;
    r := report[..];
    FilledIsPacked(r, mask, codes, |packed|);
  }

  /** A buffer with the mask, the reserved zero, the packed codes and then
      zeros is the report of those codes. */
  lemma FilledIsPacked(r: seq<byte>, mask: Mask, codes: seq<byte>, n: nat)
    requires |r| == REPORT_LENGTH && r[0] == MaskByte(mask) && r[1] == 0
    requires 2 + n <= REPORT_LENGTH && r[2..2 + n] == NonZero(FirstSix(codes))
    requires forall t | 2 + n <= t < REPORT_LENGTH :: r[t] == 0
    ensures r == [MaskByte(mask), 0] + PackKeys(codes)
  {
    assert r[2..] == PackKeys(codes);
  }

  // ---------------------------------------------------------------------
  // The proxy object

  class KeyboardProxy {
    const inputDevicePath: string
    const hidOutputPath: string
    /** The key-name to usage-code table (`hid_keys`). */
    const hidKeys: map<string, byte>

    var modifier: Mask
    var pressedKeys: set<string>
    var isShiftUp: bool
    var isShiftDown: bool
    /** Every report written to `hidOutputPath`, oldest first. */
    var reports: seq<seq<byte>>

    /** The source's constructor: remembers the paths and resets the state. */
    constructor (inputDevicePath: string, hidOutputPath: string, hidKeys: map<string, byte>)
      ensures this.inputDevicePath == inputDevicePath && this.hidOutputPath == hidOutputPath
      ensures this.hidKeys == hidKeys
      ensures modifier == 0 && pressedKeys == {} && !isShiftUp && !isShiftDown && reports == []
    {
      this.inputDevicePath := inputDevicePath;
      this.hidOutputPath := hidOutputPath;
      this.hidKeys := hidKeys;
      modifier, pressedKeys, isShiftUp, isShiftDown := 0, {}, false, false;
      reports := [];
    }

    method ResetState()
      modifies this`modifier, this`pressedKeys, this`isShiftUp, this`isShiftDown
      ensures modifier == 0 && pressedKeys == {} && !isShiftUp && !isShiftDown
    {
      modifier, pressedKeys, isShiftUp, isShiftDown := 0, {}, false, false;
    }

    /** The HID output file; failures to write are not modelled. */
    method WriteReport(report: seq<byte>)
      modifies this`reports
      ensures reports == old(reports) + [report]
    {
      reports := reports + [report];
    }

    /** Remaps one key, raising the shift flags its remap asks for. */
    method Remap(keycode: string) returns (code: byte)
      modifies this`isShiftUp, this`isShiftDown
      ensures code == RemapKey(modifier, keycode, hidKeys).code
      ensures isShiftUp == (old(isShiftUp) || RemapKey(modifier, keycode, hidKeys).shiftUp)
      ensures isShiftDown == (old(isShiftDown) || RemapKey(modifier, keycode, hidKeys).shiftDown)
    {
      var r := RemapKey(modifier, keycode, hidKeys);
      if r.shiftUp {
        isShiftUp := true;
      }
      if r.shiftDown {
        isShiftDown := true;
      }
      code := r.code;
    }

    /** `[self.remap(k) for k in self.pressed_keys]`: the codes of the pressed
        keys in the set's own iteration order, raising the flags on the way. */
    method RemapPressed() returns (codes: seq<byte>, ghost order: seq<string>)
      modifies this`isShiftUp, this`isShiftDown
      ensures Enumerates(order, pressedKeys)
      ensures codes == KeyCodes(modifier, order, hidKeys)
      ensures isShiftUp == (old(isShiftUp) || ForcesShiftOn(modifier, order, hidKeys))
      ensures isShiftDown == (old(isShiftDown) || ForcesShiftOff(modifier, order, hidKeys))
    {
      codes, order := [], [];
      var rest := pressedKeys;
      while rest != {}
        invariant rest <= pressedKeys
        invariant forall k :: k in pressedKeys <==> k in rest || k in order
        invariant forall k | k in order :: k !in rest
        invariant forall i, j | 0 <= i < j < |order| :: order[i] != order[j]
        invariant codes == KeyCodes(modifier, order, hidKeys)
        invariant isShiftUp == (old(isShiftUp) || ForcesShiftOn(modifier, order, hidKeys))
        invariant isShiftDown == (old(isShiftDown) || ForcesShiftOff(modifier, order, hidKeys))
        decreases rest
      {
        var k :| k in rest;
        ForcesStep(modifier, order, k, hidKeys);
        var code := Remap(k);
        codes := codes + [code];
        order := order + [k];
        rest := rest - {k};
      }
    }

    /** Builds the report of the current state and writes it. The flags are
        cleared first and end up telling whether any pressed key forced
        shift on or off. */
    method UpdateState()
      modifies this`isShiftUp, this`isShiftDown, this`reports
      ensures ReportAppended(old(reports), reports, modifier, pressedKeys, hidKeys)
      ensures FlagsForced(isShiftUp, isShiftDown, modifier, pressedKeys, hidKeys)
    {
      isShiftUp := false;
      isShiftDown := false;
      var pressedHidCodes, order := RemapPressed();
      var mask := modifier;
      if isShiftUp {
        mask := mask | LEFT_SHIFT;
      } else if isShiftDown {
        mask := mask & !SHIFT_BITS;
      }
      assert mask == ReportModifier(modifier, isShiftUp, isShiftDown);
      var report := FillReport(mask, pressedHidCodes);
      assert report == KeyboardReport(modifier, order, hidKeys);
      EnumerationForces(modifier, order, pressedKeys, hidKeys);
      WriteReport(report);
      assert reports[|old(reports)|] == report;
    }

    /** A modifier key event: only `keycode`'s bit moves, then a report is written. */
    method UpdateModifier(keycode: string, keystate: int)
      requires keycode in MODIFIERS_MAP
      modifies this`modifier, this`isShiftUp, this`isShiftDown, this`reports
      ensures modifier == ApplyModifier(old(modifier), MODIFIERS_MAP[keycode], keystate != 0)
      ensures ReportAppended(old(reports), reports, modifier, pressedKeys, hidKeys)
      ensures FlagsForced(isShiftUp, isShiftDown, modifier, pressedKeys, hidKeys)
    {
      if keystate == 0 {
        modifier := modifier & !Bit(MODIFIERS_MAP[keycode]);
      } else {
        modifier := modifier | Bit(MODIFIERS_MAP[keycode]);
      }
      UpdateState();
    }

    /** A key release: a report is written only if the key was pressed. */
    method Release(keycode: string)
      modifies this`pressedKeys, this`isShiftUp, this`isShiftDown, this`reports
      ensures pressedKeys == old(pressedKeys) - {keycode}
      ensures keycode in old(pressedKeys) ==>
                && ReportAppended(old(reports), reports, modifier, pressedKeys, hidKeys)
                && FlagsForced(isShiftUp, isShiftDown, modifier, pressedKeys, hidKeys)
      ensures keycode !in old(pressedKeys) ==>
                reports == old(reports) && isShiftUp == old(isShiftUp) && isShiftDown == old(isShiftDown)
    {
      if keycode in pressedKeys {
        pressedKeys := pressedKeys - {keycode};
        UpdateState();
      }
    }

    /** A key press: a report is written only if the key was not yet pressed. */
    method Press(keycode: string)
      modifies this`pressedKeys, this`isShiftUp, this`isShiftDown, this`reports
      ensures pressedKeys == old(pressedKeys) + {keycode}
      ensures keycode !in old(pressedKeys) ==>
                && ReportAppended(old(reports), reports, modifier, pressedKeys, hidKeys)
                && FlagsForced(isShiftUp, isShiftDown, modifier, pressedKeys, hidKeys)
      ensures keycode in old(pressedKeys) ==>
                reports == old(reports) && isShiftUp == old(isShiftUp) && isShiftDown == old(isShiftDown)
    {
      if keycode !in pressedKeys {
        pressedKeys := pressedKeys + {keycode};
        UpdateState();
      }
    }

    /** One event of the read loop: (type, key name, key state). Modifier keys
        move the mask and always write a report; otherwise state 0 releases,
        state 1 presses, and any other state (auto-repeat) or event type is
        ignored. */
    method HandleEvent(evType: int, keycode: string, keystate: int)
      modifies this`modifier, this`pressedKeys, this`isShiftUp, this`isShiftDown, this`reports
      ensures evType != EV_KEY || (keycode !in MODIFIERS_MAP && keystate != 0 && keystate != 1) ==>
                && modifier == old(modifier) && pressedKeys == old(pressedKeys) && reports == old(reports)
                && isShiftUp == old(isShiftUp) && isShiftDown == old(isShiftDown)
      ensures evType == EV_KEY && keycode in MODIFIERS_MAP ==>
                && pressedKeys == old(pressedKeys)
                && modifier == ApplyModifier(old(modifier), MODIFIERS_MAP[keycode], keystate != 0)
                && ReportAppended(old(reports), reports, modifier, pressedKeys, hidKeys)
                && FlagsForced(isShiftUp, isShiftDown, modifier, pressedKeys, hidKeys)
      ensures evType == EV_KEY && keycode !in MODIFIERS_MAP && keystate == 0 ==>
                && modifier == old(modifier)
                && pressedKeys == old(pressedKeys) - {keycode}
                && (keycode in old(pressedKeys) ==>
                      && ReportAppended(old(reports), reports, modifier, pressedKeys, hidKeys)
                      && FlagsForced(isShiftUp, isShiftDown, modifier, pressedKeys, hidKeys))
                && (keycode !in old(pressedKeys) ==>
                      reports == old(reports) && isShiftUp == old(isShiftUp) && isShiftDown == old(isShiftDown))
      ensures evType == EV_KEY && keycode !in MODIFIERS_MAP && keystate == 1 ==>
                && modifier == old(modifier)
                && pressedKeys == old(pressedKeys) + {keycode}
                && (keycode !in old(pressedKeys) ==>
                      && ReportAppended(old(reports), reports, modifier, pressedKeys, hidKeys)
                      && FlagsForced(isShiftUp, isShiftDown, modifier, pressedKeys, hidKeys))
                && (keycode in old(pressedKeys) ==>
                      reports == old(reports) && isShiftUp == old(isShiftUp) && isShiftDown == old(isShiftDown))
    {
      if evType != EV_KEY {
        return;
      }
      if keycode in MODIFIERS_MAP {
        UpdateModifier(keycode, keystate);
      } else if keystate == 0 {
        Release(keycode);
      } else if keystate == 1 {
        Press(keycode);
      }
    }
  }
}
