# kiri multi-device proxy, modelled in Dafny

The kiri proxy runs on a USB gadget. It grabs physical keyboards and mice
through evdev and re-emits their input as HID boot-protocol reports on the
gadget's HID endpoints (`/dev/hidg0` for the keyboard, `/dev/hidg1` and
`/dev/hidg2` for mice). Along the way it:

- remaps US key positions to a JIS host layout;
- periodically re-scans the input devices and hands out the fixed HID
  outputs to new devices;
- watches two GPIO buttons (the KeyBow). A short press sends Alt+A or Alt+Y.
  Holding both buttons requests a shutdown of the service.

This project models the stateful core of `multi_device_proxy.py`:

- `bytes.dfy` (module `Bytes`): report bytes, bit masks, and the 16-bit
  little-endian two's-complement split of the mouse report.
- `events.dfy` (module `InputEvents`): the Linux input event types that both
  proxies read.
- `wrappers.dfy` (module `Wrappers`): `Option`, for a result that may be
  missing.
- `mouse.dfy` (module `Mouse`): `MouseIndex` and the `MouseProxy` object.
  It keeps five button fields, their OR `btn`, and the three motion values.
  On each SYN_REPORT it writes a 7-byte report.
- `keyboard.dfy` (module `Keyboard`): the `KeyboardProxy` object. It keeps
  the modifier mask and the set of pressed key names, and applies the
  shift-dependent US→JIS remap with its two force-shift flags. It builds the
  8-byte boot report.
- `keybow.dfy` (module `KeyBow`): the `KeyBowManager` button state machine
  and the press/release report pair of `send_key_combination`.
- `monitor.dfy` (module `DeviceMonitor`): the output pool of one device kind
  (`reap_dead_tasks`, `manage_device_connections`), the classification of
  device names, and one cycle of `device_monitor`, including a scan that
  raises.

How each part is represented:

- Each object the source updates in place is a Dafny `class` with the same
  fields. Its methods carry `modifies` clauses, and their `ensures` state the
  new state in terms of pure specification functions.
- The HID output file of each object is a field `reports: seq<seq<byte>>`,
  and writing a report appends to it.
- The `hid_keys` table is a map given when a keyboard proxy is built.
- Python set iteration has no fixed order. It is modelled with Dafny's `:|`
  choice, plus a ghost record of the order actually taken. The keyboard
  report is therefore specified as the report of *some* enumeration of the
  pressed set (`Keyboard.IsReportOf`), and separate lemmas prove which parts
  of it do not depend on that order.
- `available_hids.pop()` takes an arbitrary element and is modelled the
  same way.

What the code does, in some places where one might expect otherwise:

- Each keyboard proxy reports only its own keys and modifiers. Nothing merges
  the keyboards, and there is one keyboard output.
- The six-key limit takes the first six keys of the unordered pressed set,
  not the six most recently pressed.
- The six-key cut happens before unknown keys (code 0) are dropped. Unknown
  keys therefore take slots (`Keyboard.UnknownKeysTakeSlots`).
- Unknown keys are not dropped on key-down. They enter the pressed set and
  remap to 0.
- The buttons send the fixed reports Alt+A and Alt+Y, not a configured text.
  There is no debounce or combination window beyond what the button library
  does.

## Model

| member | source | states |
|---|---|---|
| Bytes.BitIsShift | multi_device_proxy.py:70-74 | the bit masks are the shifts `1 << b` the source writes, and `1 << b` has exactly bit `b` set |
| Bytes.LowByte | multi_device_proxy.py:85 | `v & 0xff` is the byte congruent to `v` modulo 256, negative `v` included |
| Bytes.HighByte | multi_device_proxy.py:86 | `(v >> 8) & 0xff` is the upper byte of `v` modulo 2^16 |
| Bytes.ToInt16 | multi_device_proxy.py:85-90 | the 16-bit truncation is in [-32768, 32767], congruent to the value modulo 2^16, and the value itself when it fits |
| Bytes.TwoDigits | multi_device_proxy.py:85-86 | `v & 0xff` plus 256 times `(v >> 8) & 0xff` is `v` modulo 2^16 |
| Bytes.LowHighModulo | multi_device_proxy.py:85-86 | the low and high bytes together hold `v` modulo 2^16 |
| Bytes.Int16RoundTrip | multi_device_proxy.py:85-90 | reading the low/high pair back as signed little-endian gives `v` truncated to 16 bits, and `v` whenever it lies in [-32768, 32767] |
| Mouse.EncodeReport | multi_device_proxy.py:82-90 | the report is 7 bytes: `btn` at TIP_SW, and each motion value as a low/high pair holding it modulo 2^16 |
| Mouse.DecodeReport | multi_device_proxy.py:22-23 | a report decodes exactly when it has `MouseIndex.MAX` = 7 bytes, and each decoded delta is a signed 16-bit value |
| Mouse.ReportRoundTrip | multi_device_proxy.py:82-90 | decoding the written report gives back the button byte and each motion value truncated to 16 bits, and the values themselves when they fit |
| Mouse.KeyEvent | multi_device_proxy.py:68-74 | a button event keeps every field 0 or its own bit |
| Mouse.ButtonMask | multi_device_proxy.py:75 | `btn` is the OR of the five button fields; `MaskBits` proves what that OR holds |
| Mouse.MaskBits | multi_device_proxy.py:75 | the OR of valid fields is at most 31 and has bit i set exactly when button i's field is non-zero |
| Mouse.KeyEventBits | multi_device_proxy.py:68-75 | an event sets its own button's bit when value is 1 and clears it otherwise; the other bits keep their values |
| Mouse.MouseProxy.constructor | multi_device_proxy.py:26-32 | a new proxy remembers its paths, has no buttons pressed, no motion and no report written |
| Mouse.MouseProxy.ResetState | multi_device_proxy.py:44-46 | every button field, `btn` and every motion value is 0 |
| Mouse.MouseProxy.HandleKeyEvent | multi_device_proxy.py:68-75 | keeps `btn` the OR of the fields, `btn` <= 31, and changes only the event's own button bit |
| Mouse.MouseProxy.HandleRelEvent | multi_device_proxy.py:77-80 | only the axis named by the code takes the event's value |
| Mouse.MouseProxy.WriteReport | multi_device_proxy.py:94-97 | the buffer is appended to the output |
| Mouse.MouseProxy.UpdateState | multi_device_proxy.py:82-92 | appends exactly the encoded report of the state, then zeroes the motion and leaves `btn` unchanged |
| Mouse.MouseProxy.HandleEvent | multi_device_proxy.py:54-58 | EV_KEY applies the button event to the fields and moves nothing else; EV_REL sets the named axis; SYN_REPORT appends the encoded report and zeroes the motion; any other event changes nothing, and only EV_KEY moves the buttons |
| Keyboard.ShiftBitsAreShiftKeys | multi_device_proxy.py:114-132 | `Shiftbit` 0x22 is the left-shift and right-shift bits of `modifiers_map`, and 0x02 is left shift |
| Keyboard.ApplyModifier | multi_device_proxy.py:158-160 | a modifier event sets its bit on any non-zero state and clears it on 0; the other seven bits are unchanged |
| Keyboard.ApplyModifierIdempotent | multi_device_proxy.py:158-160 | repeating a modifier event changes nothing more |
| Keyboard.Shifted | multi_device_proxy.py:177 | `modifier & Shiftbit` is non-zero exactly when left or right shift is down |
| Keyboard.Translate | multi_device_proxy.py:175-194 | the chain of cases raises shift-up only for the three listed keys with no shift down, and shift-down only for the three listed keys with one down |
| Keyboard.Lookup | multi_device_proxy.py:195 | `hid_keys.get(name, 0)`: the table's code, or 0 for a name it lacks |
| Keyboard.RemapKey | multi_device_proxy.py:173-195 | a key absent from `hid_keys` gives 0 and no flag; shift-up is raised exactly by the listed keys while no shift is down, and shift-down exactly by the listed keys while one is |
| Keyboard.RemapMatchesTables | multi_device_proxy.py:174-195 | a known key is sent as its entry in the table of the current shift state, or as itself when it has none |
| Keyboard.TranslateShifted | multi_device_proxy.py:175-189 | with shift down the chain of cases is the shifted table |
| Keyboard.TranslateShiftedListed | multi_device_proxy.py:175-189 | with shift down each key of the shifted table is sent as its entry |
| Keyboard.TranslateUnshifted | multi_device_proxy.py:175-194 | with no shift down the chain of cases is the unshifted table |
| Keyboard.RemapBraces | multi_device_proxy.py:175-176 | the braces are remapped whatever the shift state, and raise no flag |
| Keyboard.RemapPassThrough | multi_device_proxy.py:174-195 | a known key the active branch does not name is sent as `hid_keys[key]` with no flag |
| Keyboard.KeyCodes | multi_device_proxy.py:201 | one code per enumerated key, each the remap of that key |
| Keyboard.ForcesShiftOn | multi_device_proxy.py:198-203 | some pressed key forces shift on, which can happen only while no shift is down |
| Keyboard.ForcesShiftOff | multi_device_proxy.py:198-204 | some pressed key forces shift off, which can happen only while a shift is down |
| Keyboard.ForcesStep | multi_device_proxy.py:201 | remapping one more key raises a flag when it was raised already or that key raises it |
| Keyboard.NonZero | multi_device_proxy.py:206 | `filter(None, …)` keeps every non-zero code as often as it occurs, and only those |
| Keyboard.FirstSix | multi_device_proxy.py:206 | `[:6]` is the longest prefix of at most six codes |
| Keyboard.PackKeys | multi_device_proxy.py:206-207 | bytes 2..7 are six bytes holding exactly the non-zero codes of the first six, zeros aside |
| Keyboard.ReportModifier | multi_device_proxy.py:202-205 | shift-up sets left shift; otherwise shift-down clears both shifts; no other bit moves |
| Keyboard.KeyboardReport | multi_device_proxy.py:197-208 | the report is 8 bytes and byte 1 is 0 |
| Keyboard.ReportLayout | multi_device_proxy.py:200-207 | byte 0 is the adjusted modifier; the non-zero codes of the first six come first, then zeros, holding the same non-zero codes |
| Keyboard.EnumerationsArePermutations | multi_device_proxy.py:201 | two iteration orders of one set are permutations of each other |
| Keyboard.KeyCodesPermutation | multi_device_proxy.py:201 | permuting the keys permutes their codes |
| Keyboard.NonZeroPermutation | multi_device_proxy.py:206 | filtering permuted codes gives permuted results |
| Keyboard.ReportKeyBytes | multi_device_proxy.py:206-207 | bytes 2..7 are the packed codes |
| Keyboard.PackKeysPermutation | multi_device_proxy.py:206-207 | with at most six codes, the key bytes of permuted codes are a permutation |
| Keyboard.PaddedPermutation | multi_device_proxy.py:206-207 | zero-padding two permuted code lists to six bytes keeps them permuted |
| Keyboard.ReportModifierOrderIndependent | multi_device_proxy.py:201-205 | byte 0 does not depend on the iteration order of the pressed set |
| Keyboard.ReportKeysOrderIndependent | multi_device_proxy.py:201-207 | with at most six keys pressed, the key bytes are the same multiset in every iteration order |
| Keyboard.EnumerationLength | multi_device_proxy.py:201 | an iteration of a set visits as many keys as it has |
| Keyboard.KeyBytesComeFromKeys | multi_device_proxy.py:201-207 | every non-zero key byte is the code of one of the first six enumerated keys |
| Keyboard.ReportKeysArePressed | multi_device_proxy.py:197-208 | every non-zero key byte of a written report is the code of a pressed key |
| Keyboard.ReportCarriesPressedKeys | multi_device_proxy.py:201-207 | with at most six keys pressed, every pressed key with a non-zero code appears in the report |
| Keyboard.UnknownKeysTakeSlots | multi_device_proxy.py:206 | when the first six enumerated keys are unknown, no code is sent, whatever keys follow |
| Keyboard.AllZeroDropped | multi_device_proxy.py:206 | filtering only zero codes leaves nothing |
| Keyboard.FlagsExclusive | multi_device_proxy.py:185-194 | no build raises both the shift-up and the shift-down flag |
| Keyboard.EnumerationForces | multi_device_proxy.py:198-201 | whether a build forces shift on or off depends only on the pressed set |
| Keyboard.SingleKeyReport | multi_device_proxy.py:197-208 | with one key pressed the report is its adjusted modifier byte, 0, and its code alone |
| Keyboard.OneKeyReport | multi_device_proxy.py:197-208 | the report of a one-key enumeration |
| Keyboard.OneKeyPacked | multi_device_proxy.py:206-207 | one non-zero code is packed into the first slot, followed by five zeros |
| Keyboard.ShiftedAReport | multi_device_proxy.py:197-208 | left shift with A (usage 0x04) pressed gives 02 00 04 00 00 00 00 00 |
| Keyboard.FillReport | multi_device_proxy.py:200-207 | the filled buffer is the mask, 0, then the packed codes |
| Keyboard.FilledIsPacked | multi_device_proxy.py:205-207 | a buffer holding the mask, 0, the packed codes and then zeros is that report |
| Keyboard.KeyboardProxy.constructor | multi_device_proxy.py:108-115 | a new proxy has no modifier, no key pressed, both flags false, and no report written |
| Keyboard.KeyboardProxy.ResetState | multi_device_proxy.py:127-132 | modifier 0, empty pressed set, both flags false |
| Keyboard.KeyboardProxy.WriteReport | multi_device_proxy.py:210-213 | the report is appended to the output |
| Keyboard.KeyboardProxy.Remap | multi_device_proxy.py:173-195 | returns the remapped code and raises exactly the flags the remap asks for |
| Keyboard.KeyboardProxy.RemapPressed | multi_device_proxy.py:201 | the codes of the pressed keys in one iteration order, with the flags raised by any of them |
| Keyboard.KeyboardProxy.UpdateState | multi_device_proxy.py:197-208 | appends one report of the current state; each flag ends up true exactly when some pressed key forces it |
| Keyboard.KeyboardProxy.UpdateModifier | multi_device_proxy.py:158-161 | moves only the key's modifier bit, then appends a report of the new state, leaving each flag true exactly when some pressed key forces it |
| Keyboard.KeyboardProxy.Release | multi_device_proxy.py:163-166 | removes the key; writes a report only if it was pressed, and then each flag ends up true exactly when some pressed key forces it; otherwise changes nothing |
| Keyboard.KeyboardProxy.Press | multi_device_proxy.py:168-171 | adds the key; writes a report only if it was not yet pressed, and then each flag ends up true exactly when some pressed key forces it; otherwise changes nothing |
| Keyboard.KeyboardProxy.HandleEvent | multi_device_proxy.py:141-148 | a modifier key moves only its bit and always appends a report; state 0 removes the key and writes only if it was pressed; state 1 adds it and writes only if it was not; after every write each flag is true exactly when some pressed key forces it; other states and event types change nothing |
| KeyBow.PressReport | multi_device_proxy.py:238-240 | the press report has the keyboard proxy's layout: the modifier, 0, then the key packed into the first slot (no key at all when the code is 0) |
| KeyBow.ReleaseReport | multi_device_proxy.py:242 | the release report has the keyboard proxy's layout with modifier 0 and no key |
| KeyBow.SameAsKeyboardProxy | multi_device_proxy.py:236-240 | the press report equals the report the keyboard proxy writes for Left Alt plus that key |
| KeyBow.ReleaseIsEmptyKeyboardReport | multi_device_proxy.py:242 | the release report equals the keyboard proxy's report with nothing held |
| KeyBow.AltAAndAltY | multi_device_proxy.py:264-280 | button 1 sends 04 00 04 00 00 00 00 00 and button 2 sends 04 00 1c 00 00 00 00 00, with 0x04 the Left Alt bit |
| KeyBow.KeyBowManager.constructor | multi_device_proxy.py:224-227 | writes to `/dev/hidg0`, and neither button starts out held |
| KeyBow.KeyBowManager.SendKeyCombination | multi_device_proxy.py:236-247 | appends the press report, then the release report |
| KeyBow.KeyBowManager.Held1 | multi_device_proxy.py:254-258 | marks button 1 held, and starts a shutdown exactly when button 2 is held |
| KeyBow.KeyBowManager.Released1 | multi_device_proxy.py:260-262 | sends Alt+A only if button 1 was not held; always leaves it not held |
| KeyBow.KeyBowManager.Pressed1 | multi_device_proxy.py:264-266 | appends the Alt+A press/release pair |
| KeyBow.KeyBowManager.Held2 | multi_device_proxy.py:268-272 | marks button 2 held, and starts a shutdown exactly when button 1 is held |
| KeyBow.KeyBowManager.Released2 | multi_device_proxy.py:274-276 | sends Alt+Y only if button 2 was not held; always leaves it not held |
| KeyBow.KeyBowManager.Pressed2 | multi_device_proxy.py:278-280 | appends the Alt+Y press/release pair |
| KeyBow.HoldThenRelease1 | multi_device_proxy.py:254-262 | a hold then release of button 1 writes nothing, and starts a shutdown exactly when button 2 was held |
| DeviceMonitor.IsKeyboardName | multi_device_proxy.py:298 | the keyboard pattern, anchored at the start only: the name begins with one of its three alternatives |
| DeviceMonitor.IsMouseName | multi_device_proxy.py:297 | the mouse pattern, anchored at the start only: the name begins with one of its two alternatives |
| DeviceMonitor.DeviceNames | multi_device_proxy.py:297-298 | concrete names: an alternative without `.*` still accepts longer names, and a vendor name later in the string does not match |
| DeviceMonitor.KindsAreDisjoint | multi_device_proxy.py:297-298 | no device name matches both the keyboard and the mouse pattern |
| DeviceMonitor.ScanIsPartitioned | multi_device_proxy.py:313-315 | no scanned device is both a keyboard and a mouse |
| DeviceMonitor.Partitioned | multi_device_proxy.py:303-306 | the pool invariant: free outputs belong to the kind, no two sessions share an output, and the held outputs are exactly the others |
| DeviceMonitor.InjectiveCount | multi_device_proxy.py:343 | sessions that share no output hold as many outputs as there are sessions |
| DeviceMonitor.PartitionedCount | multi_device_proxy.py:299-306 | managed devices plus free outputs are the pool's outputs, so a pool never proxies more devices than it has outputs |
| DeviceMonitor.PoolSizes | multi_device_proxy.py:299-300 | the keyboard pool has one output and the mouse pool two, and no output is in both |
| DeviceMonitor.StartMonitor | multi_device_proxy.py:299-306 | both pools start empty, each with every output of its kind free |
| DeviceMonitor.PartitionedAssign | multi_device_proxy.py:338-343 | giving a free output to a new device keeps the partition of the outputs |
| DeviceMonitor.PartitionedRelease | multi_device_proxy.py:346-348 | dropping a session and returning its output keeps the partition |
| DeviceMonitor.PartitionedMarkDone | multi_device_proxy.py:323 | a task finishing keeps the partition |
| DeviceMonitor.ManagedDevices.constructor | multi_device_proxy.py:303-306 | no device is managed and every output is free |
| DeviceMonitor.ManagedDevices.TaskEnded | multi_device_proxy.py:323 | the task of the path is marked done; nothing else changes |
| DeviceMonitor.ManagedDevices.ReapDeadTasks | multi_device_proxy.py:322-329 | keeps exactly the running sessions, unchanged, and frees exactly the outputs of the finished ones |
| DeviceMonitor.ManagedDevices.ManageDeviceConnections | multi_device_proxy.py:331-349 | keeps the partition; afterwards only current devices are managed and kept sessions are unchanged; new sessions are unfinished and hold formerly free outputs; every new device got one unless the free outputs ran out; vanished devices' outputs are free |
| DeviceMonitor.ManagedDevices.ConnectNew | multi_device_proxy.py:334-343 | every new path takes a free output until none is left; sessions already present are unchanged |
| DeviceMonitor.ManagedDevices.StartProxy | multi_device_proxy.py:338-343 | one free output moves from the pool to a new unfinished session |
| DeviceMonitor.ManagedDevices.DisconnectGone | multi_device_proxy.py:344-349 | removes exactly the vanished paths and frees exactly their outputs |
| DeviceMonitor.MonitorCycle | multi_device_proxy.py:309-319 | both pools stay partitioned, at most one keyboard and two mice are proxied, and no managed task is finished; a scan that raises leaves only the reaps done; otherwise each pool ends as `manage_device_connections` leaves it, starting from its reaped state, for the devices of its kind, and no device is in both pools |
| DeviceMonitor.FreeOutputIsTaken | multi_device_proxy.py:309-343 | a keyboard that is the only one scanned, while the keyboard output is free, is proxied afterwards by an unfinished task on that output |

## Left out

- Device I/O: `connect_device`, `grab`, `async_read_loop`, `categorize` and
  `list_devices` are foreign calls. Events are plain (type, code, value)
  inputs, and a keyboard event carries its key name directly. The
  list-valued keycode of `categorize` (line 144) is not modelled.
- The `run` coroutines (lines 48–66, 134–156), their retry sleeps, the
  `except Exception: reset_state` path, `shutdown`, `handle_exception` and
  the signal handlers. These are scheduler plumbing. A task's end is
  represented only by `DeviceMonitor.ManagedDevices.TaskEnded`.
- File writes: `write_report` and `send_key_combination` append to
  `reports`. A failed write, including the errno 108 re-raise that ends a
  proxy task, is not modelled. The 10 ms pause between press and release is
  not modelled either.
- Task cancellation in `manage_device_connections` (line 347) and the
  creation of the proxy object and its task (lines 341–342). A session
  records only its output and a done flag.
- gpiozero timing (`hold_time`, `bounce_time`): the `Held*` and `Released*`
  methods are the library's callbacks. `shutdown` is counted as a request.
  Whether `asyncio.create_task` (lines 258, 272) can start it from the
  callback's thread, which has no running event loop, is not modelled.
- The scan itself is an input: a map from device path to device name, or
  `None` when listing or opening a device raises. The patterns are modelled
  as prefix tests. That is exact for these literal
  alternatives and trailing `.*`, because `re.match` anchors only at the
  start.
- The contents of `hid_keys`: the proxy is given an arbitrary map.
- Logging.
- Keyboard.KeyboardProxy.UpdateState: the report is stated for some
  iteration order of the pressed set, because Python fixes none.
  `ReportModifierOrderIndependent` and `ReportKeysOrderIndependent` prove
  what does not depend on the order.
- Keyboard.ReportCarriesPressedKeys: holds only for at most six pressed keys.
  With more, the code keeps an arbitrary six (`UnknownKeysTakeSlots`).
- DeviceMonitor.MonitorCycle: the `except Exception` of lines 318-319 is
  modelled only for a failing scan. An exception raised inside
  `manage_device_connections`, which would leave one pool half updated, is
  not modelled, since nothing in the modelled part of that function raises.
- DeviceMonitor.ManagedDevices.ManageDeviceConnections: when there are fewer
  free outputs than new devices, which devices get one, and which output each
  gets, follows set order. The contract leaves that choice open.
