/** The device monitor: every scan it reaps finished proxy tasks, classifies
    the input devices by name into keyboards and mice, and gives each newly
    seen device a free HID output of its kind, taking the output back when
    the device disappears. Each kind has its own pool: one output for
    keyboards and two for mice. */
module DeviceMonitor {
  import opened Wrappers

  const KEYBOARD_HID_OUTPUTS: seq<string> := ["/dev/hidg0"]
  const MOUSE_HID_OUTPUTS: seq<string> := ["/dev/hidg1", "/dev/hidg2"]

  /** The keyboard pool has one output and the mouse pool two, all distinct. */
  lemma PoolSizes()
    ensures |set o | o in KEYBOARD_HID_OUTPUTS| == 1
    ensures |set o | o in MOUSE_HID_OUTPUTS| == 2
    ensures (set o | o in KEYBOARD_HID_OUTPUTS) * (set o | o in MOUSE_HID_OUTPUTS) == {}
  {
    assert (set o | o in KEYBOARD_HID_OUTPUTS) == {"/dev/hidg0"};
    assert (set o | o in MOUSE_HID_OUTPUTS) == {"/dev/hidg1", "/dev/hidg2"};
    assert "/dev/hidg1" != "/dev/hidg2" by { assert "/dev/hidg1"[9] != "/dev/hidg2"[9]; }
  }

  // ---------------------------------------------------------------------
  // Classifying devices by name

  predicate HasPrefix(s: string, prefix: string) {
    |prefix| <= |s| && s[..|prefix|] == prefix
  }

  /** `re.match('HHKB-Studio4 Keyboard|HHKB-Hybrid.*|PFU.*', name)`: the
      match is anchored at the start only, so each alternative is a prefix. */
  predicate IsKeyboardName(name: string) {
    HasPrefix(name, "HHKB-Studio4 Keyboard") || HasPrefix(name, "HHKB-Hybrid") || HasPrefix(name, "PFU")
  }

  /** `re.match('HHKB-Studio4 Mouse|Logitech.*', name)`. */
  predicate IsMouseName(name: string) {
    HasPrefix(name, "HHKB-Studio4 Mouse") || HasPrefix(name, "Logitech")
  }

  /** How the patterns classify some names: `re.match` anchors only at the
      start, so an alternative without `.*` still accepts longer names, and a
      vendor name later in the string is not enough. */
  lemma DeviceNames()
    ensures IsKeyboardName("HHKB-Studio4 Keyboard") && IsMouseName("HHKB-Studio4 Mouse")
    ensures IsKeyboardName("HHKB-Studio4 Keyboard Consumer Control")
    ensures IsKeyboardName("PFU HHKB Professional") && IsKeyboardName("HHKB-Hybrid_1 Keyboard")
    ensures IsMouseName("Logitech USB Receiver")
    ensures !IsKeyboardName("HHKB-Studio4") && !IsMouseName("HHKB-Studio4")
    ensures !IsMouseName("USB Logitech Mouse")
  {
    assert "HHKB-Studio4 Keyboard Consumer Control"[..21] == "HHKB-Studio4 Keyboard";
    assert "PFU HHKB Professional"[..3] == "PFU";
    assert "HHKB-Hybrid_1 Keyboard"[..11] == "HHKB-Hybrid";
    assert "Logitech USB Receiver"[..8] == "Logitech";
    assert "HHKB-Studio4"[..11] != "HHKB-Hybrid" by {
      assert "HHKB-Studio4"[..11][5] != "HHKB-Hybrid"[5];
    }
    assert "HHKB-Studio4"[..3] != "PFU" by {
      assert "HHKB-Studio4"[..3][0] != "PFU"[0];
    }
    assert "HHKB-Studio4"[..8] != "Logitech" by {
      assert "HHKB-Studio4"[..8][0] != "Logitech"[0];
    }
    assert "USB Logitech Mouse"[..8] != "Logitech" by {
      assert "USB Logitech Mouse"[0] != "Logitech"[0];
    }
    assert "USB Logitech Mouse"[..18] != "HHKB-Studio4 Mouse" by {
      assert "USB Logitech Mouse"[0] != "HHKB-Studio4 Mouse"[0];
    }
  }

  /** Two prefixes of one string agree on their common length. */
  lemma PrefixesAgree(s: string, p: string, q: string, n: nat)
    requires HasPrefix(s, p) && HasPrefix(s, q) && n < |p| && n < |q|
    ensures p[n] == q[n]
  {
    assert p[n] == s[..|p|][n] == s[n];
    assert q[n] == s[..|q|][n] == s[n];
  }

  /** No device name is both a keyboard and a mouse, so no device is given
      to both pools. */
  lemma {:induction false} KindsAreDisjoint(name: string)
    ensures !(IsKeyboardName(name) && IsMouseName(name))
  {
    if HasPrefix(name, "HHKB-Studio4 Mouse") {
      if HasPrefix(name, "HHKB-Studio4 Keyboard") {
        PrefixesAgree(name, "HHKB-Studio4 Keyboard", "HHKB-Studio4 Mouse", 13);
      }
      if HasPrefix(name, "HHKB-Hybrid") {
        PrefixesAgree(name, "HHKB-Hybrid", "HHKB-Studio4 Mouse", 5);
      }
      if HasPrefix(name, "PFU") {
        PrefixesAgree(name, "PFU", "HHKB-Studio4 Mouse", 0);
      }
    }
    if HasPrefix(name, "Logitech") {
      if HasPrefix(name, "HHKB-Studio4 Keyboard") {
        PrefixesAgree(name, "HHKB-Studio4 Keyboard", "Logitech", 0);
      }
      if HasPrefix(name, "HHKB-Hybrid") {
        PrefixesAgree(name, "HHKB-Hybrid", "Logitech", 0);
      }
      if HasPrefix(name, "PFU") {
        PrefixesAgree(name, "PFU", "Logitech", 0);
      }
    }
  }

  /** The paths of the scanned devices (path to name) whose name the
      predicate of the kind accepts. */
  function Keyboards(devices: map<string, string>): set<string> {
    set p | p in devices && IsKeyboardName(devices[p])
  }

  function Mice(devices: map<string, string>): set<string> {
    set p | p in devices && IsMouseName(devices[p])
  }

  lemma {:induction false} ScanIsPartitioned(devices: map<string, string>)
    ensures Keyboards(devices) * Mice(devices) == {}
  {
    forall p | p in Keyboards(devices) * Mice(devices)
      ensures false
    {
      KindsAreDisjoint(devices[p]);
    }
  }

  // ---------------------------------------------------------------------
  // The pool of one kind

  /** A managed device: its proxy task (finished or not) and its output. */
  datatype Session = Session(done: bool, hidOutput: string)

  /** The outputs the sessions hold. */
  function HeldOutputs(managed: map<string, Session>): set<string> {
    set p | p in managed :: managed[p].hidOutput
  }

  /** No two sessions share an output. */
  predicate Injective(managed: map<string, Session>) {
    forall p, q | p in managed && q in managed && p != q :: managed[p].hidOutput != managed[q].hidOutput
  }

  /** Every output is either free or held by exactly one session. */
  predicate Partitioned(outputs: set<string>, managed: map<string, Session>, available: set<string>) {
    && available <= outputs
    && Injective(managed)
    && HeldOutputs(managed) == outputs - available
  }

  /** The sessions whose task is still running. */
  function Running(managed: map<string, Session>): map<string, Session> {
    map p | p in managed && !managed[p].done :: managed[p]
  }

  /** The outputs of the sessions whose task has finished. */
  function FinishedOutputs(managed: map<string, Session>): set<string> {
    set p | p in managed && managed[p].done :: managed[p].hidOutput
  }

  /** What `manage_device_connections` leaves behind, for a pool whose
      sessions were `before` and whose free outputs were `pool`, given the
      devices `current`: only current devices are managed; the sessions of
      current devices are kept as they were; each new session is unfinished
      and holds an output that was free; every new device got one unless the
      free outputs ran out; and the outputs of vanished devices are free. */
  ghost predicate Connected(before: map<string, Session>, pool: set<string>, current: set<string>,
                            after: map<string, Session>, available: set<string>) {
    && after.Keys <= current
    && (forall p | p in before && p in current :: p in after && after[p] == before[p])
    && (forall p | p in after && p !in before :: !after[p].done && after[p].hidOutput in pool)
    && (current - before.Keys <= after.Keys || pool * available == {})
    && (forall p | p in before && p !in current :: before[p].hidOutput in available)
  }

  /** The outputs held are those the other sessions hold plus the one of `path`. */
  lemma HeldWithout(m: map<string, Session>, path: string)
    requires path in m
    ensures HeldOutputs(m) == HeldOutputs(m - {path}) + {m[path].hidOutput}
  {
    var rest := m - {path};
    forall x | x in HeldOutputs(m)
      ensures x in HeldOutputs(rest) + {m[path].hidOutput}
    {
      var q :| q in m && m[q].hidOutput == x;
      if q != path {
        assert q in rest;
      }
    }
    forall x | x in HeldOutputs(rest)
      ensures x in HeldOutputs(m)
    {
      var q :| q in rest && rest[q].hidOutput == x;
      assert q in m;
    }
  }

  lemma {:induction false} InjectiveCount(m: map<string, Session>)
    requires Injective(m)
    ensures |HeldOutputs(m)| == |m|
    decreases |m|
  {
    if m != map[] {
      var p :| p in m;
      var rest := m - {p};
      assert rest.Keys == m.Keys - {p};
      InjectiveCount(rest);
      HeldWithout(m, p);
      assert m[p].hidOutput !in HeldOutputs(rest);
    }
  }

  /** Sessions plus free outputs are the outputs, so a pool never proxies
      more devices than it has outputs. */
  lemma {:induction false} PartitionedCount(outputs: set<string>, managed: map<string, Session>, available: set<string>)
    requires Partitioned(outputs, managed, available)
    ensures |managed| + |available| == |outputs|
    ensures |managed| <= |outputs|
  {
    InjectiveCount(managed);
    assert outputs == (outputs - available) + available;
  }

  /** Giving a free output to a new device keeps the partition. */
  lemma {:induction false} PartitionedAssign(outputs: set<string>, managed: map<string, Session>, available: set<string>,
                                             path: string, output: string)
    requires Partitioned(outputs, managed, available)
    requires path !in managed && output in available
    ensures Partitioned(outputs, managed[path := Session(false, output)], available - {output})
  {
    var m := managed[path := Session(false, output)];
    assert m - {path} == managed;
    HeldWithout(m, path);
  }

  /** Dropping a session and returning its output keeps the partition. */
  lemma {:induction false} PartitionedRelease(outputs: set<string>, managed: map<string, Session>, available: set<string>,
                                              path: string)
    requires Partitioned(outputs, managed, available)
    requires path in managed
    ensures Partitioned(outputs, managed - {path}, available + {managed[path].hidOutput})
  {
    var m := managed - {path};
    var o := managed[path].hidOutput;
    HeldWithout(managed, path);
    assert o !in HeldOutputs(m);
  }

  /** Marking a task finished keeps the partition. */
  lemma {:induction false} PartitionedMarkDone(outputs: set<string>, managed: map<string, Session>, available: set<string>,
                                               path: string)
    requires Partitioned(outputs, managed, available)
    requires path in managed
    ensures Partitioned(outputs, managed[path := Session(true, managed[path].hidOutput)], available)
  {
    var m := managed[path := Session(true, managed[path].hidOutput)];
    assert m - {path} == managed - {path};
    HeldWithout(m, path);
    HeldWithout(managed, path);
  }

  /** One kind's bookkeeping in `device_monitor`: the dictionary of managed
      devices and the set of free outputs. */
  class ManagedDevices {
    /** The outputs of this kind. */
    const outputs: set<string>
    var managed: map<string, Session>
    var available: set<string>

    predicate Valid()
      reads this
    {
      Partitioned(outputs, managed, available)
    }

    /** No device yet; every output free. */
    constructor (hidOutputs: seq<string>)
      ensures outputs == set o | o in hidOutputs
      ensures managed == map[] && available == outputs
      ensures Valid()
    {
      outputs := set o | o in hidOutputs;
      managed := map[];
      available := set o | o in hidOutputs;
    }

    /** The proxy task of `path` has returned (its device went away or its
        output shut down). */
    method TaskEnded(path: string)
      requires Valid() && path in managed
      modifies this`managed
      ensures Valid()
      ensures managed == old(managed)[path := Session(true, old(managed)[path].hidOutput)]
    {
      PartitionedMarkDone(outputs, managed, available, path);
      managed := managed[path := Session(true, managed[path].hidOutput)];
    }

    /** `reap_dead_tasks`: drops every finished session and frees its output. */
    method ReapDeadTasks()
      requires Valid()
      modifies this`managed, this`available
      ensures Valid()
      ensures managed == Running(old(managed))
      ensures available == old(available) + FinishedOutputs(old(managed))
    {
      var deadTasksPaths := set p | p in managed && managed[p].done;
      ghost var reaped: set<string> := {};
      while deadTasksPaths != {}
        invariant Valid()
        invariant deadTasksPaths * reaped == {}
        invariant deadTasksPaths + reaped == set p | p in old(managed) && old(managed)[p].done
        invariant forall p :: p in managed <==> p in old(managed) && p !in reaped
        invariant forall p | p in managed :: managed[p] == old(managed)[p]
        invariant available == old(available) + set p | p in reaped :: old(managed)[p].hidOutput
        decreases deadTasksPaths
      {
        var path :| path in deadTasksPaths;
        var info := managed[path];
        PartitionedRelease(outputs, managed, available, path);
        managed := managed - {path};
        available := available + {info.hidOutput};
        deadTasksPaths := deadTasksPaths - {path};
        reaped := reaped + {path};
      }
    }

    /** `manage_device_connections`: each device of `current` not yet managed
        gets a free output while any is left; then each managed device not in
        `current` is dropped and its output freed (its task is cancelled). */
    method ManageDeviceConnections(current: set<string>)
      requires Valid()
      modifies this`managed, this`available
      ensures Valid()
      ensures Connected(old(managed), old(available), current, managed, available)
    {
      var managedPaths := managed.Keys;
      ConnectNew(current - managedPaths);
      DisconnectGone(managedPaths - current);
      assert forall p | p in managedPaths - current :: old(managed)[p].hidOutput !in old(available) by {
        forall p | p in managedPaths - current
          ensures old(managed)[p].hidOutput in HeldOutputs(old(managed))
        {
        }
      }
    }

    /** The first loop of `manage_device_connections`: each path of
        `newPaths`, in some order, takes a free output while any is left. */
    method ConnectNew(newPaths: set<string>)
      requires Valid() && newPaths * managed.Keys == {}
      modifies this`managed, this`available
      ensures Valid()
      ensures managed.Keys <= old(managed).Keys + newPaths
      ensures forall p | p in old(managed) :: p in managed && managed[p] == old(managed)[p]
      ensures forall p | p in managed && p !in old(managed) ::
                !managed[p].done && managed[p].hidOutput in old(available)
      ensures available <= old(available)
      ensures newPaths <= managed.Keys || available == {}
    {
      var rest := newPaths;
      ghost var visited: set<string> := {};
      while rest != {}
        invariant Valid()
        invariant rest * visited == {} && rest + visited == newPaths
        invariant rest * managed.Keys == {}
        invariant managed.Keys <= old(managed).Keys + visited
        invariant forall p | p in old(managed) :: p in managed && managed[p] == old(managed)[p]
        invariant forall p | p in managed && p !in old(managed) ::
                    !managed[p].done && managed[p].hidOutput in old(available)
        invariant available <= old(available)
        invariant visited <= managed.Keys || available == {}
        decreases rest
      {
        var path :| path in rest;
        if available != {} {
          StartProxy(path);
        }
        rest := rest - {path};
        visited := visited + {path};
      }
    }

    /** The body of the first loop for a device with a free output left:
        `available_hids.pop()` takes some free output, and a new, unfinished
        task for `path` holds it. */
    method StartProxy(path: string)
      requires Valid() && path !in managed && available != {}
      modifies this`managed, this`available
      ensures Valid()
      ensures path in managed && !managed[path].done && managed[path].hidOutput in old(available)
      ensures managed == old(managed)[path := managed[path]]
      ensures available == old(available) - {managed[path].hidOutput}
    {
      var outputPath :| outputPath in available;
      PartitionedAssign(outputs, managed, available, path, outputPath);
      managed := managed[path := Session(false, outputPath)];
      available := available - {outputPath};
    }

    /** The second loop of `manage_device_connections`: each path of
        `gonePaths` is dropped and its output returned to the pool. */
    method DisconnectGone(gonePaths: set<string>)
      requires Valid() && gonePaths <= managed.Keys
      modifies this`managed, this`available
      ensures Valid()
      ensures managed == old(managed) - gonePaths
      ensures available == old(available) + set p | p in gonePaths :: old(managed)[p].hidOutput
    {
      var rest := gonePaths;
      ghost var gone: set<string> := {};
      while rest != {}
        invariant Valid()
        invariant rest * gone == {} && rest + gone == gonePaths
        invariant managed == old(managed) - gone
        invariant available == old(available) + set p | p in gone :: old(managed)[p].hidOutput
        decreases rest
      {
        var path :| path in rest;
        var info := managed[path];
        PartitionedRelease(outputs, managed, available, path);
        managed := managed - {path};
        available := available + {info.hidOutput};
        rest := rest - {path};
        gone := gone + {path};
      }
    }
  }

  /** The start of `device_monitor`: an empty pool per kind, each with all of
      its outputs free. */
  method StartMonitor() returns (keyboards: ManagedDevices, mice: ManagedDevices)
    ensures fresh(keyboards) && fresh(mice) && keyboards != mice
    ensures keyboards.Valid() && mice.Valid()
    ensures keyboards.outputs == set o | o in KEYBOARD_HID_OUTPUTS
    ensures mice.outputs == set o | o in MOUSE_HID_OUTPUTS
    ensures keyboards.managed == map[] && keyboards.available == keyboards.outputs
    ensures mice.managed == map[] && mice.available == mice.outputs
  {
    keyboards := new ManagedDevices(KEYBOARD_HID_OUTPUTS);
    mice := new ManagedDevices(MOUSE_HID_OUTPUTS);
  }

  /** One cycle of the `device_monitor` loop: reap both pools, then, when the
      scan (device path to device name) succeeds, classify the devices and
      connect and disconnect each kind in its own pool. A scan that raises
      (`None`) skips the rest of the cycle, so only the reaps happen. The
      5-second sleep is not modelled. */
  method MonitorCycle(keyboards: ManagedDevices, mice: ManagedDevices, scan: Option<map<string, string>>)
    requires keyboards != mice && keyboards.Valid() && mice.Valid()
    requires keyboards.outputs == set o | o in KEYBOARD_HID_OUTPUTS
    requires mice.outputs == set o | o in MOUSE_HID_OUTPUTS
    modifies keyboards, mice
    ensures keyboards.Valid() && mice.Valid()
    ensures |keyboards.managed| <= 1 && |mice.managed| <= 2
    ensures scan.None? ==>
              && keyboards.managed == Running(old(keyboards.managed))
              && keyboards.available == old(keyboards.available) + FinishedOutputs(old(keyboards.managed))
              && mice.managed == Running(old(mice.managed))
              && mice.available == old(mice.available) + FinishedOutputs(old(mice.managed))
    ensures scan.Some? ==>
              && Connected(Running(old(keyboards.managed)),
                           old(keyboards.available) + FinishedOutputs(old(keyboards.managed)),
                           Keyboards(scan.value), keyboards.managed, keyboards.available)
              && Connected(Running(old(mice.managed)),
                           old(mice.available) + FinishedOutputs(old(mice.managed)),
                           Mice(scan.value), mice.managed, mice.available)
              && keyboards.managed.Keys * mice.managed.Keys == {}
    ensures forall p | p in keyboards.managed :: !keyboards.managed[p].done
    ensures forall p | p in mice.managed :: !mice.managed[p].done
  {
    keyboards.ReapDeadTasks();
    mice.ReapDeadTasks();
    if scan.Some? {
      var devices := scan.value;
      var currentKeyboards := Keyboards(devices);
      var currentMice := Mice(devices);
      keyboards.ManageDeviceConnections(currentKeyboards);
      mice.ManageDeviceConnections(currentMice);
      ScanIsPartitioned(devices);
    }
    PoolSizes();
    PartitionedCount(keyboards.outputs, keyboards.managed, keyboards.available);
    PartitionedCount(mice.outputs, mice.managed, mice.available);
  }

  /** A keyboard plugged in while the keyboard output is free is proxied
      after the next successful scan, when it is the only keyboard scanned
      (with two new keyboards and one output, set order decides). */
  method FreeOutputIsTaken(keyboards: ManagedDevices, mice: ManagedDevices,
                           devices: map<string, string>, path: string)
    requires keyboards != mice && keyboards.Valid() && mice.Valid()
    requires keyboards.outputs == set o | o in KEYBOARD_HID_OUTPUTS
    requires mice.outputs == set o | o in MOUSE_HID_OUTPUTS
    requires keyboards.managed == map[] && keyboards.available != {}
    requires Keyboards(devices) == {path}
    modifies keyboards, mice
    ensures path in keyboards.managed && !keyboards.managed[path].done
    ensures keyboards.managed[path].hidOutput in old(keyboards.available)
  {
    var free :| free in keyboards.available;
    ghost var before := keyboards.managed;
    assert Running(before) == map[] && FinishedOutputs(before) == {};
    MonitorCycle(keyboards, mice, Some(devices));
    if free !in keyboards.available {
      assert free in HeldOutputs(keyboards.managed);
      var q :| q in keyboards.managed && keyboards.managed[q].hidOutput == free;
      assert q == path;
    }
  }
}
