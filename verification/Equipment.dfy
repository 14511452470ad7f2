/** The equipment registry: at most one default printer per machine, and test stamps that
    never outlive the configuration they were made for.

    Transactions commit one at a time.  `missed` lists the devices that became default after
    the clearing UPDATE took its snapshot: that UPDATE does not see them, and the partial
    unique index then rejects the second default. */
module Equipment {
  import opened Answers
  import opened Options

  type TenantId = nat
  type MachineId = nat
  type DeviceId = nat
  type Time = int
  type Config = string   // a canonical text of the jsonb value

  datatype Class = Printer | Scanner | Camera

  datatype Device = Device(
    tenant: TenantId,
    machine: MachineId,
    class_: Class,
    name: string,
    config: Config,
    isDefault: bool,
    testPassedAt: Option<Time>)

  datatype Registry = Registry(machines: set<(TenantId, MachineId)>, devices: map<DeviceId, Device>)

  datatype Op =
    | AddMachine(tenant: TenantId, machine: MachineId)
    | DropMachine(tenant: TenantId, machine: MachineId)
    | Create(id: DeviceId, device: Device, makeDefault: bool, testPassed: bool, missed: set<DeviceId>)
    | Update(tenant: TenantId, id: DeviceId, name: string, config: Config)
    | Delete(tenant: TenantId, id: DeviceId)
    | SetDefault(tenant: TenantId, machine: MachineId, target: Option<DeviceId>, missed: set<DeviceId>)
    | MarkTested(tenant: TenantId, id: DeviceId)

  datatype Result = Done | NotFound | Rejected | Errored

  type Devices = map<DeviceId, Device>

  predicate HoldsDefault(ds: Devices, d: DeviceId, t: TenantId, m: MachineId) {
    d in ds && ds[d].isDefault && ds[d].tenant == t && ds[d].machine == m
  }

  /** The CHECK constraint, the partial unique index and the foreign key. */
  predicate Allowed(reg: Registry) {
    && (forall d :: d in reg.devices && reg.devices[d].isDefault ==> reg.devices[d].class_ == Printer)
    && (forall d, e :: d in reg.devices && e in reg.devices && reg.devices[d].isDefault
          ==> (HoldsDefault(reg.devices, e, reg.devices[d].tenant, reg.devices[d].machine) ==> d == e))
    && (forall d :: d in reg.devices ==> (reg.devices[d].tenant, reg.devices[d].machine) in reg.machines)
  }

  function Clear(ds: Devices, t: TenantId, m: MachineId, missed: set<DeviceId>): Devices {
    map d | d in ds :: if HoldsDefault(ds, d, t, m) && d !in missed then ds[d].(isDefault := false) else ds[d]
  }

  predicate Owns(ds: Devices, t: TenantId, d: DeviceId) {
    d in ds && ds[d].tenant == t
  }

  function NewRow(d: Device, makeDefault: bool, testPassed: bool, now: Time): Device {
    d.(config := if d.config == "" then "{}" else d.config,
       isDefault := makeDefault,
       testPassedAt := if testPassed then Some(now) else None)
  }

  function Changed(d: Device, name: string, config: Config): Device {
    d.(name := name, config := config, testPassedAt := if d.config != config then None else d.testPassedAt)
  }

  /** A transaction whose result violates a constraint is rolled back. */
  function Commit(reg: Registry, ds: Devices): (Registry, Result) {
    if Allowed(reg.(devices := ds)) then (reg.(devices := ds), Done) else (reg, Rejected)
  }

  function Apply(reg: Registry, op: Op, now: Time): (Registry, Result) {
    var ds := reg.devices;
    match op
    case AddMachine(t, m) => (reg.(machines := reg.machines + {(t, m)}), Done)
    case DropMachine(t, m) =>
      (Registry(reg.machines - {(t, m)}, map d | d in ds && (ds[d].tenant, ds[d].machine) != (t, m) :: ds[d]), Done)
    case Create(id, device, makeDefault, tested, missed) =>
      if id in ds then (reg, Rejected)
      else
        var cleared := if makeDefault then Clear(ds, device.tenant, device.machine, missed) else ds;
        Commit(reg, cleared[id := NewRow(device, makeDefault, tested, now)])
    case Update(t, id, name, config) =>
      if Owns(ds, t, id) then (reg.(devices := ds[id := Changed(ds[id], name, config)]), Done) else (reg, NotFound)
    case Delete(t, id) =>
      if Owns(ds, t, id) then (reg.(devices := ds - {id}), Done) else (reg, NotFound)
    case SetDefault(t, m, target, missed) =>
      var cleared := Clear(ds, t, m, missed);
      if target.None? then (reg.(devices := cleared), Done)
      else if Owns(ds, t, target.value) && ds[target.value].machine == m && ds[target.value].class_ == Printer then
        Commit(reg, cleared[target.value := cleared[target.value].(isDefault := true)])
      else (reg, NotFound)
    case MarkTested(t, id) =>
      if Owns(ds, t, id) then (reg.(devices := ds[id := ds[id].(testPassedAt := Some(now))]), Done) else (reg, NotFound)
  }

  /** A registry whose devices keep their place and class and do not become default. */
  ghost predicate Weaker(reg: Registry, after: Registry) {
    && after.devices.Keys <= reg.devices.Keys
    && (forall d :: d in after.devices ==>
          && after.devices[d].tenant == reg.devices[d].tenant
          && after.devices[d].machine == reg.devices[d].machine
          && after.devices[d].class_ == reg.devices[d].class_
          && (after.devices[d].isDefault ==> reg.devices[d].isDefault)
          && (after.devices[d].tenant, after.devices[d].machine) in after.machines)
  }

  lemma WeakerAllowed(reg: Registry, after: Registry)
    requires Allowed(reg) && Weaker(reg, after)
    ensures Allowed(after)
  {
    forall d, t, m | HoldsDefault(after.devices, d, t, m)
      ensures HoldsDefault(reg.devices, d, t, m)
    {
    }
  }

  /** Every operation keeps one default per machine, and a failed one changes nothing. */
  lemma ApplyAllowed(reg: Registry, op: Op, now: Time)
    requires Allowed(reg)
    ensures Allowed(Apply(reg, op, now).0)
    ensures Apply(reg, op, now).1 != Done ==> Apply(reg, op, now).0 == reg
  {
    if !op.Create? && (op.SetDefault? ==> op.target.None?) {
      assert Weaker(reg, Apply(reg, op, now).0);
      WeakerAllowed(reg, Apply(reg, op, now).0);
    }
  }

  /** The store call as its caller sees it: besides the outcomes of `Apply` there is an error, behind
      which the transaction may have been rolled back or may have committed. */
  function Attempt(reg: Registry, op: Op, now: Time, answer: Answer): (Registry, Result) {
    if answer.RolledBack? then (reg, Errored)
    else
      var (after, result) := Apply(reg, op, now);
      (after, if answer.Lost? then Errored else result)
  }

  /** Some default of the machine other than d is not seen by the clearing UPDATE. */
  ghost predicate RivalMissed(ds: Devices, t: TenantId, m: MachineId, missed: set<DeviceId>, d: DeviceId) {
    exists e :: e in missed && e != d && HoldsDefault(ds, e, t, m)
  }

  /** What has to be so in the tables for an operation to change anything. */
  ghost predicate Effective(reg: Registry, op: Op, now: Time) {
    var ds := reg.devices;
    match op
    case AddMachine(t, m) => (t, m) !in reg.machines
    case DropMachine(t, m) => (t, m) in reg.machines
    case Create(id, device, makeDefault, _, missed) =>
      && id !in ds
      && (device.tenant, device.machine) in reg.machines
      && (makeDefault ==> device.class_ == Printer && !RivalMissed(ds, device.tenant, device.machine, missed, id))
    case Update(t, id, name, config) => Owns(ds, t, id) && (ds[id].name != name || ds[id].config != config)
    case Delete(t, id) => Owns(ds, t, id)
    case SetDefault(t, m, target, missed) =>
      if target.None? then exists e :: e !in missed && HoldsDefault(ds, e, t, m)
      else
        && Owns(ds, t, target.value) && ds[target.value].machine == m && ds[target.value].class_ == Printer
        && !ds[target.value].isDefault
        && !RivalMissed(ds, t, m, missed, target.value)
    case MarkTested(t, id) => Owns(ds, t, id) && ds[id].testPassedAt != Some(now)
  }

  lemma ClearAll(ds: Devices, t: TenantId, m: MachineId, missed: set<DeviceId>, d: DeviceId)
    requires !RivalMissed(ds, t, m, missed, d)
    ensures forall e :: e in ds && e != d ==> Clear(ds, t, m, missed)[e] == Clear(ds, t, m, {})[e]
  {
  }

  lemma CreateEffective(reg: Registry, op: Op, now: Time)
    requires Allowed(reg) && op.Create?
    ensures Apply(reg, op, now).0 != reg <==> Effective(reg, op, now)
  {
    var t, m, row := op.device.tenant, op.device.machine, NewRow(op.device, op.makeDefault, op.testPassed, now);
    if op.id !in reg.devices {
      if !op.makeDefault {
        InsertAllowed(reg, op.id, row);
      } else if RivalMissed(reg.devices, t, m, op.missed, op.id) {
        var e :| e in op.missed && e != op.id && HoldsDefault(reg.devices, e, t, m);
        var ds := Clear(reg.devices, t, m, op.missed)[op.id := row];
        assert HoldsDefault(ds, e, t, m) && HoldsDefault(ds, op.id, t, m);
      } else {
        ClearAll(reg.devices, t, m, op.missed, op.id);
        assert Clear(reg.devices, t, m, op.missed) == Clear(reg.devices, t, m, {});
        ClearLeavesNone(reg, t, m);
        InsertAllowed(reg.(devices := Clear(reg.devices, t, m, {})), op.id, row);
      }
      assert op.id in Apply(reg, op, now).0.devices || Apply(reg, op, now).0 == reg;
    }
  }

  lemma RepointEffective(reg: Registry, op: Op, now: Time)
    requires Allowed(reg) && op.SetDefault? && op.target.Some?
    ensures Apply(reg, op, now).0 != reg <==> Effective(reg, op, now)
  {
    var t, m, d := op.tenant, op.machine, op.target.value;
    if Owns(reg.devices, t, d) && reg.devices[d].machine == m && reg.devices[d].class_ == Printer {
      if RivalMissed(reg.devices, t, m, op.missed, d) {
        var e :| e in op.missed && e != d && HoldsDefault(reg.devices, e, t, m);
        RivalRejected(reg, t, m, d, op.missed, e, now);
      } else {
        ClearAll(reg.devices, t, m, op.missed, d);
        var cleared, all := Clear(reg.devices, t, m, op.missed), Clear(reg.devices, t, m, {});
        assert cleared[d := cleared[d].(isDefault := true)] == all[d := all[d].(isDefault := true)];
        RepointExact(reg, t, m, d, now);
        RepointStays(reg, t, m, d);
      }
    }
  }

  /** Repointing to the device that is the default already changes nothing. */
  lemma RepointStays(reg: Registry, t: TenantId, m: MachineId, d: DeviceId)
    requires Allowed(reg) && Owns(reg.devices, t, d) && reg.devices[d].machine == m
    ensures var all := Clear(reg.devices, t, m, {});
            all[d := all[d].(isDefault := true)] == reg.devices <==> reg.devices[d].isDefault
  {
    var all := Clear(reg.devices, t, m, {});
    var ds := all[d := all[d].(isDefault := true)];
    assert ds[d].isDefault;
    if reg.devices[d].isDefault {
      assert HoldsDefault(reg.devices, d, t, m);
      assert forall e :: HoldsDefault(reg.devices, e, t, m) ==> e == d;
      assert forall e :: e in reg.devices ==> ds[e] == reg.devices[e];
    }
  }

  lemma EffectiveExactly(reg: Registry, op: Op, now: Time)
    requires Allowed(reg)
    ensures Apply(reg, op, now).0 != reg <==> Effective(reg, op, now)
  {
    match op {
      case Create(_, _, _, _, _) => CreateEffective(reg, op, now);
      case SetDefault(t, m, target, missed) =>
        if target.Some? {
          RepointEffective(reg, op, now);
        } else {
          ClearEffective(reg, t, m, missed);
        }
      case _ => PlainEffective(reg, op, now);
    }
  }

  lemma ClearEffective(reg: Registry, t: TenantId, m: MachineId, missed: set<DeviceId>)
    ensures Clear(reg.devices, t, m, missed) != reg.devices <==> exists e :: e !in missed && HoldsDefault(reg.devices, e, t, m)
  {
    var cleared := Clear(reg.devices, t, m, missed);
    if e :| e !in missed && HoldsDefault(reg.devices, e, t, m) {
      assert !cleared[e].isDefault;
    } else {
      assert forall e :: e in reg.devices ==> cleared[e] == reg.devices[e];
    }
  }

  lemma PlainEffective(reg: Registry, op: Op, now: Time)
    requires Allowed(reg) && !op.Create? && !op.SetDefault?
    ensures Apply(reg, op, now).0 != reg <==> Effective(reg, op, now)
  {
    var after := Apply(reg, op, now).0;
    match op {
      case DropMachine(t, m) =>
        if (t, m) !in reg.machines {
          assert after.devices == reg.devices;
        }
      case Update(t, id, name, config) =>
        if Owns(reg.devices, t, id) {
          assert after.devices[id] == Changed(reg.devices[id], name, config);
        }
      case Delete(t, id) =>
        if Owns(reg.devices, t, id) {
          assert id !in after.devices;
        }
      case MarkTested(t, id) =>
        if Owns(reg.devices, t, id) {
          assert after.devices[id].testPassedAt == Some(now);
        }
      case _ =>
    }
  }

  /** A call that does not succeed leaves the registry as it was, unless its commit went through,
      only the answer was lost, and the operation was one that takes effect. */
  lemma FailureChangesNothing(reg: Registry, op: Op, now: Time, answer: Answer)
    requires Allowed(reg)
    ensures Allowed(Attempt(reg, op, now, answer).0)
    ensures Attempt(reg, op, now, answer).1 != Done ==>
              (Attempt(reg, op, now, answer).0 == reg <==> !(answer.Lost? && Effective(reg, op, now)))
  {
    ApplyAllowed(reg, op, now);
    EffectiveExactly(reg, op, now);
  }

  /** So a repoint that reports an error can have moved the default. */
  lemma LostAnswerMovesDefault(reg: Registry, t: TenantId, m: MachineId, d: DeviceId, now: Time)
    requires Allowed(reg) && Owns(reg.devices, t, d) && reg.devices[d].machine == m && reg.devices[d].class_ == Printer
    requires !reg.devices[d].isDefault
    ensures var (after, result) := Attempt(reg, SetDefault(t, m, Some(d), {}), now, Lost);
            result == Errored && after != reg && forall e :: HoldsDefault(after.devices, e, t, m) <==> e == d
  {
    RepointExact(reg, t, m, d, now);
  }

  /** A device's place and class never change; its name and configuration change only by an
      update of that device, which leaves its default flag alone; and a failed or foreign
      request leaves it as it was. */
  lemma ApplyFrame(reg: Registry, op: Op, now: Time, d: DeviceId)
    requires d in reg.devices && d in Apply(reg, op, now).0.devices
    ensures var was, is_ := reg.devices[d], Apply(reg, op, now).0.devices[d];
            && is_.tenant == was.tenant && is_.machine == was.machine && is_.class_ == was.class_
            && (if op.Update? && op.id == d && op.tenant == was.tenant
                then is_.name == op.name && is_.config == op.config && is_.isDefault == was.isDefault
                else is_.name == was.name && is_.config == was.config)
            && (is_.isDefault != was.isDefault ==>
                  (op.Create? && op.makeDefault && (op.device.tenant, op.device.machine) == (was.tenant, was.machine))
                  || (op.SetDefault? && (op.tenant, op.machine) == (was.tenant, was.machine)))
            && (is_.testPassedAt != was.testPassedAt ==>
                  || (op == MarkTested(was.tenant, d) && is_.testPassedAt == Some(now))
                  || (op.Update? && op.id == d && op.tenant == was.tenant && was.config != op.config && is_.testPassedAt == None))
  {
  }

  /** A device goes only by its own deletion, or with its machine. */
  lemma ApplyRemoves(reg: Registry, op: Op, now: Time, d: DeviceId)
    requires d in reg.devices
    ensures d !in Apply(reg, op, now).0.devices <==>
              || op == Delete(reg.devices[d].tenant, d)
              || op == DropMachine(reg.devices[d].tenant, reg.devices[d].machine)
  {
  }

  datatype Event = Event(op: Op, time: Time)

  function After(events: seq<Event>): Registry {
    if events == [] then Registry({}, map[])
    else Apply(After(events[..|events| - 1]), events[|events| - 1].op, events[|events| - 1].time).0
  }

  lemma {:induction false} RunAllowed(events: seq<Event>)
    ensures Allowed(After(events))
  {
    if events != [] {
      var n := |events| - 1;
      RunAllowed(events[..n]);
      ApplyAllowed(After(events[..n]), events[n].op, events[n].time);
    }
  }

  /** Without a rival, repointing succeeds exactly for a printer of that machine and tenant; it
      becomes the machine's only default and nothing else changes anywhere. */
  lemma RepointExact(reg: Registry, t: TenantId, m: MachineId, d: DeviceId, now: Time)
    requires Allowed(reg)
    ensures var (after, result) := Apply(reg, SetDefault(t, m, Some(d), {}), now);
            && (result == Done <==> Owns(reg.devices, t, d) && reg.devices[d].machine == m && reg.devices[d].class_ == Printer)
            && (result != Done ==> result == NotFound && after == reg)
            && (result == Done ==> forall e :: HoldsDefault(after.devices, e, t, m) <==> e == d)
            && after.machines == reg.machines
            && after.devices.Keys == reg.devices.Keys
            && forall e :: e in reg.devices ==>
                 && after.devices[e].(isDefault := false) == reg.devices[e].(isDefault := false)
                 && ((reg.devices[e].tenant, reg.devices[e].machine) != (t, m) ==> after.devices[e] == reg.devices[e])
  {
    if Owns(reg.devices, t, d) && reg.devices[d].machine == m && reg.devices[d].class_ == Printer {
      ClearLeavesNone(reg, t, m);
      PromoteAllowed(reg.(devices := Clear(reg.devices, t, m, {})), t, m, d);
    }
  }

  lemma PromoteAllowed(reg: Registry, t: TenantId, m: MachineId, d: DeviceId)
    requires Allowed(reg) && Owns(reg.devices, t, d) && reg.devices[d].machine == m && reg.devices[d].class_ == Printer
    requires forall e :: !HoldsDefault(reg.devices, e, t, m)
    ensures var ds := reg.devices[d := reg.devices[d].(isDefault := true)];
            Allowed(reg.(devices := ds)) && forall e :: HoldsDefault(ds, e, t, m) <==> e == d
  {
    var ds := reg.devices[d := reg.devices[d].(isDefault := true)];
    forall e, u, n | e != d
      ensures HoldsDefault(ds, e, u, n) == HoldsDefault(reg.devices, e, u, n)
    {
    }
    assert HoldsDefault(ds, d, t, m);
    assert forall e :: e in ds && ds[e].isDefault ==> HoldsDefault(ds, e, ds[e].tenant, ds[e].machine);
  }

  /** With a rival, a repoint that misses another default of the machine is rejected whole. */
  lemma RivalRejected(reg: Registry, t: TenantId, m: MachineId, d: DeviceId, missed: set<DeviceId>, rival: DeviceId, now: Time)
    requires Allowed(reg) && rival in missed && rival != d && HoldsDefault(reg.devices, rival, t, m)
    ensures var (after, result) := Apply(reg, SetDefault(t, m, Some(d), missed), now);
            result != Done && after == reg
  {
    if Owns(reg.devices, t, d) && reg.devices[d].machine == m && reg.devices[d].class_ == Printer {
      var cleared := Clear(reg.devices, t, m, missed);
      var ds := cleared[d := cleared[d].(isDefault := true)];
      assert HoldsDefault(ds, rival, t, m) && HoldsDefault(ds, d, t, m);
    }
  }

  lemma ClearLeavesNone(reg: Registry, t: TenantId, m: MachineId)
    requires Allowed(reg)
    ensures Allowed(reg.(devices := Clear(reg.devices, t, m, {})))
    ensures forall e :: !HoldsDefault(Clear(reg.devices, t, m, {}), e, t, m)
  {
  }

  lemma InsertAllowed(reg: Registry, id: DeviceId, row: Device)
    requires Allowed(reg) && id !in reg.devices
    requires row.isDefault ==> forall e :: !HoldsDefault(reg.devices, e, row.tenant, row.machine)
    ensures var ds := reg.devices[id := row];
            && (Allowed(reg.(devices := ds)) <==> (row.tenant, row.machine) in reg.machines && (row.isDefault ==> row.class_ == Printer))
            && (row.isDefault ==> forall e :: HoldsDefault(ds, e, row.tenant, row.machine) <==> e == id)
  {
    var ds := reg.devices[id := row];
    assert id in ds;
    assert forall e :: e in reg.devices ==> e in ds && ds[e] == reg.devices[e];
    assert forall e, t, m :: e != id ==> HoldsDefault(ds, e, t, m) == HoldsDefault(reg.devices, e, t, m);
    assert ds[id] == row;
    assert forall d :: d in ds && ds[d].isDefault ==> HoldsDefault(ds, d, ds[d].tenant, ds[d].machine);
  }

  /** A request that passes the handler's make_default rule is never stopped by the CHECK: with
      a known machine, a new id and no rival it is stored. */
  lemma CreateSucceeds(reg: Registry, id: DeviceId, device: Device, makeDefault: bool, tested: bool, now: Time)
    requires Allowed(reg) && id !in reg.devices
    ensures var (after, result) := Apply(reg, Create(id, device, makeDefault, tested, {}), now);
            && (result == Done <==> (device.tenant, device.machine) in reg.machines && (makeDefault ==> device.class_ == Printer))
            && (result == Done && makeDefault ==>
                  forall e :: HoldsDefault(after.devices, e, device.tenant, device.machine) <==> e == id)
  {
    var cleared := if makeDefault then Clear(reg.devices, device.tenant, device.machine, {}) else reg.devices;
    if makeDefault {
      ClearLeavesNone(reg, device.tenant, device.machine);
    }
    InsertAllowed(reg.(devices := cleared), id, NewRow(device, makeDefault, tested, now));
  }

  /** Event k stamped device d, which then had the configuration c. */
  ghost predicate StampedBy(events: seq<Event>, k: nat, d: DeviceId, stamp: Time, c: Config) {
    && k < |events|
    && events[k].time == stamp
    && (match events[k].op
        case Create(id, _, _, tested, _) => id == d && tested
        case MarkTested(_, id) => id == d
        case _ => false)
    && d in After(events[..k + 1]).devices
    && After(events[..k + 1]).devices[d].config == c
  }

  lemma StampStep(reg: Registry, op: Op, now: Time, d: DeviceId)
    requires d in Apply(reg, op, now).0.devices && Apply(reg, op, now).0.devices[d].testPassedAt.Some?
    ensures var after := Apply(reg, op, now).0.devices;
            || (d in reg.devices && after[d].testPassedAt == reg.devices[d].testPassedAt && after[d].config == reg.devices[d].config)
            || (after[d].testPassedAt == Some(now)
                && ((op.Create? && op.id == d && op.testPassed) || (op.MarkTested? && op.id == d)))
  {
  }

  /** Over every run a stamp comes from one stamping event, and at that event the device already
      had exactly the configuration it has now. */
  lemma {:induction false} StampMatchesConfig(events: seq<Event>, d: DeviceId)
    requires d in After(events).devices && After(events).devices[d].testPassedAt.Some?
    ensures var row := After(events).devices[d];
            exists k :: StampedBy(events, k, d, row.testPassedAt.value, row.config)
  {
    var n := |events| - 1;
    var row := After(events).devices[d];
    StampStep(After(events[..n]), events[n].op, events[n].time, d);
    assert events[..n + 1] == events;
    var was := After(events[..n]).devices;
    if d in was && row.testPassedAt == was[d].testPassedAt && row.config == was[d].config {
      StampMatchesConfig(events[..n], d);
      var k :| StampedBy(events[..n], k, d, row.testPassedAt.value, row.config);
      assert events[..n][..k + 1] == events[..k + 1];
      assert StampedBy(events, k, d, row.testPassedAt.value, row.config);
    } else {
      assert StampedBy(events, n, d, row.testPassedAt.value, row.config);
    }
  }

  /** The configuration d had after the first b events, or the last one its own updates have
      written since, up to event k. */
  function ConfigSince(events: seq<Event>, b: nat, k: nat, d: DeviceId): Config
    requires b <= k <= |events| && d in After(events[..b]).devices
  {
    var row := After(events[..b]).devices[d];
    if k == b then row.config
    else if events[k - 1].op.Update? && events[k - 1].op.id == d && events[k - 1].op.tenant == row.tenant then
      events[k - 1].op.config
    else ConfigSince(events, b, k - 1, d)
  }

  lemma {:induction false} ConfigIsLastWritten(events: seq<Event>, b: nat, k: nat, d: DeviceId)
    requires b <= k <= |events| && forall j :: b <= j <= k ==> d in After(events[..j]).devices
    ensures After(events[..k]).devices[d].tenant == After(events[..b]).devices[d].tenant
    ensures After(events[..k]).devices[d].config == ConfigSince(events, b, k, d)
    decreases k - b
  {
    if b < k {
      ConfigIsLastWritten(events, b, k - 1, d);
      assert events[..k][..k - 1] == events[..k - 1];
      ApplyFrame(After(events[..k - 1]), events[k - 1].op, events[k - 1].time, d);
    }
  }

  /** A test begun after event b and stamped by event k: the stamp vouches for the configuration
      that was tested if and only if the last one written to the device in between, if any,
      equals it. */
  lemma StampVouchesExactly(events: seq<Event>, b: nat, k: nat, t: TenantId, d: DeviceId)
    requires b <= k < |events| && events[k].op == MarkTested(t, d)
    requires forall j :: b <= j <= k ==> d in After(events[..j]).devices
    requires After(events[..b]).devices[d].tenant == t
    ensures var tested, row := After(events[..b]).devices[d].config, After(events[..k + 1]).devices;
            && d in row && row[d].testPassedAt == Some(events[k].time)
            && (row[d].config == tested <==> ConfigSince(events, b, k, d) == tested)
  {
    ConfigIsLastWritten(events, b, k, d);
    assert events[..k + 1][..k] == events[..k];
  }

  const SWAP: seq<Event> :=
    [Event(AddMachine(1, 1), 1),
     Event(Create(7, Device(1, 1, Printer, "badge printer", "A", false, None), true, false, {}), 2),
     Event(Update(1, 7, "badge printer", "B"), 3),
     Event(MarkTested(1, 7), 4)]

  /** Configuration A is tested, B is patched in, and then the result of the test arrives: the
      tenant counts as ready with hardware that nobody has tested. */
  lemma SwappedDuringTest()
    ensures 7 in After(SWAP[..2]).devices && After(SWAP[..2]).devices[7].config == "A"
    ensures Ready(After(SWAP), 1) && 7 in After(SWAP).devices && After(SWAP).devices[7].config == "B"
  {
    var row := Device(1, 1, Printer, "badge printer", "A", true, None);
    assert SWAP[..0] == [] && SWAP[..1][..0] == [] && SWAP[..2][..1] == SWAP[..1] && SWAP[..3][..2] == SWAP[..2];
    assert After(SWAP[..1]) == Registry({(1, 1)}, map[]);
    CreateSucceeds(After(SWAP[..1]), 7, Device(1, 1, Printer, "badge printer", "A", false, None), true, false, 2);
    assert After(SWAP[..2]).devices[7] == row;
    assert After(SWAP[..3]).devices[7] == row.(config := "B");
    assert SWAP[..3] == SWAP[..|SWAP| - 1];
    assert TestedDefault(After(SWAP).devices, 1, 7);
  }

  predicate TestedDefault(ds: Devices, t: TenantId, d: DeviceId) {
    Owns(ds, t, d) && ds[d].isDefault && ds[d].class_ == Printer && ds[d].testPassedAt.Some?
  }

  predicate Ready(reg: Registry, t: TenantId) {
    exists d :: d in reg.devices && TestedDefault(reg.devices, t, d)
  }

  /** Device d is the one default printer of its machine, and event k stamped it with the
      configuration it has now. */
  ghost predicate Vouched(events: seq<Event>, t: TenantId, d: DeviceId, k: nat) {
    && Owns(After(events).devices, t, d)
    && var row := After(events).devices[d];
       && row.class_ == Printer
       && (forall e :: HoldsDefault(After(events).devices, e, t, row.machine) <==> e == d)
       && row.testPassedAt.Some?
       && StampedBy(events, k, d, row.testPassedAt.value, row.config)
  }

  /** The readiness query says yes for a stamp made with the present configuration, and only then. */
  lemma ReadyMeans(events: seq<Event>, t: TenantId)
    ensures Ready(After(events), t) <==> exists d, k :: Vouched(events, t, d, k)
  {
    RunAllowed(events);
    var ds := After(events).devices;
    if Ready(After(events), t) {
      var d :| d in ds && TestedDefault(ds, t, d);
      StampMatchesConfig(events, d);
      var k :| StampedBy(events, k, d, ds[d].testPassedAt.value, ds[d].config);
      assert HoldsDefault(ds, d, t, ds[d].machine);
      assert Vouched(events, t, d, k);
    }
    if d, k :| Vouched(events, t, d, k) {
      assert HoldsDefault(ds, d, t, ds[d].machine);
      assert TestedDefault(ds, t, d);
    }
  }

  class PGStore {
    var machines: set<(TenantId, MachineId)>
    var devices: Devices

    function State(): Registry
      reads this
    {
      Registry(machines, devices)
    }

    constructor ()
      ensures State() == After([])
    {
      machines, devices := {}, map[];
    }

    method CreateEquipmentDevice(id: DeviceId, d: Device, makeDefault: bool, testPassed: bool, missed: set<DeviceId>, now: Time,
                                 answer: Answer)
      returns (result: Result, stored: Device)
      requires Allowed(State())
      modifies this
      ensures (State(), result) == Attempt(old(State()), Create(id, d, makeDefault, testPassed, missed), now, answer)
      ensures Allowed(State())
      ensures result == Done ==> id in devices && stored == devices[id] && stored.isDefault == makeDefault
      ensures result == Done ==> stored.testPassedAt.Some? == testPassed
      ensures result == Done ==>
                && stored.tenant == d.tenant && stored.machine == d.machine && stored.class_ == d.class_
                && stored.name == d.name
                && stored.config == (if d.config == "" then "{}" else d.config)
                && (testPassed ==> stored.testPassedAt == Some(now))
      ensures result == Done ==>
                && id !in old(devices) && devices.Keys == old(devices).Keys + {id} && machines == old(machines)
                && forall e :: e in old(devices) ==>
                     devices[e] == if makeDefault && e !in missed && old(devices)[e].tenant == d.tenant
                                      && old(devices)[e].machine == d.machine
                                   then old(devices)[e].(isDefault := false) else old(devices)[e]
    {
      ApplyAllowed(State(), Create(id, d, makeDefault, testPassed, missed), now);
      stored := NewRow(d, makeDefault, testPassed, now);
      if answer.RolledBack? {
        return Errored, stored;
      }
      result := Rejected;
      if id !in devices {
        var tx := devices;
        if makeDefault {
          tx := Clear(tx, d.tenant, d.machine, missed);
        }
        tx := tx[id := stored];
        if Allowed(Registry(machines, tx)) {
          devices := tx;
          result := Done;
        }
      }
      result := if answer.Lost? then Errored else result;
    }

    method UpdateEquipmentDevice(t: TenantId, id: DeviceId, name: string, config: Config, now: Time, answer: Answer)
      returns (result: Result)
      requires Allowed(State())
      modifies this`devices
      ensures (State(), result) == Attempt(old(State()), Update(t, id, name, config), now, answer)
      ensures Allowed(State())
      ensures var owned := id in old(devices) && old(devices)[id].tenant == t;
              && result == (if !answer.Answered? then Errored else if owned then Done else NotFound)
              && devices == if !owned || answer.RolledBack? then old(devices)
                            else
                              var was := old(devices)[id];
                              old(devices)[id := Device(was.tenant, was.machine, was.class_, name, config, was.isDefault,
                                                        if was.config != config then None else was.testPassedAt)]
    {
      ApplyAllowed(State(), Update(t, id, name, config), now);
      if answer.RolledBack? {
        return Errored;
      }
      result := NotFound;
      if Owns(devices, t, id) {
        devices := devices[id := Changed(devices[id], name, config)];
        result := Done;
      }
      result := if answer.Lost? then Errored else result;
    }

    method DeleteEquipmentDevice(t: TenantId, id: DeviceId, now: Time, answer: Answer) returns (result: Result)
      requires Allowed(State())
      modifies this`devices
      ensures (State(), result) == Attempt(old(State()), Delete(t, id), now, answer)
      ensures Allowed(State())
      ensures var owned := id in old(devices) && old(devices)[id].tenant == t;
              && result == (if !answer.Answered? then Errored else if owned then Done else NotFound)
              && devices == if !owned || answer.RolledBack? then old(devices) else old(devices) - {id}
    {
      ApplyAllowed(State(), Delete(t, id), now);
      if answer.RolledBack? {
        return Errored;
      }
      result := NotFound;
      if Owns(devices, t, id) {
        devices := devices - {id};
        result := Done;
      }
      result := if answer.Lost? then Errored else result;
    }

    method SetDefaultEquipmentPrinter(t: TenantId, m: MachineId, target: Option<DeviceId>, missed: set<DeviceId>, now: Time,
                                      answer: Answer)
      returns (result: Result)
      requires Allowed(State())
      modifies this`devices
      ensures (State(), result) == Attempt(old(State()), SetDefault(t, m, target, missed), now, answer)
      ensures Allowed(State())
      ensures result == NotFound || result == Rejected || answer.RolledBack? ==> devices == old(devices)
      ensures result == Done && target.Some? ==> forall e :: HoldsDefault(devices, e, t, m) <==> e == target.value
      ensures result == NotFound <==>
                && answer.Answered? && target.Some?
                && !(&& target.value in old(devices) && old(devices)[target.value].tenant == t
                     && old(devices)[target.value].machine == m && old(devices)[target.value].class_ == Printer)
      ensures result == Done ==>
                && devices.Keys == old(devices).Keys
                && forall e :: e in old(devices) ==>
                     devices[e] == if target == Some(e) then old(devices)[e].(isDefault := true)
                                   else if e !in missed && old(devices)[e].tenant == t && old(devices)[e].machine == m
                                   then old(devices)[e].(isDefault := false) else old(devices)[e]
    {
      ApplyAllowed(State(), SetDefault(t, m, target, missed), now);
      if answer.RolledBack? {
        return Errored;
      }
      var tx := Clear(devices, t, m, missed);
      result := Done;
      if target.Some? {
        if !Owns(tx, t, target.value) || tx[target.value].machine != m || tx[target.value].class_ != Printer {
          return if answer.Lost? then Errored else NotFound;
        }
        tx := tx[target.value := tx[target.value].(isDefault := true)];
        if !Allowed(Registry(machines, tx)) {
          return if answer.Lost? then Errored else Rejected;
        }
        assert HoldsDefault(tx, target.value, t, m);
      }
      devices := tx;
      result := if answer.Lost? then Errored else Done;
    }

    method MarkEquipmentDeviceTestPassed(t: TenantId, id: DeviceId, now: Time, answer: Answer) returns (result: Result)
      requires Allowed(State())
      modifies this`devices
      ensures (State(), result) == Attempt(old(State()), MarkTested(t, id), now, answer)
      ensures Allowed(State())
      ensures var owned := id in old(devices) && old(devices)[id].tenant == t;
              && result == (if !answer.Answered? then Errored else if owned then Done else NotFound)
              && devices == if !owned || answer.RolledBack? then old(devices)
                            else old(devices)[id := old(devices)[id].(testPassedAt := Some(now))]
    {
      ApplyAllowed(State(), MarkTested(t, id), now);
      if answer.RolledBack? {
        return Errored;
      }
      result := NotFound;
      if Owns(devices, t, id) {
        devices := devices[id := devices[id].(testPassedAt := Some(now))];
        result := Done;
      }
      result := if answer.Lost? then Errored else result;
    }

    /** The readiness query: over whatever run led here, yes exactly when the one default printer
        of some machine of the tenant was stamped with the configuration it has now. */
    method TenantHasTestedDefaultPrinter(t: TenantId, ghost events: seq<Event>) returns (ready: bool)
      requires State() == After(events)
      ensures ready <==> exists d, k :: Vouched(events, t, d, k)
    {
      ready := exists d :: d in devices && TestedDefault(devices, t, d);
      ReadyMeans(events, t);
    }
  }
}
