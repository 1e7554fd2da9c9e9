/**
 * Device control (waterbot/gpio/handler.py).
 *
 * A controller over a fixed registry device -> pin keeps an on/off status and at most
 * one pending one-shot timer per device. `turn_on`/`turn_off` first cancel and drop the
 * device's pending timer, write the pin, record the status and, given a non-zero
 * timeout, arm a timer that later performs the opposite switch. The lock around each
 * switch makes it atomic; here every method runs to completion before the next one.
 * A timer thread is a pending slot; `Fire` is the moment its thread runs.
 *
 * `Snapshot` is the controller's state as a value; `Switch`, `SwitchAll`, `FireTimer`,
 * `SetUpAll` and `CleanedUp` say what each operation does to it, and the methods of
 * `DeviceController` are proved to do exactly that.
 */
module Handler {
  import opened Wrappers
  import opened GpioInterface
  import opened Config

  /** A `threading.Timer` started by a switch: it calls `turn_on` when `switchesOn`
      holds and `turn_off` otherwise, after `delay` seconds, unless cancelled first. */
  datatype Timer = Timer(switchesOn: bool, delay: int, cancelled: bool)

  /** How a call ended: it returned `ok`, or the driver raised RuntimeError for `pin`. */
  datatype Outcome = Returned(ok: bool) | Raised(pin: int)

  /** `if timeout:` on an optional integer: neither None nor 0. */
  predicate Truthy(timeout: Option<int>) {
    timeout.Some? && timeout.value != 0
  }

  /** The timer slot a successful switch to `on` leaves behind. */
  function Armed(on: bool, timeout: Option<int>): Option<Timer> {
    if Truthy(timeout) then Some(Timer(!on, timeout.value, false)) else None
  }

  /** Device statuses, timer slots and the driver's state. */
  datatype Snapshot = Snapshot(status: map<string, bool>, timers: map<string, Option<Timer>>, board: PinBoard)

  // ---------------------------------------------------------------- specification

  /** `turn_on(device, timeout)` when `on`, `turn_off(device, timeout)` otherwise. */
  function Switch(reg: Registry, s: Snapshot, device: string, on: bool, timeout: Option<int>): (Snapshot, Outcome) {
    if device !in reg.pins then (s, Returned(false))
    else
      var pin := reg.pins[device];
      var cleared := s.timers[device := None];
      match WritePin(s.board, pin, on)
      case None => (Snapshot(s.status, cleared, s.board), Raised(pin))
      case Some(b) => (Snapshot(s.status[device := on], cleared[device := Armed(on, timeout)], b), Returned(true))
  }

  /** What a switch does: an unknown device changes nothing and gives False; a pin that is
      not set up raises, after the pending timer was dropped; otherwise the pin is written,
      the status recorded and the timer slot holds exactly the timer this call armed. Other
      pins keep their level, and which pins are set up does not change. */
  lemma SwitchFacts(reg: Registry, s: Snapshot, device: string, on: bool, timeout: Option<int>)
    ensures var r := Switch(reg, s, device, on, timeout);
            && (device !in reg.pins ==> r == (s, Returned(false)))
            && (device in reg.pins ==> (r.1.Raised? <==> !Configured(s.board, reg.pins[device])))
            && (device in reg.pins && r.1.Raised? ==>
                  && r.1.pin == reg.pins[device]
                  && r.0 == Snapshot(s.status, s.timers[device := None], s.board))
            && (device in reg.pins && r.1.Returned? ==>
                  && r.1.ok
                  && r.0.status == s.status[device := on]
                  && r.0.timers == s.timers[device := Armed(on, timeout)]
                  && PinState(r.0.board, reg.pins[device]) == on)
            && (device in reg.pins ==> forall q :: q != reg.pins[device] ==> PinState(r.0.board, q) == PinState(s.board, q))
            && (forall q :: Configured(r.0.board, q) <==> Configured(s.board, q))
  {
  }

  /** `Switch` on a registered device whose pin write goes through. */
  lemma SwitchWritten(reg: Registry, s: Snapshot, device: string, on: bool, timeout: Option<int>)
    requires device in reg.pins && WritePin(s.board, reg.pins[device], on).Some?
    ensures Switch(reg, s, device, on, timeout)
            == (Snapshot(s.status[device := on], s.timers[device := None][device := Armed(on, timeout)],
                         WritePin(s.board, reg.pins[device], on).value),
                Returned(true))
  {
  }

  /** `Switch` on a registered device whose pin write raises. */
  lemma SwitchRaised(reg: Registry, s: Snapshot, device: string, on: bool, timeout: Option<int>)
    requires device in reg.pins && WritePin(s.board, reg.pins[device], on).None?
    ensures Switch(reg, s, device, on, timeout)
            == (Snapshot(s.status, s.timers[device := None], s.board), Raised(reg.pins[device]))
  {
  }

  /** A pending timer firing: the opposite switch, with no timeout. None when the slot
      is empty or its timer was cancelled. */
  function FireTimer(reg: Registry, s: Snapshot, device: string): (r: Option<(Snapshot, Outcome)>)
    ensures r.Some? <==> device in s.timers && s.timers[device].Some? && !s.timers[device].value.cancelled
  {
    if device in s.timers && s.timers[device].Some? && !s.timers[device].value.cancelled then
      Some(Switch(reg, s, device, s.timers[device].value.switchesOn, None))
    else None
  }

  /** The loop of `turn_all_on`/`turn_all_off` over `devices`: it stops at the first
      exception; otherwise the result is the conjunction of the individual results. */
  function SwitchAll(reg: Registry, s: Snapshot, devices: seq<string>, on: bool, timeout: Option<int>): (r: (Snapshot, Outcome))
  {
    if devices == [] then (s, Returned(true))
    else
      var (s1, o1) := SwitchAll(reg, s, devices[..|devices| - 1], on, timeout);
      if o1.Raised? then (s1, o1)
      else
        var (s2, o2) := Switch(reg, s1, devices[|devices| - 1], on, timeout);
        (s2, if o2.Raised? then o2 else Returned(o1.ok && o2.ok))
  }

  /** The calls `_setup_devices` makes for `devices`: `setup(pin, "OUT")` then `output(pin, False)`. */
  function SetUpAll(b: PinBoard, reg: Registry, devices: seq<string>): PinBoard
    requires forall d :: d in devices ==> d in reg.pins
  {
    if devices == [] then b
    else
      var pin := reg.pins[devices[|devices| - 1]];
      WritePin(SetupPin(SetUpAll(b, reg, devices[..|devices| - 1]), pin, "OUT"), pin, false).value
  }

  /** After `_setup_devices` every listed pin is set up and low, pins set up before stay
      set up, and unlisted pins keep their level. */
  lemma {:induction false} SetUpAllLevels(b: PinBoard, reg: Registry, devices: seq<string>)
    requires forall d :: d in devices ==> d in reg.pins
    ensures var r := SetUpAll(b, reg, devices);
            && (forall d :: d in devices ==> Configured(r, reg.pins[d]) && !PinState(r, reg.pins[d]))
            && (forall q :: Configured(b, q) ==> Configured(r, q))
            && (forall q :: (forall d :: d in devices ==> reg.pins[d] != q) ==> PinState(r, q) == PinState(b, q))
  {
    if devices != [] {
      var init := devices[..|devices| - 1];
      var last := devices[|devices| - 1];
      var pin := reg.pins[last];
      assert devices == init + [last];
      SetUpAllLevels(b, reg, init);
      var mid := SetUpAll(b, reg, init);
      SetupPinFacts(mid, pin, "OUT");
      WritePinFacts(SetupPin(mid, pin, "OUT"), pin, false);
    }
  }

  /** `_setup_devices` keeps the kind of driver; the mock has logged one `setup(pin, "OUT")`
      and one `output(pin, False)` per device, in order. */
  lemma {:induction false} SetUpAllLog(b: PinBoard, reg: Registry, devices: seq<string>)
    requires forall d :: d in devices ==> d in reg.pins
    ensures var r := SetUpAll(b, reg, devices);
            && (r.EmulationBoard? <==> b.EmulationBoard?)
            && (r.MockBoard? ==>
                  && r.setupCalls == b.setupCalls + SetupCalls(reg, devices)
                  && r.outputCalls == b.outputCalls + LowCalls(reg, devices)
                  && r.cleanupCalled == b.cleanupCalled)
  {
    if devices != [] {
      var init := devices[..|devices| - 1];
      var last := devices[|devices| - 1];
      var pin := reg.pins[last];
      assert devices == init + [last];
      SetUpAllLog(b, reg, init);
      assert SetupCalls(reg, devices) == SetupCalls(reg, init) + [(pin, "OUT")];
      assert LowCalls(reg, devices) == LowCalls(reg, init) + [(pin, false)];
    }
  }

  function SetupCalls(reg: Registry, devices: seq<string>): seq<(int, string)>
    requires forall d :: d in devices ==> d in reg.pins
  {
    seq(|devices|, i requires 0 <= i < |devices| => (reg.pins[devices[i]], "OUT"))
  }

  function LowCalls(reg: Registry, devices: seq<string>): seq<(int, bool)>
    requires forall d :: d in devices ==> d in reg.pins
  {
    seq(|devices|, i requires 0 <= i < |devices| => (reg.pins[devices[i]], false))
  }

  function Cancel(slot: Option<Timer>): Option<Timer> {
    match slot
    case None => None
    case Some(t) => Some(t.(cancelled := true))
  }

  /** `cleanup()`: every timer cancelled but left in its slot, every registered device
      marked off without a pin write, then the driver's own cleanup. */
  function CleanedUp(reg: Registry, s: Snapshot): (r: Snapshot)
    ensures forall d :: d in r.timers <==> d in s.timers
    ensures forall d :: d in r.timers ==> (r.timers[d].Some? <==> s.timers[d].Some?)
    ensures forall d :: d in r.timers && r.timers[d].Some? ==> r.timers[d].value.cancelled
    ensures forall d :: d in reg.pins ==> d in r.status && !r.status[d]
    ensures forall q :: !PinState(r.board, q)
  {
    Snapshot(map d | d in s.status.Keys + reg.pins.Keys :: if d in reg.pins then false else s.status[d],
             map d | d in s.timers :: Cancel(s.timers[d]),
             Release(s.board))
  }

  // ---------------------------------------------------------------- properties

  /** A switch supersedes the one before it: status, timer slot and pin level are those
      the second call alone would leave. */
  lemma LatestCommandWins(reg: Registry, s: Snapshot, device: string, on1: bool, t1: Option<int>, on2: bool, t2: Option<int>)
    requires device in reg.pins && Configured(s.board, reg.pins[device])
    ensures var twice := Switch(reg, Switch(reg, s, device, on1, t1).0, device, on2, t2).0;
            var once := Switch(reg, s, device, on2, t2).0;
            && twice.status == once.status
            && twice.timers == once.timers
            && forall q :: PinState(twice.board, q) == PinState(once.board, q)
  {
    var pin := reg.pins[device];
    WritePinFacts(s.board, pin, on1);
    WritePinFacts(s.board, pin, on2);
    var b1 := WritePin(s.board, pin, on1).value;
    WritePinFacts(b1, pin, on2);
    var mid := Snapshot(s.status[device := on1], s.timers[device := None][device := Armed(on1, t1)], b1);
    assert Switch(reg, s, device, on1, t1).0 == mid;
    var twice := Snapshot(mid.status[device := on2], mid.timers[device := None][device := Armed(on2, t2)],
                          WritePin(b1, pin, on2).value);
    assert Switch(reg, mid, device, on2, t2).0 == twice;
    var once := Switch(reg, s, device, on2, t2).0;
    MapUpdateTwice(s.status, device, on1, on2);
    assert twice.timers == once.timers;
  }

  /** The timer armed by a switch with a non-zero timeout performs the opposite switch,
      and leaves no timer behind. */
  lemma TimerReverses(reg: Registry, s: Snapshot, device: string, on: bool, timeout: Option<int>)
    requires device in reg.pins && Configured(s.board, reg.pins[device]) && Truthy(timeout)
    ensures var armed := Switch(reg, s, device, on, timeout).0;
            var fired := FireTimer(reg, armed, device);
            && fired == Some(Switch(reg, armed, device, !on, None))
            && fired.value.1 == Returned(true)
            && fired.value.0.status[device] == !on
            && fired.value.0.timers[device] == None
            && PinState(fired.value.0.board, reg.pins[device]) == !on
  {
  }

  /** Without a truthy timeout no timer is left pending for the device. */
  lemma NoTimeoutNoTimer(reg: Registry, s: Snapshot, device: string, on: bool, timeout: Option<int>)
    requires device in reg.pins && !Truthy(timeout)
    ensures var r := Switch(reg, s, device, on, timeout).0;
            device in r.timers && r.timers[device] == None && FireTimer(reg, r, device) == None
  {
  }

  /** The loop over the devices raises exactly when one of their pins is not set up;
      set-up state does not change along the way. */
  lemma {:induction false} SwitchAllRaises(reg: Registry, s: Snapshot, devices: seq<string>, on: bool, timeout: Option<int>)
    requires forall d :: d in devices ==> d in reg.pins
    ensures var r := SwitchAll(reg, s, devices, on, timeout);
            && (r.1.Raised? <==> exists d :: d in devices && !Configured(s.board, reg.pins[d]))
            && forall q :: Configured(r.0.board, q) <==> Configured(s.board, q)
  {
    if devices != [] {
      var init := devices[..|devices| - 1];
      var last := devices[|devices| - 1];
      assert devices == init + [last];
      SwitchAllRaises(reg, s, init, on, timeout);
    }
  }

  /** When every pin is set up, the loop returns True and switches every listed device;
      unlisted devices keep their status and timer slot. */
  lemma {:induction false} SwitchAllEffect(reg: Registry, s: Snapshot, devices: seq<string>, on: bool, timeout: Option<int>)
    requires forall d :: d in devices ==> d in reg.pins && Configured(s.board, reg.pins[d])
    ensures var r := SwitchAll(reg, s, devices, on, timeout);
            && r.1 == Returned(true)
            && (forall d :: d in devices ==> d in r.0.status && r.0.status[d] == on)
            && (forall d :: d in devices ==> d in r.0.timers && r.0.timers[d] == Armed(on, timeout))
            && (forall d :: d in devices ==> PinState(r.0.board, reg.pins[d]) == on)
            && (forall d :: d !in devices ==> (d in r.0.status <==> d in s.status))
            && (forall d :: d !in devices && d in s.status ==> r.0.status[d] == s.status[d])
            && (forall d :: d !in devices ==> (d in r.0.timers <==> d in s.timers))
            && (forall d :: d !in devices && d in s.timers ==> r.0.timers[d] == s.timers[d])
  {
    if devices != [] {
      var init := devices[..|devices| - 1];
      var last := devices[|devices| - 1];
      assert devices == init + [last];
      SwitchAllEffect(reg, s, init, on, timeout);
      SwitchAllRaises(reg, s, init, on, timeout);
      var mid := SwitchAll(reg, s, init, on, timeout).0;
      var r := Switch(reg, mid, last, on, timeout).0;
      forall d | d in devices ensures PinState(r.board, reg.pins[d]) == on {
        if d != last && reg.pins[d] != reg.pins[last] {
          assert d in init;
        }
      }
    }
  }

  /** After cleanup no timer can fire any more. */
  lemma CleanupDisarms(reg: Registry, s: Snapshot, device: string)
    ensures FireTimer(reg, CleanedUp(reg, s), device) == None
  {
  }

  /** After cleanup the emulation refuses every switch of a registered device: its pins
      are no longer set up, so `turn_on` and `turn_off` raise. */
  lemma EmulationRefusesAfterCleanup(reg: Registry, s: Snapshot, device: string, on: bool, timeout: Option<int>)
    requires s.board.EmulationBoard? && device in reg.pins
    ensures Switch(reg, CleanedUp(reg, s), device, on, timeout).1 == Raised(reg.pins[device])
  {
  }

  /** The map giving every device of `devices` the value `v`. */
  function Fill<V>(devices: seq<string>, v: V): map<string, V> {
    map d | d in devices :: v
  }

  lemma FillStep<V>(devices: seq<string>, i: int, v: V)
    requires 0 <= i < |devices|
    ensures Fill(devices[..i + 1], v) == Fill(devices[..i], v)[devices[i] := v]
  {
    assert devices[..i + 1] == devices[..i] + [devices[i]];
  }

  // ---------------------------------------------------------------- the controller

  /** `DeviceController`. */
  class DeviceController {
    const registry: Registry
    const gpio: Driver
    var status: map<string, bool>
    var timers: map<string, Option<Timer>>

    /** Status and timer slots exist for exactly the registered devices. */
    ghost predicate Valid()
      reads this
    {
      && status.Keys == registry.pins.Keys
      && timers.Keys == registry.pins.Keys
    }

    function State(): Snapshot
      reads this, gpio.Obj()
    {
      Snapshot(status, timers, gpio.Board())
    }

    /** `__init__` with a given driver, which runs `_setup_devices()`. */
    constructor (registry: Registry, gpio: Driver)
      requires registry.WellFormed()
      modifies gpio.Obj()
      ensures Valid() && this.registry == registry && this.gpio == gpio
      ensures forall d :: d in registry.pins ==> !status[d] && timers[d] == None
      ensures gpio.Board() == SetUpAll(old(gpio.Board()), registry, registry.order)
    {
      this.registry := registry;
      this.gpio := gpio;
      status := map[];
      timers := map[];
      new;
      SetUpDevices();
    }

    /** `_setup_devices()`, run once on the empty maps: in registry order each pin gets
        `setup(pin, "OUT")` and `output(pin, False)`, each device status off and an empty slot. */
    method SetUpDevices()
      requires status == map[] && timers == map[]
      requires forall d :: d in registry.order ==> d in registry.pins
      modifies this, gpio.Obj()
      ensures status == Fill(registry.order, false)
      ensures timers == Fill<Option<Timer>>(registry.order, None)
      ensures gpio.Board() == SetUpAll(old(gpio.Board()), registry, registry.order)
    {
      var order := registry.order;
      var i := 0;
      while i < |order|
        invariant 0 <= i <= |order|
        invariant status == Fill(order[..i], false)
        invariant timers == Fill<Option<Timer>>(order[..i], None)
        invariant gpio.Board() == SetUpAll(old(gpio.Board()), registry, order[..i])
      {
        SetUpAllStep(old(gpio.Board()), registry, order, i);
        FillStep(order, i, false);
        FillStep<Option<Timer>>(order, i, None);
        SetUpDevice(order[i]);
        i := i + 1;
      }
      assert order[..i] == order;
    }

    /** One turn of the loop in `_setup_devices()`. */
    method SetUpDevice(device: string)
      requires device in registry.pins
      modifies this, gpio.Obj()
      ensures var pin := registry.pins[device];
              var written := WritePin(SetupPin(old(gpio.Board()), pin, "OUT"), pin, false);
              written.Some? && gpio.Board() == written.value
      ensures status == old(status)[device := false] && timers == old(timers)[device := None]
    {
      var pin := registry.pins[device];
      gpio.Setup(pin, "OUT");
      var _ := gpio.Output(pin, false);
      status := status[device := false];
      timers := timers[device := None];
    }

    /** `turn_on(device, timeout)`. */
    method TurnOn(device: string, timeout: Option<int>) returns (outcome: Outcome)
      requires Valid()
      modifies this, gpio.Obj()
      ensures Valid()
      ensures (State(), outcome) == Switch(registry, old(State()), device, true, timeout)
    {
      outcome := SwitchDevice(device, true, timeout);
    }

    /** `turn_off(device, timeout)`. */
    method TurnOff(device: string, timeout: Option<int>) returns (outcome: Outcome)
      requires Valid()
      modifies this, gpio.Obj()
      ensures Valid()
      ensures (State(), outcome) == Switch(registry, old(State()), device, false, timeout)
    {
      outcome := SwitchDevice(device, false, timeout);
    }

    /** The body `turn_on` and `turn_off` share, with the level and the timer's direction
        as the only differences. */
    method SwitchDevice(device: string, on: bool, timeout: Option<int>) returns (outcome: Outcome)
      requires Valid()
      modifies this, gpio.Obj()
      ensures Valid()
      ensures (State(), outcome) == Switch(registry, old(State()), device, on, timeout)
    {
      if device !in registry.pins {
        return Returned(false);
      }
      ghost var s0 := State();
      DropTimer(device);
      var pin := registry.pins[device];
      var written := gpio.Output(pin, on);
      if !written {
        SwitchRaised(registry, s0, device, on, timeout);
        return Raised(pin);
      }
      status := status[device := on];
      ArmTimer(device, on, timeout);
      SwitchWritten(registry, s0, device, on, timeout);
      return Returned(true);
    }

    /** Cancel and drop the pending timer of `device`, if any. */
    method DropTimer(device: string)
      requires device in timers
      modifies this
      ensures timers == old(timers)[device := None] && status == old(status)
    {
      if timers[device].Some? {
        timers := timers[device := None];
      } else {
        MapUpdateSame(timers, device);
      }
    }

    /** Start the timer `if timeout:` asks for; it performs the opposite switch. */
    method ArmTimer(device: string, on: bool, timeout: Option<int>)
      requires device in timers && timers[device] == None
      modifies this
      ensures timers == old(timers)[device := Armed(on, timeout)] && status == old(status)
    {
      if timeout.Some? && timeout.value != 0 {
        timers := timers[device := Some(Timer(!on, timeout.value, false))];
      }
    }

    /** The pending timer of `device` runs its callback; None when nothing is pending. */
    method Fire(device: string) returns (outcome: Option<Outcome>)
      requires Valid()
      modifies this, gpio.Obj()
      ensures Valid()
      ensures var f := FireTimer(registry, old(State()), device);
              outcome.Some? == f.Some? && (f.Some? ==> (State(), outcome.value) == f.value)
      ensures outcome.None? ==> State() == old(State())
    {
      if device in timers && timers[device].Some? && !timers[device].value.cancelled {
        var o;
        if timers[device].value.switchesOn {
          o := TurnOn(device, None);
        } else {
          o := TurnOff(device, None);
        }
        return Some(o);
      }
      return None;
    }

    /** `get_status()`: a copy of the status map. */
    function GetStatus(): (r: map<string, bool>)
      requires Valid()
      reads this
      ensures r == status && r.Keys == registry.pins.Keys
    {
      status
    }

    /** `turn_all_on(timeout)`. */
    method TurnAllOn(timeout: Option<int>) returns (outcome: Outcome)
      requires Valid()
      modifies this, gpio.Obj()
      ensures Valid()
      ensures (State(), outcome) == SwitchAll(registry, old(State()), registry.order, true, timeout)
    {
      outcome := SwitchEach(true, timeout);
    }

    /** `turn_all_off(timeout)`. */
    method TurnAllOff(timeout: Option<int>) returns (outcome: Outcome)
      requires Valid()
      modifies this, gpio.Obj()
      ensures Valid()
      ensures (State(), outcome) == SwitchAll(registry, old(State()), registry.order, false, timeout)
    {
      outcome := SwitchEach(false, timeout);
    }

    /** The shared loop of `turn_all_on` and `turn_all_off`, in registry order. */
    method SwitchEach(on: bool, timeout: Option<int>) returns (outcome: Outcome)
      requires Valid()
      modifies this, gpio.Obj()
      ensures Valid()
      ensures (State(), outcome) == SwitchAll(registry, old(State()), registry.order, on, timeout)
    {
      var success := true;
      var i := 0;
      while i < |registry.order|
        invariant 0 <= i <= |registry.order|
        invariant Valid()
        invariant (State(), Returned(success)) == SwitchAll(registry, old(State()), registry.order[..i], on, timeout)
      {
        var device := registry.order[i];
        SwitchAllSnoc(registry, old(State()), registry.order, i, on, timeout);
        var o;
        if on {
          o := TurnOn(device, timeout);
        } else {
          o := TurnOff(device, timeout);
        }
        if o.Raised? {
          SwitchAllStops(registry, old(State()), registry.order[..i + 1], registry.order, on, timeout);
          return o;
        }
        if !o.ok {
          success := false;
        }
        i := i + 1;
      }
      assert registry.order[..i] == registry.order;
      return Returned(success);
    }

    /** `cleanup()`. */
    method Cleanup()
      requires Valid()
      modifies this, gpio.Obj()
      ensures Valid()
      ensures State() == CleanedUp(registry, old(State()))
    {
      CancelTimers();
      MarkAllOff();
      gpio.Cleanup();
      var cleaned := CleanedUp(registry, old(State()));
      MapsEqual(status, cleaned.status);
      MapsEqual(timers, cleaned.timers);
    }

    /** The first loop of `cleanup()`: cancel every pending timer, leaving it in its slot. */
    method CancelTimers()
      requires Valid()
      modifies this
      ensures Valid() && status == old(status)
      ensures timers.Keys == old(timers).Keys
      ensures forall d :: d in timers ==> timers[d] == Cancel(old(timers)[d])
    {
      var todo := timers.Keys;
      while todo != {}
        invariant todo <= timers.Keys
        invariant timers.Keys == old(timers).Keys && status == old(status)
        invariant forall d :: d in timers ==> timers[d] == if d in todo then old(timers)[d] else Cancel(old(timers)[d])
        decreases |todo|
      {
        var device :| device in todo;
        if timers[device].Some? {
          timers := timers[device := Some(timers[device].value.(cancelled := true))];
        }
        todo := todo - {device};
      }
    }

    /** The second loop of `cleanup()`: every registered device marked off. */
    method MarkAllOff()
      requires Valid()
      modifies this
      ensures Valid() && timers == old(timers)
      ensures forall d :: d in status ==> !status[d]
    {
      var todo := registry.pins.Keys;
      while todo != {}
        invariant todo <= status.Keys
        invariant status.Keys == old(status).Keys && timers == old(timers)
        invariant forall d :: d in status && d !in todo ==> !status[d]
        decreases |todo|
      {
        var device :| device in todo;
        status := status[device := false];
        todo := todo - {device};
      }
    }
  }

  lemma MapsEqual<K, V>(m1: map<K, V>, m2: map<K, V>)
    requires m1.Keys == m2.Keys && forall k :: k in m1 ==> m1[k] == m2[k]
    ensures m1 == m2
  {
  }

  /** One more device set up extends `SetUpAll` by one `setup` and one low `output`. */
  lemma SetUpAllStep(b: PinBoard, reg: Registry, devices: seq<string>, i: nat)
    requires i < |devices| && forall d :: d in devices ==> d in reg.pins
    ensures var pin := reg.pins[devices[i]];
            var before := SetUpAll(b, reg, devices[..i]);
            WritePin(SetupPin(before, pin, "OUT"), pin, false).Some?
            && SetUpAll(b, reg, devices[..i + 1]) == WritePin(SetupPin(before, pin, "OUT"), pin, false).value
  {
    assert devices[..i + 1][..i] == devices[..i];
  }

  /** One more device for the loop of `turn_all_on`/`turn_all_off`. */
  lemma SwitchAllSnoc(reg: Registry, s: Snapshot, devices: seq<string>, i: int, on: bool, timeout: Option<int>)
    requires 0 <= i < |devices|
    ensures var (s1, o1) := SwitchAll(reg, s, devices[..i], on, timeout);
            var (s2, o2) := Switch(reg, s1, devices[i], on, timeout);
            SwitchAll(reg, s, devices[..i + 1], on, timeout)
            == if o1.Raised? then (s1, o1) else (s2, if o2.Raised? then o2 else Returned(o1.ok && o2.ok))
  {
    assert devices[..i + 1][..i] == devices[..i];
  }

  lemma {:induction false} SwitchAllStops(reg: Registry, s: Snapshot, prefix: seq<string>, devices: seq<string>, on: bool, timeout: Option<int>)
    requires prefix <= devices
    requires SwitchAll(reg, s, prefix, on, timeout).1.Raised?
    ensures SwitchAll(reg, s, devices, on, timeout) == SwitchAll(reg, s, prefix, on, timeout)
    decreases |devices|
  {
    if |devices| > |prefix| {
      assert prefix <= devices[..|devices| - 1];
      SwitchAllStops(reg, s, prefix, devices[..|devices| - 1], on, timeout);
    } else {
      assert prefix == devices;
    }
  }
}
