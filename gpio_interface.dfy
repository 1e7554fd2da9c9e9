/**
 * Pin drivers (waterbot/gpio/interface.py).
 *
 * Two in-memory implementations of the pin-driver interface: an emulation backend
 * that refuses writes to pins never set up, and a test-recording backend that logs
 * every call. `PinBoard` is what either of them holds, as a value; the functions
 * over it state what `setup`, `output` and `cleanup` do, and the two classes are
 * proved to do exactly that. `Driver` stands for the abstract interface: the
 * controller holds one and reaches the implementation behind it by a match.
 */
module GpioInterface {
  import opened Wrappers

  /** The state of one driver object, by implementation. */
  datatype PinBoard =
    | EmulationBoard(pinStates: map<int, bool>, setupPins: map<int, string>)
    | MockBoard(setupCalls: seq<(int, string)>, outputCalls: seq<(int, bool)>,
                cleanupCalled: bool, pinStates: map<int, bool>)

  /** `get_pin_state(pin)`: the recorded level, or False when none is recorded. */
  function PinState(b: PinBoard, pin: int): bool {
    if pin in b.pinStates then b.pinStates[pin] else false
  }

  /** Whether `output(pin, _)` goes through: the emulation needs a prior `setup(pin, _)`,
      the mock takes any pin. */
  predicate Configured(b: PinBoard, pin: int) {
    b.MockBoard? || pin in b.setupPins
  }

  /** `setup(pin, mode)`: records the mode (or logs the call) and resets the pin to low. */
  function SetupPin(b: PinBoard, pin: int, mode: string): PinBoard {
    match b
    case EmulationBoard(states, pins) => EmulationBoard(states[pin := false], pins[pin := mode])
    case MockBoard(sc, oc, cc, states) => MockBoard(sc + [(pin, mode)], oc, cc, states[pin := false])
  }

  /** After `setup(pin, mode)` the pin is set up and low; every other pin keeps its level
      and its set-up state; the emulation records the mode, the mock logs the call. */
  lemma SetupPinFacts(b: PinBoard, pin: int, mode: string)
    ensures var r := SetupPin(b, pin, mode);
            && Configured(r, pin) && !PinState(r, pin)
            && (forall q :: q != pin ==> PinState(r, q) == PinState(b, q))
            && (forall q :: q != pin ==> (Configured(r, q) <==> Configured(b, q)))
            && (r.EmulationBoard? <==> b.EmulationBoard?)
            && (r.EmulationBoard? ==> r.setupPins == b.setupPins[pin := mode])
            && (r.MockBoard? ==>
                  && r.setupCalls == b.setupCalls + [(pin, mode)]
                  && r.outputCalls == b.outputCalls
                  && r.cleanupCalled == b.cleanupCalled)
  {
  }

  /** `output(pin, value)`: None is the RuntimeError the emulation raises for a pin
      never set up; otherwise the new state. */
  function WritePin(b: PinBoard, pin: int, value: bool): Option<PinBoard> {
    match b
    case EmulationBoard(states, pins) =>
      if pin !in pins then None else Some(EmulationBoard(states[pin := value], pins))
    case MockBoard(sc, oc, cc, states) =>
      Some(MockBoard(sc, oc + [(pin, value)], cc, states[pin := value]))
  }

  /** `output(pin, value)` raises exactly for a pin that is not set up; otherwise only
      `pin` changes level, set-up state stays, and the mock logs the call. */
  lemma WritePinFacts(b: PinBoard, pin: int, value: bool)
    ensures var r := WritePin(b, pin, value);
            && (r.None? <==> !Configured(b, pin))
            && (r.Some? ==> PinState(r.value, pin) == value)
            && (r.Some? ==> forall q :: q != pin ==> PinState(r.value, q) == PinState(b, q))
            && (r.Some? ==> forall q :: Configured(r.value, q) <==> Configured(b, q))
            && (r.Some? ==> (r.value.EmulationBoard? <==> b.EmulationBoard?))
            && (r.Some? && r.value.EmulationBoard? ==> r.value.setupPins == b.setupPins)
            && (r.Some? && r.value.MockBoard? ==>
                  && r.value.outputCalls == b.outputCalls + [(pin, value)]
                  && r.value.setupCalls == b.setupCalls
                  && r.value.cleanupCalled == b.cleanupCalled)
  {
  }

  /** `cleanup()`: the emulation forgets every pin, the mock notes the call. */
  function Release(b: PinBoard): PinBoard {
    match b
    case EmulationBoard(_, _) => EmulationBoard(map[], map[])
    case MockBoard(sc, oc, _, _) => MockBoard(sc, oc, true, map[])
  }

  /** After `cleanup()` every pin reads low; the emulation has no pin set up any more, so
      a later `output` raises; the mock keeps both call logs. */
  lemma ReleaseFacts(b: PinBoard)
    ensures var r := Release(b);
            && (forall q :: !PinState(r, q))
            && (r.EmulationBoard? <==> b.EmulationBoard?)
            && (r.EmulationBoard? ==> forall q :: !Configured(r, q))
            && (r.MockBoard? ==> r.cleanupCalled && r.setupCalls == b.setupCalls && r.outputCalls == b.outputCalls)
  {
  }

  /** Calling `cleanup()` twice is the same as calling it once. */
  lemma ReleaseIdempotent(b: PinBoard)
    ensures Release(Release(b)) == Release(b)
  {
  }

  /** `EmulationGPIO`: pin levels and pin modes in two maps. */
  class EmulationGpio {
    var pinStates: map<int, bool>
    var setupPins: map<int, string>

    constructor ()
      ensures pinStates == map[] && setupPins == map[]
    {
      pinStates := map[];
      setupPins := map[];
    }

    function Board(): PinBoard
      reads this
    {
      EmulationBoard(pinStates, setupPins)
    }

    method Setup(pin: int, mode: string)
      modifies this
      ensures setupPins == old(setupPins)[pin := mode]
      ensures pinStates == old(pinStates)[pin := false]
      ensures Board() == SetupPin(old(Board()), pin, mode)
    {
      setupPins := setupPins[pin := mode];
      pinStates := pinStates[pin := false];
    }

    /** `ok` is false exactly when the source raises RuntimeError("Pin ... not setup"). */
    method Output(pin: int, value: bool) returns (ok: bool)
      modifies this
      ensures ok <==> pin in old(setupPins)
      ensures setupPins == old(setupPins)
      ensures pinStates == if ok then old(pinStates)[pin := value] else old(pinStates)
      ensures var w := WritePin(old(Board()), pin, value);
              ok == w.Some? && Board() == if ok then w.value else old(Board())
    {
      if pin !in setupPins {
        return false;
      }
      pinStates := pinStates[pin := value];
      return true;
    }

    function GetPinState(pin: int): (r: bool)
      reads this
      ensures r <==> pin in pinStates && pinStates[pin]
    {
      if pin in pinStates then pinStates[pin] else false
    }

    /** The pins `output` accepts, with their modes. */
    function GetSetupPins(): (r: map<int, string>)
      reads this
      ensures r == setupPins
      ensures forall pin :: pin in r <==> Configured(Board(), pin)
    {
      setupPins
    }

    method Cleanup()
      modifies this
      ensures pinStates == map[] && setupPins == map[]
      ensures Board() == Release(old(Board()))
    {
      pinStates := map[];
      setupPins := map[];
    }
  }

  /** `MockGPIO`: append-only logs of `setup` and `output` calls, plus pin levels. */
  class MockGpio {
    var setupCalls: seq<(int, string)>
    var outputCalls: seq<(int, bool)>
    var cleanupCalled: bool
    var pinStates: map<int, bool>

    constructor ()
      ensures setupCalls == [] && outputCalls == [] && !cleanupCalled && pinStates == map[]
    {
      setupCalls := [];
      outputCalls := [];
      cleanupCalled := false;
      pinStates := map[];
    }

    function Board(): PinBoard
      reads this
    {
      MockBoard(setupCalls, outputCalls, cleanupCalled, pinStates)
    }

    method Setup(pin: int, mode: string)
      modifies this
      ensures setupCalls == old(setupCalls) + [(pin, mode)]
      ensures pinStates == old(pinStates)[pin := false]
      ensures outputCalls == old(outputCalls) && cleanupCalled == old(cleanupCalled)
      ensures Board() == SetupPin(old(Board()), pin, mode)
    {
      setupCalls := setupCalls + [(pin, mode)];
      pinStates := pinStates[pin := false];
    }

    /** Never raises, whether or not `pin` was set up. */
    method Output(pin: int, value: bool)
      modifies this
      ensures outputCalls == old(outputCalls) + [(pin, value)]
      ensures pinStates == old(pinStates)[pin := value]
      ensures setupCalls == old(setupCalls) && cleanupCalled == old(cleanupCalled)
      ensures Some(Board()) == WritePin(old(Board()), pin, value)
    {
      outputCalls := outputCalls + [(pin, value)];
      pinStates := pinStates[pin := value];
    }

    function GetPinState(pin: int): (r: bool)
      reads this
      ensures r <==> pin in pinStates && pinStates[pin]
    {
      if pin in pinStates then pinStates[pin] else false
    }

    method Cleanup()
      modifies this
      ensures cleanupCalled && pinStates == map[]
      ensures setupCalls == old(setupCalls) && outputCalls == old(outputCalls)
      ensures Board() == Release(old(Board()))
    {
      cleanupCalled := true;
      pinStates := map[];
    }
  }

  /** `GPIOInterface`: a handle on one of the implementations above. */
  datatype Driver = Emulated(emu: EmulationGpio) | Mocked(mock: MockGpio) {

    /** The object behind the handle: what its methods modify. */
    function Obj(): object {
      match this
      case Emulated(e) => e
      case Mocked(m) => m
    }

    function Board(): PinBoard
      reads Obj()
    {
      match this
      case Emulated(e) => e.Board()
      case Mocked(m) => m.Board()
    }

    method Setup(pin: int, mode: string)
      modifies Obj()
      ensures Board() == SetupPin(old(Board()), pin, mode)
    {
      match this
      case Emulated(e) => e.Setup(pin, mode);
      case Mocked(m) => m.Setup(pin, mode);
    }

    /** `ok` is false when the implementation raised; the state is then unchanged. */
    method Output(pin: int, value: bool) returns (ok: bool)
      modifies Obj()
      ensures var w := WritePin(old(Board()), pin, value);
              ok == w.Some? && Board() == if ok then w.value else old(Board())
    {
      match this
      case Emulated(e) =>
        ok := e.Output(pin, value);
      case Mocked(m) =>
        m.Output(pin, value);
        ok := true;
    }

    method Cleanup()
      modifies Obj()
      ensures Board() == Release(old(Board()))
    {
      match this
      case Emulated(e) => e.Cleanup();
      case Mocked(m) => m.Cleanup();
    }
  }
}
