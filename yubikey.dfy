/**
  Locating a connected YubiKey (`find_key` in yubico/yubikey.py).

  `FindKey` opens the `skip`-th device of the standard USB HID family. A
  firmware version in the NEO beta window 2.1.4 .. 2.1.9 is shared by early
  NEO keys, so such a device is opened again through the NEO driver and
  that handle is kept when both report the same version. A "no USB YubiKey
  found" transport error is turned into one generic `YubiKeyError`; every
  other transport error goes through unchanged.

  The two USB HID drivers are not modelled: each is a probe, a total
  function from the caller's `(debug, skip)` to what opening the device
  produced. Besides its result, `FindKey` returns the trace of probes it
  made, so that which driver was asked, and with which arguments, can be
  stated.
*/
module YubiKey {
  import opened PyTuple
  import opened Text

  /** Firmware version `(major, minor, build)` as `version_num()` reports it. */
  datatype Version = Version(major: int, minor: int, build: int)

  /** The Python tuple that `version_num()` returns. */
  function AsTuple(v: Version): seq<int> {
    [v.major, v.minor, v.build]
  }

  /** First and last firmware versions of the YubiKey NEO beta. */
  const NeoBetaFirst := Version(2, 1, 4)
  const NeoBetaLast := Version(2, 1, 9)

  /** `version_num() >= (2, 1, 4) and version_num() <= (2, 1, 9)`, with Python's tuple order. */
  predicate InNeoBetaWindow(v: Version) {
    Ge(AsTuple(v), AsTuple(NeoBetaFirst)) && Le(AsTuple(v), AsTuple(NeoBetaLast))
  }

  /** An open connection to one device, as a driver returns it. */
  datatype Handle = Handle(id: nat)

  /** Exception classes a driver can raise. */
  datatype ErrorClass =
    | UsbHidError          // YubiKeyUSBHIDError, from the standard driver
    | NeoUsbHidError       // YubiKeyNEO_USBHIDError, from the NEO driver
    | OtherError(name: string)

  /** A raised exception: its class and `str()` of it. */
  datatype TransportError = TransportError(kind: ErrorClass, message: string)

  /** What constructing a driver object produced: a handle with its firmware version, or an exception. */
  datatype ProbeOutcome = Opened(handle: Handle, version: Version) | Raised(error: TransportError)

  /** A driver constructor, `YubiKeyUSBHID(debug=…, skip=…)` or `YubiKeyNEO_USBHID(debug=…, skip=…)`. */
  type Probe = (bool, int) -> ProbeOutcome

  datatype Family = StandardFamily | NeoFamily

  /** One driver constructed, with the arguments it was given. */
  datatype ProbeCall = ProbeCall(family: Family, debug: bool, skip: int)

  /** An exception leaving `find_key`. */
  datatype Failure =
    | YubiKeyError(reason: string)
    | Propagated(error: TransportError)

  /** How a call of `find_key` ends. */
  datatype Outcome =
    | StandardKey(handle: Handle)
    | NeoKey(handle: Handle)
    | Failed(failure: Failure)

  datatype Discovery = Discovery(result: Outcome, calls: seq<ProbeCall>)

  /** Text that marks the standard driver's "nothing to open" error. */
  const NotFoundMarker := "No USB YubiKey found"
  /** Reason of the generic error that replaces it. */
  const NoYubiKeyFound := "No YubiKey found"
  /** Reason of the error raised when the NEO rescan reports another version. */
  const RescanFailed := "Found YubiKey NEO BETA, but failed on rescan."

  /**
    Whether `except YubiKeyUSBHIDError` catches `e`. Whether the NEO driver's
    exception class derives from YubiKeyUSBHIDError is not known here, so
    it is the parameter `neoErrorIsUsbHid`.
  */
  predicate Caught(e: TransportError, neoErrorIsUsbHid: bool) {
    e.kind == UsbHidError || (e.kind == NeoUsbHidError && neoErrorIsUsbHid)
  }

  /** The exception handler: a caught "not found" error becomes the generic error, anything else is re-raised as it is. */
  function Generalize(e: TransportError, neoErrorIsUsbHid: bool): (f: Failure)
    ensures f.YubiKeyError? <==> Caught(e, neoErrorIsUsbHid) && Contains(e.message, NotFoundMarker)
    ensures f.YubiKeyError? ==> f.reason == NoYubiKeyFound
    ensures f.Propagated? ==> f.error == e
  {
    if Caught(e, neoErrorIsUsbHid) && Contains(e.message, NotFoundMarker) then
      YubiKeyError(NoYubiKeyFound)
    else
      Propagated(e)
  }

  /**
    `find_key(debug, skip)`. The standard driver is always asked first and
    with the caller's arguments; the NEO driver is asked, with the same
    arguments, exactly when the first device opened and reported a version
    in the NEO beta window. A handle is returned only as the driver that
    opened it reported it.
  */
  function FindKey(debug: bool, skip: int, standard: Probe, neo: Probe, neoErrorIsUsbHid: bool): (d: Discovery)
    ensures 1 <= |d.calls| <= 2
    ensures d.calls[0] == ProbeCall(StandardFamily, debug, skip)
    ensures |d.calls| == 2 <==> standard(debug, skip).Opened? && InNeoBetaWindow(standard(debug, skip).version)
    ensures |d.calls| == 2 ==> d.calls[1] == ProbeCall(NeoFamily, debug, skip)
    ensures d.result.StandardKey? ==>
      && |d.calls| == 1
      && standard(debug, skip).Opened?
      && standard(debug, skip).handle == d.result.handle
    ensures d.result.NeoKey? ==>
      && |d.calls| == 2
      && neo(debug, skip).Opened?
      && neo(debug, skip).handle == d.result.handle
      && neo(debug, skip).version == standard(debug, skip).version
  {
    var first := [ProbeCall(StandardFamily, debug, skip)];
    match standard(debug, skip)
    case Raised(e) => Discovery(Failed(Generalize(e, neoErrorIsUsbHid)), first)
    case Opened(h, v) =>
      if !InNeoBetaWindow(v) then
        Discovery(StandardKey(h), first)
      else
        var both := first + [ProbeCall(NeoFamily, debug, skip)];
        match neo(debug, skip)
        case Raised(e) => Discovery(Failed(Generalize(e, neoErrorIsUsbHid)), both)
        case Opened(h2, v2) =>
          if AsTuple(v2) == AsTuple(v) then
            Discovery(NeoKey(h2), both)
          else
            Discovery(Failed(YubiKeyError(RescanFailed)), both)
  }

  // ---------------------------------------------------------------------
  // The version window
  // ---------------------------------------------------------------------

  /** Python's comparison of two version tuples is the lexicographic order on (major, minor, build). */
  lemma VersionCompare(v: Version, w: Version)
    ensures Compare(AsTuple(v), AsTuple(w)) ==
      if v.major != w.major then (if v.major < w.major then Less else Greater)
      else if v.minor != w.minor then (if v.minor < w.minor then Less else Greater)
      else if v.build != w.build then (if v.build < w.build then Less else Greater)
      else Equal
  {
    var a, b := AsTuple(v), AsTuple(w);
    var a1, b1 := a[1..], b[1..];
    var a2, b2 := a1[1..], b1[1..];
    assert a2 == [v.build] && b2 == [w.build];
    assert Compare(a2[1..], b2[1..]) == Equal;
    assert Compare(a2, b2) == if v.build < w.build then Less else if v.build > w.build then Greater else Equal;
    assert a1 == [v.minor, v.build] && b1 == [w.minor, w.build];
    assert Compare(a1, b1) ==
      if v.minor < w.minor then Less else if v.minor > w.minor then Greater else Compare(a2, b2);
  }

  /** A version is a NEO beta candidate exactly when it is 2.1.b with 4 <= b <= 9, both ends included. */
  lemma InNeoBetaWindowExactly(v: Version)
    ensures InNeoBetaWindow(v) <==> v.major == 2 && v.minor == 1 && 4 <= v.build <= 9
  {
    VersionCompare(v, NeoBetaFirst);
    VersionCompare(v, NeoBetaLast);
  }

  /** The ends of the window are inside it; their neighbours are not. */
  lemma NeoBetaWindowEdges()
    ensures InNeoBetaWindow(Version(2, 1, 4)) && InNeoBetaWindow(Version(2, 1, 9))
    ensures !InNeoBetaWindow(Version(2, 1, 3)) && !InNeoBetaWindow(Version(2, 1, 10))
    ensures !InNeoBetaWindow(Version(2, 2, 0)) && !InNeoBetaWindow(Version(2, 0, 9))
  {
  }

  /** Python's `==` on two version tuples is equality of the versions. */
  lemma SameTupleSameVersion(v: Version, w: Version)
    ensures AsTuple(v) == AsTuple(w) <==> v == w
  {
  }

  // ---------------------------------------------------------------------
  // One lemma per way out of FindKey
  // ---------------------------------------------------------------------

  /** A device outside the window is returned as it was opened, and the NEO driver is never asked. */
  lemma OutsideWindowKeepsStandard(debug: bool, skip: int, standard: Probe, neo: Probe, otherNeo: Probe, n: bool, h: Handle, v: Version)
    requires standard(debug, skip) == Opened(h, v) && !InNeoBetaWindow(v)
    ensures FindKey(debug, skip, standard, neo, n) == Discovery(StandardKey(h), [ProbeCall(StandardFamily, debug, skip)])
    ensures FindKey(debug, skip, standard, neo, n) == FindKey(debug, skip, standard, otherNeo, n)
  {
  }

  /** In the window, a NEO rescan that reports the same version yields the NEO handle. */
  lemma MatchingRescanYieldsNeo(debug: bool, skip: int, standard: Probe, neo: Probe, n: bool, h: Handle, h2: Handle, v: Version)
    requires standard(debug, skip) == Opened(h, v) && InNeoBetaWindow(v)
    requires neo(debug, skip) == Opened(h2, v)
    ensures FindKey(debug, skip, standard, neo, n) ==
      Discovery(NeoKey(h2), [ProbeCall(StandardFamily, debug, skip), ProbeCall(NeoFamily, debug, skip)])
  {
  }

  /** In the window, a NEO rescan that reports another version fails, with no handle. */
  lemma MismatchedRescanFails(debug: bool, skip: int, standard: Probe, neo: Probe, n: bool, h: Handle, h2: Handle, v: Version, v2: Version)
    requires standard(debug, skip) == Opened(h, v) && InNeoBetaWindow(v)
    requires neo(debug, skip) == Opened(h2, v2) && v2 != v
    ensures FindKey(debug, skip, standard, neo, n) ==
      Discovery(Failed(YubiKeyError(RescanFailed)), [ProbeCall(StandardFamily, debug, skip), ProbeCall(NeoFamily, debug, skip)])
  {
  }

  /** In the window, an exception from the NEO driver goes through the same handler. */
  lemma RescanErrorHandled(debug: bool, skip: int, standard: Probe, neo: Probe, n: bool, h: Handle, v: Version, e: TransportError)
    requires standard(debug, skip) == Opened(h, v) && InNeoBetaWindow(v)
    requires neo(debug, skip) == Raised(e)
    ensures FindKey(debug, skip, standard, neo, n).result == Failed(Generalize(e, n))
    ensures e.kind == NeoUsbHidError && !n ==> FindKey(debug, skip, standard, neo, n).result == Failed(Propagated(e))
  {
  }

  /** A caught standard-driver error whose text contains "No USB YubiKey found" becomes `YubiKeyError('No YubiKey found')`. */
  lemma NotFoundGeneralized(debug: bool, skip: int, standard: Probe, neo: Probe, n: bool, e: TransportError)
    requires standard(debug, skip) == Raised(e)
    requires Caught(e, n) && Contains(e.message, NotFoundMarker)
    ensures FindKey(debug, skip, standard, neo, n) ==
      Discovery(Failed(YubiKeyError(NoYubiKeyFound)), [ProbeCall(StandardFamily, debug, skip)])
  {
  }

  /** Any other standard-driver error, caught or not, leaves unchanged and the NEO driver is not asked. */
  lemma OtherErrorReraised(debug: bool, skip: int, standard: Probe, neo: Probe, n: bool, e: TransportError)
    requires standard(debug, skip) == Raised(e)
    requires !(Caught(e, n) && Contains(e.message, NotFoundMarker))
    ensures FindKey(debug, skip, standard, neo, n) ==
      Discovery(Failed(Propagated(e)), [ProbeCall(StandardFamily, debug, skip)])
  {
  }

  /** The marker is recognised anywhere in the message, as Python's `in` does. */
  lemma NotFoundMarkerAnywhere(prefix: string, suffix: string)
    ensures Contains(prefix + NotFoundMarker + suffix, NotFoundMarker)
  {
    var s := prefix + NotFoundMarker + suffix;
    assert s[|prefix|..|prefix| + |NotFoundMarker|] == NotFoundMarker;
    assert OccursAt(s, NotFoundMarker, |prefix|);
    ContainsExactly(s, NotFoundMarker);
  }

  /**
    The drivers are given the caller's `debug` and `skip` and nothing else:
    drivers that agree at those arguments give the same discovery.
  */
  lemma OnlyCallerArgumentsMatter(debug: bool, skip: int, s1: Probe, s2: Probe, n1: Probe, n2: Probe, n: bool)
    requires s1(debug, skip) == s2(debug, skip) && n1(debug, skip) == n2(debug, skip)
    ensures FindKey(debug, skip, s1, n1, n) == FindKey(debug, skip, s2, n2, n)
  {
  }

  /**
    Every call ends one way, without retrying: the standard handle, the NEO
    handle, a `YubiKeyError` with one of its two reasons, or an exception of
    a driver that was asked, unchanged.
  */
  lemma OutcomesAreExhaustive(debug: bool, skip: int, standard: Probe, neo: Probe, n: bool)
    ensures var d := FindKey(debug, skip, standard, neo, n);
      && (d.result.Failed? && d.result.failure.YubiKeyError? ==>
            d.result.failure.reason == NoYubiKeyFound || d.result.failure.reason == RescanFailed)
      && (d.result.Failed? && d.result.failure.Propagated? ==>
            standard(debug, skip) == Raised(d.result.failure.error)
            || (|d.calls| == 2 && neo(debug, skip) == Raised(d.result.failure.error)))
      && (d.result.Failed? && d.result.failure == YubiKeyError(RescanFailed) ==>
            |d.calls| == 2 && neo(debug, skip).Opened? && neo(debug, skip).version != standard(debug, skip).version)
      && (|d.calls| == 2 ==> d.calls[0].family != d.calls[1].family)
  {
  }
}
