# find_key: locating a YubiKey

A Dafny model of `find_key(debug=False, skip=0)` from python-yubico. This
function opens the `skip`-th connected YubiKey through the standard USB HID
driver. Firmware 2.1.4 to 2.1.9 was also shipped on early YubiKey NEO
("NEO beta") keys. When the opened key reports a version in that window,
the function opens the key again through the NEO driver. It keeps the NEO
handle when both drivers report the same version, and raises
`YubiKeyError('Found YubiKey NEO BETA, but failed on rescan.')` when they
differ. A USB HID error whose text contains `No USB YubiKey found` becomes
`YubiKeyError('No YubiKey found')`. Every other exception goes through
unchanged.

Files:

- `pytuple.dfy` (module `PyTuple`): Python's ordering of integer tuples, which is how
  `version_num() >= (2, 1, 4)` is evaluated. It is proved to agree with the
  first-difference definition and to be a total order.
- `text.dfy` (module `Text`): Python's substring test `p in s`. It is proved to agree
  with the positional definition of an occurrence.
- `yubikey.dfy` (module `YubiKey`): firmware versions, the NEO beta window, driver
  outcomes, the exception handler and `FindKey`, with one lemma for each
  way a call can end.

The two drivers, `YubiKeyUSBHID` and `YubiKeyNEO_USBHID`, are not modelled.
Each one is a *probe*: a total function from `(debug, skip)` to what
constructing the driver produced, either `Opened(handle, version)` or
`Raised(error)`. `FindKey` is pure. It returns the outcome together with
the trace of probes it made: which family, with which `debug` and `skip`.

The error reasons are `'No YubiKey found'` and
`'Found YubiKey NEO BETA, but failed on rescan.'`. A "not found" error is
recognised by a substring of the exception's text. The `except` clause also
wraps the NEO rescan, so a NEO driver error may be translated too,
depending on its class (see below).

## Model

| member | source | states |
|---|---|---|
| `PyTuple.Compare` | yubico/yubikey.py:52-53 | Python's three-way tuple comparison; it answers `Equal` exactly when the two tuples are equal |
| `PyTuple.CompareFlip` | yubico/yubikey.py:52-53 | swapping the operands flips the answer, so `>=` is `<=` with its operands swapped |
| `PyTuple.CompareLessExactly` | yubico/yubikey.py:52-53 | `Less` exactly when, after a common prefix, `a` has a smaller element or ends first (the first-difference definition) |
| `PyTuple.LeTransitive` | yubico/yubikey.py:52-53 | tuple `<=` is transitive |
| `PyTuple.LeAntisymmetric` | yubico/yubikey.py:52-53 | tuple `<=` in both directions means the tuples are equal |
| `PyTuple.LeTotal` | yubico/yubikey.py:52-53 | any two tuples are ordered one way or the other; `a >= b` iff `b <= a` |
| `Text.Contains` | yubico/yubikey.py:62 | `p in s` is false when `p` is longer than `s` and true when `s` starts with `p` |
| `Text.ContainsExactly` | yubico/yubikey.py:62 | `p in s` holds exactly when `p` occurs at some position of `s` |
| `YubiKey.VersionCompare` | yubico/yubikey.py:52-53 | comparing two version tuples is the lexicographic order on major, then minor, then build |
| `YubiKey.InNeoBetaWindowExactly` | yubico/yubikey.py:52-53 | a version is in the NEO beta window exactly when it is 2.1.b with 4 <= b <= 9, both ends included |
| `YubiKey.NeoBetaWindowEdges` | yubico/yubikey.py:52-53 | 2.1.4 and 2.1.9 are inside the window; 2.1.3, 2.1.10, 2.2.0 and 2.0.9 are outside |
| `YubiKey.SameTupleSameVersion` | yubico/yubikey.py:56 | the rescan's tuple `==` holds exactly when the two versions are equal |
| `YubiKey.Generalize` | yubico/yubikey.py:61-66 | the handler gives `YubiKeyError('No YubiKey found')` exactly for a caught error whose text contains `No USB YubiKey found`; otherwise it re-raises the same error |
| `YubiKey.FindKey` | yubico/yubikey.py:39-66 | the standard driver is asked first, with the caller's `debug` and `skip`; the NEO driver is asked second, with the same arguments, exactly when the first key opened in the window; at most two probes are made; a standard handle is the one the standard driver opened, and a NEO handle is the one the NEO driver opened with the same version |
| `YubiKey.OutsideWindowKeepsStandard` | yubico/yubikey.py:51-60 | a key outside the window is returned as opened after one probe, and the result does not depend on the NEO driver |
| `YubiKey.MatchingRescanYieldsNeo` | yubico/yubikey.py:55-58 | in the window, a NEO rescan that reports the same version yields the NEO handle after exactly two probes |
| `YubiKey.MismatchedRescanFails` | yubico/yubikey.py:55-59 | in the window, a NEO rescan that reports a different version gives `YubiKeyError('Found YubiKey NEO BETA, but failed on rescan.')` and no handle |
| `YubiKey.RescanErrorHandled` | yubico/yubikey.py:55-66 | an exception from the NEO driver goes through the same handler, and it propagates unchanged when the NEO error class is not a USB HID error |
| `YubiKey.NotFoundGeneralized` | yubico/yubikey.py:61-64 | a standard-driver error that the handler catches and whose text contains `No USB YubiKey found` becomes `YubiKeyError('No YubiKey found')` after one probe |
| `YubiKey.OtherErrorReraised` | yubico/yubikey.py:61-66 | every other standard-driver error (not caught, or caught without the marker) leaves unchanged after one probe |
| `YubiKey.NotFoundMarkerAnywhere` | yubico/yubikey.py:62 | the marker is recognised wherever it appears in the message |
| `YubiKey.OnlyCallerArgumentsMatter` | yubico/yubikey.py:51-55 | drivers that agree on the caller's `(debug, skip)` give the same result and trace, so nothing but those arguments reaches them |
| `YubiKey.OutcomesAreExhaustive` | yubico/yubikey.py:50-66 | every call ends one way with no retry: a handle, a `YubiKeyError` with one of its two reasons, or an unchanged exception of a driver that was asked |

## Left out

- The USB HID drivers (`YubiKeyUSBHID`, `YubiKeyNEO_USBHID`): USB enumeration, opening devices and HID reports are I/O. They are probe parameters.
- The class hierarchy of `YubiKeyNEO_USBHIDError` is not part of this model. Whether `except YubiKeyUSBHIDError` catches it is the parameter `neoErrorIsUsbHid` of `FindKey`.
- `YubiKeyError` raised on the rescan mismatch is assumed not to be a `YubiKeyUSBHIDError`, so the handler does not catch it. The exception classes are not part of this model.
- Closing or releasing handles: the code does neither, so nothing is claimed about it.
- How `version_num()` parses firmware bytes. Each driver's outcome carries the version as a given triple, and `version_num()` is taken to be free of side effects (the code calls it up to four times).
- The effect of `debug` on logging, the module docstring and `__all__`.
- Python's `str()` of an exception is taken to be the message it carries.
