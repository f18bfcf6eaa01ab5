# Optical spectrum analyser client: retry wrapper and unit conversions

This project models two parts of the acquisition core of the optical spectrum
analyser client and proves properties of them in Dafny.

- **The bounded-retry wrapper** `request_until_success(fn, max_attempts)`
  (module `RequestErrorManager`, file `request_error_manager.dfy`). The
  request function is abstracted as the outcome of each of its calls:
  `fn(i)` says whether the i-th call (from 0) returns a value or raises
  `ResponseTimeout`, `InvalidResponse` or any other exception. The wrapper is
  a method with a `while` loop that returns the response and the number of
  calls made. Its contract is the predicate `RetryContract`: at most
  `max_attempts` calls; a success is the unchanged value of the last call made,
  and every earlier call raised; exhaustion is the `InvalidResponse` carrying
  `max_attempts`, raised after every allowed call failed. A recursive
  reference definition `Retry` meets that contract, and the contract admits
  only one run, so the method and the reference agree on every input.
- **The unit conversions** `m_to_nm`, `nm_to_m` and `wavelength_to_frequency`
  (module `UnitConversions`, file `unit_conversions.dfy`), over exact reals.

Three things the wrapper's code does that its docstring
(osa/services/request_error_manager.py:5-13) leaves unsaid, and which the
model keeps:

- The wrapper catches every `Exception` an attempt raises, not only the two
  server exceptions. The model has a third failure kind, `OtherError`, and it
  is swallowed like the others.
- For `max_attempts <= 0` the wrapper makes no call and raises
  `InvalidResponse` at once. `Exhausted` carries the count as given, negative
  values included.
- The final `InvalidResponse` message names only the attempt count. The model
  keeps just the count.

## Model

| member | source | states |
|---|---|---|
| RequestErrorManager.RequestUntilSuccess | osa/services/request_error_manager.py:4-23 | the loop meets the retry contract (at most max_attempts calls, first success returned unchanged after exactly that many calls, else InvalidResponse with max_attempts after all allowed calls) and agrees with the reference definition |
| RequestErrorManager.RetryFromMeetsContract | osa/services/request_error_manager.py:16-23 | the attempts from call i on (RetryFrom), when calls before i all raised, meet the retry contract |
| RequestErrorManager.Retry | osa/services/request_error_manager.py:4-23 | the recursive reference definition of the wrapper meets the retry contract, so it is the only run that does and equals the loop |
| RequestErrorManager.ContractDeterminesRun | osa/services/request_error_manager.py:16-23 | two runs that both meet the retry contract are equal: response and call count are fully determined |
| RequestErrorManager.SuccessIffSomeAttemptReturns | osa/services/request_error_manager.py:16-18 | the wrapper returns a value if and only if one of the first max_attempts calls returns |
| RequestErrorManager.FirstSuccessIsReturned | osa/services/request_error_manager.py:17-18 | if calls 0..k-1 raise and call k < max_attempts returns v, the wrapper returns v after exactly k+1 calls and makes no further call |
| RequestErrorManager.AllFailuresExhaust | osa/services/request_error_manager.py:16-23 | if every allowed call raises, the result is InvalidResponse carrying max_attempts after exactly max_attempts calls |
| RequestErrorManager.NoAttemptsNoCalls | osa/services/request_error_manager.py:16-23 | for max_attempts <= 0 no call is made and InvalidResponse is raised at once |
| RequestErrorManager.FailureConsumesOneAttempt | osa/services/request_error_manager.py:19-21 | a first call raising any kind of exception is swallowed and uses exactly one attempt; the rest is the wrapper over the later calls with one attempt fewer |
| RequestErrorManager.ValidResponse | tests/services/test_request_error_manager.py:9-18 | a function that always returns gives its value after one call |
| RequestErrorManager.ValidResponseAfterFailures | tests/services/test_request_error_manager.py:20-30 | InvalidResponse, then ResponseTimeout, then a value: the value is returned after three calls |
| RequestErrorManager.AlwaysInvalidResponse | tests/services/test_request_error_manager.py:32-40 | a function that always times out gives InvalidResponse with count 5 after five calls |
| UnitConversions.MToNm | osa/utils/unit_conversions.py:4-10 | the measurement times 10^9: NmToM of the result is the measurement again, and the sign is kept |
| UnitConversions.NmToM | osa/utils/unit_conversions.py:13-19 | the measurement times 10^-9: the result times 10^9 is the measurement again, and the sign is kept |
| UnitConversions.WavelengthToFrequency | osa/utils/unit_conversions.py:22-32 | for a non-zero wavelength, frequency (THz) times wavelength (nm) equals c/1000; the frequency is positive for a positive wavelength and negative for a negative one |
| UnitConversions.ConversionsAreInverse | osa/utils/unit_conversions.py:4-19 | m_to_nm and nm_to_m undo each other in both orders |
| UnitConversions.MToNmIsScaling | osa/utils/unit_conversions.py:4-10 | m_to_nm is additive and strictly increasing |
| UnitConversions.NmToMIsScaling | osa/utils/unit_conversions.py:13-19 | nm_to_m is additive and strictly increasing |
| UnitConversions.FrequencyDecreasesWithWavelength | osa/utils/unit_conversions.py:29-32 | 0 < w1 < w2 implies a strictly higher frequency for w1 than for w2 |
| UnitConversions.FrequencyInverselyProportional | osa/utils/unit_conversions.py:29-32 | scaling the wavelength by k divides the frequency by k |
| UnitConversions.MetresToNanometresExample | tests/utils/test_unit_conversions.py:7-9 | 1.342 m is exactly 1.342e9 nm |
| UnitConversions.SmallMetresToNanometresExample | tests/utils/test_unit_conversions.py:11-13 | 4.81e-9 m is exactly 4.81 nm |
| UnitConversions.NanometresToMetresExample | tests/utils/test_unit_conversions.py:15-17 | 9214 nm is exactly 9.214e-6 m |
| UnitConversions.WavelengthToFrequencyExample | tests/utils/test_unit_conversions.py:19-21 | 1550 nm is 193.414489 THz to within 5e-8, the seven places assertAlmostEqual checks |

## Left out

- The `print` logging of each failed attempt is left out. It is a side effect only.
- The text of the exceptions' messages is left out. The exhaustion failure keeps only the attempt count.
- The request function's own behaviour is left out: its I/O, its state, and how its outcome is produced. The model takes as a parameter what each call returns or raises.
- Exceptions outside `Exception`, such as `KeyboardInterrupt`, are left out. They would escape the `except` clause and the wrapper. The model has no such outcome.
- The exception classes in `osa/exceptions/` are left out. They carry no logic and appear only as variants of `ErrorKind`.
- UnitConversions.WavelengthToFrequency: IEEE-754 rounding of `math.pow` and of the float operations is not modelled. All conversions are exact over the reals, so the tests' equalities are read as exact real identities.
- UnitConversions.WavelengthToFrequency: a zero wavelength makes the source raise `ZeroDivisionError` in the division at osa/utils/unit_conversions.py:30; the model requires a non-zero wavelength instead and does not model that error.
- The graphical interface (`osa/gui/`) is left out. It is Qt widget, timer and plotting code.
- `osa/services/server_requests.py` is left out. It is network I/O, and as written it returns a constant placeholder dictionary.
- Packaging metadata (`setup.py`) is left out.
