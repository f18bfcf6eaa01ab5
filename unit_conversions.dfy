/**
 * Model of the unit conversions between metres and nanometres and from a
 * wavelength in nanometres to a frequency in terahertz. Values are exact
 * reals; the floating-point rounding of the Python functions is not modelled.
 */
module UnitConversions {

  /** `math.pow(10, 9)`. */
  const NanometresPerMetre: real := 1000000000.0

  /** `math.pow(10, -9)`. */
  const MetresPerNanometre: real := 0.000000001

  /** `math.pow(10, -12)`, the factor from hertz to terahertz. */
  const TerahertzPerHertz: real := 0.000000000001

  /** The speed of light `c`, in metres per second. */
  const SpeedOfLight: real := 299792458.0

  /** A measurement in metres, in nanometres: converting back gives the
      measurement again, and the sign is kept. */
  function MToNm(measurement: real): (nm: real)
    ensures NmToM(nm) == measurement
    ensures (nm > 0.0 <==> measurement > 0.0) && (nm < 0.0 <==> measurement < 0.0)
  {
    measurement * NanometresPerMetre
  }

  /** A measurement in nanometres, in metres: there are 10^9 nanometres in
      each of the metres returned, and the sign is kept. */
  function NmToM(measurement: real): (m: real)
    ensures m * NanometresPerMetre == measurement
    ensures (m > 0.0 <==> measurement > 0.0) && (m < 0.0 <==> measurement < 0.0)
  {
    measurement * MetresPerNanometre
  }

  /** The frequency in THz of light of the given wavelength in nm. The
      division is unguarded, so a zero wavelength is excluded. Frequency
      times wavelength is the speed of light, which in THz times nm is
      c / 1000. */
  function WavelengthToFrequency(wavelength: real): (f: real)
    requires wavelength != 0.0
    ensures f * wavelength == SpeedOfLight / 1000.0
    ensures wavelength > 0.0 ==> f > 0.0
    ensures wavelength < 0.0 ==> f < 0.0
  {
    var fInHz := SpeedOfLight / NmToM(wavelength);
    fInHz * TerahertzPerHertz
  }

  /** The two length conversions undo each other. */
  lemma ConversionsAreInverse(x: real)
    ensures MToNm(NmToM(x)) == x
    ensures NmToM(MToNm(x)) == x
  {
  }

  /** Converting to nanometres is linear and strictly increasing. */
  lemma MToNmIsScaling(x: real, y: real)
    ensures MToNm(x + y) == MToNm(x) + MToNm(y)
    ensures x < y <==> MToNm(x) < MToNm(y)
  {
  }

  /** Converting to metres is linear and strictly increasing. */
  lemma NmToMIsScaling(x: real, y: real)
    ensures NmToM(x + y) == NmToM(x) + NmToM(y)
    ensures x < y <==> NmToM(x) < NmToM(y)
  {
  }

  /** A longer wavelength has a lower frequency. */
  lemma FrequencyDecreasesWithWavelength(w1: real, w2: real)
    requires 0.0 < w1 < w2
    ensures WavelengthToFrequency(w1) > WavelengthToFrequency(w2)
  {
    var f1, f2 := WavelengthToFrequency(w1), WavelengthToFrequency(w2);
    assert f1 * w1 == f2 * w2 && f2 > 0.0;
    var gap := f2 * (w2 - w1);
    assert gap > 0.0;
    assert (f1 - f2) * w1 == gap;
    assert f1 - f2 == gap / w1;
  }

  /** Scaling the wavelength by k divides the frequency by k. */
  lemma FrequencyInverselyProportional(w: real, k: real)
    requires w != 0.0 && k != 0.0
    ensures WavelengthToFrequency(k * w) * k == WavelengthToFrequency(w)
  {
    var f, g := WavelengthToFrequency(w), WavelengthToFrequency(k * w);
    assert g * (k * w) == f * w;
    assert (g * k) * w == f * w;
  }

  // The module's unit tests, read as exact identities over the reals.

  lemma MetresToNanometresExample()
    ensures MToNm(1.342) == 1342000000.0
  {
  }

  lemma SmallMetresToNanometresExample()
    ensures MToNm(0.00000000481) == 4.81
  {
  }

  lemma NanometresToMetresExample()
    ensures NmToM(9214.0) == 0.000009214
  {
  }

  /** Seven decimal places of agreement, as `assertAlmostEqual` asks. */
  lemma WavelengthToFrequencyExample()
    ensures -0.00000005 < WavelengthToFrequency(1550.0) - 193.414489 < 0.00000005
  {
  }
}
