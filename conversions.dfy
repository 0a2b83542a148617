/**
 * The unit conversions of the weather object, over exact reals: their
 * floating-point rounding is not part of this model.
 */
module Conversions {

  /** Degrees Celsius to degrees Fahrenheit. */
  function DegCtoF(temp: real): (f: real)
    ensures (f - 32.0) * 5.0 / 9.0 == temp
  {
    (9.0 / 5.0) * temp + 32.0
  }

  /** Metres per second to miles per hour. */
  function MetersPerSecondToMph(speed: real): (mph: real)
    ensures mph / 2.23694 == speed
  {
    speed * 2.23694
  }

  /** Metres to inches, written with the foot factor inline. */
  function MToIn(length: real): (inches: real)
    ensures inches == 12.0 * MetersToFeet(length)
  {
    length * 3.28084 * 12.0
  }

  /** Pascals to millimetres of mercury. */
  function PascalsToMmhg(pressure: real): (mmhg: real)
    ensures mmhg / 0.00750062 == pressure
  {
    pressure * 0.00750062
  }

  /** Metres to miles, by way of feet. */
  function MetersToMiles(length: real): (miles: real)
    ensures miles * 5280.0 == MetersToFeet(length)
  {
    MetersToFeet(length) / 5280.0
  }

  /** Metres to feet. */
  function MetersToFeet(length: real): (feet: real)
    ensures feet / 3.28084 == length
  {
    length * 3.28084
  }

  /** Metres to inches, by way of feet. */
  function MetersToInches(length: real): (inches: real)
    ensures inches == MToIn(length)
  {
    MetersToFeet(length) * 12.0
  }

  /** Freezing and boiling points of water, and the point where the scales meet. */
  lemma CelsiusFixedPoints()
    ensures DegCtoF(0.0) == 32.0
    ensures DegCtoF(100.0) == 212.0
    ensures DegCtoF(-40.0) == -40.0
  {
  }

  /** The Fahrenheit conversion is undone by F -> (F - 32) * 5 / 9. */
  lemma DegCtoFInverse(temp: real, f: real)
    ensures DegCtoF(temp) == f <==> temp == (f - 32.0) * 5.0 / 9.0
  {
  }

  /** Known values: one metre per second, a thousand pascals, and a mile in metres. */
  lemma ConversionFixtures()
    ensures MetersPerSecondToMph(1.0) == 2.23694
    ensures PascalsToMmhg(1000.0) == 7.50062
    ensures MetersToFeet(1.0) == 3.28084
    ensures -0.00001 < MetersToMiles(1609.34) - 1.0 < 0.00001
  {
  }

  /** Every conversion is strictly increasing. */
  lemma ConversionsStrictlyIncreasing(x: real, y: real)
    requires x < y
    ensures DegCtoF(x) < DegCtoF(y)
    ensures MetersPerSecondToMph(x) < MetersPerSecondToMph(y)
    ensures MToIn(x) < MToIn(y)
    ensures PascalsToMmhg(x) < PascalsToMmhg(y)
    ensures MetersToMiles(x) < MetersToMiles(y)
    ensures MetersToFeet(x) < MetersToFeet(y)
    ensures MetersToInches(x) < MetersToInches(y)
  {
  }
}
