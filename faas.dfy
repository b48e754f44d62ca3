/** `convert` of the FaaS tutorial (04-faas/deploy.py): Celsius to
    Fahrenheit, over the reals. */
module Faas {

  /** `(celsius * 9/5) + 32`, with Python's true division. */
  function Convert(celsius: real): (fahrenheit: real)
    ensures (fahrenheit - 32.0) * 5.0 / 9.0 == celsius
  {
    (celsius * 9.0 / 5.0) + 32.0
  }

  /** Fahrenheit back to Celsius. */
  function ToCelsius(fahrenheit: real): (celsius: real)
    ensures Convert(celsius) == fahrenheit
  {
    (fahrenheit - 32.0) * 5.0 / 9.0
  }

  /** The conversion is a bijection: each direction undoes the other. */
  lemma RoundTrip(c: real, f: real)
    ensures ToCelsius(Convert(c)) == c
    ensures Convert(ToCelsius(f)) == f
  {
  }

  /** A warmer Celsius reading is a warmer Fahrenheit reading. */
  lemma ConvertIncreasing(a: real, b: real)
    requires a < b
    ensures Convert(a) < Convert(b)
  {
  }

  /** Freezing, boiling and the point where both scales agree. */
  lemma KnownPoints()
    ensures Convert(0.0) == 32.0
    ensures Convert(100.0) == 212.0
    ensures Convert(-40.0) == -40.0
    ensures forall c :: Convert(c) == c ==> c == -40.0
  {
  }
}
