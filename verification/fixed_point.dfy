/** Fixed-point arithmetic for distances.

    The handlers receive a distance in kilometres as a JavaScript number.
    Here a distance is an integer number of micro-kilometres (millimetres),
    and the two roundings the handlers apply are stated exactly:
    `Math.round`, which rounds ties toward positive infinity, and
    `Number.prototype.toFixed`, which rounds ties away from zero. */
module FixedPoint {

  /** Micro-kilometres per metre. */
  const MicroKmPerMetre: int := 1000
  /** Micro-kilometres per centi-kilometre (one unit of the second decimal). */
  const MicroKmPerCentiKm: int := 10000
  /** Micro-kilometres per kilometre. */
  const MicroKmPerKm: int := 1000000
  /** Metres per centi-kilometre. */
  const MetresPerCentiKm: int := 10

  /** `Math.round(n / d)`: the integer nearest to n/d, ties toward +infinity. */
  function RoundHalfUp(n: int, d: int): (r: int)
    requires d > 0
    ensures -d <= 2 * (n - d * r) < d
  {
    (2 * n + d) / (2 * d)
  }

  /** `(n / d).toFixed(0)`: the integer nearest to n/d, ties away from zero. */
  function RoundHalfAway(n: int, d: int): (r: int)
    requires d > 0
    ensures n >= 0 ==> r >= 0 && -d <= 2 * (n - d * r) < d
    ensures n < 0 ==> r <= 0 && -d < 2 * (n - d * r) <= d
  {
    if n >= 0 then RoundHalfUp(n, d) else -RoundHalfUp(-n, d)
  }

  /** The two roundings agree except on negative ties. */
  lemma RoundingsAgreeOnNonNegatives(n: int, d: int)
    requires d > 0 && n >= 0
    ensures RoundHalfAway(n, d) == RoundHalfUp(n, d)
  {
  }

  /** Rounding an exact multiple gives back the quotient. */
  lemma RoundHalfUpOfMultiple(q: int, d: int)
    requires d > 0
    ensures RoundHalfUp(q * d, d) == q
  {
    var r := RoundHalfUp(q * d, d);
    var t := q - r;
    assert q * d - d * r == d * t;
    if t >= 1 {
      MulAtLeast(d, t);
    } else if t <= -1 {
      MulAtLeast(d, -t);
    }
  }

  /** A positive factor times a factor of at least one is at least itself. */
  lemma MulAtLeast(d: int, t: int)
    requires d > 0 && t >= 1
    ensures d * t >= d
  {
  }

  /** `Math.round(Number(km) * 1000)`: the distance in whole metres. */
  function MetresOf(microKm: int): (m: int)
    ensures -MicroKmPerMetre <= 2 * (microKm - MicroKmPerMetre * m) < MicroKmPerMetre
  {
    RoundHalfUp(microKm, MicroKmPerMetre)
  }

  /** `Number(km.toFixed(2))`: the distance in hundredths of a kilometre,
      as credited to the wallet. */
  function CentiKmOf(microKm: int): (c: int)
    ensures microKm >= 0 ==> (c >= 0 &&
      -MicroKmPerCentiKm <= 2 * (microKm - MicroKmPerCentiKm * c) < MicroKmPerCentiKm)
    ensures microKm < 0 ==> (c <= 0 &&
      -MicroKmPerCentiKm < 2 * (microKm - MicroKmPerCentiKm * c) <= MicroKmPerCentiKm)
  {
    RoundHalfAway(microKm, MicroKmPerCentiKm)
  }

  /** `Number(parseFloat(metres / 1000).toFixed(2))`: a metre total shown in
      hundredths of a kilometre. */
  function CentiKmOfMetres(metres: int): (c: int)
    ensures metres >= 0 ==> (c >= 0 &&
      -MetresPerCentiKm <= 2 * (metres - MetresPerCentiKm * c) < MetresPerCentiKm)
    ensures metres < 0 ==> (c <= 0 &&
      -MetresPerCentiKm < 2 * (metres - MetresPerCentiKm * c) <= MetresPerCentiKm)
  {
    RoundHalfAway(metres, MetresPerCentiKm)
  }

  /** The average pace in seconds per kilometre: `Math.round(seconds / km)`
      for a positive distance and 0 otherwise, so a zero distance never
      divides by zero. */
  function PaceOf(microKm: int, seconds: int): (p: int)
    ensures microKm <= 0 ==> p == 0
    ensures microKm > 0 ==>
      -microKm <= 2 * (seconds * MicroKmPerKm - microKm * p) < microKm
  {
    if microKm > 0 then RoundHalfUp(seconds * MicroKmPerKm, microKm) else 0
  }

  /** A whole number of kilometres covered in a whole number of seconds per
      kilometre gives exactly that pace: 5 km in 1500 s is 300 s/km. */
  lemma PaceOfWholeKilometres(km: int, pace: int)
    requires km > 0
    ensures PaceOf(km * MicroKmPerKm, km * pace) == pace
  {
    var u := km * MicroKmPerKm;
    assert km * pace * MicroKmPerKm == pace * u;
    RoundHalfUpOfMultiple(pace, u);
  }

  /** The two worked examples for pace: 5 km in 1500 s, and a zero distance. */
  lemma PaceExamples(seconds: int)
    ensures PaceOf(5000000, 1500) == 300
    ensures PaceOf(0, seconds) == 0
  {
    PaceOfWholeKilometres(5, 300);
  }

  /** 5.555 km is 5555 m and is credited as 5.56 km. */
  lemma DistanceExample()
    ensures MetresOf(5555000) == 5555
    ensures CentiKmOf(5555000) == 556
  {
  }
}
