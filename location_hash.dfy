/**
 * Location hashers for the oracle.  The mock's own hasher prefixes
 * "mock-sha256-" to the decimal forms of latitude and longitude; for the
 * integer coordinates the contract takes, that string is far shorter than
 * the 64 characters the submission guard demands, so no submission hashed
 * with it is ever accepted.  PaddedLocationHash is the corrected hasher: a
 * fixed-width 64-character digest from which in-range coordinates can be
 * read back, hence distinct for distinct in-range coordinates, so that
 * the duplicate guard refuses a location exactly when a report at the same
 * coordinates is stored.
 */
module LocationHash {
  import opened Wrappers
  import opened TrafficOracle
  import opened TrafficOracleProperties

  const HashPrefix: string := "mock-sha256-"

  function DigitChar(d: nat): char
    requires d < 10
  {
    (('0' as int) + d) as char
  }

  function DigitValue(c: char): int
  {
    (c as int) - ('0' as int)
  }

  /** The decimal form of `n`, without leading zeros. */
  function NatToString(n: nat): string
    decreases n
  {
    if n < 10 then [DigitChar(n)] else NatToString(n / 10) + [DigitChar(n % 10)]
  }

  /** The decimal form of `i`, with a leading '-' when it is negative. */
  function IntToString(i: int): string
  {
    if i < 0 then "-" + NatToString(-i) else NatToString(i)
  }

  // ---------------------------------------------------------------------
  // The hasher as written
  // ---------------------------------------------------------------------

  /** The mock's hasher on integer coordinates: the prefix and the two decimal forms. */
  function MockLocationHash(lat: int, lon: int): string
  {
    HashPrefix + IntToString(lat) + IntToString(lon)
  }

  lemma NatToStringShort(n: nat)
    requires n < 1000
    ensures |NatToString(n)| <= 3
  {
    if n >= 10 {
      assert |NatToString(n / 10)| <= 2 by {
        if n / 10 >= 10 {
          assert NatToString(n / 10) == NatToString(n / 100) + [DigitChar(n / 10 % 10)];
        }
      }
    }
  }

  /** For in-range coordinates the mock's hash has at most 19 characters. */
  lemma MockLocationHashShort(lat: int, lon: int)
    requires GpsInBounds(lat, lon)
    ensures |MockLocationHash(lat, lon)| <= 19
  {
    NatToStringShort(if lat < 0 then -lat else lat);
    NatToStringShort(if lon < 0 then -lon else lon);
  }

  /**
   * With the mock's hasher no submission is ever accepted: coordinates out of
   * range fail the GPS guard, and in-range ones fail the location-hash
   * length guard.
   */
  lemma MockHashedSubmissionsAlwaysFail(s: State, a: Submission)
    ensures Submit(s, MockLocationHash, a).reply.Err?
  {
    var cs := SubmitChecks(s, MockLocationHash, a);
    if GpsInBounds(a.latitude, a.longitude) {
      MockLocationHashShort(a.latitude, a.longitude);
      assert !cs[7].passes;
    } else {
      assert !cs[2].passes;
    }
  }

  /** The integer stand-ins (40, -74) for the tests' coordinates hash to a 17-character string. */
  lemma MockLocationHashOfTestCoordinates()
    ensures MockLocationHash(40, -74) == "mock-sha256-40-74"
    ensures |MockLocationHash(40, -74)| == 17
  {
    assert NatToString(40) == "40" by {
      assert NatToString(4) == "4";
    }
    assert NatToString(74) == "74" by {
      assert NatToString(7) == "7";
    }
  }

  // ---------------------------------------------------------------------
  // The corrected hasher
  // ---------------------------------------------------------------------

  /** `n` as exactly three decimal digits. */
  function Digits3(n: nat): (r: string)
    requires n < 1000
    ensures |r| == 3
  {
    [DigitChar(n / 100), DigitChar(n / 10 % 10), DigitChar(n % 10)]
  }

  function Parse3(s: string): int
    requires |s| == 3
  {
    100 * DigitValue(s[0]) + 10 * DigitValue(s[1]) + DigitValue(s[2])
  }

  /** The number of '0' characters that pad the digest to 64 characters. */
  const PaddingLength: nat := HashLength - |HashPrefix| - 6

  /**
   * The corrected hasher: the prefix, zero padding, then latitude + 90 and
   * longitude + 180 as three digits each (taken modulo 1000, so the result
   * is 64 characters long for every input).
   */
  function PaddedLocationHash(lat: int, lon: int): (h: string)
    ensures |h| == HashLength
  {
    HashPrefix + seq(PaddingLength, _ => '0') + Digits3((lat + 90) % 1000) + Digits3((lon + 180) % 1000)
  }

  /** Reads the coordinates back from a digest of the corrected form. */
  function DecodeLocationHash(h: string): Option<(int, int)>
  {
    if |h| != HashLength || h[..|HashPrefix|] != HashPrefix then None
    else Some((Parse3(h[58..61]) - 90, Parse3(h[61..64]) - 180))
  }

  lemma {:induction false} Digits3RoundTrip(n: nat)
    requires n < 1000
    ensures Parse3(Digits3(n)) == n
  {
    var d := Digits3(n);
    assert DigitValue(d[0]) == n / 100;
    assert DigitValue(d[1]) == n / 10 % 10;
    assert DigitValue(d[2]) == n % 10;
  }

  /** The three parts of a concatenation are found again by slicing. */
  lemma SlicesOfConcat(x: string, y: string, z: string)
    ensures (x + y + z)[..|x|] == x
    ensures (x + y + z)[|x|..|x| + |y|] == y
    ensures (x + y + z)[|x| + |y|..] == z
  {
    var w := x + y + z;
    assert forall i :: 0 <= i < |y| ==> w[|x|..|x| + |y|][i] == y[i];
    assert forall i :: 0 <= i < |z| ==> w[|x| + |y|..][i] == z[i];
  }

  /** Decoding the digest of in-range coordinates gives those coordinates back. */
  lemma PaddedLocationHashRoundTrip(lat: int, lon: int)
    requires GpsInBounds(lat, lon)
    ensures DecodeLocationHash(PaddedLocationHash(lat, lon)) == Some((lat, lon))
  {
    var pad := seq(PaddingLength, _ => '0');
    var front := HashPrefix + pad;
    assert (lat + 90) % 1000 == lat + 90;
    assert (lon + 180) % 1000 == lon + 180;
    var d1, d2 := Digits3(lat + 90), Digits3(lon + 180);
    var h := PaddedLocationHash(lat, lon);
    assert h == front + d1 + d2;
    assert |front| == 58;
    SlicesOfConcat(front, d1, d2);
    SlicesOfConcat(HashPrefix, pad, d1 + d2);
    assert h == HashPrefix + pad + (d1 + d2);
    Digits3RoundTrip(lat + 90);
    Digits3RoundTrip(lon + 180);
  }

  /** Distinct in-range coordinates have distinct corrected digests. */
  lemma PaddedLocationHashInjective(lat1: int, lon1: int, lat2: int, lon2: int)
    requires GpsInBounds(lat1, lon1) && GpsInBounds(lat2, lon2)
    requires PaddedLocationHash(lat1, lon1) == PaddedLocationHash(lat2, lon2)
    ensures lat1 == lat2 && lon1 == lon2
  {
    PaddedLocationHashRoundTrip(lat1, lon1);
    PaddedLocationHashRoundTrip(lat2, lon2);
  }

  /**
   * With the corrected hasher a location key is refused as a duplicate only
   * when a report at the same coordinates is stored: a submission at in-range
   * coordinates no stored report has never fails with ReportAlreadyExists.
   * (The converse, that stored coordinates are refused, holds for every
   * hasher: StoredLocationRejected.)
   */
  lemma FreshCoordinatesNotRefusedAsDuplicate(s: State, b: Submission)
    requires Invariant(s, PaddedLocationHash) && GpsInBounds(b.latitude, b.longitude)
    requires forall id :: id in s.trafficReports ==>
               (s.trafficReports[id].latitude, s.trafficReports[id].longitude) != (b.latitude, b.longitude)
    ensures Submit(s, PaddedLocationHash, b).reply != Err(ReportAlreadyExists)
  {
    var cs := SubmitChecks(s, PaddedLocationHash, b);
    SubmitChecksUnfold(s, PaddedLocationHash, b);
    var h := PaddedLocationHash(b.latitude, b.longitude);
    if h in s.reportsByLocation {
      var r := s.trafficReports[s.reportsByLocation[h][0]];
      PaddedLocationHashInjective(r.latitude, r.longitude, b.latitude, b.longitude);
      assert false;
    }
    assert cs[8].passes;
  }
}
