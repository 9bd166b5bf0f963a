/** Keys of the geo validation cache in `geo-cache.service.ts`. */
module GeoCache {
  import opened Decimal
  import opened CounterKeys

  /** Coordinates are scaled integers. */
  datatype Point = Point(lat: int, lon: int)

  /** `toFixed`, as a given function of a coordinate and a number of digits. */
  type Fixed = (int, nat) -> string

  /** Printed numbers hold digits, a sign and a dot, never a colon. */
  ghost predicate PrintsNumbers(toFixed: Fixed) {
    forall x, n :: NoColon(toFixed(x, n))
  }

  /** The cell of the rounding grid that a point belongs to. */
  datatype Bucket = Bucket(precision: nat, lat: string, lon: string)

  function BucketOf(toFixed: Fixed, precision: nat, p: Point): Bucket {
    Bucket(precision, toFixed(p.lat, precision), toFixed(p.lon, precision))
  }

  function KeyOf(version: string, b: Bucket): string {
    "geo:validation:" + (((version + ":") + ("p" + Print(b.precision)) + ":" + b.lat) + ":" + b.lon)
  }

  function BuildKey(toFixed: Fixed, precision: nat, version: string, p: Point): string {
    KeyOf(version, BucketOf(toFixed, precision, p))
  }

  lemma LastColonAt(x: string, b: string)
    requires NoColon(b)
    ensures var s := x + ":" + b; s[|x|] == ':' && (forall i :: |x| < i < |s| ==> s[i] != ':') && s[..|x|] == x && s[|x| + 1..] == b
  {
    var s := x + ":" + b;
    assert forall i :: |x| < i < |s| ==> s[i] == b[i - |x| - 1];
  }

  /** The last separator is found wherever the front of the key goes. */
  lemma SplitAtLastColon(x: string, a: string, y: string, b: string)
    requires NoColon(a) && NoColon(b) && x + ":" + a == y + ":" + b
    ensures x == y && a == b
  {
    LastColonAt(x, a);
    LastColonAt(y, b);
  }

  lemma PrecisionHasNoColon(n: nat)
    ensures NoColon("p" + Print(n))
  {
    assert AllDigits(Print(n));
    assert forall i :: 0 <= i < |Print(n)| ==> IsDigit(Print(n)[i]);
  }

  /** A key determines the version and the bucket, even when the version holds colons itself. */
  lemma KeyInjective(v: string, b: Bucket, w: string, c: Bucket)
    requires NoColon(b.lat) && NoColon(b.lon) && NoColon(c.lat) && NoColon(c.lon)
    requires KeyOf(v, b) == KeyOf(w, c)
    ensures v == w && b == c
  {
    var bp, cp := "p" + Print(b.precision), "p" + Print(c.precision);
    PrecisionHasNoColon(b.precision);
    PrecisionHasNoColon(c.precision);
    var front, gront := (v + ":") + bp + ":" + b.lat, (w + ":") + cp + ":" + c.lat;
    AfterPrefix("geo:validation:", front + ":" + b.lon, gront + ":" + c.lon);
    SplitAtLastColon(front, b.lon, gront, c.lon);
    SplitAtLastColon((v + ":") + bp, b.lat, (w + ":") + cp, c.lat);
    SplitAtLastColon(v, bp, w, cp);
    AfterPrefix("p", Print(b.precision), Print(c.precision));
    PrintInjective(b.precision, c.precision);
  }
}
