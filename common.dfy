/** Small wrapper types shared by every module of the model. */
module Common {

  /** A value that may be absent: Python's `None` versus a present value. */
  datatype Option<T> = None | Some(value: T) {
    function GetOr(default: T): T {
      match this
      case Some(v) => v
      case None => default
    }
  }

  function Abs(x: int): nat {
    if x < 0 then -x else x
  }

  function Min(a: int, b: int): int {
    if a <= b then a else b
  }

  /** `ix` lists indices below `n` in increasing order: the rows a filter kept. */
  predicate StrictlyIncreasing(ix: seq<nat>, n: nat) {
    (forall m :: 0 <= m < |ix| ==> ix[m] < n)
    && (forall m, m' :: 0 <= m < m' < |ix| ==> ix[m] < ix[m'])
  }

  /** Closes a ring by appending its first point when the last one differs. The same
      closing runs on (lat, lon) rings drawn on the map and on GeoJSON rings written
      to the boundary box, so it is defined once over any point type. */
  function CloseRing<P(==)>(ring: seq<P>): (r: seq<P>)
    ensures |r| >= |ring| && r[..|ring|] == ring
    ensures ring != [] ==> r != [] && r[0] == r[|r| - 1]
    ensures |r| == if ring != [] && ring[0] != ring[|ring| - 1] then |ring| + 1 else |ring|
  {
    if ring != [] && ring[0] != ring[|ring| - 1] then ring + [ring[0]] else ring
  }

  /** Closing a closed ring changes nothing. */
  lemma CloseRingIdempotent<P>(ring: seq<P>)
    ensures CloseRing(CloseRing(ring)) == CloseRing(ring)
  {
  }
}
