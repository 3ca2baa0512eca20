/**
 * The `bbox=left,bottom,right,top` clause: reading the four numbers and the
 * fixed sequence of range and ordering checks, each with its own message.
 * Number syntax is a parameter `floatOf`, Python's `float()`; it yields
 * `None` where `float()` raises.
 */
module Bbox {
  import opened Wrappers
  import opened Text

  datatype Box = Box(left: real, bottom: real, right: real, top: real)

  const InvalidBbox := "Invalid bbox."

  /** The messages of the six checks, in the order they are made. */
  const Messages: seq<string> := [
    "Left > Right.",
    "Bottom > Top.",
    "Bottom is out of range.",
    "Top is out of range.",
    "Left is out of range.",
    "Right is out of range."
  ]

  /** `float(v) for v in ps`: every piece converted, or a failure. */
  function ParseAll(ps: seq<string>, floatOf: string -> Option<real>): (r: Option<seq<real>>)
    ensures r.Some? <==> forall i :: 0 <= i < |ps| ==> floatOf(ps[i]).Some?
    ensures r.Some? ==> |r.value| == |ps| && forall i :: 0 <= i < |ps| ==> floatOf(ps[i]) == Some(r.value[i])
    decreases |ps|
  {
    if ps == [] then Some([])
    else match (floatOf(ps[0]), ParseAll(ps[1..], floatOf))
      case (Some(x), Some(xs)) => Some([x] + xs)
      case _ => None
  }

  /**
   * The try block: split the value on ',', convert every piece and unpack
   * exactly four; any failure there is 'Invalid bbox.'.
   */
  function ParseBbox(text: string, floatOf: string -> Option<real>): (r: Result<Box, string>)
    ensures r.Err? ==> r.error == InvalidBbox
    ensures r.Ok? <==> var ps := Split(text, ',');
      |ps| == 4 && forall i :: 0 <= i < 4 ==> floatOf(ps[i]).Some?
    ensures r.Ok? ==> var ps := Split(text, ',');
      Some(r.value.left) == floatOf(ps[0]) && Some(r.value.bottom) == floatOf(ps[1]) &&
      Some(r.value.right) == floatOf(ps[2]) && Some(r.value.top) == floatOf(ps[3])
  {
    match ParseAll(Split(text, ','), floatOf)
    case Some(xs) =>
      if |xs| == 4 then Ok(Box(xs[0], xs[1], xs[2], xs[3])) else Err(InvalidBbox)
    case None => Err(InvalidBbox)
  }

  /** The box invariant: ordered sides, latitudes in [-90, 90], longitudes in [-180, 180]. */
  predicate ValidBox(b: Box) {
    -180.0 <= b.left <= b.right <= 180.0 && -90.0 <= b.bottom <= b.top <= 90.0
  }

  /** The six checks, made one after the other; the first that fails raises. */
  function ValidateBbox(b: Box): (r: Result<Box, string>)
    ensures r.Ok? <==> ValidBox(b)
    ensures r.Ok? ==> r.value == b
  {
    if b.left > b.right then Err(Messages[0])
    else if b.bottom > b.top then Err(Messages[1])
    else if b.bottom < -90.0 || b.bottom > 90.0 then Err(Messages[2])
    else if b.top < -90.0 || b.top > 90.0 then Err(Messages[3])
    else if b.left < -180.0 || b.left > 180.0 then Err(Messages[4])
    else if b.right < -180.0 || b.right > 180.0 then Err(Messages[5])
    else Ok(b)
  }

  /** The condition check k tests, stated on its own. */
  predicate Violates(b: Box, k: nat) {
    match k
    case 0 => b.left > b.right
    case 1 => b.bottom > b.top
    case 2 => b.bottom < -90.0 || 90.0 < b.bottom
    case 3 => b.top < -90.0 || 90.0 < b.top
    case 4 => b.left < -180.0 || 180.0 < b.left
    case 5 => b.right < -180.0 || 180.0 < b.right
    case _ => false
  }

  /**
   * The message raised is that of the first violated condition, in the fixed
   * order; a box violating none passes.
   */
  lemma FirstViolationWins(b: Box)
    ensures ValidateBbox(b).Err? <==> exists k :: 0 <= k < 6 && Violates(b, k)
    ensures ValidateBbox(b).Err? ==>
      exists k :: 0 <= k < 6 && Violates(b, k) && ValidateBbox(b).error == Messages[k] &&
        forall j :: 0 <= j < k ==> !Violates(b, j)
  {
    var r := ValidateBbox(b);
    if r.Err? {
      var k :| 0 <= k < 6 && r.error == Messages[k] && Violates(b, k) && forall j :: 0 <= j < k ==> !Violates(b, j) by {
        if Violates(b, 0) {
          assert r.error == Messages[0];
        } else if Violates(b, 1) {
          assert r.error == Messages[1];
        } else if Violates(b, 2) {
          assert r.error == Messages[2];
        } else if Violates(b, 3) {
          assert r.error == Messages[3];
        } else if Violates(b, 4) {
          assert r.error == Messages[4];
        } else {
          assert Violates(b, 5);
          assert r.error == Messages[5];
        }
      }
    } else {
      assert forall k :: 0 <= k < 6 ==> !Violates(b, k) by {
        forall k | 0 <= k < 6 ensures !Violates(b, k) {
          assert k == 0 || k == 1 || k == 2 || k == 3 || k == 4 || k == 5;
        }
      }
    }
  }

  /**
   * The ten coordinates of the closed ring (left bottom, left top, right top,
   * right bottom, left bottom) bound to the polygon's placeholders.
   */
  function RingCoordinates(b: Box): (r: seq<real>)
    ensures |r| == 10
    ensures r[..2] == r[8..] == [b.left, b.bottom]
    ensures forall k :: 0 <= k < 5 ==> r[2 * k] in {b.left, b.right} && r[2 * k + 1] in {b.bottom, b.top}
    ensures {[r[0], r[1]], [r[2], r[3]], [r[4], r[5]], [r[6], r[7]]} ==
            {[b.left, b.bottom], [b.left, b.top], [b.right, b.top], [b.right, b.bottom]}
    // every edge of the ring is vertical or horizontal, so the ring goes round the box
    ensures forall k :: 0 <= k < 4 ==> r[2 * k] == r[2 * k + 2] || r[2 * k + 1] == r[2 * k + 3]
  {
    [b.left, b.bottom, b.left, b.top, b.right, b.top, b.right, b.bottom, b.left, b.bottom]
  }
}
