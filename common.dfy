/**
 * Values shared by every part of the model: optional values, the HTTP
 * outcomes the route handlers answer with, identifiers, time stamps and the
 * integer version of `Math.round(part / whole * 100)` that every percentage
 * of the system is computed with.
 */
module Common {

  /** `undefined`/`null` versus a present value. */
  datatype Option<T> = None | Some(value: T)

  /** The status codes the Express handlers answer with. */
  datatype Status = Ok | Created | BadRequest | Unauthorized | NotFound | ServerError

  /** A MongoDB ObjectId, abstracted to a number. */
  type Id = nat

  /** A time stamp in milliseconds since the epoch. */
  type Time = int

  const MillisPerSecond: int := 1000
  const MillisPerMinute: int := 60000

  /**
   * `Math.round(part / whole * 100)` in exact integer arithmetic. JavaScript's
   * `Math.round` rounds halves towards +infinity, so the result is the unique
   * integer p with p - 1/2 <= 100 * part / whole < p + 1/2.
   */
  function RoundPercent(part: int, whole: int): (p: int)
    requires whole != 0
    ensures whole > 0 ==> 2 * whole * p <= 200 * part + whole < 2 * whole * (p + 1)
    ensures whole < 0 ==> 2 * whole * p >= 200 * part + whole > 2 * whole * (p + 1)
  {
    if whole > 0 then (200 * part + whole) / (2 * whole)
    else (-200 * part - whole) / (-2 * whole)
  }

  /**
   * A percentage as a JavaScript number: an integer after `Math.round`, or an
   * infinity when the total it was divided by is zero.
   */
  datatype Percent = Finite(value: int) | PlusInfinity | MinusInfinity

  /**
   * `Math.round(part / whole * 100)` with JavaScript's division: a zero whole
   * gives an infinity of the part's sign, and `NaN` (None) when the part is
   * zero too.
   */
  function JsRoundPercent(part: int, whole: int): (r: Option<Percent>)
    ensures whole != 0 ==> r == Some(Finite(RoundPercent(part, whole)))
    ensures r.None? <==> whole == 0 && part == 0
    ensures r == Some(PlusInfinity) <==> whole == 0 && part > 0
    ensures r == Some(MinusInfinity) <==> whole == 0 && part < 0
  {
    if whole != 0 then Some(Finite(RoundPercent(part, whole)))
    else if part > 0 then Some(PlusInfinity)
    else if part < 0 then Some(MinusInfinity)
    else None
  }

  /** `p >= bound` on a JavaScript number: +Infinity reaches every bound, -Infinity none. */
  predicate AtLeast(p: Percent, bound: int) {
    match p
    case Finite(v) => v >= bound
    case PlusInfinity => true
    case MinusInfinity => false
  }

  /** Multiplying by a positive factor keeps the order. */
  lemma MulMonotonic(c: int, a: int, b: int)
    requires c > 0 && a <= b
    ensures c * a <= c * b
  {
    var d := b - a;
    assert c * b == c * a + c * d;
  }

  /** A share of a positive whole rounds to a percentage in 0..100. */
  lemma RoundPercentInRange(part: int, whole: int)
    requires 0 <= part <= whole && whole > 0
    ensures 0 <= RoundPercent(part, whole) <= 100
    ensures part == 0 ==> RoundPercent(part, whole) == 0
    ensures part == whole ==> RoundPercent(part, whole) == 100
  {
    var p := RoundPercent(part, whole);
    var w2 := 2 * whole;
    assert w2 * p <= 200 * part + whole < w2 * (p + 1);
    if p > 100 {
      MulMonotonic(w2, 101, p);
      assert false;
    }
    if p < 0 {
      MulMonotonic(w2, p + 1, 0);
      assert false;
    }
    if part == 0 && p > 0 {
      MulMonotonic(w2, 1, p);
      assert false;
    }
    if part == whole && p < 100 {
      MulMonotonic(w2, p + 1, 100);
      assert false;
    }
  }

  /** Rounding is monotonic in the share: more done never lowers the percentage. */
  lemma RoundPercentMonotonic(a: int, b: int, whole: int)
    requires a <= b && whole > 0
    ensures RoundPercent(a, whole) <= RoundPercent(b, whole)
  {
    var pa, pb := RoundPercent(a, whole), RoundPercent(b, whole);
    var w2 := 2 * whole;
    if pa > pb {
      MulMonotonic(w2, pb + 1, pa);
      assert false;
    }
  }

  /**
   * `findOne` over a collection in insertion order: the index of the first
   * element the query matches, or None when none does.
   */
  function FirstWhere<T>(s: seq<T>, matches: T -> bool): (r: Option<nat>)
    ensures r.Some? ==> r.value < |s| && matches(s[r.value])
    ensures r.Some? ==> forall j :: 0 <= j < r.value ==> !matches(s[j])
    ensures r.None? <==> forall j :: 0 <= j < |s| ==> !matches(s[j])
  {
    if |s| == 0 then None
    else if matches(s[0]) then Some(0)
    else
      match FirstWhere(s[1..], matches)
      case None => None
      case Some(j) => Some(j + 1)
  }

  /** r is s without its element at k: one shorter, the others kept in order. */
  predicate RemovedFrom<T(==)>(r: seq<T>, s: seq<T>, k: nat)
    requires k < |s|
  {
    && |r| == |s| - 1
    && multiset(r) == multiset(s) - multiset{s[k]}
    && (forall j :: 0 <= j < k ==> r[j] == s[j])
    && (forall j :: k < j < |s| ==> r[j - 1] == s[j])
  }

  /** Cutting out the element at k removes exactly it and keeps the others in order. */
  lemma RemovedAt<T>(s: seq<T>, k: nat)
    requires k < |s|
    ensures RemovedFrom(s[..k] + s[k + 1..], s, k)
  {
    assert s == s[..k] + [s[k]] + s[k + 1..];
  }
}
