/**
 * The data-driven part of `drawSkyPlot`: which satellites get a dot, at what
 * distance from the centre of the 170x170 polar plot, and in which colour.
 * The trigonometric projection to canvas x/y is not part of this model.
 */
module SkyPlot {
  import opened JsValues

  /** One entry of `sats_detail` as parsed from the status record. */
  datatype SatObservation = SatObservation(id: JsValue, az: JsValue, el: JsValue, used: JsValue)

  /** One dot on the plot: its text `Number(s.id)`, the azimuth and the
      distance from the centre it is placed at, and its fill colour. */
  datatype Dot = Dot(caption: JsValue, azimuth: real, radius: real, color: string)

  /** Radius of the outer (horizon) ring, in canvas pixels. */
  const PlotRadius: real := 80.0

  /** The `forEach` body's early-return test, negated: the satellite is drawn
      when neither `Number(el)` nor `Number(az)` is NaN or negative. */
  predicate Drawn(s: SatObservation)
  {
    var el, az := ToNumber(s.el), ToNumber(s.az);
    !(IsNaN(el) || IsNaN(az) || el.r < 0.0 || az.r < 0.0)
  }

  /** `(90 - el) / 90 * 80`. */
  function Radius(el: real): real
  {
    (90.0 - el) / 90.0 * PlotRadius
  }

  /** `used ? "#00ff00" : "#ffaa00"` with `used = !!s.used`. */
  function DotColor(used: JsValue): (c: string)
    ensures c == "#00ff00" <==> Truthy(used)
    ensures c == "#ffaa00" <==> !Truthy(used)
  {
    if Truthy(used) then "#00ff00" else "#ffaa00"
  }

  /** The dot drawn for a satellite that passes the filter. */
  function DotOf(s: SatObservation): Dot
    requires Drawn(s)
  {
    var el, az := ToNumber(s.el).r, ToNumber(s.az).r;
    Dot(ToNumber(s.id), az, Radius(el), DotColor(s.used))
  }

  /** The dots drawn for the entries of an array, in array order. */
  function VisibleSeq(xs: seq<SatObservation>): seq<Dot>
  {
    if xs == [] then []
    else
      var front, last := xs[..|xs| - 1], xs[|xs| - 1];
      VisibleSeq(front) + (if Drawn(last) then [DotOf(last)] else [])
  }

  /** The dots drawn for `sats_detail`; nothing when it is missing or not an
      array (`None`). */
  function VisibleSats(sats: Option<seq<SatObservation>>): (dots: seq<Dot>)
    ensures sats.None? ==> dots == []
  {
    match sats
    case None => []
    case Some(xs) => VisibleSeq(xs)
  }

  /** Reference: the indices of the entries that pass the filter, ascending. */
  function DrawnIndices(xs: seq<SatObservation>): seq<nat>
  {
    if xs == [] then []
    else
      var n := |xs| - 1;
      DrawnIndices(xs[..n]) + (if Drawn(xs[n]) then [n] else [])
  }

  /** The drawn indices are strictly increasing, and an index is among them
      exactly when its entry passes the filter. */
  lemma {:induction false} DrawnIndicesSpec(xs: seq<SatObservation>)
    ensures forall k :: 0 <= k < |DrawnIndices(xs)| ==> DrawnIndices(xs)[k] < |xs|
    ensures forall k, m :: 0 <= k < m < |DrawnIndices(xs)| ==> DrawnIndices(xs)[k] < DrawnIndices(xs)[m]
    ensures forall i :: 0 <= i < |xs| ==> (i in DrawnIndices(xs) <==> Drawn(xs[i]))
  {
    if xs != [] {
      var n := |xs| - 1;
      var front := xs[..n];
      DrawnIndicesSpec(front);
      assert forall i :: 0 <= i < n ==> front[i] == xs[i];
    }
  }

  /** Dot `k` of the plot is the dot of the `k`-th drawn entry: together with
      `DrawnIndicesSpec` this says the plot holds exactly the satellites that
      pass the filter, each once, in input order. */
  lemma {:induction false} VisibleSeqSpec(xs: seq<SatObservation>)
    ensures |VisibleSeq(xs)| == |DrawnIndices(xs)|
    ensures forall k :: 0 <= k < |VisibleSeq(xs)| ==>
      DrawnIndices(xs)[k] < |xs| && Drawn(xs[DrawnIndices(xs)[k]]) &&
      VisibleSeq(xs)[k] == DotOf(xs[DrawnIndices(xs)[k]])
  {
    if xs != [] {
      var n := |xs| - 1;
      var front := xs[..n];
      VisibleSeqSpec(front);
      DrawnIndicesSpec(front);
      assert forall i :: 0 <= i < n ==> front[i] == xs[i];
    }
  }

  /** A satellite is drawn exactly when `el` and `az` are both numbers that
      are not negative. */
  lemma DrawnIff(s: SatObservation)
    ensures Drawn(s) <==>
      ToNumber(s.el).Num? && ToNumber(s.az).Num? && ToNumber(s.el).r >= 0.0 && ToNumber(s.az).r >= 0.0
  {
  }

  /** A missing `el` or `az` hides the satellite, but a `null` one reads as 0
      and is drawn (on the horizon ring when it is `el`). */
  lemma MissingVersusNullElevation(id: JsValue, az: real, used: JsValue)
    requires az >= 0.0
    ensures !Drawn(SatObservation(id, Num(az), Undefined, used))
    ensures Drawn(SatObservation(id, Num(az), Null, used))
    ensures DotOf(SatObservation(id, Num(az), Null, used)).radius == PlotRadius
  {
  }

  /** The zenith is the centre, the horizon the outer ring; elevations in
      between land inside the ring, and an elevation above 90 (not rejected)
      gives a negative radius. */
  lemma RadiusRange(el: real)
    ensures Radius(90.0) == 0.0 && Radius(0.0) == PlotRadius
    ensures 0.0 <= el <= 90.0 ==> 0.0 <= Radius(el) <= PlotRadius
    ensures el > 90.0 ==> Radius(el) < 0.0
    ensures forall e :: e < el ==> Radius(el) < Radius(e)
  {
  }

  /** A satellite at the zenith and used in the fix is one green dot at the
      centre. */
  lemma ZenithSatellite()
    ensures VisibleSats(Some([SatObservation(Num(5.0), Num(0.0), Num(90.0), Bool(true))]))
      == [Dot(Num(5.0), 0.0, 0.0, "#00ff00")]
  {
    var xs := [SatObservation(Num(5.0), Num(0.0), Num(90.0), Bool(true))];
    assert xs[..0] == [];
  }
}
