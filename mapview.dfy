/** The zoom tier that app/modules/tab_proposal.py (`_bbox_center_zoom`) and
    app/modules/tab_analysis.py (`_bbox_center_zoom_for_gu`) both pick from
    the larger side of a bounding box, in degrees. */
module MapView {

  /** The six tiers: the wider the box, the smaller the zoom. Every
      threshold is strict, so a span equal to one falls in the next tier. */
  function ZoomTier(span: real): (z: real)
    ensures z in {9.4, 9.8, 10.2, 10.6, 11.0, 11.4}
    ensures span > 0.45 <==> z == 9.4
    ensures span <= 0.08 <==> z == 11.4
  {
    if span > 0.45 then 9.4
    else if span > 0.30 then 9.8
    else if span > 0.20 then 10.2
    else if span > 0.12 then 10.6
    else if span > 0.08 then 11.0
    else 11.4
  }

  /** The tier is non-increasing in the span. */
  lemma ZoomTierMonotone(a: real, b: real)
    requires a <= b
    ensures ZoomTier(b) <= ZoomTier(a)
  {
  }

  /** The tier boundaries themselves belong to the narrower tier. */
  lemma ZoomTierBoundaries()
    ensures ZoomTier(0.45) == 9.8 && ZoomTier(0.30) == 10.2 && ZoomTier(0.20) == 10.6
    ensures ZoomTier(0.12) == 11.0 && ZoomTier(0.08) == 11.4
  {
  }

  function Max(a: real, b: real): real
  {
    if a >= b then a else b
  }

  function Min(a: real, b: real): real
  {
    if a <= b then a else b
  }
}
