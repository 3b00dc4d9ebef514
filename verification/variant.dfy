/** The state updates of `RouteVariant`: each Java setter is a function from
    the old object state to the new one. */
module Variant {

  import opened Wrappers
  import opened Model

  /** The three named leg slots. */
  datatype Slot = Piece1 | Piece2 | Piece3

  /** What a piece setter leaves behind. `NullPointer` is the state after
      `legs.add` failed on a null `legs` list: the slot was already
      written when the exception left the setter. */
  datatype SetOutcome = Done(variant: RouteVariant) | NullPointer(variant: RouteVariant)

  /** `new RouteVariant()`: empty slots, an empty leg list, zero totals. */
  function Fresh(): (v: RouteVariant)
    ensures v.piece1.None? && v.piece2.None? && v.piece3.None?
    ensures v.legs == Some([])
    ensures v.totalDurationSeconds == 0 && v.totalDistanceMeters == 0.0 && v.totalCostRs == 0.0
    ensures v.id.None? && v.summaryText.None?
  {
    RouteVariant(None, None, None, None, 0, 0.0, 0.0, None, Some([]))
  }

  /** The plainly stored fields of `RouteVariant`; `Slots` stands for the
      three piece slots together. */
  datatype Field = Slots | IdField | DurationField | DistanceField | CostField | SummaryField | LegsField

  /** `b` agrees with `a` on every field except possibly `f`. */
  predicate SameOutside(a: RouteVariant, b: RouteVariant, f: Field) {
    && (f != Slots ==> b.piece1 == a.piece1 && b.piece2 == a.piece2 && b.piece3 == a.piece3)
    && (f != IdField ==> b.id == a.id)
    && (f != DurationField ==> b.totalDurationSeconds == a.totalDurationSeconds)
    && (f != DistanceField ==> b.totalDistanceMeters == a.totalDistanceMeters)
    && (f != CostField ==> b.totalCostRs == a.totalCostRs)
    && (f != SummaryField ==> b.summaryText == a.summaryText)
    && (f != LegsField ==> b.legs == a.legs)
  }

  /** The frame names every field: two variants that agree outside two
      different fields are the same variant. */
  lemma SameOutsideCoversAllFields(a: RouteVariant, b: RouteVariant, f: Field, g: Field)
    requires f != g && SameOutside(a, b, f) && SameOutside(a, b, g)
    ensures a == b
  {
  }

  /** `getPiece1/2/3`. */
  function Piece(v: RouteVariant, slot: Slot): Option<RouteLeg> {
    match slot
    case Piece1 => v.piece1
    case Piece2 => v.piece2
    case Piece3 => v.piece3
  }

  function WithPiece(v: RouteVariant, slot: Slot, x: Option<RouteLeg>): RouteVariant {
    match slot
    case Piece1 => v.(piece1 := x)
    case Piece2 => v.(piece2 := x)
    case Piece3 => v.(piece3 := x)
  }

  /** `setPiece1/2/3(x)`: store `x` in the slot and, when it is non-null,
      append it to `legs`. */
  function SetPiece(v: RouteVariant, slot: Slot, x: Option<RouteLeg>): (r: SetOutcome)
    ensures Piece(r.variant, slot) == x
    ensures forall other :: other != slot ==> Piece(r.variant, other) == Piece(v, other)
    ensures x.None? ==> r == Done(r.variant) && r.variant.legs == v.legs
    ensures x.Some? && v.legs.Some? ==>
              r.Done? && r.variant.legs == Some(v.legs.value + [x])
    ensures x.Some? && v.legs.None? ==> r.NullPointer? && r.variant.legs.None?
    ensures r.variant.id == v.id && r.variant.summaryText == v.summaryText
    ensures r.variant.totalDurationSeconds == v.totalDurationSeconds
    ensures r.variant.totalDistanceMeters == v.totalDistanceMeters
    ensures r.variant.totalCostRs == v.totalCostRs
  {
    var w := WithPiece(v, slot, x);
    if x.None? then Done(w)
    else if w.legs.None? then NullPointer(w)
    else Done(w.(legs := Some(w.legs.value + [x])))
  }

  /** `setLegs`: replaces the list wholesale; the slots are untouched. */
  function SetLegs(v: RouteVariant, legs: Option<seq<Option<RouteLeg>>>): (r: RouteVariant)
    ensures r.legs == legs
    ensures SameOutside(v, r, LegsField)
  {
    v.(legs := legs)
  }

  function SetId(v: RouteVariant, id: Option<string>): (r: RouteVariant)
    ensures r.id == id && SameOutside(v, r, IdField)
  {
    v.(id := id)
  }

  function SetSummaryText(v: RouteVariant, text: Option<string>): (r: RouteVariant)
    ensures r.summaryText == text && SameOutside(v, r, SummaryField)
  {
    v.(summaryText := text)
  }

  function SetTotalDurationSeconds(v: RouteVariant, seconds: int): (r: RouteVariant)
    ensures r.totalDurationSeconds == seconds && SameOutside(v, r, DurationField)
  {
    v.(totalDurationSeconds := seconds)
  }

  function SetTotalDistanceMeters(v: RouteVariant, meters: real): (r: RouteVariant)
    ensures r.totalDistanceMeters == meters && SameOutside(v, r, DistanceField)
  {
    v.(totalDistanceMeters := meters)
  }

  /** `getTotalCostRs`. */
  function TotalCostRs(v: RouteVariant): real {
    v.totalCostRs
  }

  /** `getTotalCost`: reads the same field as `getTotalCostRs`. */
  function TotalCost(v: RouteVariant): real {
    v.totalCostRs
  }

  /** `setTotalCostRs`. */
  function SetTotalCostRs(v: RouteVariant, cost: real): (r: RouteVariant)
    ensures TotalCostRs(r) == cost && TotalCost(r) == cost
    ensures SameOutside(v, r, CostField)
  {
    v.(totalCostRs := cost)
  }

  /** `setTotalCost`: an alias that writes the very same field, so it cannot
      be told apart from `setTotalCostRs`. */
  function SetTotalCost(v: RouteVariant, cost: real): (r: RouteVariant)
    ensures TotalCostRs(r) == cost && TotalCost(r) == cost
    ensures r == SetTotalCostRs(v, cost)
  {
    v.(totalCostRs := cost)
  }

  /** Whatever sequence of setters ran, the two cost getters agree. */
  lemma CostGettersAgree(v: RouteVariant)
    ensures TotalCost(v) == TotalCostRs(v)
  {
  }

  /** Setting the same slot twice with non-null legs appends both: the first
      leg stays in `legs` although the slot no longer holds it. */
  lemma SetPieceTwiceAppendsTwice(v: RouteVariant, slot: Slot, a: RouteLeg, b: RouteLeg)
    requires v.legs.Some?
    ensures var first := SetPiece(v, slot, Some(a));
            var second := SetPiece(first.variant, slot, Some(b));
            && second.Done?
            && Piece(second.variant, slot) == Some(b)
            && second.variant.legs == Some(v.legs.value + [Some(a), Some(b)])
            && |second.variant.legs.value| == |v.legs.value| + 2
  {
    var first := SetPiece(v, slot, Some(a));
    assert first.variant.legs == Some(v.legs.value + [Some(a)]);
    var second := SetPiece(first.variant, slot, Some(b));
    assert (v.legs.value + [Some(a)]) + [Some(b)] == v.legs.value + [Some(a), Some(b)];
  }

  /** Filling the three slots of a fresh variant in order yields the same leg
      list as the engine's single `setLegs` call. */
  lemma PiecesInOrderMatchSetLegs(a: RouteLeg, t: RouteLeg, e: RouteLeg)
    ensures var s1 := SetPiece(Fresh(), Piece1, Some(a));
            var s2 := SetPiece(s1.variant, Piece2, Some(t));
            var s3 := SetPiece(s2.variant, Piece3, Some(e));
            && s3.Done?
            && s3.variant.legs == SetLegs(Fresh(), Some([Some(a), Some(t), Some(e)])).legs
            && s3.variant.piece1 == Some(a) && s3.variant.piece2 == Some(t) && s3.variant.piece3 == Some(e)
  {
    var s1 := SetPiece(Fresh(), Piece1, Some(a));
    assert [] + [Some(a)] == [Some(a)];
    assert s1.Done? && s1.variant.legs == Some([Some(a)]);
    var s2 := SetPiece(s1.variant, Piece2, Some(t));
    assert [Some(a)] + [Some(t)] == [Some(a), Some(t)];
    assert s2.Done? && s2.variant.legs == Some([Some(a), Some(t)]);
    assert [Some(a), Some(t)] + [Some(e)] == [Some(a), Some(t), Some(e)];
  }
}
