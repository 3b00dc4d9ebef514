/** The rider-facing sentence for one transit segment, e.g.
    "Take Blue Line (B) from Rajiv Chowk (Platform 2). Direction: Dwarka.
    Departs at 10:04. Ride for 7 stops (arrives at 10:21). Get down at Janakpuri West." */
module Formatter {

  import opened Wrappers
  import opened Text
  import opened Model

  const NoTransitText: string := "No transit information available."

  /** `formatLine`: both names → "full (short)"; only the full name → it;
      only the short name → "Line short"; neither → "the metro line". */
  function LineText(seg: TransitSegment): (r: string)
    ensures seg.lineName.Some? && seg.lineShortName.Some? ==>
              r == seg.lineName.value + " (" + seg.lineShortName.value + ")"
    ensures seg.lineName.Some? && seg.lineShortName.None? ==> r == seg.lineName.value
    ensures seg.lineName.None? && seg.lineShortName.Some? ==> r == "Line " + seg.lineShortName.value
    ensures seg.lineName.None? && seg.lineShortName.None? ==> r == "the metro line"
  {
    if seg.lineShortName.Some? && seg.lineName.Some? then
      seg.lineName.value + " (" + seg.lineShortName.value + ")"
    else if seg.lineName.Some? then seg.lineName.value
    else if seg.lineShortName.Some? then "Line " + seg.lineShortName.value
    else "the metro line"
  }

  /** `formatStop`: the stop name unchanged, or "the station" when null. */
  function StopText(stop: Option<string>): (r: string)
    ensures stop.Some? ==> r == stop.value
    ensures stop.None? ==> r == "the station"
  {
    if stop.Some? then stop.value else "the station"
  }

  predicate ShowsPlatform(seg: TransitSegment) {
    seg.platform.Some? && |seg.platform.value| > 0
  }

  /** The optional parts of the sentence. */
  function PlatformPart(seg: TransitSegment): string {
    if ShowsPlatform(seg) then " (Platform " + seg.platform.value + ")" else ""
  }

  function DirectionPart(seg: TransitSegment): string {
    if seg.headsign.Some? then "Direction: " + seg.headsign.value + ". " else ""
  }

  function DepartsPart(seg: TransitSegment): string {
    if seg.departureTimeText.Some? then "Departs at " + seg.departureTimeText.value + ". " else ""
  }

  function ArrivesPart(seg: TransitSegment): string {
    if seg.arrivalTimeText.Some? then " (arrives at " + seg.arrivalTimeText.value + ")" else ""
  }

  /** "Take <line> from <stop>" — the opening clause. */
  function Opening(seg: TransitSegment): string {
    "Take " + LineText(seg) + " from " + StopText(seg.departureStop)
  }

  function RideClause(seg: TransitSegment): string {
    "Ride for " + IntToString(seg.numStops) + " stops"
  }

  function Closing(seg: TransitSegment): string {
    "Get down at " + StopText(seg.arrivalStop) + "."
  }

  /** The pieces the builder appends, in order; absent optional clauses
      are empty pieces. */
  function Parts(seg: TransitSegment): seq<string> {
    [Opening(seg), PlatformPart(seg), ". ", DirectionPart(seg), DepartsPart(seg),
     RideClause(seg), ArrivesPart(seg), ". ", Closing(seg)]
  }

  function Concat(parts: seq<string>): string {
    if |parts| == 0 then "" else parts[0] + Concat(parts[1..])
  }

  lemma {:induction false} ConcatAppend(a: seq<string>, b: seq<string>)
    ensures Concat(a + b) == Concat(a) + Concat(b)
  {
    if |a| == 0 {
      assert a + b == b;
    } else {
      assert (a + b)[0] == a[0];
      assert (a + b)[1..] == a[1..] + b;
      ConcatAppend(a[1..], b);
    }
  }

  /** Filling an empty piece with `m` inserts `m` into the text at the
      position where that piece starts, and changes nothing else. */
  lemma FillPiece(parts: seq<string>, i: nat, m: string)
    requires i < |parts| && parts[i] == ""
    ensures var before := Concat(parts);
            var k := |Concat(parts[..i])|;
            k <= |before| && Concat(parts[i := m]) == before[..k] + m + before[k..]
  {
    var filled := parts[i := m];
    assert parts == parts[..i] + [""] + parts[i + 1..];
    assert filled == parts[..i] + [m] + parts[i + 1..];
    ConcatAppend(parts[..i] + [""], parts[i + 1..]);
    ConcatAppend(parts[..i], [""]);
    ConcatAppend(parts[..i] + [m], parts[i + 1..]);
    ConcatAppend(parts[..i], [m]);
    assert Concat([m]) == m + Concat([]);
    assert Concat([""]) == "" + Concat([]);
    var a := Concat(parts[..i]);
    var b := Concat(parts[i + 1..]);
    assert Concat(parts) == a + b;
    assert Concat(filled) == a + m + b;
    assert (a + b)[..|a|] == a;
    assert (a + b)[|a|..] == b;
  }

  /** The length of the text up to a piece. */
  lemma ConcatPrefixLength(parts: seq<string>, i: nat)
    requires i < |parts|
    ensures |Concat(parts[..i + 1])| == |Concat(parts[..i])| + |parts[i]|
  {
    assert parts[..i + 1] == parts[..i] + [parts[i]];
    ConcatAppend(parts[..i], [parts[i]]);
    assert Concat([parts[i]]) == parts[i] + Concat([]);
  }

  /** The text the builder holds before the final `trim()`. */
  function Sentence(seg: TransitSegment): string {
    Concat(Parts(seg))
  }

  /** The sentence opens with "Take " and closes with
      "Get down at <stop>.". */
  lemma SentenceShape(seg: TransitSegment)
    ensures var s := Sentence(seg);
            var c := Closing(seg);
            && |s| >= |c| && s[|s| - |c|..] == c
            && |s| >= 5 && s[..5] == "Take "
  {
    var parts := Parts(seg);
    var c := Closing(seg);
    var o := Opening(seg);
    assert parts == parts[..8] + [c];
    ConcatAppend(parts[..8], [c]);
    assert Concat([c]) == c + Concat([]);
    var s := Concat(parts);
    assert s == Concat(parts[..8]) + c;
    assert s == o + Concat(parts[1..]);
    assert o[..5] == "Take ";
  }

  /** `format(seg)`. Because the sentence starts with "Take " and ends
      with ".", the final trim never removes anything. */
  function Format(seg: Option<TransitSegment>): (r: string)
    ensures seg.None? ==> r == NoTransitText
    ensures seg.Some? ==> r == Sentence(seg.value)
  {
    if seg.None? then NoTransitText
    else
      var s := Sentence(seg.value);
      SentenceShape(seg.value);
      TrimNoOp(s);
      Trim(s)
  }

  /** Every formatted segment opens with "Take " and ends with
      "Get down at <arrival stop>.". */
  lemma FormatShape(seg: TransitSegment)
    ensures var r := Format(Some(seg));
            var c := "Get down at " + StopText(seg.arrivalStop) + ".";
            && |r| >= 5 && r[..5] == "Take "
            && |r| >= |c| && r[|r| - |c|..] == c
  {
    SentenceShape(seg);
  }

  /** Piece `i` sits in the text right where the pieces before it end. */
  lemma PieceAt(parts: seq<string>, i: nat)
    requires i < |parts|
    ensures var k := |Concat(parts[..i])|;
            k + |parts[i]| <= |Concat(parts)| && Concat(parts)[k..k + |parts[i]|] == parts[i]
  {
    var a := Concat(parts[..i]);
    var m := parts[i];
    var b := Concat(parts[i + 1..]);
    assert parts == parts[..i] + ([m] + parts[i + 1..]);
    ConcatAppend(parts[..i], [m] + parts[i + 1..]);
    assert ([m] + parts[i + 1..])[1..] == parts[i + 1..];
    assert Concat([m] + parts[i + 1..]) == m + b;
    assert Concat(parts) == a + (m + b);
    assert (a + (m + b))[|a|..|a| + |m|] == m;
  }

  /** "Ride for <numStops> stops" is in every sentence (and so, by
      `Format`'s contract, in every formatted segment), right after the
      opening, the platform note and the direction and departure clauses. */
  lemma RideClausePresent(seg: TransitSegment)
    ensures var r := Sentence(seg);
            var k := |Concat(Parts(seg)[..5])|;
            var ride := RideClause(seg);
            k + |ride| <= |r| && r[k..k + |ride|] == ride
  {
    PieceAt(Parts(seg), 5);
  }

  /** Two segments whose pieces differ only in an empty piece `i` of `a`:
      the sentence of `b` is that of `a` with piece `i` inserted. */
  lemma FillSentence(a: TransitSegment, b: TransitSegment, i: nat)
    requires i < 9 && Parts(a)[i] == ""
    requires Parts(b) == Parts(a)[i := Parts(b)[i]]
    ensures var k := |Concat(Parts(a)[..i])|;
            && k <= |Sentence(a)|
            && Sentence(b) == Sentence(a)[..k] + Parts(b)[i] + Sentence(a)[k..]
  {
    FillPiece(Parts(a), i, Parts(b)[i]);
  }

  /** " (Platform p)" appears exactly when the platform is non-null and
      non-empty: without it the sentence is the one of a segment with no
      platform, and with it the note follows the opening clause directly. */
  lemma PlatformClause(seg: TransitSegment)
    ensures var bare := Sentence(seg.(platform := None));
            var k := |Opening(seg)|;
            && k <= |bare|
            && (!ShowsPlatform(seg) ==> Sentence(seg) == bare)
            && (ShowsPlatform(seg) ==>
                  Sentence(seg) == bare[..k] + " (Platform " + seg.platform.value + ")" + bare[k..])
  {
    var plain := seg.(platform := None);
    PartsDifferAt1(plain, seg);
    FillSentence(plain, seg, 1);
    assert Parts(plain)[..1] == [Opening(seg)];
    assert Concat([Opening(seg)]) == Opening(seg) + Concat([]);
    if !ShowsPlatform(seg) {
      assert Parts(seg) == Parts(plain);
    }
  }

  /** "Direction: h. " appears exactly when the headsign is non-null, after
      the platform note, and adding it changes nothing else. */
  lemma DirectionClause(seg: TransitSegment, h: string)
    ensures var bare := Sentence(seg.(headsign := None));
            var k := |Concat(Parts(seg.(headsign := None))[..3])|;
            && k <= |bare|
            && Sentence(seg.(headsign := Some(h))) == bare[..k] + "Direction: " + h + ". " + bare[k..]
  {
    var plain := seg.(headsign := None);
    var shown := seg.(headsign := Some(h));
    PartsDifferAt3(plain, shown);
    FillSentence(plain, shown, 3);
  }

  /** "Departs at t. " appears exactly when the departure time is non-null,
      just before the ride clause. */
  lemma DepartsClause(seg: TransitSegment, t: string)
    ensures var bare := Sentence(seg.(departureTimeText := None));
            var k := |Concat(Parts(seg.(departureTimeText := None))[..4])|;
            && k <= |bare|
            && Sentence(seg.(departureTimeText := Some(t))) == bare[..k] + "Departs at " + t + ". " + bare[k..]
  {
    var plain := seg.(departureTimeText := None);
    var shown := seg.(departureTimeText := Some(t));
    PartsDifferAt4(plain, shown);
    FillSentence(plain, shown, 4);
  }

  /** " (arrives at t)" appears exactly when the arrival time is non-null,
      right after the ride clause. */
  lemma ArrivesClause(seg: TransitSegment, t: string)
    ensures var bare := Sentence(seg.(arrivalTimeText := None));
            var k := |Concat(Parts(seg.(arrivalTimeText := None))[..6])|;
            && k <= |bare|
            && Sentence(seg.(arrivalTimeText := Some(t))) == bare[..k] + " (arrives at " + t + ")" + bare[k..]
  {
    var plain := seg.(arrivalTimeText := None);
    var shown := seg.(arrivalTimeText := Some(t));
    PartsDifferAt6(plain, shown);
    FillSentence(plain, shown, 6);
  }

  /** Two segments that differ only in one optional clause have the same
      pieces elsewhere. */
  lemma PartsDifferAt1(a: TransitSegment, b: TransitSegment)
    requires a.(platform := None) == b.(platform := None)
    ensures Parts(b) == Parts(a)[1 := PlatformPart(b)]
  {
    assert Opening(a) == Opening(b) && DirectionPart(a) == DirectionPart(b);
    assert DepartsPart(a) == DepartsPart(b) && RideClause(a) == RideClause(b);
    assert ArrivesPart(a) == ArrivesPart(b) && Closing(a) == Closing(b);
  }

  lemma PartsDifferAt3(a: TransitSegment, b: TransitSegment)
    requires a.(headsign := None) == b.(headsign := None)
    ensures Parts(b) == Parts(a)[3 := DirectionPart(b)]
    ensures Parts(b)[..3] == Parts(a)[..3]
  {
    assert Opening(a) == Opening(b) && PlatformPart(a) == PlatformPart(b);
    assert DepartsPart(a) == DepartsPart(b) && RideClause(a) == RideClause(b);
    assert ArrivesPart(a) == ArrivesPart(b) && Closing(a) == Closing(b);
  }

  lemma PartsDifferAt4(a: TransitSegment, b: TransitSegment)
    requires a.(departureTimeText := None) == b.(departureTimeText := None)
    ensures Parts(b) == Parts(a)[4 := DepartsPart(b)]
    ensures Parts(b)[..4] == Parts(a)[..4]
  {
    assert Opening(a) == Opening(b) && PlatformPart(a) == PlatformPart(b);
    assert DirectionPart(a) == DirectionPart(b) && RideClause(a) == RideClause(b);
    assert ArrivesPart(a) == ArrivesPart(b) && Closing(a) == Closing(b);
  }

  lemma PartsDifferAt6(a: TransitSegment, b: TransitSegment)
    requires a.(arrivalTimeText := None) == b.(arrivalTimeText := None)
    ensures Parts(b) == Parts(a)[6 := ArrivesPart(b)]
    ensures Parts(b)[..6] == Parts(a)[..6]
  {
    assert Opening(a) == Opening(b) && PlatformPart(a) == PlatformPart(b);
    assert DirectionPart(a) == DirectionPart(b) && DepartsPart(a) == DepartsPart(b);
    assert RideClause(a) == RideClause(b) && Closing(a) == Closing(b);
  }
}
