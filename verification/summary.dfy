/** The one-line journey summary the engine attaches to each variant, such
    as "Walk → METRO (Blue Line) → Auto". */
module Summary {

  import opened Wrappers
  import opened Text
  import opened Model

  const Arrow: string := " → "

  /** `modeLabel`: the provider's mode string as a rider-facing word;
      unknown modes are shown as they are. */
  function ModeLabel(mode: Option<string>): (shown: string)
    ensures mode.Some? && ToLower(mode.value) == "walking" ==> shown == "Walk"
    ensures mode.Some? && ToLower(mode.value) == "driving" ==> shown == "Auto"
    ensures mode.Some? && ToLower(mode.value) == "transit" ==> shown == "Metro"
    ensures mode.Some? && ToLower(mode.value) !in {"walking", "driving", "transit"} ==> shown == mode.value
    ensures mode.None? ==> shown == "move"
  {
    if mode.None? then "move"
    else
      var lower := ToLower(mode.value);
      if lower == "walking" then "Walk"
      else if lower == "driving" then "Auto"
      else if lower == "transit" then "Metro"
      else mode.value
  }

  /** Labelling a label changes nothing: the four words are too short to be
      a provider mode, and an unknown mode stays unknown. */
  lemma ModeLabelIdempotent(mode: Option<string>)
    ensures ModeLabel(Some(ModeLabel(mode))) == ModeLabel(mode)
  {
    var shown := ModeLabel(mode);
    if shown in {"Walk", "Auto", "Metro", "move"} {
      assert |ToLower(shown)| == |shown| < 7;
    }
  }

  /** The label ignores letter case for the three provider modes; two
      spellings of any other mode are each shown as written. */
  lemma ModeLabelIgnoresCase(a: string, b: string)
    requires EqualsIgnoreCase(a, b)
    ensures ToLower(a) in {"walking", "driving", "transit"} ==> ModeLabel(Some(a)) == ModeLabel(Some(b))
    ensures ToLower(a) !in {"walking", "driving", "transit"} ==> ModeLabel(Some(a)) == a && ModeLabel(Some(b)) == b
  {
  }

  /** The line shown after "METRO": the first transit segment's line name,
      when there is a first segment and its name is neither null nor
      blank. */
  function LineNote(transit: RouteLeg): (note: Option<string>)
    ensures note.Some? <==>
              && transit.transitSegments.Some?
              && |transit.transitSegments.value| > 0
              && transit.transitSegments.value[0].lineName.Some?
              && !IsBlank(transit.transitSegments.value[0].lineName.value)
    ensures note.Some? ==> note == transit.transitSegments.value[0].lineName
  {
    if transit.transitSegments.None? || |transit.transitSegments.value| == 0 then None
    else
      var line := transit.transitSegments.value[0].lineName;
      if line.Some? && !IsBlank(line.value) then line else None
  }

  /** `buildSummaryText(p1, p2, p3)`: each present leg contributes its part,
      so a missing egress leg leaves the arrow before it dangling; the engine
      always passes three present legs. */
  function BuildSummaryText(p1: Option<RouteLeg>, p2: Option<RouteLeg>, p3: Option<RouteLeg>): string
  {
    SummaryPart(p1, Access) + SummaryPart(p2, Metro) + SummaryPart(p3, Egress)
  }

  /** The three positions a leg can take in the summary. */
  datatype Position = Access | Metro | Egress

  /** What one leg contributes: its label and an arrow as the access leg,
      "METRO", the optional line and an arrow as the metro leg, and its label
      as the egress leg; nothing when the leg is null. */
  function SummaryPart(p: Option<RouteLeg>, at: Position): string {
    if p.None? then ""
    else match at
      case Access => ModeLabel(p.value.mode) + Arrow
      case Metro =>
        "METRO" + (var note := LineNote(p.value); if note.Some? then " (" + note.value + ")" else "") + Arrow
      case Egress => ModeLabel(p.value.mode)
  }

  /** The ends of the summary for every combination of present and null
      legs: no legs give the empty text; a present access leg opens it with
      its label and an arrow, else a present metro leg opens it with
      "METRO"; a present egress leg closes it with its label, and a missing
      one leaves the arrow of the leg before it dangling. */
  lemma SummaryEnds(p1: Option<RouteLeg>, p2: Option<RouteLeg>, p3: Option<RouteLeg>)
    ensures var r := BuildSummaryText(p1, p2, p3);
            && (p1.None? && p2.None? && p3.None? ==> r == "")
            && (p1.Some? ==>
                  var head := ModeLabel(p1.value.mode) + Arrow;
                  |r| >= |head| && r[..|head|] == head)
            && (p1.None? && p2.Some? ==> |r| >= 5 && r[..5] == "METRO")
            && (p3.Some? ==>
                  var tail := ModeLabel(p3.value.mode);
                  |r| >= |tail| && r[|r| - |tail|..] == tail)
            && (p3.None? && (p1.Some? || p2.Some?) ==> |r| >= |Arrow| && r[|r| - |Arrow|..] == Arrow)
  {
    var a, m, c := SummaryPart(p1, Access), SummaryPart(p2, Metro), SummaryPart(p3, Egress);
    ThreeParts(a, m, c);
    if p1.None? && p2.Some? {
      assert a + m + c == m + c;
      assert m[..5] == "METRO";
    }
    if p3.None? {
      assert a + m + c == a + m;
    }
  }

  /** For a complete journey the summary reads
      "<access label> → METRO[ (<line>)] → <egress label>": it opens with the
      access label, closes with the egress label, and carries a line in
      parentheses exactly when the transit leg names one. */
  lemma SummaryShape(access: RouteLeg, transit: RouteLeg, egress: RouteLeg)
    ensures var s := BuildSummaryText(Some(access), Some(transit), Some(egress));
            var head := ModeLabel(access.mode) + " → METRO";
            var tail := " → " + ModeLabel(egress.mode);
            && |s| >= |head| + |tail|
            && s[..|head|] == head
            && s[|s| - |tail|..] == tail
            && (LineNote(transit).None? <==> |s| == |head| + |tail|)
            && (LineNote(transit).Some? ==>
                  s[|head|..|s| - |tail|] == " (" + LineNote(transit).value + ")")
  {
    var s := BuildSummaryText(Some(access), Some(transit), Some(egress));
    var head := ModeLabel(access.mode) + " → METRO";
    var tail := " → " + ModeLabel(egress.mode);
    var mid := if LineNote(transit).Some? then " (" + LineNote(transit).value + ")" else "";
    var a := ModeLabel(access.mode);
    var c := ModeLabel(egress.mode);
    assert s == (a + Arrow) + ("METRO" + mid + Arrow) + c;
    Regroup(a, mid, c);
    ThreeParts(head, mid, tail);
  }

  /** The summary's pieces regrouped around the optional line note. */
  lemma Regroup(a: string, mid: string, c: string)
    ensures (a + Arrow) + ("METRO" + mid + Arrow) + c == (a + " → METRO") + mid + (" → " + c)
  {
  }

  /** The three parts of a concatenation can be read back by position. */
  lemma ThreeParts(head: string, mid: string, tail: string)
    ensures var s := head + mid + tail;
            && s[..|head|] == head
            && s[|head| + |mid|..] == tail
            && s[|head|..|head| + |mid|] == mid
  {
  }
}
