/** The layout decisions of WheelComponent.drawWheel
    (src/app/wheel/wheel.component.ts): which picture is drawn for an
    option list, where each segment lies, its colour and its label. Angles
    are in turns (one turn is 2 * Math.PI radians) and follow the canvas
    convention: 0 is the positive x axis and angles grow clockwise, so the
    top of the wheel is at -1/4. */
module WheelView {
  import Js
  import Service

  /** The twelve segment colours, in order. */
  const Palette: seq<string> := [
    "#FF6B6B", "#4ECDC4", "#FFE66D", "#95E1D3", "#F38181", "#AA96DA",
    "#FCBAD3", "#A8D8EA", "#FF9F43", "#6BCB77", "#4D96FF", "#FFD93D"
  ]

  /** The text drawn on the empty wheel. */
  const PlaceholderText: string := "Add options to spin"

  // ---------------------------------------------------------------------
  // Colours
  // ---------------------------------------------------------------------

  /** index % colors.length: segment i takes the colours round-robin. */
  function ColorIndex(i: nat): (c: nat)
    ensures c < |Palette|
    ensures i < |Palette| ==> c == i
  {
    i % |Palette|
  }

  /** Neighbouring segments never share a colour. */
  lemma NeighboursDiffer(i: nat)
    ensures ColorIndex(i) != ColorIndex(i + 1)
  {
  }

  /** Colours repeat only every twelve segments: on a wheel of at most
      twelve options every segment has its own colour. */
  lemma ColoursDistinctUpToTwelve(i: nat, j: nat)
    requires i < j < i + |Palette|
    ensures ColorIndex(i) != ColorIndex(j)
  {
    assert j == i + (j - i);
    SameRemainder(i, j - i);
  }

  lemma SameRemainder(i: nat, d: nat)
    requires 0 < d < 12
    ensures (i + d) % 12 != i % 12
  {
    var q, r := i / 12, i % 12;
    assert i == 12 * q + r;
    if r + d < 12 {
      assert i + d == 12 * q + (r + d);
    } else {
      assert i + d == 12 * (q + 1) + (r + d - 12);
    }
  }

  /** The colour sequence need not close up around the circle: the last
      segment, which touches the first, has the first segment's colour
      exactly when n % 12 == 1 (13, 25, ... options, or a single one). */
  lemma WrapAroundClash(n: nat)
    requires n > 0
    ensures ColorIndex(n - 1) == ColorIndex(0) <==> n % 12 == 1
  {
    var q, r := (n - 1) / 12, (n - 1) % 12;
    assert n - 1 == 12 * q + r;
    assert n == 12 * q + (r + 1);
    if r + 1 < 12 {
      Js.DivModUnique(n, 12, q, r + 1);
    } else {
      Js.DivModUnique(n, 12, q + 1, 0);
    }
  }

  // ---------------------------------------------------------------------
  // Labels
  // ---------------------------------------------------------------------

  /** maxChars: the label budget shrinks on crowded wheels. */
  function LabelLimit(n: nat): (limit: nat)
    ensures limit == 10 || limit == 14
    ensures limit == 10 <==> n > 8
  {
    if n > 8 then 10 else 14
  }

  /** displayText: a label that fits is shown as is, a longer one is cut
      to the budget and marked with "...". */
  function DisplayText(option: string, limit: nat): (shown: string)
    ensures |option| <= limit ==> shown == option
    ensures |option| > limit ==> |shown| == limit + 3 && shown[..limit] == option[..limit] && shown[limit..] == "..."
    ensures |shown| <= limit + 3
  {
    if |option| > limit then option[..limit] + "..." else option
  }

  /** Every label begins with a prefix of its option, at least as long as
      the budget allows. */
  lemma LabelStartsWithOption(option: string, limit: nat)
    ensures var shown := DisplayText(option, limit);
      exists k :: 0 <= k <= |shown| && k <= |option| && (k == |option| || k == limit) && shown[..k] == option[..k]
  {
    var shown := DisplayText(option, limit);
    if |option| <= limit {
      assert shown[..|option|] == option[..|option|];
    } else {
      assert shown[..limit] == option[..limit];
    }
  }

  // ---------------------------------------------------------------------
  // Segment angles
  // ---------------------------------------------------------------------

  /** segmentAngle = 2 * Math.PI / options.length, in turns. */
  function SegmentWidth(n: nat): (w: real)
    requires n > 0
    ensures 0.0 < w <= 1.0
    ensures w * n as real == 1.0
  {
    1.0 / n as real
  }

  /** startAngle = index * segmentAngle - Math.PI / 2. */
  function SegmentStart(n: nat, i: nat): (start: real)
    requires n > 0
    ensures -0.25 <= start
    ensures i < n ==> start < 0.75
  {
    ScaleByWidth(n, 0.0, i as real);
    ScaleByWidth(n, i as real, if i < n then n as real else i as real);
    i as real * SegmentWidth(n) - 0.25
  }

  /** endAngle = startAngle + segmentAngle. */
  function SegmentEnd(n: nat, i: nat): (end: real)
    requires n > 0
    ensures end > SegmentStart(n, i)
  {
    SegmentStart(n, i) + SegmentWidth(n)
  }

  /** The first segment starts at the top of the wheel. */
  lemma FirstSegmentAtTop(n: nat)
    requires n > 0
    ensures SegmentStart(n, 0) == -0.25
  {
  }

  /** Each segment ends where the next one starts. */
  lemma SegmentsAbut(n: nat, i: nat)
    requires n > 0
    ensures SegmentEnd(n, i) == SegmentStart(n, i + 1)
  {
    assert (i + 1) as real * SegmentWidth(n) == i as real * SegmentWidth(n) + SegmentWidth(n);
  }

  /** The n segments cover exactly one turn: the last one ends a full turn
      after the first one starts, back at the top. */
  lemma SegmentsSpanOneTurn(n: nat)
    requires n > 0
    ensures SegmentEnd(n, n - 1) == SegmentStart(n, 0) + 1.0
  {
    SegmentsAbut(n, n - 1);
    assert n as real * SegmentWidth(n) == 1.0;
  }

  /** Every direction of the wheel's first turn lies in exactly one
      segment. */
  lemma SegmentsPartitionTurn(n: nat, a: real)
    requires n > 0 && -0.25 <= a < 0.75
    ensures exists i: nat :: i < n && SegmentStart(n, i) <= a < SegmentEnd(n, i)
    ensures forall i: nat, j: nat ::
      (i < n && j < n && SegmentStart(n, i) <= a < SegmentEnd(n, i) && SegmentStart(n, j) <= a < SegmentEnd(n, j))
      ==> i == j
  {
    var x := (a + 0.25) * n as real;
    BelowOneTurn(a + 0.25, n);
    var i := x.Floor;
    WithinSegment(n, i, x);
    UnscaleByWidth(n, a + 0.25);
    assert SegmentStart(n, i) <= a < SegmentEnd(n, i);
    forall i: nat, j: nat | i < n && j < n && SegmentStart(n, i) <= a < SegmentEnd(n, i)
      && SegmentStart(n, j) <= a < SegmentEnd(n, j)
      ensures i == j
    {
      if i < j {
        SegmentsOrdered(n, i, j);
      } else if j < i {
        SegmentsOrdered(n, j, i);
      }
    }
  }

  lemma BelowOneTurn(y: real, n: nat)
    requires n > 0 && 0.0 <= y < 1.0
    ensures 0.0 <= y * n as real < n as real
  {
  }

  /** Dividing by n (multiplying by the width) keeps order. */
  lemma ScaleByWidth(n: nat, x: real, y: real)
    requires n > 0 && x <= y
    ensures x * SegmentWidth(n) <= y * SegmentWidth(n)
    ensures x < y ==> x * SegmentWidth(n) < y * SegmentWidth(n)
  {
  }

  lemma UnscaleByWidth(n: nat, y: real)
    requires n > 0
    ensures (y * n as real) * SegmentWidth(n) == y
  {
    assert (y * n as real) * SegmentWidth(n) == y * (n as real * SegmentWidth(n));
  }

  /** A later segment starts no earlier than an earlier one ends. */
  lemma SegmentsOrdered(n: nat, i: nat, j: nat)
    requires n > 0 && i < j
    ensures SegmentEnd(n, i) <= SegmentStart(n, j)
  {
    SegmentsAbut(n, i);
    ScaleByWidth(n, (i + 1) as real, j as real);
  }

  // ---------------------------------------------------------------------
  // The picture
  // ---------------------------------------------------------------------

  datatype Segment = Segment(text: string, color: string, start: real, end: real)

  /** What drawWheel paints: the placeholder disc with its text, or one
      segment per option. */
  datatype Picture = Placeholder(text: string) | Wheel(segments: seq<Segment>)

  /** The segment of option i on a wheel of the given options. */
  function SegmentOf(options: seq<string>, i: nat): (segment: Segment)
    requires i < |options|
  {
    Segment(DisplayText(options[i], LabelLimit(|options|)), Palette[ColorIndex(i)],
            SegmentStart(|options|, i), SegmentEnd(|options|, i))
  }

  /** drawWheel without the canvas: the empty list gives only the
      placeholder, and otherwise segment i shows option i. */
  function Draw(options: seq<string>): (p: Picture)
    ensures p.Placeholder? <==> options == []
    ensures p.Placeholder? ==> p.text == PlaceholderText
    ensures p.Wheel? ==>
      (|p.segments| == |options| && forall i :: 0 <= i < |options| ==> p.segments[i] == SegmentOf(options, i))
  {
    if |options| == 0 then Placeholder(PlaceholderText)
    else Wheel(seq(|options|, i requires 0 <= i < |options| => SegmentOf(options, i)))
  }

  /** The wheel's segments are drawn in option order, each start at the
      previous end, and they close the circle. */
  lemma DrawnSegmentsTile(options: seq<string>)
    requires options != []
    ensures var s := Draw(options).segments;
      s[0].start == -0.25 && s[|s| - 1].end == s[0].start + 1.0
      && forall i :: 0 <= i < |s| - 1 ==> s[i].end == s[i + 1].start
  {
    var n := |options|;
    var s := Draw(options).segments;
    FirstSegmentAtTop(n);
    SegmentsSpanOneTurn(n);
    forall i | 0 <= i < |s| - 1 ensures s[i].end == s[i + 1].start {
      SegmentsAbut(n, i);
    }
  }

  /** The pointer rule agrees with the picture. Turning the canvas by
      totalRotation degrees clockwise brings the direction
      SegmentStart(n, 0) + PointerAngle(totalRotation) / 360 to the top,
      under the pointer, and that direction lies in the segment of the
      winning index. */
  lemma PointerOverWinner(n: nat, total: real)
    requires n > 0
    ensures var a := -0.25 + Service.PointerAngle(total) / 360.0;
      var k := (a + total / 360.0 + 0.25).Floor;
      a + total / 360.0 == -0.25 + k as real
      && SegmentStart(n, Service.WinnerIndex(n, total)) <= a < SegmentEnd(n, Service.WinnerIndex(n, total))
  {
    var p := Service.PointerAngle(total);
    var f := p / Service.SegmentAngle(n);
    PointerReachesTop(p, total);
    FractionOfTurn(p, n);
    WithinSegment(n, Service.WinnerIndex(n, total), f);
  }

  /** A direction whose share of the segment width lies between i and
      i + 1 lies in segment i. */
  lemma WithinSegment(n: nat, i: nat, f: real)
    requires n > 0 && i as real <= f < i as real + 1.0
    ensures SegmentStart(n, i) <= -0.25 + f * SegmentWidth(n) < SegmentEnd(n, i)
  {
    var w := SegmentWidth(n);
    ScaleByWidth(n, i as real, f);
    ScaleByWidth(n, f, i as real + 1.0);
    assert i as real * w <= f * w < (i as real + 1.0) * w;
    assert (i as real + 1.0) * w == i as real * w + w;
    assert SegmentStart(n, i) == i as real * w - 0.25;
    assert SegmentEnd(n, i) == i as real * w - 0.25 + w;
  }

  /** Turning the direction -1/4 + p / 360 by total degrees reaches the top
      when p + total is whole turns. */
  lemma PointerReachesTop(p: real, total: real)
    requires Js.IsWholeTurns(p + total)
    ensures var a := -0.25 + p / 360.0;
      var k := (a + total / 360.0 + 0.25).Floor;
      a + total / 360.0 == -0.25 + k as real
  {
    var m := ((p + total) / 360.0).Floor;
    assert p + total == m as real * 360.0;
    assert -0.25 + p / 360.0 + total / 360.0 + 0.25 == m as real;
  }

  /** The pointer angle's share of a segment, times the segment width, is
      its share of a turn. */
  lemma FractionOfTurn(p: real, n: nat)
    requires n > 0
    ensures (p / Service.SegmentAngle(n)) * SegmentWidth(n) == p / 360.0
  {
    var u := p / 360.0;
    assert p / Service.SegmentAngle(n) == u * n as real;
    UnscaleByWidth(n, u);
  }
}
