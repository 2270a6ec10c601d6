/**
 * Highlighting of a report's percentage cell: an ordered chain of tests
 * maps the percentage to one of five colour bands, the first that applies.
 */
module Highlight {

  datatype Band = DarkGreen | MediumSeaGreen | YellowGreen | LightCoral | DarkRed

  /**
   * The band of `percentage`. Exactly one band applies to every real
   * number; anything outside [50, 100], above 100 included, is dark red.
   */
  function Classify(percentage: real): (b: Band)
    ensures b == DarkGreen <==> 90.0 <= percentage <= 100.0
    ensures b == MediumSeaGreen <==> 80.0 <= percentage < 90.0
    ensures b == YellowGreen <==> 70.0 <= percentage < 80.0
    ensures b == LightCoral <==> 50.0 <= percentage < 70.0
    ensures b == DarkRed <==> percentage < 50.0 || percentage > 100.0
  {
    if 90.0 <= percentage <= 100.0 then DarkGreen
    else if 80.0 <= percentage < 90.0 then MediumSeaGreen
    else if 70.0 <= percentage < 80.0 then YellowGreen
    else if 50.0 <= percentage < 70.0 then LightCoral
    else DarkRed
  }

  /** The CSS declaration the table cell receives. */
  function Style(b: Band): string
  {
    match b
    case DarkGreen => "background-color: darkgreen"
    case MediumSeaGreen => "background-color: mediumseagreen"
    case YellowGreen => "background-color: yellowgreen"
    case LightCoral => "background-color: lightcoral"
    case DarkRed => "background-color: darkred"
  }

  /** The style of a percentage cell: each colour exactly on its band. */
  function HighlightAttendance(percentage: real): (style: string)
    ensures style == "background-color: darkgreen" <==> 90.0 <= percentage <= 100.0
    ensures style == "background-color: mediumseagreen" <==> 80.0 <= percentage < 90.0
    ensures style == "background-color: yellowgreen" <==> 70.0 <= percentage < 80.0
    ensures style == "background-color: lightcoral" <==> 50.0 <= percentage < 70.0
    ensures style == "background-color: darkred" <==> percentage < 50.0 || percentage > 100.0
  {
    Style(Classify(percentage))
  }

  /** Bands from worst to best. */
  function Rank(b: Band): nat
  {
    match b
    case DarkRed => 0
    case LightCoral => 1
    case YellowGreen => 2
    case MediumSeaGreen => 3
    case DarkGreen => 4
  }

  /** Within [0, 100] a higher percentage never gets a worse band. */
  lemma ClassifyMonotone(p: real, q: real)
    requires 0.0 <= p <= q <= 100.0
    ensures Rank(Classify(p)) <= Rank(Classify(q))
  {
  }
}
