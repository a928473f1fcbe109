/** The remaining-taps indicator: an infinity marker for admins, otherwise one
    dot per allowed tap (the used ones marked) and a caption with what is left. */
module LimitProgress {
  import opened JsBuiltins

  datatype View =
    | AdminMarker
    | Progress(dots: seq<bool>, caption: string)

  /** `Math.max(0, max - current)` */
  function Left(current: int, max: int): (left: int)
    ensures left >= 0
    ensures left >= max - current
    ensures left == 0 || left == max - current
  {
    if max - current > 0 then max - current else 0
  }

  /** `[...Array(max)].map((_, i) => i < current)`: true marks a used tap. */
  function Dots(current: int, max: nat): (dots: seq<bool>)
    ensures |dots| == max
    ensures forall i :: 0 <= i < max ==> dots[i] == (i < current)
  {
    seq(max, i => i < current)
  }

  /** The number of marked entries. */
  function Marked(dots: seq<bool>): nat {
    if dots == [] then 0 else (if dots[0] then 1 else 0) + Marked(dots[1..])
  }

  /** The first min(current, max) dots are marked, and no others. */
  lemma {:induction false} MarkedDots(current: int, max: nat)
    ensures Marked(Dots(current, max)) == Clamp(current, 0, max)
    decreases max
  {
    if max > 0 {
      var dots := Dots(current, max);
      MarkedDots(current - 1, max - 1);
      assert dots[1..] == Dots(current - 1, max - 1);
    }
  }

  const LimitLabel: string := "Лимит"

  /** The caption: what is left, or 'Лимит' once nothing is. */
  function Label(left: int): (caption: string)
    ensures caption == LimitLabel <==> left <= 0
    ensures left > 0 ==> caption == "Осталось " + IntToString(left)
  {
    if left > 0 then "Осталось " + IntToString(left)
    else
      assert LimitLabel[0] != "Осталось "[0];
      LimitLabel
  }

  /** LimitProgress */
  function Render(current: int, max: nat, isAdmin: bool): (v: View)
    ensures v.AdminMarker? <==> isAdmin
    ensures !isAdmin ==> v.dots == Dots(current, max) && v.caption == Label(Left(current, max))
  {
    if isAdmin then AdminMarker else Progress(Dots(current, max), Label(Left(current, max)))
  }

  /** A non-admin sees the limit caption exactly when every allowed tap is used. */
  lemma LimitShownWhenUsedUp(current: int, max: nat)
    ensures Render(current, max, false).caption == LimitLabel <==> current >= max
  {
  }
}
