/** The cursor of the selection list: how the Up and Down keys move it, how
    redrawing the list keeps it on a row, and which action Enter picks for
    the row it is on. Rows: 0 is the header, 1 "Global", 2 .. len - 2 the
    profiles, len - 1 "Create new". `None` is the unset cursor of a fresh
    list state. */
module Selection {
  import opened Wrappers

  /** What the list widget does to the cursor on every redraw: an index past
      the end is pulled back to the last row (an empty list has no cursor). */
  function Clamp(sel: Option<nat>, len: nat): (r: Option<nat>)
    ensures r.Some? ==> r.value < len
    ensures len > 0 ==> (r.None? <==> sel.None?)
    ensures sel.Some? && sel.value < len ==> r == sel
    ensures r.Some? && r != sel ==> r.value == len - 1
  {
    if len == 0 then None
    else if sel.Some? && sel.value >= len then Some(len - 1)
    else sel
  }

  /** The Up key: the cursor steps back one row only when it is below row 1,
      so it never reaches the header. */
  function AfterUp(sel: Option<nat>): (r: Option<nat>)
    ensures r.Some? <==> sel.Some?
    ensures r != sel ==> sel.value > 1 && r.value == sel.value - 1
    ensures sel.Some? && sel.value > 1 ==> r.value == sel.value - 1
    ensures r.Some? && sel.value >= 1 ==> r.value >= 1
  {
    if sel.GetOr(0) > 1 then Some(sel.value - 1) else sel
  }

  /** The Down key: from the unset cursor or the header it lands on row 1,
      otherwise it steps forward one row (a redraw then clamps it). */
  function AfterDown(sel: Option<nat>): (r: Option<nat>)
    ensures r.Some? && r.value >= 1
    ensures sel.None? || sel.value == 0 ==> r == Some(1)
    ensures sel.Some? && sel.value > 0 ==> r.value == sel.value + 1
  {
    if sel.GetOr(0) == 0 then Some(1) else Some(sel.value + 1)
  }

  /** What Enter does on the current row. */
  datatype Choice =
    | Stay                  // no row, or the header: nothing happens
    | ClearRow              // "Global": clear the identity
    | ProfileRow(index: nat) // apply the profile with this index
    | CreateRow             // "Create new"

  /** The row Enter acts on, for a list of `len` rows (never fewer than the
      header, "Global" and "Create new"). */
  function Resolve(sel: Option<nat>, len: nat): (c: Choice)
    requires len >= 3
    ensures c == Stay <==> sel.None? || sel.value == 0
    ensures c == ClearRow <==> sel == Some(1)
    ensures c.ProfileRow? <==> sel.Some? && 2 <= sel.value < len - 1
    ensures c.ProfileRow? ==> c.index == sel.value - 2 && c.index < len - 3
    ensures c == CreateRow <==> sel.Some? && sel.value >= len - 1
  {
    var i := sel.GetOr(0);
    if i == 0 then Stay
    else if i < len - 1 then (if i - 1 == 0 then ClearRow else ProfileRow(i - 2))
    else CreateRow
  }

  /** The cursor is unset or on a row below the header; it may be one past
      the last row after Down, until the next redraw. */
  predicate Parked(sel: Option<nat>, len: nat) {
    sel.None? || 1 <= sel.value <= len
  }

  /** The cursor is unset or on a selectable row: what every redraw leaves. */
  predicate Resting(sel: Option<nat>, len: nat) {
    sel.None? || 1 <= sel.value < len
  }

  /** A redraw brings a parked cursor to rest; Up keeps a resting cursor
      resting; Down from a resting cursor sets it, and after the redraw it
      is on a selectable row. So no key leaves the cursor on the header. */
  lemma NavigationAvoidsHeader(sel: Option<nat>, len: nat)
    requires len >= 2
    ensures Parked(sel, len) ==> Resting(Clamp(sel, len), len)
    ensures Resting(sel, len) ==> Resting(AfterUp(sel), len)
    ensures Resting(sel, len) ==> Parked(AfterDown(sel), len)
    ensures var r := Clamp(AfterDown(sel), len); r.Some? && 1 <= r.value < len
  {
  }

  /** Up then Down (with the redraw between and after) returns to the row
      the cursor started from, for every row below row 1. */
  lemma UpThenDown(v: nat, len: nat)
    requires 1 < v < len
    ensures Clamp(AfterDown(Clamp(AfterUp(Some(v)), len)), len) == Some(v)
  {
  }

  /** Down then Up returns to the starting row for every row that has a row
      after it; from the last row Down stays put and Up then moves up one. */
  lemma DownThenUp(v: nat, len: nat)
    requires 1 <= v < len
    ensures v < len - 1 ==> AfterUp(Clamp(AfterDown(Some(v)), len)) == Some(v)
    ensures v == len - 1 && v > 1 ==> AfterUp(Clamp(AfterDown(Some(v)), len)) == Some(v - 1)
  {
  }
}
