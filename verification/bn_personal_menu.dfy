/**
 * The state machine of the overworld `PersonalMenu` (bnOverworldPersonalMenu.cpp):
 * opening and closing, the cursor over the option rows and the exit button,
 * running the selected option, and the money and area labels.
 *
 * Easing, textures and animations are not modelled. An option's callback is an
 * opaque token, or `None` when the option has none.
 */
module PersonalMenu {
  import opened Wrappers

  datatype MenuState = Closed | Opening | Opened | Closing

  datatype Menu = Menu(
    state: MenuState,
    selectExit: bool,
    row: int,
    options: seq<Option<nat>>,
    monies: int,
    areaName: string,
    areaLabel: string)

  const U32: int := 0x1_0000_0000
  const AREA_WIDTH: nat := 12

  /** `Open`: only a closed menu starts opening. */
  function Open(m: Menu): (r: (Menu, bool))
    ensures r.1 <==> m.state == Closed
    ensures r.1 ==> r.0 == m.(state := Opening)
    ensures !r.1 ==> r.0 == m
  {
    if m.state == Closed then (m.(state := Opening), true) else (m, false)
  }

  /** `Close`: only an open menu starts closing. */
  function Close(m: Menu): (r: (Menu, bool))
    ensures r.1 <==> m.state == Opened
    ensures r.1 ==> r.0 == m.(state := Closing)
    ensures !r.1 ==> r.0 == m
  {
    if m.state == Opened then (m.(state := Closing), true) else (m, false)
  }

  /** A menu that has just started opening can neither be opened again nor closed. */
  lemma {:induction false} OpenWhileOpening(m: Menu)
    requires m.state == Closed
    ensures Open(Open(m).0) == (Open(m).0, false)
    ensures Close(Open(m).0) == (Open(m).0, false)
  {
  }

  /**
   * `CursorMoveDown`: among the options the row moves down and wraps to the top.
   * The sum and the option count are taken as unsigned 32-bit values; a count of
   * zero divides by zero. On the exit button nothing moves.
   */
  function CursorMoveDown(m: Menu): (r: Result<(Menu, bool)>)
    ensures m.selectExit ==> r == Ok((m, false))
    ensures !m.selectExit ==> (r.Ok? <==> |m.options| % U32 != 0)
    ensures r.Ok? && !m.selectExit ==> (r.value.1 && r.value.0 == m.(row := r.value.0.row)
      && 0 <= r.value.0.row < |m.options|)
    ensures r.Ok? && !m.selectExit && 0 <= m.row && m.row + 1 < |m.options| < U32 ==> r.value.0.row == m.row + 1
    ensures r.Ok? && !m.selectExit && m.row + 1 == |m.options| < U32 ==> r.value.0.row == 0
  {
    var count := Unsigned(|m.options|);
    if m.selectExit then Ok((m, false))
    else if count == 0 then Err(Panic)
    else
      var sum := Unsigned(m.row + 1);
      ModSmall(sum, count);
      Ok((m.(row := sum % count), true))
  }

  /** An `int` converted to a 32-bit unsigned value. */
  function Unsigned(x: int): (r: int)
    ensures 0 <= r < U32
    ensures 0 <= x < U32 ==> r == x
  {
    x % U32
  }

  lemma ModSmall(a: int, b: int)
    requires 0 <= a && 0 < b
    ensures 0 <= a % b < b
    ensures a < b ==> a % b == a
    ensures a == b ==> a % b == 0
  {
  }

  /**
   * `CursorMoveUp`: among the options the row moves up and wraps to the bottom
   * (to `-1` when there are none, the size minus one converted to `int`). On the
   * exit button nothing moves, but a negative row is raised to 0.
   */
  function CursorMoveUp(m: Menu): (r: (Menu, bool))
    ensures r.1 <==> !m.selectExit
    ensures m.selectExit ==> r.0 == m.(row := Max(m.row, 0))
    ensures !m.selectExit && m.row > 0 ==> r.0 == m.(row := m.row - 1)
    ensures !m.selectExit && m.row <= 0 ==> r.0 == m.(row := |m.options| - 1)
  {
    if m.selectExit then (m.(row := Max(m.row, 0)), false)
    else if m.row - 1 < 0 then (m.(row := |m.options| - 1), true)
    else (m.(row := m.row - 1), true)
  }

  /** Moving down and then up returns to the same option. */
  lemma {:induction false} DownThenUp(m: Menu)
    requires !m.selectExit && 0 <= m.row < |m.options| < U32
    ensures CursorMoveDown(m).Ok? && CursorMoveUp(CursorMoveDown(m).value.0).0 == m
  {
  }

  /** `SelectExit`: moves the cursor to the exit button if it was not there. */
  function SelectExit(m: Menu): (r: (Menu, bool))
    ensures r.1 <==> !m.selectExit
    ensures r.0 == m.(selectExit := true)
  {
    if !m.selectExit then (m.(selectExit := true), true) else (m, false)
  }

  /** `SelectOptions`: moves the cursor from the exit button back to the first option. */
  function SelectOptions(m: Menu): (r: (Menu, bool))
    ensures r.1 <==> m.selectExit
    ensures r.1 ==> r.0 == m.(selectExit := false, row := 0)
    ensures !r.1 ==> r.0 == m
  {
    if m.selectExit then (m.(selectExit := false, row := 0), true) else (m, false)
  }

  /** Going to the exit button and back lands on the first option. */
  lemma {:induction false} ExitAndBack(m: Menu)
    requires !m.selectExit
    ensures SelectOptions(SelectExit(m).0) == (m.(row := 0), true)
  {
  }

  /**
   * `ExecuteSelection`: on the exit button the menu closes; on an option its
   * callback runs, if it has one. Returns the callback that ran, and whether
   * anything happened. A row outside the options is an out-of-bounds read.
   */
  function ExecuteSelection(m: Menu): (r: Result<(Menu, Option<nat>, bool)>)
    ensures m.selectExit ==> r == Ok((Close(m).0, None, Close(m).1))
    ensures !m.selectExit ==> (r.Ok? <==> 0 <= m.row < |m.options|)
    ensures r.Ok? && !m.selectExit ==> r.value == (m, m.options[m.row], m.options[m.row].Some?)
  {
    if m.selectExit then
      var (closed, ok) := Close(m);
      Ok((closed, None, ok))
    else if 0 <= m.row < |m.options| then
      Ok((m, m.options[m.row], m.options[m.row].Some?))
    else Err(Panic)
  }

  /** Choosing the exit button of an opened menu and confirming starts closing it; no option runs. */
  lemma {:induction false} ExitThenExecuteCloses(m: Menu)
    requires m.state == Opened
    ensures ExecuteSelection(SelectExit(m).0) == Ok((m.(selectExit := true, state := Closing), None, true))
  {
  }

  /** Running the selection never moves the cursor or changes the options. */
  lemma {:induction false} ExecuteKeepsCursor(m: Menu)
    requires ExecuteSelection(m).Ok?
    ensures var m' := ExecuteSelection(m).value.0;
      m'.row == m.row && m'.selectExit == m.selectExit && m'.options == m.options
  {
  }

  /** `SetMonies`: a negative amount shows as 0. */
  function SetMonies(m: Menu, amount: int): (r: Menu)
    ensures r.monies >= 0 && r.monies >= amount
    ensures amount >= 0 ==> r.monies == amount
    ensures amount < 0 ==> r.monies == 0
    ensures r == m.(monies := r.monies)
  {
    m.(monies := Max(0, amount))
  }

  /** Only the last amount set is shown: an earlier `SetMonies` leaves no trace. */
  lemma {:induction false} LastMoniesWin(m: Menu, a: int, b: int)
    ensures SetMonies(SetMonies(m, a), b) == SetMonies(m, b)
  {
    var r := SetMonies(SetMonies(m, a), b);
    assert r == SetMonies(m, a).(monies := r.monies);
  }

  /** The name left-padded with underscores to at least twelve characters. */
  function PadArea(name: string): (r: string)
    ensures |r| == Max(AREA_WIDTH, |name|)
    ensures r[|r| - |name|..] == name
    ensures forall k :: 0 <= k < |r| - |name| ==> r[k] == '_'
    decreases AREA_WIDTH - |name|
  {
    if |name| < AREA_WIDTH then
      var r := PadArea("_" + name);
      assert r[|r| - |name|..] == (r[|r| - |name| - 1..])[1..];
      r
    else name
  }

  /** `SetArea`: the name is kept as given and shown padded. */
  function SetArea(m: Menu, name: string): (r: Menu)
    ensures r.areaName == name
    ensures r.areaLabel == PadArea(name)
    ensures r == m.(areaName := name, areaLabel := r.areaLabel)
  {
    m.(areaName := name, areaLabel := PadArea(name))
  }

  /** Padding is done once: a padded name is long enough to be shown unchanged. */
  lemma {:induction false} PadAreaOnce(name: string)
    ensures |name| >= AREA_WIDTH ==> PadArea(name) == name
    ensures PadArea(PadArea(name)) == PadArea(name)
  {
  }
}
