/**
 * The 5×5 grid: 25 cells each holding a celebrity or nothing, the cell
 * opened for search, the cell awaiting delete confirmation, and the
 * timestamp stamped on the grid. Every change of the cells is written to
 * storage together with a fresh timestamp; loading accepts the current
 * wrapped format and the older bare-array format.
 */
module BingoGrid {
  import opened Wrappers
  import opened JsString
  import CelebrityService

  type Celebrity = CelebrityService.Celebrity

  /** An ISO-8601 instant read from the clock; never empty. */
  type Timestamp = s: string | s != "" witness "1970-01-01T00:00:00.000Z"

  datatype Cell = Cell(id: int, celebrity: Option<Celebrity>)

  /** What the storage key holds, as `JSON.parse` reads it. */
  datatype Stored =
    | Absent
    | Corrupt
    | LegacyArray(cells: seq<Cell>)
    | Wrapped(savedAt: Option<string>, savedCells: Option<seq<Cell>>)

  const GridSize := 25

  /** 25 empty cells numbered 0 to 24. */
  function CreateEmptyGrid(): (g: seq<Cell>)
    ensures |g| == GridSize
    ensures forall i :: 0 <= i < |g| ==> g[i].id == i && g[i].celebrity == None
  {
    seq(GridSize, i => Cell(i, None))
  }

  /** The value the persistence effect writes: `{lastUpdatedAt, cells}`. */
  function Saved(lastUpdatedAt: Timestamp, cells: seq<Cell>): Stored {
    Wrapped(Some(lastUpdatedAt), Some(cells))
  }

  /** The initial timestamp: the stored one if present and non-empty, else `now`. */
  function LoadTimestamp(saved: Stored, now: Timestamp): Timestamp {
    match saved
    case Wrapped(t, _) => if Truthy(t) then t.value else now
    case _ => now
  }

  /** The initial cells: a bare array as it is, the wrapped `cells` if present, else an empty grid. */
  function LoadCells(saved: Stored): seq<Cell> {
    match saved
    case LegacyArray(cells) => cells
    case Wrapped(_, Some(cells)) => cells
    case _ => CreateEmptyGrid()
  }

  /** Absent, unreadable or cell-less storage loads as a fresh empty grid stamped `now`. */
  lemma LoadFallsBackToEmptyGrid(saved: Stored, now: Timestamp)
    requires saved.Absent? || saved.Corrupt? || (saved.Wrapped? && saved.savedCells.None?)
    ensures |LoadCells(saved)| == GridSize
    ensures forall i :: 0 <= i < GridSize ==> LoadCells(saved)[i] == Cell(i, None)
    ensures !saved.Wrapped? ==> LoadTimestamp(saved, now) == now
  {
  }

  /**
   * A wrapped value gives its `cells` if present, else the empty grid, and
   * its `lastUpdatedAt` if present and non-empty, else `now`.
   */
  lemma WrappedLoads(saved: Stored, now: Timestamp)
    requires saved.Wrapped?
    ensures LoadCells(saved) == (if saved.savedCells.Some? then saved.savedCells.value else CreateEmptyGrid())
    ensures LoadTimestamp(saved, now) == (if Truthy(saved.savedAt) then saved.savedAt.value else now)
  {
  }

  /** A bare array from the older format is taken as the cells, unchecked, and stamped `now`. */
  lemma LegacyArrayMigrates(cells: seq<Cell>, now: Timestamp)
    ensures LoadCells(LegacyArray(cells)) == cells
    ensures LoadTimestamp(LegacyArray(cells), now) == now
  {
  }

  /** What the persistence effect writes loads back as the same cells and timestamp. */
  lemma SaveLoadRoundTrip(cells: seq<Cell>, t: Timestamp, now: Timestamp)
    ensures LoadCells(Saved(t, cells)) == cells
    ensures LoadTimestamp(Saved(t, cells), now) == t
  {
  }

  /** Every cell sits at the position equal to its id, as in a freshly created grid. */
  ghost predicate IdsArePositions(cells: seq<Cell>) {
    forall i :: 0 <= i < |cells| ==> cells[i].id == i
  }

  /**
   * The `map` of the select and delete handlers: every cell whose id is
   * `id` gets `occupant`; every other cell, and the length, stay as they were.
   */
  function SetOccupant(cells: seq<Cell>, id: int, occupant: Option<Celebrity>): (r: seq<Cell>)
    ensures |r| == |cells|
    ensures forall i :: 0 <= i < |r| ==> r[i].id == cells[i].id
    ensures forall i :: 0 <= i < |r| && cells[i].id != id ==> r[i] == cells[i]
    ensures forall i :: 0 <= i < |r| && cells[i].id == id ==> r[i].celebrity == occupant
  {
    seq(|cells|, i requires 0 <= i < |cells| =>
      if cells[i].id == id then Cell(cells[i].id, occupant) else cells[i])
  }

  /** Clearing a cell that was just filled restores the grid, provided it was empty before. */
  lemma ClearUndoesFill(cells: seq<Cell>, id: int, c: Celebrity)
    requires forall i :: 0 <= i < |cells| && cells[i].id == id ==> cells[i].celebrity == None
    ensures SetOccupant(SetOccupant(cells, id, Some(c)), id, None) == cells
  {
    var r := SetOccupant(SetOccupant(cells, id, Some(c)), id, None);
    assert forall i :: 0 <= i < |cells| ==> r[i] == cells[i];
  }

  /** Writing an occupant keeps the ids at their positions. */
  lemma SetOccupantKeepsPositions(cells: seq<Cell>, id: int, occupant: Option<Celebrity>)
    requires IdsArePositions(cells)
    ensures IdsArePositions(SetOccupant(cells, id, occupant))
  {
  }

  /** The red marker: a living celebrity whose age is known and under 60. */
  predicate IsUnder60(celeb: Option<Celebrity>) {
    celeb.Some? && !celeb.value.isDead && celeb.value.age.Some? && celeb.value.age.value < 60
  }

  /** The green marker: a living celebrity whose age is known and over 85. */
  predicate IsOver85(celeb: Option<Celebrity>) {
    celeb.Some? && !celeb.value.isDead && celeb.value.age.Some? && celeb.value.age.value > 85
  }

  /**
   * Both markers are off for an empty cell, a dead celebrity or an unknown
   * age; otherwise they follow the age, and they are never on together.
   */
  lemma MarkersFollowAge(celeb: Option<Celebrity>)
    ensures celeb.None? || celeb.value.isDead || celeb.value.age.None? ==> !IsUnder60(celeb) && !IsOver85(celeb)
    ensures celeb.Some? && !celeb.value.isDead && celeb.value.age.Some? ==>
      (IsUnder60(celeb) <==> celeb.value.age.value < 60) && (IsOver85(celeb) <==> celeb.value.age.value > 85)
    ensures !(IsUnder60(celeb) && IsOver85(celeb))
  {
  }

  /** The grid component's state and its event handlers. */
  class Grid {
    var cells: seq<Cell>
    var activeCellId: Option<int>
    var cellToDeleteId: Option<int>
    var lastUpdatedAt: Timestamp
    /** The value under the storage key. */
    var storage: Stored

    /** Storage holds the current cells with the current timestamp. */
    ghost predicate Persisted()
      reads this
    {
      storage == Saved(lastUpdatedAt, cells)
    }

    /** The cell opened for search, looked up by position as the click handler does, is empty. */
    ghost predicate ActiveCellEmpty()
      reads this
    {
      activeCellId.Some? ==> 0 <= activeCellId.value < |cells| && cells[activeCellId.value].celebrity == None
    }

    ghost predicate Valid()
      reads this
    {
      Persisted() && ActiveCellEmpty()
    }

    /**
     * Mounting the grid: the state initialisers of the first render both
     * read `saved` (the timestamp falls back to `firstRender`, the clock at
     * that moment), then the persistence effect runs once, at `mountNow`,
     * re-stamping the loaded cells and writing them back.
     */
    constructor Load(saved: Stored, firstRender: Timestamp, mountNow: Timestamp)
      ensures Valid()
      ensures cells == LoadCells(saved) && activeCellId == None && cellToDeleteId == None
      ensures lastUpdatedAt == mountNow && storage == Saved(mountNow, LoadCells(saved))
    {
      cells := LoadCells(saved);
      lastUpdatedAt := LoadTimestamp(saved, firstRender);
      activeCellId := None;
      cellToDeleteId := None;
      storage := saved;
      new;
      PersistCells(mountNow);
    }

    /**
     * The persistence effect, run after the first render and after every
     * change of `cells`: stamps `now` and stores the cells with it.
     */
    method PersistCells(now: Timestamp)
      requires ActiveCellEmpty()
      modifies this
      ensures Valid()
      ensures cells == old(cells) && activeCellId == old(activeCellId) && cellToDeleteId == old(cellToDeleteId)
      ensures lastUpdatedAt == now && storage == Saved(now, cells)
    {
      lastUpdatedAt := now;
      storage := Saved(now, cells);
    }

    /**
     * A celebrity was picked in the search dialog: it goes into the cell(s)
     * whose id is the active cell id, which is then cleared. Nothing happens
     * when no cell is active.
     */
    method SelectCelebrity(celebrity: Celebrity, now: Timestamp)
      requires Valid()
      modifies this
      ensures Valid()
      ensures old(activeCellId) == None ==>
        cells == old(cells) && activeCellId == None && cellToDeleteId == old(cellToDeleteId)
        && lastUpdatedAt == old(lastUpdatedAt) && storage == old(storage)
      ensures old(activeCellId).Some? ==>
        cells == SetOccupant(old(cells), old(activeCellId).value, Some(celebrity))
        && activeCellId == None && cellToDeleteId == old(cellToDeleteId) && lastUpdatedAt == now
      ensures old(activeCellId).Some? ==>
        forall i :: 0 <= i < |LoadCells(storage)| && LoadCells(storage)[i].id == old(activeCellId).value ==>
          LoadCells(storage)[i].celebrity == Some(celebrity)
      ensures IdsArePositions(old(cells)) ==> IdsArePositions(cells)
      ensures IdsArePositions(old(cells)) ==>
        forall i :: 0 <= i < |cells| && old(cells)[i].celebrity.Some? ==> cells[i] == old(cells)[i]
    {
      if activeCellId == None {
        return;
      }
      cells := SetOccupant(cells, activeCellId.value, Some(celebrity));
      activeCellId := None;
      PersistCells(now);
    }

    /**
     * A click on the cell whose id is `index`, looked up by position: a
     * filled cell asks for delete confirmation, an empty one opens the
     * search. A filled cell is never opened for search. When no cell sits
     * at that position the lookup throws and nothing changes.
     */
    method CellClick(index: int) returns (threw: bool)
      requires Valid()
      modifies this`activeCellId, this`cellToDeleteId
      ensures Valid()
      ensures threw <==> !(0 <= index < |cells|)
      ensures threw ==> activeCellId == old(activeCellId) && cellToDeleteId == old(cellToDeleteId)
      ensures !threw && cells[index].celebrity.Some? ==>
        cellToDeleteId == Some(index) && activeCellId == old(activeCellId)
      ensures !threw && cells[index].celebrity.None? ==>
        activeCellId == Some(index) && cellToDeleteId == old(cellToDeleteId)
    {
      if !(0 <= index < |cells|) {
        return true;
      }
      if cells[index].celebrity.Some? {
        cellToDeleteId := Some(index);
        return false;
      }
      activeCellId := Some(index);
      return false;
    }

    /** The search dialog was closed without a choice. */
    method CloseSearch()
      requires Valid()
      modifies this`activeCellId
      ensures Valid() && activeCellId == None
    {
      activeCellId := None;
    }

    /** The delete confirmation was cancelled. */
    method CancelDelete()
      requires Valid()
      modifies this`cellToDeleteId
      ensures Valid() && cellToDeleteId == None
    {
      cellToDeleteId := None;
    }

    /**
     * The delete confirmation was accepted: the cell(s) whose id is the
     * pending id are emptied and the pending id is cleared. Nothing happens
     * when no deletion is pending.
     */
    method ConfirmDeleteCell(now: Timestamp)
      requires Valid()
      modifies this
      ensures Valid()
      ensures old(cellToDeleteId) == None ==>
        cells == old(cells) && activeCellId == old(activeCellId) && cellToDeleteId == None
        && lastUpdatedAt == old(lastUpdatedAt) && storage == old(storage)
      ensures old(cellToDeleteId).Some? ==>
        cells == SetOccupant(old(cells), old(cellToDeleteId).value, None)
        && cellToDeleteId == None && activeCellId == old(activeCellId) && lastUpdatedAt == now
      ensures IdsArePositions(old(cells)) ==> IdsArePositions(cells)
    {
      if cellToDeleteId == None {
        return;
      }
      cells := SetOccupant(cells, cellToDeleteId.value, None);
      cellToDeleteId := None;
      PersistCells(now);
    }

    /** The grid is emptied after confirmation; a pending deletion is left as it was. */
    method ResetGrid(now: Timestamp)
      requires Valid()
      modifies this
      ensures Valid()
      ensures cells == CreateEmptyGrid() && |cells| == GridSize && IdsArePositions(cells)
      ensures activeCellId == None && cellToDeleteId == old(cellToDeleteId) && lastUpdatedAt == now
    {
      cells := CreateEmptyGrid();
      activeCellId := None;
      PersistCells(now);
    }
  }

  /**
   * A first visit followed by filling a cell and reloading: the new grid
   * shows the chosen celebrity in that cell; its first render shows the
   * stored stamp, which its mount then replaces with the mount time.
   */
  method FillAndReload(c: Celebrity, t0: Timestamp, t1: Timestamp, t2: Timestamp, t3: Timestamp, t4: Timestamp)
  {
    var g := new Grid.Load(Absent, t0, t1);
    var threw := g.CellClick(7);
    assert !threw && g.activeCellId == Some(7);
    g.SelectCelebrity(c, t2);
    assert g.cells[7].celebrity == Some(c);
    var h := new Grid.Load(g.storage, t3, t4);
    assert LoadTimestamp(g.storage, t3) == t2;
    assert h.lastUpdatedAt == t4 && h.cells[7].celebrity == Some(c);
  }
}
