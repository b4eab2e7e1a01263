/** The per-cell rules of loading and exporting a terrain grid.

    When the grid is read, every elevation is tagged ocean-like (-1) or land
    (0); the loader also counts the land cells and keeps a running maximum of
    the elevations. When the flooded grid is written out, every cell becomes
    either its elevation shifted down by the export height or 0.
 */
module Terrain {

  /** The tag readGridfromFile gives a cell of elevation v: -1 when v is the
      no-data value or not above sea level, 0 otherwise. */
  function Class(ndval: int, v: int): (t: int)
    ensures t == -1 || t == 0
    ensures t == 0 <==> v != ndval && v > 0
  {
    if v == ndval || v <= 0 then -1 else 0
  }

  /** The land cells: positions whose value is tagged 0. */
  ghost function LandPositions(ndval: int, s: seq<int>): (land: set<int>) {
    set k | 0 <= k < |s| && Class(ndval, s[k]) == 0
  }

  /** The land count accumulated left to right, one step per value, as the
      loader's `initLand += 1` does. */
  function CountLand(ndval: int, s: seq<int>): (n: nat)
    ensures n <= |s|
  {
    if s == [] then 0
    else CountLand(ndval, s[..|s| - 1]) + (if Class(ndval, s[|s| - 1]) == 0 then 1 else 0)
  }

  /** The land count is exactly the number of cells tagged land. */
  lemma {:induction false} CountLandIsLandPositions(ndval: int, s: seq<int>)
    ensures CountLand(ndval, s) == |LandPositions(ndval, s)|
  {
    if s != [] {
      var n := |s| - 1;
      CountLandIsLandPositions(ndval, s[..n]);
      var prev := LandPositions(ndval, s[..n]);
      if Class(ndval, s[n]) == 0 {
        assert LandPositions(ndval, s) == prev + {n};
      } else {
        assert LandPositions(ndval, s) == prev;
      }
    }
  }

  /** The running maximum of `start` and the values, updated left to right
      with a strict `>` as the loader does. */
  function MaxElev(start: int, s: seq<int>): (m: int)
    ensures m >= start
    ensures forall k :: 0 <= k < |s| ==> s[k] <= m
    ensures m == start || exists k :: 0 <= k < |s| && s[k] == m
  {
    if s == [] then start
    else
      var prev := MaxElev(start, s[..|s| - 1]);
      if s[|s| - 1] > prev then s[|s| - 1] else prev
  }

  /** The value moveToFile writes for one cell of elevation `elev` whose tag
      or flood level is `tag`, when the grid is exported at height `h`. */
  function ExportValue(elev: int, tag: int, h: int): (v: int)
    ensures v == elev - h || v == 0
    ensures tag == 0 || tag >= h ==> v == elev - h
    ensures tag != 0 && tag < h ==> v == 0
  {
    if tag >= h || tag == 0 then elev - h else 0
  }

  /** Exported at a non-negative height, a cell that is still dry (tag 0)
      writes its elevation minus the height, and an ocean-like cell (-1) or
      a cell flooded at a level below the height writes 0. */
  lemma ExportAtHeight(elev: int, tag: int, h: int)
    requires h >= 0
    requires tag == -1 || tag == 0 || 0 < tag < h
    ensures ExportValue(elev, tag, h) == if tag == 0 then elev - h else 0
  {
  }
}
