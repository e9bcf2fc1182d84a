/** One cell of a generated floor: the tile record and its theme enumeration. */
module Tiles {

  /** The decorative categories of a cell. None marks corridors and cells no room has themed. */
  datatype RoomTheme = None | Library | Prison | Cave | Generic

  /** The number of enumerators of RoomTheme. */
  const ThemeCount: nat := 5

  /** The enumerators in declaration order. */
  const AllThemes: seq<RoomTheme> := [None, Library, Prison, Cave, Generic]

  /** The underlying value of an enumerator: the enumeration numbers its members from 0 in order. */
  function Ordinal(t: RoomTheme): (n: nat)
    ensures n < ThemeCount
  {
    match t
    case None => 0
    case Library => 1
    case Prison => 2
    case Cave => 3
    case Generic => 4
  }

  /** The enumerator with a given underlying value. */
  function FromOrdinal(n: nat): (t: RoomTheme)
    requires n < ThemeCount
    ensures Ordinal(t) == n
  {
    if n == 0 then None
    else if n == 1 then Library
    else if n == 2 then Prison
    else if n == 3 then Cave
    else Generic
  }

  /** Underlying values and enumerators are in one-to-one correspondence. */
  lemma OrdinalRoundTrip(t: RoomTheme)
    ensures FromOrdinal(Ordinal(t)) == t
  {
  }

  /** The enumeration has exactly five members, each listed once in AllThemes at its own value,
      and the default one, None, has value 0. */
  lemma ExactlyFiveThemes()
    ensures |AllThemes| == ThemeCount
    ensures forall t :: AllThemes[Ordinal(t)] == t
    ensures forall i, j :: 0 <= i < j < |AllThemes| ==> AllThemes[i] != AllThemes[j]
    ensures Ordinal(None) == 0
  {
  }

  /** A grid cell. Both properties are read and written freely by the generator. */
  class Tile {
    var IsWall: bool
    var Theme: RoomTheme

    /** A new tile with the given wall flag; its theme always starts as None. */
    constructor (isWall: bool)
      ensures IsWall == isWall && Theme == None
    {
      IsWall := isWall;
      Theme := None;
    }

    /** The IsWall setter: the theme is left as it was. */
    method SetIsWall(isWall: bool)
      modifies this
      ensures IsWall == isWall && Theme == old(Theme)
    {
      IsWall := isWall;
    }

    /** The Theme setter: the wall flag is left as it was. */
    method SetTheme(theme: RoomTheme)
      modifies this
      ensures Theme == theme && IsWall == old(IsWall)
    {
      Theme := theme;
    }
  }
}
