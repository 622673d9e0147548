/** The options of the Tile and Untile actions (openbox/actions/tile.c): the
    direction named by the action's `direction` node, NorthWest when there
    is none or when its text names no direction. */
module Tile {
  import opened Optional

  datatype Direction = North | NorthEast | East | SouthEast | South | SouthWest | West | NorthWest

  datatype Options = Options(dir: Direction)

  /** ASCII lower case, the only folding g_ascii_strcasecmp does. */
  function Lower(c: char): char
  {
    if 'A' <= c <= 'Z' then (c as int + 32) as char else c
  }

  /** `g_ascii_strcasecmp(s, t) == 0`. */
  predicate EqualFold(s: string, t: string)
  {
    |s| == |t| && forall i :: 0 <= i < |s| ==> Lower(s[i]) == Lower(t[i])
  }

  /** g_ascii_strcasecmp's loop over two NUL-terminated strings: the first
      difference of the lowered characters, or, once one string ends, the
      next character of the other (negated when it is the second's). */
  function CaseCmp(s: string, t: string): int
  {
    if |s| == 0 || |t| == 0 then
      (if |s| == 0 then 0 else s[0] as int) - (if |t| == 0 then 0 else t[0] as int)
    else if Lower(s[0]) != Lower(t[0]) then Lower(s[0]) as int - Lower(t[0]) as int
    else CaseCmp(s[1..], t[1..])
  }

  predicate NoNul(s: string)
  {
    forall i :: 0 <= i < |s| ==> s[i] != '\0'
  }

  /** For strings without a NUL, which is all a C string can hold, the
      comparison is zero exactly when the strings are equal up to ASCII
      case. */
  lemma {:induction false} CaseCmpZero(s: string, t: string)
    requires NoNul(s) && NoNul(t)
    ensures CaseCmp(s, t) == 0 <==> EqualFold(s, t)
  {
    if |s| == 0 || |t| == 0 {
    } else if Lower(s[0]) != Lower(t[0]) {
    } else {
      assert NoNul(s[1..]) && NoNul(t[1..]) by {
        forall i | 0 <= i < |s| - 1 ensures s[1..][i] != '\0' { assert s[1..][i] == s[i + 1]; }
        forall i | 0 <= i < |t| - 1 ensures t[1..][i] != '\0' { assert t[1..][i] == t[i + 1]; }
      }
      CaseCmpZero(s[1..], t[1..]);
      if EqualFold(s[1..], t[1..]) {
        forall i | 0 <= i < |s| ensures Lower(s[i]) == Lower(t[i]) {
          if i > 0 { assert s[1..][i - 1] == s[i] && t[1..][i - 1] == t[i]; }
        }
      }
      if EqualFold(s, t) {
        forall i | 0 <= i < |s| - 1 ensures Lower(s[1..][i]) == Lower(t[1..][i]) {
          assert s[1..][i] == s[i + 1] && t[1..][i] == t[i + 1];
        }
      }
    }
  }

  /** The full name of a direction, as its `direction` node spells it. */
  function Name(d: Direction): string
  {
    match d
    case North => "north"
    case NorthEast => "northeast"
    case East => "east"
    case SouthEast => "southeast"
    case South => "south"
    case SouthWest => "southwest"
    case West => "west"
    case NorthWest => "northwest"
  }

  /** Its abbreviation. */
  function Short(d: Direction): string
  {
    match d
    case North => "n"
    case NorthEast => "ne"
    case East => "e"
    case SouthEast => "se"
    case South => "s"
    case SouthWest => "sw"
    case West => "w"
    case NorthWest => "nw"
  }

  predicate Names(s: string, d: Direction)
  {
    EqualFold(s, Name(d)) || EqualFold(s, Short(d))
  }

  /** The direction chain: the first direction whose name or abbreviation
      the text matches, tried in the order of the source. */
  function Match(s: string): (r: Option<Direction>)
    ensures r.Some? ==> Names(s, r.value)
    ensures r.None? ==> forall d :: !Names(s, d)
  {
    if Names(s, North) then Some(North)
    else if Names(s, NorthEast) then Some(NorthEast)
    else if Names(s, East) then Some(East)
    else if Names(s, SouthEast) then Some(SouthEast)
    else if Names(s, South) then Some(South)
    else if Names(s, SouthWest) then Some(SouthWest)
    else if Names(s, West) then Some(West)
    else if Names(s, NorthWest) then Some(NorthWest)
    else None
  }

  /** setup_func, given the text of the `direction` node when there is one. */
  function Setup(direction: Option<string>): (o: Options)
    ensures direction.None? ==> o.dir == NorthWest
    ensures direction.Some? ==> Names(direction.value, o.dir) || o.dir == NorthWest
  {
    var dir := NorthWest;
    match direction
    case None => Options(dir)
    case Some(s) =>
      match Match(s)
      case Some(d) => Options(d)
      case None => Options(dir)
  }

  /** No text names two directions. */
  lemma NamesUnique(s: string, d: Direction, e: Direction)
    requires Names(s, d) && Names(s, e)
    ensures d == e
  {
    assert |s| > 0;
    assert Lower(s[0]) == Lower(Name(d)[0]) == Lower(Name(e)[0]);
    if |s| >= 2 {
      assert Lower(s[1]) == Lower(Name(d)[1]) || Lower(s[1]) == Lower(Short(d)[1]);
    }
    if |s| >= 6 && (d == NorthEast || d == NorthWest || d == SouthEast || d == SouthWest) {
      assert Lower(s[5]) == Name(d)[5] && Lower(s[5]) == Name(e)[5];
    }
  }

  /** Each name and each abbreviation, in any ASCII case, gives its
      direction; any other text gives NorthWest. */
  lemma SetupNamed(s: string, d: Direction)
    ensures Setup(Some(s)).dir == d <==> Names(s, d) || (d == NorthWest && forall e :: !Names(s, e))
  {
    if Setup(Some(s)).dir == d && Match(s).Some? {
      NamesUnique(s, d, Match(s).value);
    }
    if Names(s, d) {
      NamesUnique(s, d, Match(s).value);
    }
  }

  /** Texts that differ only in ASCII case give the same options. */
  lemma SetupFolds(s: string, t: string)
    requires EqualFold(s, t)
    ensures Setup(Some(s)) == Setup(Some(t))
  {
    NamesFold(s, t, North);
    NamesFold(s, t, NorthEast);
    NamesFold(s, t, East);
    NamesFold(s, t, SouthEast);
    NamesFold(s, t, South);
    NamesFold(s, t, SouthWest);
    NamesFold(s, t, West);
    NamesFold(s, t, NorthWest);
  }

  lemma NamesFold(s: string, t: string, d: Direction)
    requires EqualFold(s, t)
    ensures Names(s, d) <==> Names(t, d)
  {
    FoldSame(s, t, Name(d));
    FoldSame(s, t, Short(d));
  }

  /** Texts equal up to case match the same texts. */
  lemma FoldSame(s: string, t: string, u: string)
    requires EqualFold(s, t)
    ensures EqualFold(s, u) <==> EqualFold(t, u)
  {
  }

  datatype Action = Tile | Untile

  /** What actions_register records for an action: its name, its option
      parser and whether running it tiles or untiles. */
  datatype Registration = Registration(name: string, setup: Option<string> -> Options, tiles: bool)

  function Register(a: Action): (r: Registration)
    ensures r.tiles <==> a == Tile
  {
    match a
    case Tile => Registration("Tile", Setup, true)
    case Untile => Registration("Untile", Setup, false)
  }

  /** Tile and Untile read their options the same way. */
  lemma SharedSetup(node: Option<string>)
    ensures Register(Tile).setup(node) == Register(Untile).setup(node) == Setup(node)
  {
  }
}
