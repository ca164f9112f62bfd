/**
 * The enumerations shared by the game engine and its clients (mafia/common.py):
 * the two phases, the three roles with their wire codes, the three outcomes of
 * the win check, and the display name of a role code.
 */
module Common {

  /** Phase.DAY and Phase.NIGHT (False and True in the source). */
  datatype Phase = Day | Night

  /** The role codes CIVILIAN = 0, MAFIA = 1, COMMISSAR = 2. */
  datatype Role = Civilian | Mafia | Commissar

  /** Winner.NONE, Winner.CIVILIANS and Winner.MAFIA (None, False and True in the source). */
  datatype Winner = NoWinner | CiviliansWin | MafiaWin

  const CIVILIAN: int := 0
  const MAFIA: int := 1
  const COMMISSAR: int := 2

  /** The other phase: the game alternates between exactly these two. */
  function Toggle(p: Phase): (q: Phase)
    ensures q != p
  {
    if p == Day then Night else Day
  }

  /** The integer code a role travels as. */
  function RoleCode(r: Role): (code: int)
    ensures 0 <= code <= 2
  {
    match r
    case Civilian => CIVILIAN
    case Mafia => MAFIA
    case Commissar => COMMISSAR
  }

  /**
   * get_role_name: the display name of a role code. Any other code trips the
   * source's assertion, hence the precondition.
   */
  function RoleName(code: int): (name: string)
    requires CIVILIAN <= code <= COMMISSAR
    ensures code == CIVILIAN <==> name == "civilian"
    ensures code == MAFIA <==> name == "mafia"
    ensures code == COMMISSAR <==> name == "commissar"
  {
    if code == CIVILIAN then "civilian"
    else if code == MAFIA then "mafia"
    else "commissar"
  }
}
