/** The role order of internal/auth. */
module Roles {
  datatype Role = Open | Unknown | Viewer | Editor | Admin

  function Rank(r: Role): int {
    match r
    case Open => -1
    case Unknown => 0
    case Viewer => 1
    case Editor => 2
    case Admin => 3
  }

  predicate AtLeast(r: Role, required: Role) {
    Rank(r) >= Rank(required)
  }

  /** The order of the roles: an unrestricted caller, then none known, viewer, editor and admin. */
  predicate NoLower(role: Role, least: Role) {
    match least
    case Open => true
    case Unknown => role != Open
    case Viewer => role in {Viewer, Editor, Admin}
    case Editor => role in {Editor, Admin}
    case Admin => role == Admin
  }

  lemma RanksInOrder(role: Role, least: Role)
    ensures AtLeast(role, least) <==> NoLower(role, least)
  {
  }
}
