/** Names shared by the planner, the head and the program compiler. */
module Roles {
  /** The part one vehicle plays in a case. */
  type RoleId = string
}
