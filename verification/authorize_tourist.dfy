/** The middleware that lets only tourists through. */
module AuthorizeTourist {

  import opened Common

  /** `authorizeTourist`: 401 without a user, 403 for any other role, and
      `next()` for a tourist. The missing-user check comes first. */
  function Authorize(user: Option<User>): (g: Gate)
    ensures g == Unauthorized <==> user.None?
    ensures g == Forbidden <==> user.Some? && user.value.role != Tourist
    ensures g == Next <==> HasRole(user, Tourist)
  {
    if user.None? then Unauthorized
    else if user.value.role != Tourist then Forbidden
    else Next
  }

  /** The status sent when the request is refused; none when it is passed on. */
  function Status(g: Gate): (r: Option<int>)
    ensures r.None? <==> g == Next
    ensures r == Some(401) <==> g == Unauthorized
    ensures r == Some(403) <==> g == Forbidden
  {
    match g
    case Unauthorized => Some(401)
    case Forbidden => Some(403)
    case Next => None
  }
}
