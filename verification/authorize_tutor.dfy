/** The middleware that lets only tutors through. */
module AuthorizeTutor {

  import opened Common
  import AuthorizeTourist

  /** `authorizeTutor`: 401 without a user, 403 for any other role, and
      `next()` for a tutor. */
  function Authorize(user: Option<User>): (g: Gate)
    ensures g == Unauthorized <==> user.None?
    ensures g == Forbidden <==> user.Some? && user.value.role != Tutor
    ensures g == Next <==> HasRole(user, Tutor)
  {
    if user.None? then Unauthorized
    else if user.value.role != Tutor then Forbidden
    else Next
  }

  /** No user passes both gates, and every authenticated user passes exactly one. */
  lemma GatesPartitionUsers(user: Option<User>)
    ensures !(Authorize(user) == Next && AuthorizeTourist.Authorize(user) == Next)
    ensures user.Some? ==> (Authorize(user) == Next) != (AuthorizeTourist.Authorize(user) == Next)
    ensures user.None? ==> Authorize(user) == AuthorizeTourist.Authorize(user) == Unauthorized
  {
  }
}
