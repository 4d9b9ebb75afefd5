/** Vocabulary shared by the backend controllers and the frontend pages:
    optional values, identifiers, user roles, and the fact that the database
    can always hand out an identifier that is not yet in use. */
module Common {

  datatype Option<+T> = None | Some(value: T)

  /** Database identifiers; the database generates them as strings. */
  type Id = string

  /** The two kinds of account. */
  datatype Role = Tourist | Tutor

  /** The authenticated user that the authentication middleware attaches to a
      request (`req.user`); a request without one is modelled as `None`. */
  datatype User = User(id: Id, role: Role)

  /** The gate every controller writes inline as
      `if (!req.user || req.user.role !== ROLE) return 403`. */
  predicate HasRole(caller: Option<User>, role: Role)
  {
    caller.Some? && caller.value.role == role
  }

  /** The outcome of a role-checking middleware: refuse with 401, refuse
      with 403, or pass the request on to the handler (`next()`). */
  datatype Gate = Unauthorized | Forbidden | Next

  /** The length of the longest identifier in `ids`. */
  ghost function MaxLength(ids: set<Id>): (n: nat)
    ensures forall s :: s in ids ==> |s| <= n
  {
    if ids == {} then 0
    else
      var x :| x in ids;
      var m := MaxLength(ids - {x});
      if |x| > m then |x| else m
  }

  /** Every finite table leaves some identifier unused, so the database's
      identifier generator always has a fresh one to give. */
  lemma FreshIdExists(ids: set<Id>)
    ensures exists s: Id :: s !in ids
  {
    var s: Id := seq(MaxLength(ids) + 1, _ => 'x');
    assert |s| > MaxLength(ids);
    assert s !in ids;
  }

  /** No element occurs twice. */
  predicate Distinct<T(==)>(s: seq<T>)
  {
    forall i, j :: 0 <= i < j < |s| ==> s[i] != s[j]
  }

  /** `ids` are pairwise distinct and none of them is already taken. */
  predicate FreshIds(ids: seq<Id>, used: set<Id>)
  {
    Distinct(ids) && forall i :: 0 <= i < |ids| ==> ids[i] !in used
  }

  /** The identifiers the database generates for `n` rows inserted at once. */
  method FreshKeys(used: set<Id>, n: nat) returns (ids: seq<Id>)
    ensures |ids| == n && FreshIds(ids, used)
  {
    ids := [];
    var taken := used;
    while |ids| < n
      invariant |ids| <= n && FreshIds(ids, used)
      invariant forall x :: x in taken <==> x in used || x in ids
    {
      FreshIdExists(taken);
      var k :| k !in taken;
      ids := ids + [k];
      taken := taken + {k};
    }
  }
}
