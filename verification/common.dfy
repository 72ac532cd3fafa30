/**
 * Vocabulary shared by every CRUD module: the requesting user, the user
 * groups, the exceptions the CRUD layer raises and the result wrappers.
 */
module Common {

  datatype Option<T> = None | Some(value: T)

  /** `UserGroupEnum`: the group of the account behind a user profile. */
  datatype Role = UserRole | ModeratorRole | AdminRole

  /**
   * The check `user_profile.user.user_group.name == UserGroupEnum.user`
   * that every guarded operation makes: only the plain "USER" group is the
   * base role, moderators and admins are privileged.
   */
  predicate IsBaseRole(r: Role)
  {
    r == UserRole
  }

  /** The value of `user_group.name` for each group. */
  function RoleName(r: Role): string
  {
    match r
    case UserRole => "USER"
    case ModeratorRole => "MODERATOR"
    case AdminRole => "ADMIN"
  }

  /** The caller of a CRUD function: its user profile id and its group. */
  datatype Requester = Requester(profileId: nat, role: Role)

  /** The exceptions of `app/utils/exceptions.py`, plus the two generic outcomes. */
  datatype Error =
    | MovieNotFound
    | CommentNotFound
    | UserDontHavePermission
    | SomethingWentWrong
    | MovieAlreadyIsPurchasedOrInCart
    | CartNotExist
    | OrderDoesNotExist
      /** A FastAPI `HTTPException` raised by an endpoint. */
    | HttpError(status: nat, detail: string)
      /**
       * An exception the code does not handle for this input: an attribute
       * read on a row that a query did not find, or a constraint violation
       * reported by the database at commit.
       */
    | InternalError

  datatype Result<T> = Ok(value: T) | Err(error: Error)
}

/** Text matching used by the search filters. */
module Text {

  /** ASCII lower-casing of one character. */
  function LowerChar(c: char): (r: char)
    ensures 'A' <= c <= 'Z' ==> r as int == c as int + 32
    ensures !('A' <= c <= 'Z') ==> r == c
  {
    if 'A' <= c <= 'Z' then (c as int + 32) as char else c
  }

  function Lower(s: string): (r: string)
    ensures |r| == |s|
    ensures forall i | 0 <= i < |s| :: r[i] == LowerChar(s[i])
  {
    seq(|s|, i requires 0 <= i < |s| => LowerChar(s[i]))
  }

  /** `needle` occurs as a contiguous piece of `hay`: SQL `LIKE '%needle%'`. */
  predicate Contains(hay: string, needle: string)
  {
    needle <= hay || (hay != [] && Contains(hay[1..], needle))
  }

  /** A needle longer than the haystack never occurs in it. */
  lemma {:induction false} LongerNeverContained(hay: string, needle: string)
    requires |needle| > |hay|
    ensures !Contains(hay, needle)
  {
    if hay != [] {
      LongerNeverContained(hay[1..], needle);
    }
  }

  /** SQL `ILIKE '%needle%'` (case folded on ASCII letters only). */
  predicate ContainsIgnoreCase(hay: string, needle: string)
  {
    Contains(Lower(hay), Lower(needle))
  }
}
