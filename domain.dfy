/** Values shared by every service of the social-network backend: the error
    codes the services raise, the outcome types that carry them, the user
    record and the alarm vocabulary. */
module Domain {

  /** The error codes the services raise (a service method either returns
      normally or throws one of these wrapped in an application exception). */
  datatype ErrorCode =
    | DuplicatedUserName
    | UserNotFound
    | InvalidPassword
    | PostNotFound
    | InvalidPermission
    | AlreadyLiked
    | AlarmConnectError

  datatype Option<+T> = None | Some(value: T)

  /** The result of an operation that returns a value or throws. */
  datatype Result<+T> = Ok(value: T) | Err(code: ErrorCode)

  /** The result of an operation that returns nothing or throws. */
  datatype Outcome = Pass | Fail(code: ErrorCode)

  /** A user as stored in the user table and in the user cache: the identity
      column, the unique user name and the encoded password. */
  datatype User = User(id: int, userName: string, password: string)

  /** The kinds of alarm the services raise. */
  datatype AlarmType = NewLikeOnPost | NewCommentOnPost

  /** The payload of an alarm: who caused it and where (a post id). */
  datatype AlarmArgs = AlarmArgs(fromUserId: int, targetId: int)

  /** The password encoder and its check, kept abstract: whatever functions the
      encoder implements are passed in. */
  datatype Encoder = Encoder(encode: string -> string, matches: (string, string) -> bool)

  /** One decimal digit. */
  function Digit(d: nat): (c: char)
    requires d < 10
    ensures '0' <= c <= '9'
    ensures c as int - '0' as int == d
  {
    "0123456789"[d]
  }

  /** The decimal rendering of a non-negative number, as `Integer.toString`
      produces it for a non-negative identity value. */
  function NatToString(n: nat): (s: string)
    ensures |s| >= 1
    ensures forall i :: 0 <= i < |s| ==> '0' <= s[i] <= '9'
    ensures n == 0 ==> s == "0"
    ensures n > 0 ==> s[0] != '0'
  {
    if n < 10 then [Digit(n)] else NatToString(n / 10) + [Digit(n % 10)]
  }

  /** Reads a string of decimal digits back as a number. */
  function ParseDecimal(s: string): nat
    requires forall i :: 0 <= i < |s| ==> '0' <= s[i] <= '9'
  {
    if s == [] then 0
    else ParseDecimal(s[..|s| - 1]) * 10 + (s[|s| - 1] as int - '0' as int)
  }

  /** Reading back the rendering gives the number: the rendering loses nothing. */
  lemma {:induction false} ParseNatToString(n: nat)
    ensures ParseDecimal(NatToString(n)) == n
  {
    var s := NatToString(n);
    if n >= 10 {
      ParseNatToString(n / 10);
      assert s[..|s| - 1] == NatToString(n / 10);
    }
  }

  /** Distinct numbers render as distinct strings. */
  lemma NatToStringInjective(m: nat, n: nat)
    requires m != n
    ensures NatToString(m) != NatToString(n)
  {
    ParseNatToString(m);
    ParseNatToString(n);
  }
}
