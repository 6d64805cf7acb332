/** Shared vocabulary of the portal: optional values, the two roles and the
    session user that every screen consults. */
module Common {

  /** A value that may be absent (`undefined` / `null` in the screens). */
  datatype Option<T> = None | Some(value: T) {
    /** `x || d` on an optional string-like value: the value if present, else `d`. */
    function GetOr(default: T): (r: T)
      ensures Some? ==> r == value
      ensures None? ==> r == default
    {
      match this
      case Some(v) => v
      case None => default
    }
  }

  /** The outcome of an operation that can throw: a value, or the error message. */
  datatype Result<T> = Ok(value: T) | Err(message: string)

  /** The two roles; nothing else can log in. */
  datatype Role = Teacher | Student

  /** The logged-in person. `id` is a token chosen at login. */
  datatype User = User(id: string, role: Role, name: string, rollNumber: Option<string>)

  /** `user?.role === 'teacher'`: false when nobody is logged in, and for a
      logged-in user exactly when the role is teacher. */
  function IsTeacher(user: Option<User>): (b: bool)
    ensures user.None? ==> !b
    ensures user.Some? ==> (b <==> user.value.role != Student)
  {
    user.Some? && user.value.role == Teacher
  }

  /** `user?.rollNumber`. */
  function RollOf(user: Option<User>): (r: Option<string>)
    ensures user.None? ==> r.None?
    ensures user.Some? ==> r == user.value.rollNumber
  {
    if user.Some? then user.value.rollNumber else None
  }

  /** `user?.rollNumber` seen as a truthy string: a user is logged in and
      carries a roll number other than "". */
  function HasRoll(user: Option<User>): (b: bool)
    ensures b <==> user.Some? && user.value.rollNumber.Some? && user.value.rollNumber.value != ""
  {
    RollOf(user).Some? && RollOf(user).value != ""
  }

  /** `user?.name || 'Unknown'`: the contributor name stamped on new records. */
  function ContributorName(user: Option<User>): (r: string)
    ensures r != ""
    ensures user.Some? && user.value.name != "" ==> r == user.value.name
    ensures (user.None? || user.value.name == "") ==> r == "Unknown"
  {
    if user.Some? && user.value.name != "" then user.value.name else "Unknown"
  }
}
