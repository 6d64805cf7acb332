/** The login form's submit handler: a guard on the typed fields that picks
    the arguments of a single `login` call. */
module Login {
  import opened Common
  import Auth

  /** The arguments handed to `login`. */
  datatype LoginRequest = LoginRequest(role: Role, name: string, roll: Option<string>)

  /** `handleLogin`: `login(role, name, role === 'student' ? rollNumber : undefined)`
      when the name is filled in and either the role is teacher or a roll number
      was typed; otherwise nothing. The form is only shown once a role has been
      chosen, so `role` is never null here. */
  function LoginArgs(role: Role, name: string, rollNumber: string): (r: Option<LoginRequest>)
    ensures r.Some? <==> name != "" && (role == Teacher || rollNumber != "")
    ensures r.Some? ==> r.value.role == role && r.value.name == name
    ensures r.Some? && role == Teacher ==> r.value.roll.None?
    ensures r.Some? && role == Student ==> r.value.roll == Some(rollNumber)
  {
    if name != "" && (role == Teacher || rollNumber != "") then
      Some(LoginRequest(role, name, if role == Student then Some(rollNumber) else None))
    else None
  }

  /** A student who gets past the guard always carries a non-empty roll number. */
  lemma StudentLoginHasRoll(name: string, rollNumber: string)
    requires LoginArgs(Student, name, rollNumber).Some?
    ensures LoginArgs(Student, name, rollNumber).value.roll.Some?
    ensures LoginArgs(Student, name, rollNumber).value.roll.value != ""
  {
  }

  /** Submitting the form: either one `login` call with the selected arguments,
      or no change at all. */
  method HandleLogin(auth: Auth.AuthProvider, role: Role, name: string, rollNumber: string, id: string)
    returns (loggedIn: bool)
    modifies auth
    ensures loggedIn <==> LoginArgs(role, name, rollNumber).Some?
    ensures loggedIn ==>
      var a := LoginArgs(role, name, rollNumber).value;
      auth.State() == Auth.LoginStep(old(auth.State()), id, a.role, a.name, a.roll)
    ensures !loggedIn ==> auth.State() == old(auth.State())
  {
    var args := LoginArgs(role, name, rollNumber);
    loggedIn := args.Some?;
    if loggedIn {
      auth.Login(id, args.value.role, args.value.name, args.value.roll);
    }
  }
}
