/**
 * The user snapshot read back from `userData` and the display fallbacks the
 * header, course, profile and configuration pages derive from it.
 * A missing field and an empty one are both falsy, so both are "".
 */
module UserDisplay {
  import opened Text
  import opened Wrappers

  datatype UserData = UserData(nombre: string, apellido: string, email: string, id: Option<int>)

  const NoEmail: string := "sin correo registrado"

  /**
   * `getUserFullName` (identical in Header, Course, MyProfile and
   * Configuration): "nombre apellido", else nombre, else the part of the
   * email before the first '@', else "Usuario".
   */
  function FullName(u: UserData): (r: string)
    ensures u.nombre != "" && u.apellido != "" ==> r == u.nombre + " " + u.apellido
    ensures u.nombre != "" && u.apellido == "" ==> r == u.nombre
    ensures u.nombre == "" && u.email != "" ==>
      r <= u.email && '@' !in r && (|r| < |u.email| ==> u.email[|r|] == '@')
    ensures u.nombre == "" && u.email == "" ==> r == "Usuario"
  {
    if u.nombre != "" && u.apellido != "" then u.nombre + " " + u.apellido
    else if u.nombre != "" then u.nombre
    else if u.email != "" then BeforeFirst(u.email, '@')
    else "Usuario"
  }

  /** The shown name is empty exactly when only an email is known and it starts with '@'. */
  lemma FullNameEmptyIff(u: UserData)
    ensures FullName(u) == "" <==> (u.nombre == "" && u.email != "" && u.email[0] == '@')
  {
    if u.nombre == "" && u.email != "" && u.email[0] != '@' {
      assert FullName(u)[0] == u.email[0];
    }
  }

  /** `getUserEmail` in Header and Configuration: the email, or a placeholder. */
  function ShownEmail(u: UserData): (r: string)
    ensures r != ""
    ensures u.email != "" ==> r == u.email
  {
    if u.email != "" then u.email else NoEmail
  }

  /** `getUserEmail` in MyProfile: the email, or nothing. */
  function ProfileEmail(u: UserData): (r: string)
    ensures r == u.email
  {
    if u.email != "" then u.email else ""
  }

  /** `getUserInitial` in Configuration: first character of nombre, else of email, else "U". */
  function Initial(u: UserData): (r: string)
    ensures |r| == 1
    ensures u.nombre != "" ==> r[0] == u.nombre[0]
    ensures u.nombre == "" && u.email != "" ==> r[0] == u.email[0]
    ensures u.nombre == "" && u.email == "" ==> r == "U"
  {
    if u.nombre != "" then [u.nombre[0]]
    else if u.email != "" then [u.email[0]]
    else "U"
  }

  /** `getUserInitial` in MyProfile: the same choice, upper-cased. */
  function InitialUpper(u: UserData): (r: string)
    ensures |r| == 1 && !('a' <= r[0] <= 'z')
  {
    if u.nombre != "" then [UpperChar(u.nombre[0])]
    else if u.email != "" then [UpperChar(u.email[0])]
    else "U"
  }

  /** The two initials differ only by case. */
  lemma InitialsAgree(u: UserData)
    ensures InitialUpper(u) == [UpperChar(Initial(u)[0])]
  {
  }

  /** The avatar initial is the first letter of the shown name whenever the name is not the placeholder. */
  lemma InitialStartsName(u: UserData)
    requires u.nombre != "" || (u.email != "" && u.email[0] != '@')
    ensures |FullName(u)| > 0 && Initial(u)[0] == FullName(u)[0]
  {
    if u.nombre == "" {
      assert FullName(u)[0] == u.email[0];
    }
  }
}
