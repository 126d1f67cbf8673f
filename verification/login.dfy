/**
 The login screen (src/screens/Login.tsx): e-mail and password, with no
 check beyond both being filled in.
 */
module Login {
  import opened Forms

  datatype Form = Form(email: string, password: string)

  const Initial: Form := Form("", "")

  datatype Field = Email | Password

  function Get(f: Form, k: Field): string {
    match k
    case Email => f.email
    case Password => f.password
  }

  /** `handleInputChange(field, value)`: the named field takes the value,
      the other keeps its own. */
  function InputChange(f: Form, k: Field, value: string): (r: Form)
    ensures Get(r, k) == value
    ensures forall k' :: k' != k ==> Get(r, k') == Get(f, k')
  {
    match k
    case Email => f.(email := value)
    case Password => f.(password := value)
  }

  datatype Error = MissingField

  /** The single check of `handleLogin`. */
  function Validate(f: Form): (r: Verdict<Error>)
    ensures r == Accepted <==> f.email != "" && f.password != ""
  {
    if f.email == "" || f.password == "" then Rejected(MissingField) else Accepted
  }

  const MissingFieldAlert: Alert := Alert(AttentionTitle, "Por favor, preencha todos os campos.")

  const WelcomeAlert: Alert := Alert("Login realizado!", "Bem-vindo de volta!")

  /** `handleLogin`: an incomplete form stays as it is; a complete one is
      welcomed and, once the dialog is confirmed, both fields are emptied. */
  function Submit(f: Form): (r: Submitted<Form>)
    ensures f.email == "" || f.password == "" ==> r == Submitted(MissingFieldAlert, f)
    ensures f.email != "" && f.password != "" ==> r == Submitted(WelcomeAlert, Initial)
  {
    if Validate(f).Rejected? then Submitted(MissingFieldAlert, f) else Submitted(WelcomeAlert, Initial)
  }

  /** Any two non-empty strings log in: the credentials are not checked
      against anything. */
  lemma AnyCredentialsAccepted(email: string, password: string)
    requires email != "" && password != ""
    ensures Submit(InputChange(InputChange(Initial, Email, email), Password, password)).next == Initial
  {
  }
}
