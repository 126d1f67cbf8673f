/**
 What the form screens share: the alert dialog a submit handler raises, the
 verdict of its ordered chain of checks, and the alert texts that more than
 one screen uses word for word.
 */
module Forms {

  /** An `Alert.alert(title, message)` dialog. */
  datatype Alert = Alert(title: string, message: string)

  /** The outcome of a submit handler: the first check that failed, or
      acceptance. */
  datatype Verdict<+E> = Accepted | Rejected(error: E)

  /** What a submit leaves behind: the dialog shown and the next state of the
      screen (after the dialog's OK button when it was accepted). */
  datatype Submitted<S> = Submitted(alert: Alert, next: S)

  const AttentionTitle: string := "Atenção"

  /** The submit-time alert when the phone does not hold eleven digits. */
  const PhoneDigitsAlert: Alert :=
    Alert(AttentionTitle, "O telefone deve conter 11 dígitos (DDD + número). Ex: 41999999999")
}
