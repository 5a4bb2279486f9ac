/** The toast notifications the two wallet screens raise: the only place the
    model sees the message a handler surfaces to the user. */
module Notice {

  datatype Toast = Toast(title: string, description: string, destructive: bool)

  /** `toast({ title: "Error", description: message, variant: "destructive" })`. */
  function ErrorToast(message: string): Toast
  {
    Toast("Error", message, true)
  }
}
