/** The listening port: the `PORT` environment variable, or 3000 when it is unset or empty. */
module Config {
  import opened JsValues

  const DefaultPort := 3000

  /** The port handed to `listen`: the variable's text as it is, or the number 3000. */
  datatype Port = PortText(text: string) | PortNumber(n: nat)

  /** `port == null || port == ""` picks the default; any other text, even one that is not
      a number, is kept unchanged. */
  function ChoosePort(env: Option<string>): (p: Port)
    ensures p == PortNumber(DefaultPort) <==> env == None || env == Some("")
    ensures p.PortText? <==> env.Some? && env.value != ""
    ensures p.PortText? ==> p.text == env.value
  {
    match env
    case None => PortNumber(DefaultPort)
    case Some(text) => if text == "" then PortNumber(DefaultPort) else PortText(text)
  }
}
