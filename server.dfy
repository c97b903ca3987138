/**
 * The two pieces of configuration logic in the backend's entry point (backend/server.js):
 * the port fallback `process.env.PORT || 4000` and the CORS `origin` callback that admits
 * a request by the value of its `Origin` header (section 7 of RFC 6454) against a fixed
 * two-entry allow-list. Everything else in that file is Express wiring and is not modelled.
 */
module Server {
  import opened Wrappers

  /** JavaScript truthiness of a value that is either `undefined` or a string: only `undefined` and `""` are falsy. */
  predicate Truthy(v: Option<string>) {
    v.Some? && v.value != ""
  }

  // ---------------------------------------------------------------- port

  const DefaultPort: int := 4000

  /** `process.env.PORT || 4000` evaluates to the environment's string itself or to the number 4000. */
  datatype PortSetting = FromEnv(text: string) | Default(number: int)

  /** The port the server listens on, given the `PORT` environment variable (None when unset). */
  function Port(env: Option<string>): (port: PortSetting)
    ensures port.FromEnv? <==> env.Some? && env.value != ""
    ensures port.FromEnv? ==> port.text == env.value
    ensures port.Default? ==> port.number == 4000
  {
    if Truthy(env) then FromEnv(env.value) else Default(DefaultPort)
  }

  /** The fallback is taken for an unset and for an empty variable alike, and "0" is kept as given (it is a truthy string). */
  lemma PortFallbackCases()
    ensures Port(None) == Default(4000) && Port(Some("")) == Default(4000)
    ensures Port(Some("0")) == FromEnv("0") && Port(Some("8080")) == FromEnv("8080")
  {
  }

  // ---------------------------------------------------------------- CORS origin check

  const ProductionOrigin: string := "https://mern-auth-by-kailash.vercel.app"
  const LocalOrigin: string := "http://localhost:5173"

  /** The allow-list, in the order the server declares it. */
  const AllowedOrigins: seq<string> := [ProductionOrigin, LocalOrigin]

  const CorsErrorMessage: string := "Not allowed by CORS"

  /** What the callback reports to the cors middleware: `callback(null, true)` or `callback(new Error(...))`. */
  datatype Verdict = Admit | Reject(message: string)

  /**
   * The `origin` callback. A request without an origin (`!origin`, which also catches the empty
   * string) is admitted, and so is an origin that is literally one of the listed strings;
   * every other origin is rejected with the error "Not allowed by CORS".
   */
  function CheckOrigin(origin: Option<string>): (verdict: Verdict)
    ensures verdict.Admit? <==>
      origin == None || origin == Some("") ||
      origin == Some("https://mern-auth-by-kailash.vercel.app") || origin == Some("http://localhost:5173")
    ensures verdict.Reject? ==> verdict.message == "Not allowed by CORS"
  {
    if !Truthy(origin) || origin.value in AllowedOrigins then Admit else Reject(CorsErrorMessage)
  }

  /** The admitted header values, listed independently of the allow-list: exactly four of them. */
  const AdmittedValues: set<Option<string>> :=
    {None, Some(""), Some("https://mern-auth-by-kailash.vercel.app"), Some("http://localhost:5173")}

  lemma CheckOriginAdmitsExactly(origin: Option<string>)
    ensures CheckOrigin(origin).Admit? <==> origin in AdmittedValues
    ensures |AdmittedValues| == 4
  {
  }

  /** Matching is exact string membership: no case folding, no trailing-slash or prefix tolerance. */
  lemma CheckOriginIsExact()
    ensures CheckOrigin(Some("https://mern-auth-by-kailash.vercel.app/")) == Reject("Not allowed by CORS")
    ensures CheckOrigin(Some("HTTP://LOCALHOST:5173")) == Reject("Not allowed by CORS")
    ensures CheckOrigin(Some("http://localhost")) == Reject("Not allowed by CORS")
    ensures CheckOrigin(Some("http://localhost:5173.evil.example")) == Reject("Not allowed by CORS")
  {
  }
}
