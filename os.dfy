/** The process environment, as seen through Go's `os.Getenv`. */
module Os {

  /** `os.Getenv(key)`: the value of the variable, or the empty string when
      the variable is not set. The environment is a finite map. */
  function Getenv(env: map<string, string>, key: string): (v: string)
    ensures key !in env ==> v == ""
    ensures key in env ==> v == env[key]
  {
    if key in env then env[key] else ""
  }
}
