/**
 * Reading the request's query string and the two small parsers of
 * internal/handlers/chat_summary.go.
 */
module QueryParams {
  import opened Wrappers
  import opened Models

  /** A parsed query string (net/url Values): each key maps to its values in order. */
  type Query = map<string, seq<string>>

  /** Values.Get: the first value for the key, or "" when there is none. */
  function QueryGet(q: Query, key: string): (v: string)
    ensures key !in q || q[key] == [] ==> v == ""
    ensures key in q && q[key] != [] ==> v == q[key][0]
  {
    if key in q && |q[key]| > 0 then q[key][0] else ""
  }

  /** A value together with Go's "ok" flag. */
  datatype Parsed<T> = Parsed(value: T, ok: bool)

  /** The spellings accepted as true and as false; matching is exact and case-sensitive. */
  const TrueWords: set<string> := {"1", "true", "TRUE", "yes", "YES", "y", "Y"}
  const FalseWords: set<string> := {"0", "false", "FALSE", "no", "NO", "n", "N"}

  function ParseBool(s: string): (r: Parsed<bool>)
    ensures r.ok <==> s in TrueWords + FalseWords
    ensures r.value <==> s in TrueWords
    ensures s == "" ==> r == Parsed(false, false)
  {
    if s == "" then Parsed(false, false)
    else if s == "1" || s == "true" || s == "TRUE" || s == "yes" || s == "YES" || s == "y" || s == "Y" then
      Parsed(true, true)
    else if s == "0" || s == "false" || s == "FALSE" || s == "no" || s == "NO" || s == "n" || s == "N" then
      Parsed(false, true)
    else Parsed(false, false)
  }

  /** time.ParseDuration, whose grammar is not part of this model: None stands for a non-nil error. */
  type DurationParser = string -> Option<Duration>

  function ParseDuration(s: string, lib: DurationParser): (r: Parsed<Duration>)
    ensures r.ok <==> s != "" && lib(s).Some?
    ensures r.ok ==> r.value == lib(s).value
    ensures !r.ok ==> r.value == 0
  {
    if s == "" then Parsed(0, false)
    else match lib(s)
      case None => Parsed(0, false)
      case Some(d) => Parsed(d, true)
  }
}
