/**
 * The parsed URL of Go's net/url package. Its parser is not modelled: every
 * component that parses takes it as a parameter, a partial function from
 * text to URL.
 */
module NetUrl {
  import opened GoErrors

  /** The url.URL components this model distinguishes. */
  datatype Url = Url(scheme: string, host: string, path: string)

  /** url.Parse: None where Go returns a non-nil error. */
  type Parser = string -> Option<Url>

  /** An ASCII control character, which url.Parse refuses anywhere in its input. */
  predicate IsControl(c: char)
  {
    c as int < 0x20 || c as int == 0x7f
  }

  /** The one failure of url.Parse that the model relies on: a control character makes it fail. */
  ghost predicate RejectsControlChars(parse: Parser)
  {
    forall s: string, i: int :: 0 <= i < |s| && IsControl(s[i]) ==> parse(s).None?
  }
}
