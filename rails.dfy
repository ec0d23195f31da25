/** Vocabulary shared by the whole model: Ruby's nil as an Option, the
    ActiveRecord exceptions the core can raise, and Rails' notion of a blank
    string. */
module Rails {

  /** Primary keys of both tables (bigserial ids). */
  type Id = int

  /** A value of Time.current. Only its being non-null matters here. */
  type Time = nat

  /** A Ruby value that may be nil. */
  datatype Option<+T> = None | Some(value: T)

  /** The exceptions of ActiveRecord that the core raises or rescues. */
  datatype Exception =
    | RecordNotUnique     // a unique index refused the statement
    | InvalidForeignKey   // a foreign key refused the statement
    | NotNullViolation    // a NOT NULL column refused the statement
    | RecordInvalid       // save! or create! on a record that fails validation
    | RecordNotFound      // find_by! or reload found no row
    | NoMethodError       // a method called on nil, such as the name of a missing bearer

  /** A call that returns a value or raises. */
  datatype Result<+T> = Ok(value: T) | Err(error: Exception)

  /** A call that returns a boolean or raises: save, save!, destroy, valid? */
  datatype Outcome = Returned(value: bool) | Raised(exception: Exception)

  /** The characters Ruby's [[:space:]] matches: ASCII and Unicode white space. */
  predicate IsSpace(c: char)
  {
    || c == ' ' || ('\t' <= c <= '\r')
    || c == '\U{85}' || c == '\U{A0}' || c == '\U{1680}'
    || ('\U{2000}' <= c <= '\U{200A}')
    || c == '\U{2028}' || c == '\U{2029}' || c == '\U{202F}' || c == '\U{205F}' || c == '\U{3000}'
  }

  /** Object#blank? on a string attribute: nil, empty, or white space only. */
  predicate Blank(s: Option<string>)
  {
    s.None? || forall i | 0 <= i < |s.value| :: IsSpace(s.value[i])
  }

  /** Object#present?, the negation of blank? */
  predicate Present(s: Option<string>)
  {
    !Blank(s)
  }
}
