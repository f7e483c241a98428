/** Values shared by the whole model: Ruby's `nil` as an Option, and
    ActiveSupport's `blank?` / `present?` on strings, restricted to ASCII
    whitespace. */
module Support {

  /** A possibly-nil Ruby value. */
  datatype Option<+T> = None | Some(value: T) {
    /** `x || default` for a value that is nil or not. */
    function GetOr(default: T): T {
      match this
      case Some(v) => v
      case None => default
    }
  }

  /** ASCII whitespace: space, tab, line feed, vertical tab, form feed, carriage return. */
  predicate IsSpace(c: char) {
    c == ' ' || ('\t' <= c <= '\r')
  }

  /** `s.blank?` for a String: empty or whitespace only. */
  predicate IsBlankString(s: string) {
    forall i :: 0 <= i < |s| ==> IsSpace(s[i])
  }

  /** `o.blank?` for a value that is nil or a String. */
  predicate Blank(o: Option<string>) {
    o.None? || IsBlankString(o.value)
  }

  /** `o.present?`, the negation of `blank?`. */
  predicate Present(o: Option<string>) {
    !Blank(o)
  }

  /** Regrouping a concatenation with something appended at its end. */
  lemma SnocRegroup<T>(xy: seq<T>, x: seq<T>, y: seq<T>, last: seq<T>)
    requires xy == x + y
    ensures xy + last == x + (y + last)
  {
  }
}
