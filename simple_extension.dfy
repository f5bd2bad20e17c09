/** Character classes of the earlier calculator (simple_interpreter/ExtensionMethod.cs). */
module SimpleExtension {
  import DotNetText
  import XssExtension

  /** Digits, ASCII letters, underscore, dollar and colon. */
  predicate IsIdent(c: char) {
    ('0' <= c <= '9') || ('A' <= c <= 'Z') || ('a' <= c <= 'z') || c == '_' || c == '$' || c == ':'
  }

  predicate IsNumeric(c: char) { '0' <= c <= '9' }

  predicate IsHexNumeric(c: char) { IsNumeric(c) || ('A' <= c <= 'F') || ('a' <= c <= 'f') }

  /** The classes in terms of the library's ASCII letter and digit tests. */
  lemma Classes(c: char)
    ensures IsIdent(c) <==> DotNetText.IsLetterOrDigit(c) || c in {'_', '$', ':'}
    ensures IsNumeric(c) <==> DotNetText.IsDigit(c)
    ensures IsHexNumeric(c) <==> IsNumeric(c) || c in {'A', 'B', 'C', 'D', 'E', 'F', 'a', 'b', 'c', 'd', 'e', 'f'}
  {
  }

  /** A digit is both an identifier character and a hexadecimal digit. */
  lemma NumericIsIdentAndHex(c: char)
    ensures IsNumeric(c) ==> IsIdent(c) && IsHexNumeric(c)
  {
  }

  /** The three tests were carried over unchanged into XSS. */
  lemma SameAsXss(c: char)
    ensures IsIdent(c) == XssExtension.IsIdent(c)
    ensures IsNumeric(c) == XssExtension.IsNumeric(c)
    ensures IsHexNumeric(c) == XssExtension.IsHexNumeric(c)
  {
  }
}
