/** Character classes and type names of XSS (XSS/ExtensionMethod.cs). */
module XssExtension {
  import opened Wrappers
  import opened XssOperand
  import DotNetText

  /** Characters an identifier is made of. */
  predicate IsIdent(c: char) {
    ('0' <= c <= '9') || ('A' <= c <= 'Z') || ('a' <= c <= 'z') || c == '_' || c == '$' || c == ':'
  }

  predicate IsNumeric(c: char) { '0' <= c <= '9' }

  predicate IsHexNumeric(c: char) { IsNumeric(c) || ('A' <= c <= 'F') || ('a' <= c <= 'f') }

  /** The extension's own white-space test: tab and space only. */
  predicate IsWhiteSpace(c: char) { c == '\t' || c == ' ' }

  /** The identifier characters are the ASCII letters and digits and the three marks. */
  lemma IdentClasses(c: char)
    ensures IsIdent(c) <==> DotNetText.IsLetterOrDigit(c) || c in {'_', '$', ':'}
    ensures IsNumeric(c) <==> DotNetText.IsDigit(c)
  {
  }

  /** A digit is an identifier character and a hexadecimal digit; a hexadecimal digit that is
      not a decimal one is one of the letters A-F in either case. */
  lemma NumericIsIdentAndHex(c: char)
    ensures IsNumeric(c) ==> IsIdent(c) && IsHexNumeric(c)
    ensures IsHexNumeric(c) && !IsNumeric(c) ==> c in {'A', 'B', 'C', 'D', 'E', 'F', 'a', 'b', 'c', 'd', 'e', 'f'}
  {
  }

  /** The extension's white space is a strict part of `char.IsWhiteSpace`. */
  lemma WhiteSpaceSubset(c: char)
    ensures IsWhiteSpace(c) ==> DotNetText.IsWhiteSpace(c)
    ensures DotNetText.IsWhiteSpace('\n') && !IsWhiteSpace('\n')
  {
  }

  /** The kind a TYPE lexeme names; a null lexeme, like every unlisted one, gives `Null`. */
  function ToValType(lexeme: Option<string>): (t: ValType)
    ensures t in {Null, Integer, Float, Char, String, Bool}
  {
    match lexeme
    case Some("INT") => Integer
    case Some("FLT") => Float
    case Some("CHR") => Char
    case Some("STR") => String
    case Some("BOOL") => Bool
    case _ => Null
  }

  /** Exactly the five upper-case names map to a kind other than `Null`. */
  lemma ToValTypeNames(s: string)
    ensures ToValType(Some(s)) != Null <==> s in {"INT", "FLT", "CHR", "STR", "BOOL"}
    ensures ToValType(Some(s)) == Integer <==> s == "INT"
    ensures ToValType(Some(s)) == Float <==> s == "FLT"
    ensures ToValType(Some(s)) == Char <==> s == "CHR"
    ensures ToValType(Some(s)) == String <==> s == "STR"
    ensures ToValType(Some(s)) == Bool <==> s == "BOOL"
  {
  }

  /** The lower-case spellings that the lexer also accepts as TYPE name no kind. */
  lemma LowerCaseTypeNamesAreNull()
    ensures ToValType(Some("int")) == Null && ToValType(Some("flt")) == Null
    ensures ToValType(Some("chr")) == Null && ToValType(Some("str")) == Null
    ensures ToValType(Some("bool")) == Null && ToValType(Some("NULL")) == Null
  {
  }
}
