# XSS and the simple_interpreter calculator, modelled in Dafny

XSS is a small dynamically typed scripting language written in C#. A program is lexed by a
cursor over its text (`XSS/Lexer.cs`). A recursive-descent parser with one method per
precedence level turns the tokens into a tree (`XSS/Parser.cs`). A tree-walking interpreter
then runs the tree (`XSS/Visitor/Interpreter.cs`):

- Expressions are visited into a postfix evaluation stack.
- That stack is reversed and reduced three entries at a time.
- Each operator is applied through a table keyed on the operands' kinds: Integer, Bool, Char,
  String, Type and Null.
- Statements (`var`, assignment, `if`, `while`, `match`, `fun`, `return` and calls) run over
  a chain of scopes (`XSS/Scope.cs`). The parser builds no function declarations, `return`
  statements or calls (XSS/Parser.cs:49-96, 492-513). The interpreter handles those nodes, so
  the model's `Execute` and `Evaluate` run them, but only in trees built by other means.

Beside the core sit a few pure helpers:

- character classes and type names (`XSS/ExtensionMethod.cs`);
- the operand classification (`XSS/AST/Operand.cs`);
- function-signature equality, hashing and rendering (`XSS/AST/FunctionDeclaration.cs`);
- the REPL's `.verb args` splitter (`XSS.Runtime/Utility/NativeCommand.cs`).

The repository also keeps the earlier integer calculator `simple_interpreter`. It has its own
lexer and parser and two alternative stack evaluators: one over tokens (`AST/Interpreter.cs`)
and one over typed stack values (`Visitor/Interpreter.cs`).

## How the model is built

- **Values.** Tokens, trees, .NET objects (`Boxed`), stack values and results are datatypes.
  C# `int` is the 32-bit type of `Int32`, with explicit wrap-around. Its `/` and `%` truncate
  toward zero; a zero divisor raises `DivideByZeroException`, and `int.MinValue / -1` raises
  an overflow.
- **Imperative code.** Code that works step by step keeps its form. Each of these is a class
  whose methods change its fields:
  - the lexers (text, position, current character, line counters);
  - the parsers (token stream, position);
  - `Scope` (its dictionary and a parent reference);
  - the three interpreters (evaluation stack, variables or the scope chain).

  Every such method is proved to equal a pure function of the old state in the same module.
  The properties are lemmas about those functions.
- **Errors.** Every exception the source throws or provokes is a `Failure` value, with the
  error it carries. Examples: `Error()` in a lexer or parser, a missing variable, an invalid
  cast, an empty-stack `Pop`, a division by zero.
- **The state an exception leaves.** The XSS REPL keeps one interpreter object across inputs
  (XSS/Program.cs:29-70), and nothing is undone when an input throws. So an XSS failure is a
  `Thrown` value: the error together with the stack and scope chain at the throw. Three
  effects follow, each proved on an example:
  - entries the reduction loop has not reached stay on the stack and are read with the next
    input (`RightNestingIsMisread`, `LeftoverSpoilsNextInput`);
  - bindings made before the throw stay (`TypeLiteralCannotBeStored`);
  - a callee body that throws skips the reset to the global scope, so the callee's scope stays
    current (`CallOfRaisingBodyKeepsScope`). This case is listed under Findings.
- **Parser input.** Both parsers read the stream of lexer results as a sequence. `PeekNextToken`
  copies the lexer and has no effect, so the next element of the sequence is the peeked token.
  The lexers are proved separately to produce that stream.
- **Fuel.** The XSS interpreter can loop forever (`while true {}`) and calls functions
  recursively, so its specification functions take a step budget `fuel`. When the budget runs
  out they end in `OutOfFuel`; the interpreter methods are proved equal to them for every budget.
- **What the reduction loop does.** It reads the reversed stack three entries at a time. This
  reads a left-nested chain `(a - b) - c` correctly (`SubtractionIsLeftAssociative`). It
  misreads a right-nested operand such as `1 - (2 - 3)`: the operand 3 is read as an operator
  kind and the evaluation raises (`RightNestingIsMisread`). Both calculators do the same; that
  case is listed under Findings.

## Model

| member | source | states |
|---|---|---|
| XssExtension.IdentClasses | XSS/ExtensionMethod.cs:12-28 | an identifier character is exactly an ASCII letter or digit or one of `_`, `$`, `:`; a numeric character is exactly a decimal digit |
| XssExtension.NumericIsIdentAndHex | XSS/ExtensionMethod.cs:17-33 | every digit is an identifier character and a hexadecimal digit; the other hexadecimal digits are exactly A-F and a-f |
| XssExtension.WhiteSpaceSubset | XSS/ExtensionMethod.cs:35-38 | the extension's white space (tab and space) lies inside `char.IsWhiteSpace`, which also accepts a line feed that the extension does not |
| XssExtension.ToValType | XSS/ExtensionMethod.cs:45-62 | the result is always one of Null, Integer, Float, Char, String, Bool, never Identifier, Operator, Type, FunctionCall, Function or Any |
| XssExtension.ToValTypeNames | XSS/ExtensionMethod.cs:45-62 | a lexeme names a kind other than Null exactly when it is INT, FLT, CHR, STR or BOOL, and each of the five names exactly its own kind |
| XssExtension.LowerCaseTypeNamesAreNull | XSS/ExtensionMethod.cs:47-61 | the lower-case spellings int, flt, chr, str, bool and the name NULL all map to Null |
| SimpleExtension.Classes | simple_interpreter/ExtensionMethod.cs:11-32 | an identifier character is exactly an ASCII letter or digit or `_`, `$`, `:`; a numeric character exactly a decimal digit; a hexadecimal digit exactly a decimal digit or A-F, a-f |
| SimpleExtension.NumericIsIdentAndHex | simple_interpreter/ExtensionMethod.cs:11-32 | every digit is an identifier character and a hexadecimal digit |
| SimpleExtension.SameAsXss | simple_interpreter/ExtensionMethod.cs:11-32 | the calculator's three tests agree with the XSS ones on every character |
| NativeCommand.NewCommand | XSS.Runtime/Utility/NativeCommand.cs:11-15 | the command holds exactly the verb and the parameters it was given |
| NativeCommand.Parse | XSS.Runtime/Utility/NativeCommand.cs:20-27 | a non-blank line gives one parameter per space of the trimmed line; neither the verb nor a parameter holds a space; the removed first character, the verb and the parameters joined by single spaces give back the trimmed line |
| NativeCommand.FirstPieceEmpty | XSS.Runtime/Utility/NativeCommand.cs:22-23 | the first piece of a split is empty exactly when the text is empty or starts with the separator, which is why a non-blank trimmed line has a first character to remove |
| NativeCommand.SplitLine | XSS.Runtime/Utility/NativeCommand.cs:22-25 | for a line not starting with a space, the first piece starts with the line's first character and the pieces re-joined rebuild the line |
| NativeCommand.ParseJoin | XSS.Runtime/Utility/NativeCommand.cs:20-27 | parsing a prefix character plus a verb followed by parameters, joined by spaces, returns exactly that verb and those parameters in order, empty parameters and tabs included |
| DotNetText.ToLowerAscii | XSS/Visitor/Interpreter.cs:78 | `bool.Parse` compares without case: an upper-case ASCII letter is moved 32 code points down to its lower-case form and every other character is kept |
| DotNetText.ToLowerAsciiString | XSS/Visitor/Interpreter.cs:78 | lower-casing keeps the length and lower-cases each character in its place |
| DotNetText.TrimStart | XSS.Runtime/Utility/NativeCommand.cs:22 | the result is a suffix of the input, everything cut off is white space, and the result does not start with white space |
| DotNetText.TrimEnd | XSS.Runtime/Utility/NativeCommand.cs:22 | the result is a prefix of the input, everything cut off is white space, and the result does not end with white space |
| DotNetText.Trim | XSS.Runtime/Utility/NativeCommand.cs:22 | the trimmed command is a slice of the input: everything cut off in front and behind is white space, and its own ends are not |
| DotNetText.TrimmedUnique | XSS.Runtime/Utility/NativeCommand.cs:22 | the trimming contract determines its result: two strings that are both the input with only white space cut off its ends are equal |
| DotNetText.IndexOf | XSS.Runtime/Utility/NativeCommand.cs:22 | the index found holds the separator and no earlier position does |
| DotNetText.Split | XSS.Runtime/Utility/NativeCommand.cs:22 | splitting on a character gives one piece more than the separator occurs, no piece holds the separator, and joining the pieces with the separator gives back the input |
| DotNetText.SplitJoin | XSS.Runtime/Utility/NativeCommand.cs:22 | the other direction: splitting a join of separator-free pieces (at least one) gives back exactly those pieces |
| DotNetText.CountSplit | XSS.Runtime/Utility/NativeCommand.cs:22 | at the first separator, the count of separators is one more than the count in the rest |
| DotNetConvert.DigitChar | XSS/Visitor/Interpreter.cs:115 | a decimal digit value is written as the digit character of that value |
| DotNetConvert.NatToDecimal | XSS/Visitor/Interpreter.cs:115 | a natural number is written as a non-empty string of decimal digits with no leading zero unless it is the single digit 0 |
| DotNetConvert.NatToDecimalValue | XSS/Visitor/Interpreter.cs:115 | reading back the decimal digits written for a number gives that number |
| DotNetConvert.Int32ToString | XSS/Visitor/Interpreter.cs:115 | an integer's text (a minus sign before a negative value) is never empty |
| DotNetConvert.StripNumberWhite | XSS/Visitor/Interpreter.cs:74 | `int.Parse` removes the white space U+0009 to U+000D and U+0020 from both ends and nothing else: the result is a slice of the text whose cut-off characters are all such white space and whose own ends are not, and text that neither starts nor ends with it is kept |
| DotNetConvert.ParseInt32 | XSS/Visitor/Interpreter.cs:74 | a missing lexeme fails with an argument-null error, and a run of digits whose value fits in 32 bits parses to that value |
| DotNetConvert.ParseInt32ToString | XSS/Visitor/Interpreter.cs:74 | every 32-bit integer round-trips: parsing its text gives it back, including the most negative value |
| DotNetConvert.StripBoolTrim | XSS/Visitor/Interpreter.cs:78 | `bool.Parse` removes white space and NUL characters from both ends and nothing else: the result is a slice of the text whose cut-off characters are all white space or NUL and whose own ends are not, and text that neither starts nor ends with one is kept |
| DotNetConvert.ParseBool | XSS/Visitor/Interpreter.cs:78 | a missing lexeme fails with an argument-null error; "true" and "false" parse to their values |
| DotNetConvert.ParseBoolToString | XSS/Visitor/Interpreter.cs:78 | both booleans round-trip through their text "True" and "False" |
| Int32.Wrap | XSS/Visitor/Interpreter.cs:410-415 | 32-bit integer arithmetic: the result agrees with the exact value modulo 2^32 and equals it when it fits |
| Int32.AddWraps | XSS/Visitor/Interpreter.cs:410-411 | an addition that fits gives the exact sum, and the largest value plus one wraps to the smallest |
| Int32.NegMin | XSS/Visitor/Interpreter.cs:410-415 | negating the smallest 32-bit value gives that value back |
| Int32.TruncDivision | XSS/Visitor/Interpreter.cs:416-419 | C# division truncates toward zero: dividend = divisor * quotient + remainder, the remainder is smaller than the divisor in size and has the dividend's sign, and the quotient's size is the quotient of the sizes |
| Int32.Div | XSS/Visitor/Interpreter.cs:416-417 | dividing fails with a divide-by-zero error exactly when the divisor is 0, overflows exactly for the smallest value divided by -1, and otherwise gives the truncated quotient |
| Int32.Rem | XSS/Visitor/Interpreter.cs:418-419 | the remainder fails exactly when division does, in the same ways, and otherwise gives the truncated remainder |
| Int32.DivRemRecombine | XSS/Visitor/Interpreter.cs:416-419 | whenever division succeeds so does the remainder, and divisor * quotient + remainder is the dividend |
| XssValues.CreateStackValue | XSS/Visitor/Interpreter.cs:48-91 | turning a token into a stack value fails only on the lexemes `int.Parse`, `float.Parse`, `bool.Parse` or the first-character read reject; an operator token becomes an Operator value holding its kind, and only operator tokens do; no token gives a function-call value |
| XssValues.StringBox | XSS/Visitor/Interpreter.cs:82 | a missing string lexeme is boxed as null, a present one as that string |
| XssValues.CreateAgreesWithOperand | XSS/Visitor/Interpreter.cs:48-91 | on literal, identifier and TYPE tokens the stack value's kind is the operand node's value type |
| XssValues.CreateInteger | XSS/Visitor/Interpreter.cs:74 | the text of any 32-bit integer becomes that Integer value; a missing lexeme raises the argument-null error of `int.Parse` |
| XssValues.CreateBool | XSS/Visitor/Interpreter.cs:78 | the lexemes "true" and "false" become the matching Bool values |
| XssValues.CreateCharLiterals | XSS/Visitor/Interpreter.cs:80 | a one-character lexeme becomes that Char; a missing lexeme raises a null reference and an empty one an index-out-of-range error |
| XssValues.CreateOtherLiterals | XSS/Visitor/Interpreter.cs:82-89 | a STRING keeps its text, TYPE INT becomes the Integer type, NULL becomes a Null value holding "null", and an identifier keeps its name |
| XssValues.Classify | XSS/Visitor/Interpreter.cs:338-356 | a value read from a scope is classified by its run-time type, keeping the object, never as an identifier or call; it fails exactly on a boxed enum or call node, the types the switch does not know |
| XssValues.BoxedToString | XSS/Visitor/Interpreter.cs:446-447 | `ToString()` on an operand's object fails exactly on null (a null reference) and on a float (whose text is not modelled) |
| XssValues.UnboxEnum | XSS/Visitor/Interpreter.cs:1193 | the unboxing cast succeeds exactly on either enum or an int, and a null raises a null reference |
| XssValues.UnboxTokenType | XSS/Visitor/Interpreter.cs:1193-1200 | a boxed operator kind casts back to that kind, and a null raises a null reference |
| Tokens.Ordinal | XSS.Compiler/Token.cs:3-61 | `(int)kind` is the kind's position among the 46 declared members |
| Tokens.FromOrdinal | XSS.Compiler/Token.cs:3-61 | `(TokenType)n` names a declared member exactly when 0 <= n < 46 |
| Tokens.FromOrdinalOrdinal | XSS.Compiler/Token.cs:3-61 | casting a kind to its number and back gives the kind |
| Stacks.Reverse | XSS/Visitor/Interpreter.cs:291-301 | popping every item onto a fresh stack keeps the number of items |
| Stacks.ReverseAppend | XSS/Visitor/Interpreter.cs:291-301 | reversing a stack made of two parts gives the reversed second part followed by the reversed first part |
| XssOperand.ValOrdinal | XSS/AST/Operand.cs:3-17 | `(int)ValType` is the kind's position among the 12 declared members |
| XssOperand.ValFromOrdinal | XSS/AST/Operand.cs:3-17 | a number names a value kind exactly when it is below 12, and the kind named has that number |
| XssOperand.OperandType | XSS/AST/Operand.cs:25-52 | an operand node's kind is Integer, Float, Bool, Char, String, Identifier or Type exactly for the token kinds INTERGER, FLOAT, BOOL, CHAR, STRING, IDENT and TYPE, and is Null for every other token |
| XssOperand.OperandValue | XSS/AST/Operand.cs:54-57 | an operand's value is its token's lexeme |
| XssOperand.OtherKindsAreNull | XSS/AST/Operand.cs:28-51 | a token outside the seven literal-like kinds leaves the operand at Null and prints as `<null>` |
| XssOperand.QuotedRenderings | XSS/AST/Operand.cs:75-97 | a char operand prints in single quotes, a string operand in double quotes, and the other literal-like kinds bare, all inside angle brackets |
| XssSignature.EqualsAsWritten | XSS/AST/FunctionDeclaration.cs:24-51 | `Equals` as written: the loop computes the written specification, with its inverted count guard |
| XssSignature.EqualsAsWrittenIsBroken | XSS/AST/FunctionDeclaration.cs:37-40 | as written, a signature is not equal to itself, and comparing a one-parameter signature with a same-named empty one reads past the end and raises |
| XssSignature.EqualsAsWrittenTrue | XSS/AST/FunctionDeclaration.cs:24-51 | as written, `Equals` answers true exactly when the names agree, the other signature has strictly more parameters, and this signature's parameters are compatible with its first ones |
| XssSignature.EqualsCorrected | XSS/AST/FunctionDeclaration.cs:24-51 | with the guard corrected, a null argument raises a null reference, another type of object is unequal, and a signature is equal exactly when the names and counts agree and each position is compatible (equal or Any on either side) |
| XssSignature.SignaturesMatchReflexiveSymmetric | XSS/AST/FunctionDeclaration.cs:41-49 | the corrected equality relates every signature to itself and is symmetric |
| XssSignature.GetHashCode | XSS/AST/FunctionDeclaration.cs:53-65 | the unchecked hash is the polynomial 91, then h*71 + x over the name's hash and each parameter, taken modulo 2^32 |
| XssSignature.WrapStep | XSS/AST/FunctionDeclaration.cs:55-63 | wrapping after each step of the hash gives the same result as wrapping once at the end |
| XssSignature.ValTypeNames | XSS/AST/FunctionDeclaration.cs:21 | each parameter kind is written by its enum name, in order |
| XssSignature.SignatureToString | XSS/AST/FunctionDeclaration.cs:19-22 | a signature prints in parentheses |
| XssSignature.SignatureRenderings | XSS/AST/FunctionDeclaration.cs:19-22 | an empty signature prints as `()` and the parameter names are joined by a comma and a space |
| XssSignature.NewDeclarationFromSignature | XSS/AST/FunctionDeclaration.cs:70-73 | the two-argument constructor keeps only the signature: the body is dropped, the parameter names stay null and the return kind Null |
| XssSignature.NewDeclaration | XSS/AST/FunctionDeclaration.cs:75-89 | the full constructor keeps name, body, parameter kinds and names and return kind, and the name and parameter kinds are read through the signature |
| XssSignature.DeclarationValueExample | XSS/AST/FunctionDeclaration.cs:96-99 | a declaration's value is its name, its signature and its return kind, as in `add (Integer, Integer)->Null` |
| XssOperators.Resolve | XSS/Visitor/Interpreter.cs:328-362 | a value that is not an identifier is already resolved; an identifier not bound in the current scope itself raises "not defined"; a resolved value is never an identifier, and never a call unless it was one |
| XssOperators.ResolveIsLocal | XSS/Visitor/Interpreter.cs:333-356 | an identifier bound in the current scope resolves to the classification of its own value whatever outer scopes hold, and one bound only further out cannot be read |
| XssOperators.UnboxInt | XSS/Visitor/Interpreter.cs:406-407 | `(int)value` on the payloads that reach it: it succeeds exactly on a boxed int (every Integer-kind value holds one), null raises a null reference and anything else an invalid cast |
| XssOperators.UnboxBool | XSS/Visitor/Interpreter.cs:458-459 | `(bool)value` succeeds exactly on a boxed bool |
| XssOperators.UnboxChar | XSS/Visitor/Interpreter.cs:519-520 | `(char)value` succeeds exactly on a boxed char |
| XssOperators.UnboxString | XSS/Visitor/Interpreter.cs:540-541 | `(string)value` succeeds exactly on a string or null |
| XssOperators.FloatOperation | XSS/Visitor/Interpreter.cs:424-443 | float arithmetic and `Math.Pow` are outside the model and always end the evaluation with an error |
| XssOperators.OrdinalCompare | XSS/Visitor/Interpreter.cs:542 | string comparison gives -1, 0 or 1, and 0 exactly for equal strings |
| XssOperators.OrdinalCompareAntisymmetric | XSS/Visitor/Interpreter.cs:542 | swapping the strings negates the comparison |
| XssOperators.Binary | XSS/Visitor/Interpreter.cs:748-1062 | a binary operation on resolved values pushes, when it pushes, only an Integer, a Bool or a String |
| XssOperators.EvaluateBinary | XSS/Visitor/Interpreter.cs:748-752 | both operands are resolved first, so on operands that are not identifiers the operation is the one on the values themselves |
| XssOperators.Unary | XSS/Visitor/Interpreter.cs:1064-1096 | a unary operation pushes, when it pushes, only an Integer, a Bool or a Type tag |
| XssOperators.EvaluateUnary | XSS/Visitor/Interpreter.cs:1064-1068 | the operand is resolved first, so on a value that is not an identifier the operation is the one on the value itself |
| XssOperators.IntegerArithmetic | XSS/Visitor/Interpreter.cs:404-422 | on two ints, `+`, `-` and `*` wrap around at 32 bits; `/` and `%` by zero raise divide-by-zero, the smallest value divided by -1 overflows, and otherwise they truncate toward zero |
| XssOperators.IntegerComparison | XSS/Visitor/Interpreter.cs:475-495 | on two ints each of the six comparisons compares the numbers |
| XssOperators.IntegerEquality | XSS/Visitor/Interpreter.cs:481-484 | `==` and `!=` on ints push whether the numbers are equal or differ |
| XssOperators.IntegerOrder | XSS/Visitor/Interpreter.cs:485-492 | `>`, `>=`, `<` and `<=` on ints push the order of the numbers |
| XssOperators.IntegerOtherOperators | XSS/Visitor/Interpreter.cs:778-779 | two ints support no operator besides arithmetic, exponent and comparison: any other raises the undefined-operation error |
| XssOperators.BoolTable | XSS/Visitor/Interpreter.cs:809-825 | on two bools `and`, `or`, `xor`, `==` and `!=` are the logical operations, and every other operator is undefined |
| XssOperators.CharComparisons | XSS/Visitor/Interpreter.cs:517-537 | chars are compared by their code points |
| XssOperators.CharCompared | XSS/Visitor/Interpreter.cs:836-843 | each of the six comparisons on two chars compares their code points |
| XssOperators.CharOtherOperators | XSS/Visitor/Interpreter.cs:828-848 | `+` on two chars concatenates them into a two-character string, and any operator other than `+` and the comparisons is undefined |
| XssOperators.StringConcatenation | XSS/Visitor/Interpreter.cs:444-455 | `+` on two strings concatenates them |
| XssOperators.StringEquality | XSS/Visitor/Interpreter.cs:545-548 | `==` and `!=` on strings compare the contents |
| XssOperators.StringOrder | XSS/Visitor/Interpreter.cs:549-554 | `<` on strings follows the string comparison |
| XssOperators.StringOtherOperators | XSS/Visitor/Interpreter.cs:851-870 | two strings support only `+` and the comparisons |
| XssOperators.NullTable | XSS/Visitor/Interpreter.cs:873-874 | every operator on two nulls is undefined |
| XssOperators.TypeTagEquality | XSS/Visitor/Interpreter.cs:721-737 | `==` and `!=` on two type tags compare the types |
| XssOperators.TagsCompared | XSS/Visitor/Interpreter.cs:876-881 | `==` and `!=` on two type tags compare their enum numbers |
| XssOperators.TypeTagOtherOperators | XSS/Visitor/Interpreter.cs:883-884 | two type tags support no operator besides `==` and `!=` |
| XssOperators.OrdinalsDiffer | XSS/AST/Operand.cs:3-17 | two value kinds have the same enum number exactly when they are the same kind |
| XssOperators.IsTest | XSS/Visitor/Interpreter.cs:738-740 | `v is T` on a value that is not a type tag tells whether the value's kind is T |
| XssOperators.MixedKindsAreUndefined | XSS/Visitor/Interpreter.cs:902-1062 | operands of different kinds outside the numeric, int-with-char, char-with-int comparison, string `+` and `is` cases raise the undefined-operation error |
| XssOperators.StringLeftPlus | XSS/Visitor/Interpreter.cs:1030-1034 | a string plus a value of another kind appends the value's text |
| XssOperators.IntegerWithChar | XSS/Visitor/Interpreter.cs:930-954 | an int compared with a char compares the int with the char's code point; int arithmetic with a char fails at the unboxing cast; `%` with a char has no case and pushes nothing |
| XssOperators.CharWithInteger | XSS/Visitor/Interpreter.cs:671-676 | a char compared with an int fails, because the int is unboxed as a char |
| XssOperators.UnaryTable | XSS/Visitor/Interpreter.cs:1064-1096 | unary minus negates an int (wrapping at the smallest value) and is undefined off numbers; `!` negates a bool and pushes nothing on anything else; `typeof` pushes the value's kind |
| XssOperators.TruthTable | XSS/Visitor/Interpreter.cs:1362-1378 | null is false, a bool is itself, and every other resolved value, 0 and the empty string among them, is true |
| XssOperators.TruthOfIdentifier | XSS/Visitor/Interpreter.cs:1372-1373 | an identifier is as true as the value it resolves to |
| XssScope.Lookup | XSS/Scope.cs:32-46 | reading a name gives its binding in the nearest scope that binds it, and null when no scope on the chain does |
| XssScope.LookupFrom | XSS/Scope.cs:32-46 | the same from any scope of the chain outward |
| XssScope.BoundLocally | XSS/Scope.cs:65-68 | `Contain` asks only the scope itself, never its parents |
| XssScope.Defined | XSS/Scope.cs:19-30 | defining touches only the current scope: a name already there is left as it is, otherwise it is added with the value; the outer scopes are unchanged |
| XssScope.Assigned | XSS/Scope.cs:48-63 | assigning changes the binding in the nearest scope that binds the name and nothing else, and changes nothing when no scope binds it |
| XssScope.AssignedFrom | XSS/Scope.cs:48-63 | the same from any scope of the chain outward |
| XssScope.NearestExists | XSS/Scope.cs:32-46 | a name bound somewhere on the chain has a nearest scope binding it |
| XssScope.LookupBelow | XSS/Scope.cs:38-41 | a name the current scope does not bind is read from the parent |
| XssScope.AssignedBelow | XSS/Scope.cs:55-58 | a name the current scope does not bind is assigned in the parent, with the parent's answer |
| XssScope.DefineThenGet | XSS/Scope.cs:19-25 | after defining a fresh name, reading it gives the value, it is bound locally, `Define` answers the value, every other name reads as before and the outer scopes are unchanged |
| XssScope.DefineBoundIsNoOp | XSS/Scope.cs:26-29 | defining a name the scope already binds changes nothing and answers null |
| XssScope.AssignThenGet | XSS/Scope.cs:48-54 | after assigning a bound name, reading it gives the value; `Assign` answers the value, every other name reads as before and only the binding scope changes |
| XssScope.AssignUnboundIsNoOp | XSS/Scope.cs:59-62 | assigning a name no scope binds changes nothing and answers null |
| XssScope.Scope.constructor | XSS/Scope.cs:13-17 | a new scope has no bindings of its own and sits in front of its parent's chain |
| XssScope.Scope.Define | XSS/Scope.cs:19-30 | the scope's chain becomes the defined chain and the answer is that of the specification |
| XssScope.Scope.Get | XSS/Scope.cs:32-46 | the recursive read through the parents is the lookup on the chain |
| XssScope.Scope.Assign | XSS/Scope.cs:48-63 | the assignment through the parents makes the chain the assigned chain and answers as specified |
| XssScope.Scope.Contain | XSS/Scope.cs:65-68 | `Contain` is the local-binding test, whatever the `localOnly` flag says |
| XssLexer.AdvanceTo | XSS/Lexer.cs:47-59 | advancing to a later position moves the column by the distance and keeps the line |
| XssLexer.RunEnd | XSS/Lexer.cs:69-81 | a scanning loop stops inside the text, at NUL, at the end, or at the first character that does not continue the run |
| XssLexer.RunPasses | XSS/Lexer.cs:69-81 | every character a scanning loop passes over is a non-NUL character of the run |
| XssLexer.RunEndFrom | XSS/Lexer.cs:69-81 | a scan started in the middle of a run ends where the whole run ends |
| XssLexer.IntegerF | XSS/Lexer.cs:83-118 | reading a number from a digit gives an INTERGER or FLOAT token and advances the lexer |
| XssLexer.CharF | XSS/Lexer.cs:120-132 | reading a char literal gives a CHAR token and advances the lexer |
| XssLexer.StringF | XSS/Lexer.cs:134-149 | reading a string literal gives a STRING token and advances the lexer |
| XssLexer.IdentF | XSS/Lexer.cs:151-215 | reading a word from an identifier character always succeeds and advances the lexer |
| XssLexer.ScanF | XSS/Lexer.cs:239-400 | reading one token after the skipping advances the lexer whenever it succeeds |
| XssLexer.SkipOnce | XSS/Lexer.cs:221-237 | one white-space or comment step of the loop moves forward inside the text |
| XssLexer.NextTokenF | XSS/Lexer.cs:217-403 | the next token leaves the lexer inside the text; a token other than EOF moves it forward; EOF has a null lexeme and leaves it at NUL or the end of the text |
| XssLexer.Tokenize | XSS/Lexer.cs:217-409 | the tokens read one after another end with EOF or an error and hold neither before the last item |
| XssLexer.CharAtIn | XSS/Lexer.cs:51-58 | inside the text the current character is the character at the position |
| XssLexer.MarksAreNotSpace | XSS/Lexer.cs:227-244 | '/' and '!' are not white space, so the lookahead for them happens after the skipping; neither quote is a single-character token |
| XssLexer.ClassesAreNotSpace | XSS/Lexer.cs:227-398 | digits, letters, '$', '_', ':' and the operator marks are not white space, and a digit is not a single-character token |
| XssLexer.WhiteStep | XSS/Lexer.cs:221-231 | a white-space step skips the whole stretch of white space, counting a line at '\r' |
| XssLexer.CommentStep | XSS/Lexer.cs:233-237 | at `//` the lexer skips to the end of the comment and carries on |
| XssLexer.CommentSkips | XSS/Lexer.cs:233-237 | `//` counts as something the loop skips, and the skip ends at the end of the comment |
| XssLexer.PeekStepFails | XSS/Lexer.cs:60-67 | a '/' or '!' as the last character makes the lookahead read past the end and fail |
| XssLexer.ScanStep | XSS/Lexer.cs:239-400 | on a character that is neither NUL, white space nor a comment start, the next token is the one read there |
| XssLexer.ScanNumber | XSS/Lexer.cs:390-393 | from a digit the lexer reads a number |
| XssLexer.ScanString | XSS/Lexer.cs:385-388 | from a double quote the lexer reads a string |
| XssLexer.ScanCountersIrrelevant | XSS/Lexer.cs:239-400 | reading one token does not depend on the line and column counters |
| XssLexer.CountersIrrelevant | XSS/Lexer.cs:217-403 | the token read and where it ends do not depend on the line and column counters, which serve error messages only |
| XssLexer.WhiteSpaceSkipped | XSS/Lexer.cs:227-231 | reading from anywhere in a stretch of white space gives the same token as reading after it |
| XssLexer.CommentSkipped | XSS/Lexer.cs:233-237 | a comment ends at a line feed, NUL or the end of the text, and reading from its start gives the same token as reading after it |
| XssLexer.EofIsStable | XSS/Lexer.cs:402 | once EOF is read, reading again gives EOF again at the same place |
| XssLexer.IntegerLiteral | XSS/Lexer.cs:83-91 | a maximal digit run not followed by '.' is one INTERGER token of exactly that run |
| XssLexer.FloatLiteral | XSS/Lexer.cs:93-106 | digits, '.' and a digit start one FLOAT token that runs to the end of the fraction |
| XssLexer.FloatParts | XSS/Lexer.cs:93-106 | a FLOAT lexeme is the integer digits, the '.', and the fraction digits, and the fraction is maximal |
| XssLexer.FloatNumber | XSS/Lexer.cs:93-106 | `Interger()` reads digits, '.' and digits as one FLOAT |
| XssLexer.BadFloat | XSS/Lexer.cs:107-112 | a '.' after the digits that is the last character fails on the lookahead, and one not followed by a digit raises the error on '.' |
| XssLexer.StringLiteral | XSS/Lexer.cs:134-149 | a STRING's lexeme is everything up to the first closing quote, and a string without one raises the error at the end of the text |
| XssLexer.StringHasNoQuote | XSS/Lexer.cs:138-142 | no double quote lies inside a STRING lexeme |
| XssLexer.CharLiteral | XSS/Lexer.cs:120-132 | a char literal is one character between single quotes; anything else in the closing place raises the error on that character |
| XssLexer.KeywordTable | XSS/Lexer.cs:160-214 | the keyword table: true/false are BOOL, and/or/xor/not their operators, null NULL, the upper- and lower-case type names and NULL are TYPE, nine words are statement keywords, and every other word is an IDENT |
| XssLexer.IdentifierWord | XSS/Lexer.cs:395-398 | from a letter or '$' the lexer reads the maximal identifier run and classifies it by the keyword table |
| XssLexer.Operators | XSS/Lexer.cs:239-282 | one character of lookahead decides `!=`, `>=`, `>`, `<=`, `<`, `=>`, `==` and `=` |
| XssLexer.LookaheadErrors | XSS/Lexer.cs:239-244 | a '!' not followed by '=' raises the error on '!', and a '/' or '!' as the last character fails on the lookahead |
| XssLexer.UnderscoreAndColon | XSS/Lexer.cs:368-378 | '_' and ':' are tokens of their own, read before identifiers |
| XssLexer.ScanIdentShape | XSS/Lexer.cs:239-400 | an IDENT read after the skipping has the identifier shape |
| XssLexer.ScanIdent | XSS/Lexer.cs:368-398 | only the identifier branch yields IDENT, and only from a letter or '$' |
| XssLexer.IdentWordShape | XSS/Lexer.cs:151-215 | the word read from a letter or '$', when it is an IDENT, is made of identifier characters and is no keyword |
| XssLexer.IdentTokenShape | XSS/Lexer.cs:217-403 | every IDENT token starts with a letter or '$', consists of identifier characters and is not a keyword |
| XssLexer.ConsShaped | XSS/Lexer.cs:405-409 | putting a well-shaped token in front of a well-shaped stream keeps every identifier well-shaped |
| XssLexer.TokenizeStep | XSS/Lexer.cs:217-403 | a token other than EOF is followed by the tokens read from after it |
| XssLexer.StreamIdentShape | XSS/Lexer.cs:151-403 | every IDENT of a token stream has the identifier shape |
| XssLexer.Lexer.constructor | XSS/Lexer.cs:24-31 | on a non-empty text, the lexer starts at position 0, line 0, column 0 on the first character |
| XssLexer.NewLexer | XSS/Lexer.cs:24-31 | `new Lexer(t)` raises IndexOutOfRange on an empty text, and otherwise gives a fresh lexer at the start of `t` |
| XssLexer.Lex | XSS/Lexer.cs:24-31 | the token stream of a whole text ends with EOF or an error and holds neither before; an empty text gives the constructor's IndexOutOfRange alone |
| XssLexer.Lexer.Copy | XSS/Lexer.cs:33-40 | the copy has the same text and state |
| XssLexer.Lexer.Advance | XSS/Lexer.cs:47-59 | the position and the column move by one, and the current character follows |
| XssLexer.Lexer.Peek | XSS/Lexer.cs:60-67 | the lookahead gives the next character when there is one and fails otherwise, changing nothing |
| XssLexer.Lexer.Scan | XSS/Lexer.cs:69-81 | the loop leaves the lexer where the run ends |
| XssLexer.Lexer.SkipWhitespace | XSS/Lexer.cs:69-73 | the lexer ends up after the white-space run |
| XssLexer.Lexer.SkipComment | XSS/Lexer.cs:75-81 | the lexer ends up at the end of the comment |
| XssLexer.Lexer.Interger | XSS/Lexer.cs:83-118 | the method reads the number the specification reads, fails when it fails with the same error, and leaves the lexer where it says |
| XssLexer.Lexer.Char | XSS/Lexer.cs:120-132 | the method reads the char literal the specification reads, or fails with the same error |
| XssLexer.Lexer.String | XSS/Lexer.cs:134-149 | the method reads the string literal the specification reads, or fails with the same error |
| XssLexer.Lexer.Ident | XSS/Lexer.cs:151-215 | the method reads the word the specification reads and leaves the lexer after it |
| XssLexer.Lexer.ScanToken | XSS/Lexer.cs:239-400 | the token branches of the loop read the token the specification reads, or fail with the same error |
| XssLexer.Lexer.Step | XSS/Lexer.cs:219-400 | a pass of the loop either skips forward without changing the next token, or finishes with the specification's token or error |
| XssLexer.Lexer.GetNextToken | XSS/Lexer.cs:217-403 | the loop gives the specification's next token and new state, or fails with its error |
| XssLexer.Lexer.PeekNextToken | XSS/Lexer.cs:405-409 | peeking gives the next token the specification reads, through a copy, so the lexer is unchanged |
| XssGrammar.Next | XSS/Parser.cs:41 | reading the next token moves one place on, unless the current token is EOF, and surfaces the lexer's exception when that is what comes next |
| XssGrammar.Eat | XSS/Parser.cs:37-47 | eating fails with "expecting k" exactly when the current token is not of kind k, and otherwise moves on to the next token |
| XssGrammar.Peek | XSS/Parser.cs:355 | the peeked kind is that of the token after the current one, and EOF at the end of the stream |
| XssGrammar.Factor | XSS/Parser.cs:49-96 | a literal, name or type token becomes an operand and the parser moves one token on; a token that can start no factor is an invalid token |
| XssGrammar.Unary | XSS/Parser.cs:98-164 | `-` and `not` take exactly one operand token of the kinds they allow and build a unary node of it; `typeof` takes a factor; a token that starts no unary is an invalid token |
| XssGrammar.RightLevel | XSS/Parser.cs:166-317 | each precedence level reads its right operands at a tighter level (Multiplication at the bare unary level) |
| XssGrammar.Level | XSS/Parser.cs:166-317 | a precedence level moves forward and stops at a token that is not one of its operators |
| XssGrammar.LevelTail | XSS/Parser.cs:174-182 | the operator loop of a level stops at a token that is not one of its operators, and returns the left operand untouched when there is none |
| XssGrammar.TypeIdentify | XSS/Parser.cs:319-333 | an `or` expression, with at most one `is` after it, moves the parser forward |
| XssGrammar.AssignmentOf | XSS/Parser.cs:335-347 | an assignment node holds the name token it started at |
| XssGrammar.Expression | XSS/Parser.cs:349-364 | an expression is an assignment exactly when the token after the current one is `=`, and a type-identify expression otherwise; a failing lookahead is the error |
| XssGrammar.ExpressionStatementOf | XSS/Parser.cs:366-375 | an expression statement is built from an expression and a `;` |
| XssGrammar.VariableDeclareOf | XSS/Parser.cs:377-396 | a declaration starts at `var` and builds a declaration node |
| XssGrammar.Initializer | XSS/Parser.cs:387-392 | a declaration has an initializer exactly when `=` follows the name, and nothing is read otherwise |
| XssGrammar.StatementOf | XSS/Parser.cs:492-513 | a statement moves the parser forward |
| XssGrammar.BlockOf | XSS/Parser.cs:398-413 | a block is built from `{`, statements and `}` |
| XssGrammar.BlockItems | XSS/Parser.cs:406-412 | the statement loop of a block ends after its `}` |
| XssGrammar.Head | XSS/Parser.cs:420-423 | the head of an if, a while and a match starts at its keyword |
| XssGrammar.IfOf | XSS/Parser.cs:415-434 | an if statement is built from its head, its body and an optional else |
| XssGrammar.WhileOf | XSS/Parser.cs:436-448 | a while statement is built from its head and its body |
| XssGrammar.MatchOf | XSS/Parser.cs:450-490 | a match statement is built from its head and its arms |
| XssGrammar.MatchArms | XSS/Parser.cs:463-487 | the arm loop keeps the subject and ends after `}`; a second `_` arm raises "more than one default case" |
| XssGrammar.ArmOf | XSS/Parser.cs:465-485 | an arm is the default exactly when it starts with `_`, and otherwise a TYPE arm |
| XssGrammar.ArmsContinue | XSS/Parser.cs:463-486 | after an arm the loop goes on, with the default set by a `_` arm or the case appended by a TYPE arm |
| XssGrammar.ArmsFail | XSS/Parser.cs:463-486 | an arm that fails makes the whole loop fail with its error |
| XssGrammar.ProgramItems | XSS/Parser.cs:518-521 | the statement loop of the program gives a block |
| XssGrammar.Parse | XSS/Parser.cs:16-20 | a lexing error on the first token is the constructor's error, and a parsed program is one block |
| XssGrammarFacts.LevelsDisjoint | XSS/Parser.cs:166-317 | no operator kind belongs to two precedence levels |
| XssGrammarFacts.OperandClimbs | XSS/Parser.cs:49-317 | an operand followed by no operator of the levels up to the one asked is parsed there as itself |
| XssGrammarFacts.LevelLift | XSS/Parser.cs:166-317 | a tree a level has finished is left alone by the looser levels when none of their operators follows |
| XssGrammarFacts.LevelTailFolds | XSS/Parser.cs:174-182 | the loop of every level is a left fold: each further operator and operand make the tree so far the left child |
| XssGrammarFacts.LevelTailStep | XSS/Parser.cs:174-180 | one turn of a level's loop joins the operator and the right operand to the tree |
| XssGrammarFacts.ExpressionOfTree | XSS/Parser.cs:319-364 | a tree of the `or` level with no `is` after it, not started by an assignment, is the expression |
| XssGrammarFacts.StatementOfExpression | XSS/Parser.cs:366-375 | an expression ended by `;`, not starting with a statement keyword, is an expression statement |
| XssGrammarFacts.SingleStatementProgram | XSS/Parser.cs:515-524 | a program of one statement followed by the last token before EOF is the block of that statement |
| XssGrammarFacts.OneExpressionProgram | XSS/Parser.cs:366-375 | a program of one expression and its `;` is the block of that expression statement |
| XssGrammarFacts.OneTreeProgram | XSS/Parser.cs:319-375 | a program of one operand-led tree and its `;` is the block of that expression statement |
| XssGrammarFacts.TreeWithoutSemicolon | XSS/Parser.cs:373 | an operand-led tree not followed by `;` or `is` is rejected as expecting `;` |
| XssGrammarFacts.MissingSemicolon | XSS/Parser.cs:373 | a program whose first expression is not followed by `;` is rejected as expecting `;` |
| XssGrammarFacts.TwoOperatorsFold | XSS/Parser.cs:166-317 | at its own level, `x o1 y o2 z` is `(x o1 y) o2 z` |
| XssGrammarFacts.BinaryChainNestsLeft | XSS/Parser.cs:166-317 | the statement `x o1 y o2 z ;` with two operators of any one level parses as the left-nested tree in a one-statement block |
| XssGrammarFacts.MultiplicationTakesUnary | XSS/Parser.cs:185-203 | `x * y ^ z ;` is rejected, because the right operand of `*` is a bare unary and the `^` is left over |
| XssGrammarFacts.SecondIsRejected | XSS/Parser.cs:319-333 | `x is T1 is T2 ;` is rejected, because only one `is` is read |
| XssGrammarFacts.AssignmentStep | XSS/Parser.cs:335-347 | a name, `=` and an expression are an assignment of that expression to the name |
| XssGrammarFacts.AssignmentNestsRight | XSS/Parser.cs:335-364 | `x = y = z ;` assigns `z` to `y` and that to `x` |
| XssGrammarFacts.AssignmentNeedsName | XSS/Parser.cs:341-342 | `=` after a first token that is not a name is rejected as expecting an identifier |
| XssGrammarFacts.DeclarationWithoutInitializer | XSS/Parser.cs:377-396 | `var x ;` declares `x` with no initializer |
| XssGrammarFacts.BlockStep | XSS/Parser.cs:406-409 | one turn of the block loop appends the statement read |
| XssGrammarFacts.BlockKeepsOrder | XSS/Parser.cs:403-412 | the statements of a block are kept in the order they are read |
| XssGrammarFacts.MatchKeepsOrder | XSS/Parser.cs:461-489 | the cases of a match are kept in the order they are read, and a default case once read stays |
| XssGrammarFacts.ProgramStep | XSS/Parser.cs:518-521 | one turn of the program loop appends the statement read |
| XssGrammarFacts.ProgramKeepsOrder | XSS/Parser.cs:517-523 | the statements of a program are kept in the order they are read |
| XssGrammarFacts.LastTokenIgnored | XSS/Parser.cs:518 | the program loop stops as soon as the token after the current one is EOF |
| XssGrammarFacts.OneTokenProgram | XSS/Parser.cs:515-524 | a program of one token, or none, is the empty block, whatever the token |
| XssGrammarFacts.TrailingTokenDropped | XSS/Parser.cs:515-524 | `x ; y` reads `x ;` and drops the trailing `y` |
| XssParser.Parser.constructor | XSS/Parser.cs:16-20 | a new parser stands on the first token of the lexer's stream |
| XssParser.Parser.ReadNext | XSS/Parser.cs:41 | reading the next token moves the parser as the grammar's step says, or surfaces the lexer's error |
| XssParser.Parser.Eat | XSS/Parser.cs:37-47 | `Eat` moves the parser exactly as the grammar's `Eat` says, failing with the same error |
| XssParser.Parser.PeekNextToken | XSS/Parser.cs:355 | peeking gives the grammar's lookahead and changes nothing |
| XssParser.Parser.Factor | XSS/Parser.cs:49-96 | the method builds the grammar's factor and leaves the parser after it, or fails as the grammar does |
| XssParser.Parser.Unary | XSS/Parser.cs:98-164 | the method builds the grammar's unary and leaves the parser after it, or fails as the grammar does |
| XssParser.Parser.Level | XSS/Parser.cs:166-317 | each of the eight precedence methods with its `while` loop builds the grammar's tree for its level |
| XssParser.Parser.TypeIdentify | XSS/Parser.cs:319-333 | the method agrees with the grammar's type-identify expression |
| XssParser.Parser.Assignment | XSS/Parser.cs:335-347 | the method agrees with the grammar's assignment |
| XssParser.Parser.Expression | XSS/Parser.cs:349-364 | the method agrees with the grammar's expression, choosing by the lookahead |
| XssParser.Parser.ExpressionStatement | XSS/Parser.cs:366-375 | the method agrees with the grammar's expression statement |
| XssParser.Parser.VariableDeclare | XSS/Parser.cs:377-396 | the method agrees with the grammar's declaration |
| XssParser.Parser.Block | XSS/Parser.cs:398-413 | the method with its statement loop agrees with the grammar's block |
| XssParser.Parser.Head | XSS/Parser.cs:420-423 | the head of if, while and match agrees with the grammar's |
| XssParser.Parser.IfStatement | XSS/Parser.cs:415-434 | the method agrees with the grammar's if statement |
| XssParser.Parser.WhileStatement | XSS/Parser.cs:436-448 | the method agrees with the grammar's while statement |
| XssParser.Parser.MatchStatement | XSS/Parser.cs:450-490 | the method with its arm loop agrees with the grammar's match statement |
| XssParser.Parser.Arm | XSS/Parser.cs:465-485 | one turn of the arm loop agrees with the grammar's arm |
| XssParser.Parser.Statement | XSS/Parser.cs:492-513 | the method agrees with the grammar's statement |
| XssParser.Parser.Parse | XSS/Parser.cs:515-524 | the program loop gives the grammar's program |
| XssParser.ParseItems | XSS/Parser.cs:16-20 | constructing a parser on a token stream and parsing gives the grammar's result, a lexing error on the first token included |
| XssEvaluation.VisitPushesOnly | XSS/Visitor/Interpreter.cs:192-274 | the visit methods only push onto the evaluation stack: what a node pushes does not depend on what lies beneath |
| XssEvaluation.VisitFromPushesOnly | XSS/Visitor/Interpreter.cs:268-274 | the statements of a block likewise only push |
| XssEvaluation.CallTarget | XSS/Visitor/Interpreter.cs:1181-1183 | the cast of a FunctionCall stack value back to a call node succeeds exactly on a call node, giving its name and parameters |
| XssEvaluation.FunctionOf | XSS/Visitor/Interpreter.cs:1144 | `as NativeFunction` gives a declaration exactly when the scope entry is a function |
| XssEvaluation.AssignStep | XSS/Visitor/Interpreter.cs:1202-1213 | the assignment branch pushes a resolved value, never an identifier |
| XssEvaluation.DeclareStep | XSS/Visitor/Interpreter.cs:1214-1224 | the declaration branch pushes a resolved value, never an identifier |
| XssEvaluation.Evaluate | XSS/Visitor/Interpreter.cs:401-1244 | a value `Evaluate` returns is always resolved, never an identifier |
| XssEvaluation.Reduce | XSS/Visitor/Interpreter.cs:1176-1243 | a value the reduction loop returns is never an identifier |
| XssEvaluation.Proceed | XSS/Visitor/Interpreter.cs:1176-1241 | after a pass, the loop returns only resolved values |
| XssEvaluation.ReduceStep | XSS/Visitor/Interpreter.cs:1178-1240 | a pass that returns, returns a resolved value |
| XssEvaluation.ReduceOperands | XSS/Visitor/Interpreter.cs:1185-1239 | the pass on a left operand that is not a call returns only resolved values |
| XssEvaluation.Call | XSS/Visitor/Interpreter.cs:1098-1161 | after a function call the current scope is the global one again |
| XssEvaluation.Invoke | XSS/Visitor/Interpreter.cs:1139-1157 | the call proper ends in the global scope |
| XssEvaluation.Enter | XSS/Visitor/Interpreter.cs:1146-1157 | the callee's body runs in a new scope; a body that returns ends in the global scope, and one that throws leaves the state it threw in |
| XssEvaluation.CallStopsAtArguments | XSS/Visitor/Interpreter.cs:1104-1136 | a call whose arguments raise raises that error |
| XssEvaluation.CallInvokes | XSS/Visitor/Interpreter.cs:1104-1155 | a call whose arguments evaluate invokes the callee on those values in the state they leave |
| XssEvaluation.Arguments | XSS/Visitor/Interpreter.cs:1104-1136 | the arguments give one value per parameter |
| XssEvaluation.Bind | XSS/Visitor/Interpreter.cs:1148-1151 | binding the parameters changes only the callee's own scope |
| XssEvaluation.FirstMatch | XSS/Visitor/Interpreter.cs:1305 | the first arm of the value's kind is chosen, and none exactly when no arm has that kind |
| XssEvaluationFacts.StepBinary | XSS/Visitor/Interpreter.cs:1176-1228 | a pass over value, value, operator (neither ASSIGN nor VAR) evaluates the binary operation on the two values and continues with the rest of the stack |
| XssEvaluationFacts.StepUnary | XSS/Visitor/Interpreter.cs:1187-1195 | a pass over a value followed by an operator evaluates the unary operation and continues with the rest |
| XssEvaluationFacts.StepAssign | XSS/Visitor/Interpreter.cs:1198-1213 | a pass over value, identifier, ASSIGN performs the assignment step on the current scope chain |
| XssEvaluationFacts.StepDeclare | XSS/Visitor/Interpreter.cs:1214-1224 | a pass over value, identifier, VAR performs the declaration step on the current scope chain |
| XssEvaluationFacts.ReduceLast | XSS/Visitor/Interpreter.cs:1230-1239 | a lone value on the stack is the result, resolved through the scope chain; a non-identifier is returned unchanged |
| XssEvaluationFacts.EvaluateReduces | XSS/Visitor/Interpreter.cs:1165-1176 | evaluating a node that pushes something runs the reduction loop on the reversed pushes |
| XssEvaluationFacts.ReduceContinues | XSS/Visitor/Interpreter.cs:1176-1241 | a pass that continues leaves the loop to go on with the new stack and scopes |
| XssEvaluationFacts.ReduceFails | XSS/Visitor/Interpreter.cs:1176-1241 | a pass that raises ends the loop with that error, in the state the pass threw in |
| XssEvaluationFacts.ReduceBinary | XSS/Visitor/Interpreter.cs:1198-1228 | a binary pass that succeeds replaces the two operands and the operator by the result on top of the rest of the stack |
| XssEvaluationFacts.VisitOperand | XSS/Visitor/Interpreter.cs:205-209 | visiting an operand pushes its stack value |
| XssEvaluationFacts.VisitBinary | XSS/Visitor/Interpreter.cs:192-197 | visiting a binary operation pushes the left side, then the right side, then the operator: postfix order |
| XssEvaluationFacts.ReduceBinaryUnder | XSS/Visitor/Interpreter.cs:1176-1228 | with two values below, a binary pass leaves those two and the result |
| XssEvaluationFacts.ReduceBinaryLast | XSS/Visitor/Interpreter.cs:1176-1239 | value, value, operator alone on the stack reduce to the operation's result with an empty stack |
| XssEvaluationFacts.ReduceTwoOperations | XSS/Visitor/Interpreter.cs:1176-1239 | the reversed postfix form of a left-nested pair of operations reduces to the second operation applied to the first's result |
| XssEvaluationFacts.LeftNestedPair | XSS/Visitor/Interpreter.cs:1165-1243 | a node that pushes `v1 v2 op1 v3 op2` evaluates to `(v1 op1 v2) op2 v3` |
| XssEvaluationFacts.VisitInt | XSS/Visitor/Interpreter.cs:205-209 | an integer literal pushes its Integer stack value |
| XssEvaluationFacts.DifferencePostfix | XSS/Visitor/Interpreter.cs:192-209 | `a - b` pushes a, b, MINUS |
| XssEvaluationFacts.SubtractionOperable | XSS/Visitor/Interpreter.cs:410-413 | integer subtraction gives the 32-bit wrapped difference |
| XssEvaluationFacts.SubtractionChainPostfix | XSS/Visitor/Interpreter.cs:192-209 | `(a - b) - c` pushes a, b, MINUS, c, MINUS |
| XssEvaluationFacts.SubtractionIsLeftAssociative | XSS/Visitor/Interpreter.cs:1165-1243 | `(a - b) - c` evaluates to the wrapped `(a - b) - c` |
| XssEvaluationFacts.ThreeIsChar | XSS/Visitor/Interpreter.cs:1199 | the integer 3 read back as a token kind is CHAR, the kind at ordinal 3 |
| XssEvaluationFacts.RightNestedPostfix | XSS/Visitor/Interpreter.cs:192-209 | `1 - (2 - 3)` pushes 1, 2, 3, MINUS, MINUS |
| XssEvaluationFacts.MisreadStep | XSS/Visitor/Interpreter.cs:1187-1228 | on the reversed stack of `1 - (2 - 3)` the first pass takes the operand 3 as an operator kind and fails, with the two minus operators still on the stack |
| XssEvaluationFacts.RightNestingIsMisread | XSS/Visitor/Interpreter.cs:1165-1243 | `1 - (2 - 3)` does not evaluate to 2: the loop, which reads three entries at a time, raises instead and leaves the two minus operators on the stack |
| XssEvaluationFacts.ReduceEmpty | XSS/Visitor/Interpreter.cs:1242 | popping the final value from an empty stack raises, and the scopes are kept |
| XssEvaluationFacts.VisitUnary | XSS/Visitor/Interpreter.cs:199-203 | visiting a unary operation pushes the operand's values and then the operator |
| XssEvaluationFacts.ReduceUnary | XSS/Visitor/Interpreter.cs:1190-1195 | value and operator alone on the stack reduce to the unary result, and raise when the operation pushes nothing |
| XssEvaluationFacts.UnaryOnOperand | XSS/Visitor/Interpreter.cs:1060-1097 | a unary operator on a literal evaluates to the unary operation's result, or its error |
| XssEvaluationFacts.NotOfIntegerFails | XSS/Visitor/Interpreter.cs:1086-1092 | `not` on an integer pushes nothing, so the final pop raises |
| XssEvaluationFacts.NothingPushedIsNull | XSS/Visitor/Interpreter.cs:1170-1173 | a node that pushes nothing evaluates to the Null value and leaves the state unchanged |
| XssEvaluationFacts.VisitDeclare | XSS/Visitor/Interpreter.cs:218-231 | a declaration pushes its initializer's values, the name as an identifier, then VAR |
| XssEvaluationFacts.VisitAssign | XSS/Visitor/Interpreter.cs:211-216 | an assignment pushes its right side's values, the name as an identifier, then ASSIGN |
| XssEvaluationFacts.DeclareStepResult | XSS/Visitor/Interpreter.cs:1214-1224 | declaring a name the current scope binds raises "already defined"; otherwise the name is bound to the value and the value is pushed |
| XssEvaluationFacts.AssignStepResult | XSS/Visitor/Interpreter.cs:1202-1213 | assigning a name the current scope does not bind raises "not defined"; otherwise only that binding of the current scope changes and the value is pushed |
| XssEvaluationFacts.StoreRuns | XSS/Visitor/Interpreter.cs:1165-1176 | an assignment or declaration of a literal runs the loop on value, identifier, operator |
| XssEvaluationFacts.StoreEvaluates | XSS/Visitor/Interpreter.cs:1198-1243 | the result of such a store is the result of its step |
| XssEvaluationFacts.DeclareEvaluates | XSS/Visitor/Interpreter.cs:1214-1243 | evaluating `var x = literal` is the declaration step |
| XssEvaluationFacts.AssignEvaluates | XSS/Visitor/Interpreter.cs:1202-1243 | evaluating `x = literal` is the assignment step |
| XssEvaluationFacts.ReduceStored | XSS/Visitor/Interpreter.cs:1198-1243 | a store pass that pushes a value ends the loop with that value |
| XssEvaluationFacts.DeclareLiteral | XSS/Visitor/Interpreter.cs:1214-1224 | `var x = literal` raises when x is bound locally, otherwise binds x to the literal, which reads back |
| XssEvaluationFacts.DeclareWithoutInitializer | XSS/Visitor/Interpreter.cs:218-231 | `var x` without initializer binds x to null, or raises when x is bound locally |
| XssEvaluationFacts.NullLiteralReadsBackAsString | XSS/Visitor/Interpreter.cs:83-84 | `var x = null` stores the text "null", because the null token carries that text as its value |
| XssEvaluationFacts.TypeLiteralCannotBeStored | XSS/Visitor/Interpreter.cs:85-86 | `var x = INT` raises: the boxed type name is not a value `ResolveStackValue` knows. The declaration made just before the read stays |
| XssEvaluationFacts.AssignLiteral | XSS/Visitor/Interpreter.cs:1202-1213 | `x = literal` raises when x is not bound locally, otherwise rebinds x in the current scope only |
| XssEvaluationFacts.DeclareFunction | XSS/Visitor/Interpreter.cs:1333-1343 | a function declaration raises on a name bound locally, otherwise binds the name to the function and leaves the stack alone |
| XssEvaluationFacts.ExecDeclares | XSS/Visitor/Interpreter.cs:1333-1343 | the same with fuel, both branches |
| XssEvaluationFacts.DefineLooksUp | XSS/Scope.cs:19-46 | a defined name looks up to its value and every other name to what it did |
| XssEvaluationFacts.EvaluateLiteral | XSS/Visitor/Interpreter.cs:1165-1239 | a literal evaluates to its own stack value with the state unchanged |
| XssEvaluationFacts.ExecWhileStep | XSS/Visitor/Interpreter.cs:1290-1300 | a while statement runs its loop |
| XssEvaluationFacts.WhileExit | XSS/Visitor/Interpreter.cs:1292 | the loop ends when its condition is not truthy |
| XssEvaluationFacts.WhileIterate | XSS/Visitor/Interpreter.cs:1292-1298 | a truthy condition runs the body and then the loop again |
| XssEvaluationFacts.WhileFalseSkipsBody | XSS/Visitor/Interpreter.cs:1290-1300 | `while false` leaves the state unchanged |
| XssEvaluationFacts.EvaluateLiteralNoFuel | XSS/Visitor/Interpreter.cs:1165-1239 | the fuel bound: with a single unit a literal cannot be evaluated |
| XssEvaluationFacts.WhileTrueNeverEnds | XSS/Visitor/Interpreter.cs:1292-1298 | `while true {}` runs out of every fuel bound |
| XssEvaluationFacts.MatchRunsFirstArm | XSS/Visitor/Interpreter.cs:1302-1309 | a match whose subject has an arm of its kind runs the first such arm |
| XssEvaluationFacts.MatchFallsToDefault | XSS/Visitor/Interpreter.cs:1310-1316 | a match with no arm of the subject's kind runs the default, or nothing when there is none |
| XssEvaluationFacts.BindDistinct | XSS/Visitor/Interpreter.cs:1148-1151 | binding distinct parameter names from an index on binds each remaining name to its argument |
| XssEvaluationFacts.CallBindsParameters | XSS/Visitor/Interpreter.cs:1146-1151 | a call's new scope binds exactly the parameter names to the argument values and the enclosing chain is untouched |
| XssEvaluationFacts.BindFailures | XSS/Visitor/Interpreter.cs:1144-1151 | a call with arguments raises when the callee is not a function, has no parameter list, or has fewer parameters than arguments |
| XssEvaluationFacts.VisitCall | XSS/Visitor/Interpreter.cs:238-241 | visiting a call pushes one FunctionCall stack value |
| XssEvaluationFacts.ReduceStepOfCall | XSS/Visitor/Interpreter.cs:1181-1184 | a pass whose first entry is a call performs the call |
| XssEvaluationFacts.CallPassMakesCall | XSS/Visitor/Interpreter.cs:1181-1184 | the call pass continues the loop in the state the call leaves |
| XssEvaluationFacts.CallWithoutArguments | XSS/Visitor/Interpreter.cs:1139-1155 | calling a function without arguments runs its body in a new empty scope |
| XssEvaluationFacts.ExecReturn | XSS/Visitor/Interpreter.cs:1319-1331 | `return e` pushes the value of e |
| XssEvaluationFacts.CallReturnsLiteral | XSS/Visitor/Interpreter.cs:1139-1157 | calling a function whose body is `return literal` leaves that literal on the stack, in the global scope |
| XssEvaluationFacts.EnterReturnsLiteral | XSS/Visitor/Interpreter.cs:1146-1157 | entering such a body leaves the literal on the stack and resets to the global scope |
| XssEvaluationFacts.CallReturnsThroughStack | XSS/Visitor/Interpreter.cs:1165-1243 | `f()` for such a function evaluates to the returned literal, the return value travelling over the evaluation stack |
| XssEvaluationFacts.CallValueReturns | XSS/Visitor/Interpreter.cs:1165-1243 | a call whose body leaves one value reduces to that value |
| XssEvaluationFacts.CallEvaluates | XSS/Visitor/Interpreter.cs:1165-1243 | evaluating a lone call continues the loop in the state the call leaves |
| XssEvaluationFacts.EvaluateLoneCall | XSS/Visitor/Interpreter.cs:1165-1176 | evaluating a lone call runs the loop on its one stack value |
| XssEvaluationFacts.LoneCallReduces | XSS/Visitor/Interpreter.cs:1176-1184 | the loop on a lone call continues after the call |
| XssEvaluationFacts.LeftoverSpoilsNextInput | XSS/Visitor/Interpreter.cs:1165-1195 | the operators left by the misread `1 - (2 - 3)` are read with the next input: `5` then raises the undefined-operation error, and the 5 is left on the stack in turn |
| XssEvaluationFacts.CallOfRaisingBodyKeepsScope | XSS/Visitor/Interpreter.cs:1153-1157 | `f()` whose body throws raises that error with the callee's new scope still current |
| XssEvaluationFacts.CallOfRaisingBody | XSS/Visitor/Interpreter.cs:1139-1157 | the call of such a function throws with the callee's scope current |
| XssEvaluationFacts.EnterRaising | XSS/Visitor/Interpreter.cs:1153-1157 | a callee whose body is `return;` throws a null reference in the state it was entered in |
| XssEvaluationFacts.LoneCallFails | XSS/Visitor/Interpreter.cs:1176-1184 | the loop on a lone call whose call throws ends with that exception |
| XssEvaluationFacts.EnterReleasing | XSS/Visitor/Interpreter.cs:1153-1157 | the callee with its scope released on every exit: afterwards one scope alone is current, whether the body returns or throws |
| XssEvaluationFacts.EnterReleasingAgrees | XSS/Visitor/Interpreter.cs:1153-1157 | the releasing callee is `Enter` when the body returns; when it throws, it has the same error, stack and outermost scope, without the callee's scopes |
| XssEvaluationFacts.ReleasingRaisingBody | XSS/Visitor/Interpreter.cs:1153-1157 | with the release, a callee body that throws leaves the global scope alone current |
| XssInterpreter.Interpreter.constructor | XSS/Visitor/Interpreter.cs:178-182 | a new interpreter has an empty stack and one empty global scope, which is current |
| XssInterpreter.Interpreter.WithEnvironment | XSS/Visitor/Interpreter.cs:184-189 | an interpreter over a given environment has an empty stack and that environment as its global and current scope |
| XssInterpreter.Interpreter.VisitNode | XSS/Visitor/Interpreter.cs:192-274 | the visit pushes exactly what `Visit` computes and leaves the scopes alone |
| XssInterpreter.Interpreter.ReverseStack | XSS/Visitor/Interpreter.cs:291-301 | the stack becomes its reverse; the scopes do not change |
| XssInterpreter.Interpreter.Evaluate | XSS/Visitor/Interpreter.cs:401-1244 | returns the value and leaves the stack and scopes that `XssEvaluation.Evaluate` gives; on an exception, raises its error and leaves the stack and scopes at the throw |
| XssInterpreter.Interpreter.RunReduction | XSS/Visitor/Interpreter.cs:1176-1243 | the loop over the reversed stack does what `Reduce` says |
| XssInterpreter.Interpreter.StepOnce | XSS/Visitor/Interpreter.cs:1178-1240 | one pass of the loop does what `ReduceStep` says |
| XssInterpreter.Interpreter.StepCall | XSS/Visitor/Interpreter.cs:1181-1184 | a pass over a call entry does what `ReduceStep` says |
| XssInterpreter.Interpreter.StepUnary | XSS/Visitor/Interpreter.cs:1187-1195 | a pass over a value and an operator does what `ReduceStep` says |
| XssInterpreter.Interpreter.StepTriple | XSS/Visitor/Interpreter.cs:1196-1235 | a pass over two values does what `ReduceStep` says, including the return of a lone value |
| XssInterpreter.Interpreter.StepOperation | XSS/Visitor/Interpreter.cs:1198-1228 | the branch on the popped operator (ASSIGN, VAR or binary) does what `Operation` says |
| XssInterpreter.Interpreter.Finish | XSS/Visitor/Interpreter.cs:1230-1239 | returning a lone operand resolves it and changes nothing |
| XssInterpreter.Interpreter.Store | XSS/Visitor/Interpreter.cs:1202-1224 | an assignment or a declaration does what `AssignStep` or `DeclareStep` says to the scopes and the stack |
| XssInterpreter.Interpreter.EvaluateFunctionCall | XSS/Visitor/Interpreter.cs:1098-1161 | a call does what `Call` says |
| XssInterpreter.Interpreter.CallWithFuel | XSS/Visitor/Interpreter.cs:1098-1161 | the same, once the fuel is known to be positive |
| XssInterpreter.Interpreter.InvokeCallee | XSS/Visitor/Interpreter.cs:1138-1157 | looking up the callee, binding the parameters and running the body do what `Invoke` says |
| XssInterpreter.Interpreter.RunCallee | XSS/Visitor/Interpreter.cs:1153-1157 | running the body in the new scope and resetting to the global scope do what `Enter` says; a body that throws raises its error with the callee's scope still current |
| XssInterpreter.Interpreter.ResolveArguments | XSS/Visitor/Interpreter.cs:1104-1136 | the argument loop gives the values and the state that `Arguments` gives |
| XssInterpreter.Interpreter.BindParameters | XSS/Visitor/Interpreter.cs:1146-1151 | the parameter loop builds the new scope that `Bind` gives |
| XssInterpreter.Interpreter.Execute | XSS/Visitor/Interpreter.cs:1247-1360 | a statement does what `Exec` says, leaving the stack and scopes it gives, on an exception too |
| XssInterpreter.Interpreter.ExecuteExpression | XSS/Visitor/Interpreter.cs:1252-1268 | a declaration or an expression statement is evaluated as `Exec` says |
| XssInterpreter.Interpreter.ExecuteReturn | XSS/Visitor/Interpreter.cs:1319-1331 | `return` pushes its value as `Exec` says |
| XssInterpreter.Interpreter.ExecuteFunctionDeclare | XSS/Visitor/Interpreter.cs:1333-1343 | a function declaration binds the function or raises as `Exec` says |
| XssInterpreter.Interpreter.ExecuteBlock | XSS/Visitor/Interpreter.cs:1269-1276 | the statements of a block run in order as `ExecFrom` says |
| XssInterpreter.Interpreter.ExecuteIf | XSS/Visitor/Interpreter.cs:1277-1289 | an if statement runs the branch its truthy condition picks, as `Exec` says |
| XssInterpreter.Interpreter.ExecuteWhile | XSS/Visitor/Interpreter.cs:1290-1300 | the while loop does what `ExecWhile` says |
| XssInterpreter.Interpreter.ExecuteMatch | XSS/Visitor/Interpreter.cs:1302-1317 | a match statement does what `Exec` says |
| SimpleLexer.RunEnd | simple_interpreter/Lexer.cs:43-77 | a scanning loop passes only non-NUL characters of its run and stops at NUL, the end, or the first character outside the run |
| SimpleLexer.SingleCharKind | simple_interpreter/Lexer.cs:105-151 | exactly the eight characters `= + - * / ^ ( )` are one-character tokens |
| SimpleLexer.NextTokenF | simple_interpreter/Lexer.cs:79-156 | a token other than EOF consumes at least one character; EOF has a null lexeme and is reported at NUL or the end of the text |
| SimpleLexer.Tokenize | simple_interpreter/Lexer.cs:79-156 | successive calls end with EOF or an error |
| SimpleLexer.RunEndFrom | simple_interpreter/Lexer.cs:43-77 | a scanning loop started inside a run ends where the run ends |
| SimpleLexer.WhiteSpaceSkipped | simple_interpreter/Lexer.cs:83-87 | lexing from inside leading white space gives what lexing after it gives |
| SimpleLexer.CommentSkipped | simple_interpreter/Lexer.cs:89-93 | a `;` comment runs to the line break or the end and is skipped |
| SimpleLexer.EofIsStable | simple_interpreter/Lexer.cs:81-155 | after EOF, lexing again gives EOF at the same position |
| SimpleLexer.IntegerToken | simple_interpreter/Lexer.cs:95-98 | a digit run is one INTERGER token of exactly the maximal run |
| SimpleLexer.IdentToken | simple_interpreter/Lexer.cs:100-103 | a letter starts an IDENT token over the maximal run of letters and digits |
| SimpleLexer.SingleCharacters | simple_interpreter/Lexer.cs:105-153 | each operator character is its own token; any other character raises an error naming it |
| SimpleLexer.Lexer.constructor | simple_interpreter/Lexer.cs:11-16 | on a non-empty text, the lexer starts at position 0 on the first character |
| SimpleLexer.NewLexer | simple_interpreter/Lexer.cs:11-16 | `new Lexer(t)` raises IndexOutOfRange on an empty line, and otherwise gives a fresh lexer at the start of `t` |
| SimpleLexer.Lex | simple_interpreter/Lexer.cs:11-16 | the token stream of a whole line ends with EOF or an error; an empty line gives the constructor's IndexOutOfRange alone |
| SimpleLexer.Lexer.Copy | simple_interpreter/Lexer.cs:18-23 | the copy has the same text and position |
| SimpleLexer.Lexer.Advance | simple_interpreter/Lexer.cs:30-41 | the position moves by one and the current character is NUL past the end |
| SimpleLexer.Lexer.Scan | simple_interpreter/Lexer.cs:43-77 | the loop stops at `RunEnd` |
| SimpleLexer.Lexer.SkipWhitespace | simple_interpreter/Lexer.cs:43-47 | skips to the end of the white-space run |
| SimpleLexer.Lexer.SkipComment | simple_interpreter/Lexer.cs:49-55 | skips to the line break or the end |
| SimpleLexer.Lexer.Interger | simple_interpreter/Lexer.cs:57-66 | returns the digit run and moves past it |
| SimpleLexer.Lexer.Ident | simple_interpreter/Lexer.cs:68-77 | returns the run of letters and digits and moves past it |
| SimpleLexer.Lexer.GetNextToken | simple_interpreter/Lexer.cs:79-156 | returns the token and stops at the position `NextTokenF` gives, or raises its error, in both directions |
| SimpleLexer.Lexer.PeekNextToken | simple_interpreter/Lexer.cs:158-162 | returns the next token without moving this lexer |
| SimpleGrammar.Next | simple_interpreter/Parser.cs:30 | reading the next token moves one position past any token but EOF, or raises the lexer's error at that position |
| SimpleGrammar.Eat | simple_interpreter/Parser.cs:26-36 | `Eat(k)` raises "Invalid syntax" on the current token exactly when it is not of kind k, and otherwise moves one token on |
| SimpleGrammar.Peek | simple_interpreter/Parser.cs:164 | the peeked kind is that of the token after the current one |
| SimpleGrammar.RightLevel | simple_interpreter/Parser.cs:83-138 | a level's right operands are parsed at a tighter level |
| SimpleGrammar.Factor | simple_interpreter/Parser.cs:38-63 | an integer or a name becomes an operand and moves one token on; a token that starts no factor raises "Invalid syntax" |
| SimpleGrammar.Level | simple_interpreter/Parser.cs:65-142 | a level that succeeds stops at a token that is not one of its operators |
| SimpleGrammar.LevelTail | simple_interpreter/Parser.cs:73-84 | the operator loop stops at a token outside its operators, and returns the tree unchanged when it starts at one |
| SimpleGrammar.AssignmentOf | simple_interpreter/Parser.cs:144-156 | an assignment's target is the name it started on |
| SimpleGrammar.Expression | simple_interpreter/Parser.cs:158-172 | an expression is an assignment exactly when the next token is `=`, and a level-3 expression otherwise |
| SimpleGrammarFacts.OperandClimbs | simple_interpreter/Parser.cs:38-142 | an integer or a name followed by no operator of the levels up to `level` parses at that level as itself |
| SimpleGrammarFacts.LevelLift | simple_interpreter/Parser.cs:65-142 | a looser level leaves a finished tree alone when no operator of its own follows |
| SimpleGrammarFacts.LevelTailFolds | simple_interpreter/Parser.cs:73-84 | the loop of every level is a left fold of the operators and operands it reads |
| SimpleGrammarFacts.LevelTailStep | simple_interpreter/Parser.cs:125-139 | one turn of a level's loop makes the tree so far the left operand of the new node |
| SimpleGrammarFacts.ParseOfTree | simple_interpreter/Parser.cs:158-177 | without `=` after the first token the parse is the level-3 expression |
| SimpleGrammarFacts.TwoOperatorsFold | simple_interpreter/Parser.cs:65-142 | `x o1 y o2 z` at its own level is `(x o1 y) o2 z` |
| SimpleGrammarFacts.BinaryChainNestsLeft | simple_interpreter/Parser.cs:65-177 | two operators of one level in a row nest to the left, at every level |
| SimpleGrammarFacts.MultiplicationLeavesExponent | simple_interpreter/Parser.cs:89-115 | `x * y ^ z` parses as `x * y`: the right operand of `*` is a bare factor, so the `^` is never read |
| SimpleGrammarFacts.AdditionTakesTerm | simple_interpreter/Parser.cs:117-142 | `x + y * z` parses as `x + (y * z)` |
| SimpleGrammarFacts.AssignmentsDoNotChain | simple_interpreter/Parser.cs:144-156 | `x = y = z` parses as `x = y`: the right side is a level-3 expression and the rest is ignored |
| SimpleGrammarFacts.TrailingTokensIgnored | simple_interpreter/Parser.cs:174-177 | `x y` parses as `x`: nothing asks for EOF after the expression |
| SimpleParser.Parser.constructor | simple_interpreter/Parser.cs:15-19 | the parser starts on the first token of the stream |
| SimpleParser.Parser.ReadNext | simple_interpreter/Parser.cs:30 | reading a token moves to the position `Next` gives, or raises its error |
| SimpleParser.Parser.Eat | simple_interpreter/Parser.cs:26-36 | `Eat` moves or raises as `SimpleGrammar.Eat` says |
| SimpleParser.Parser.PeekNextToken | simple_interpreter/Parser.cs:164 | the peeked kind is the one `Peek` gives and the parser does not move |
| SimpleParser.Parser.Factor | simple_interpreter/Parser.cs:38-63 | builds the tree, stops at the position, or raises the error that `SimpleGrammar.Factor` gives |
| SimpleParser.Parser.Level | simple_interpreter/Parser.cs:65-142 | each precedence level's loop builds what `SimpleGrammar.Level` gives |
| SimpleParser.Parser.Assignment | simple_interpreter/Parser.cs:144-156 | builds what `AssignmentOf` gives |
| SimpleParser.Parser.Expression | simple_interpreter/Parser.cs:158-172 | builds what `SimpleGrammar.Expression` gives |
| SimpleParser.Parser.Parse | simple_interpreter/Parser.cs:174-177 | one expression, as `SimpleGrammar.Expression` gives it |
| SimpleParser.ParseItems | simple_interpreter/Parser.cs:15-19 | constructing the parser and parsing gives `SimpleGrammar.Parse`, including a lexer error on the first token |
| SimpleAstInterpreter.Assigned | simple_interpreter/AST/Interpreter.cs:41-51 | `SetValue` binds the name to the value whether it was bound or not, keeps every other binding, and raises on a null name |
| SimpleAstInterpreter.Lookup | simple_interpreter/AST/Interpreter.cs:53-64 | `GetValue` gives the bound value, or 0 for an unbound name, which it then binds to 0; a null name raises |
| SimpleAstInterpreter.OperandValue | simple_interpreter/AST/Interpreter.cs:101-112 | an INTERGER is `int.Parse` of its lexeme, a name is looked up, and any other token is 0 |
| SimpleAstInterpreter.Arith | simple_interpreter/AST/Interpreter.cs:130-141 | `+ - *` wrap around 32 bits; `/` truncates toward zero, raises DivideByZero on a zero divisor and ArithmeticOverflow on int.MinValue / -1, and fails on no other input |
| SimpleAstInterpreter.Apply | simple_interpreter/AST/Interpreter.cs:128-151 | an arithmetic operator or `=` pushes a value, `^` raises, and any other operator pushes nothing |
| SimpleAstInterpreter.OperatorPass | simple_interpreter/AST/Interpreter.cs:130-148 | an operator pass that succeeds pushes its result |
| SimpleAstInterpreter.AssignPass | simple_interpreter/AST/Interpreter.cs:142-145 | an assignment pass that succeeds pushes the assigned value |
| SimpleAstInterpreter.Reduce | simple_interpreter/AST/Interpreter.cs:122-153 | the loop and the final pop leave an empty stack unless they raise |
| SimpleAstInterpreter.ReduceOnTop | simple_interpreter/AST/Interpreter.cs:122-151 | a pass pops operand1, operand2 and the operator from the top, in that order |
| SimpleAstInterpreter.Interpreter.constructor | simple_interpreter/AST/Interpreter.cs:30-34 | no variables, an empty stack |
| SimpleAstInterpreter.Interpreter.WithVariables | simple_interpreter/AST/Interpreter.cs:35-39 | the given variables, an empty stack |
| SimpleAstInterpreter.Interpreter.SetValue | simple_interpreter/AST/Interpreter.cs:41-51 | the variables become what `Assigned` gives |
| SimpleAstInterpreter.Interpreter.GetValue | simple_interpreter/AST/Interpreter.cs:53-64 | the value and the variables are those `Lookup` gives |
| SimpleAstInterpreter.Interpreter.Visit | simple_interpreter/AST/Interpreter.cs:70-87 | the tree's tokens go on the stack in postfix order |
| SimpleAstInterpreter.Interpreter.ReverseStack | simple_interpreter/AST/Interpreter.cs:89-99 | the stack becomes its reverse |
| SimpleAstInterpreter.Interpreter.Pop | simple_interpreter/AST/Interpreter.cs:124-126 | the top token is removed and returned; an empty stack raises |
| SimpleAstInterpreter.Interpreter.EvaluateOperand | simple_interpreter/AST/Interpreter.cs:101-112 | the value and the variables are those `OperandValue` gives |
| SimpleAstInterpreter.Interpreter.Push | simple_interpreter/AST/Interpreter.cs:114-117 | the int's INTERGER token goes on top |
| SimpleAstInterpreter.Interpreter.ApplyOperator | simple_interpreter/AST/Interpreter.cs:128-151 | the variables and the pushed token are those `Apply` gives |
| SimpleAstInterpreter.Interpreter.ReducePass | simple_interpreter/AST/Interpreter.cs:122-152 | one pass shrinks the stack and leaves the rest of the reduction unchanged, or raises what the reduction raises |
| SimpleAstInterpreter.Interpreter.Evaluate | simple_interpreter/AST/Interpreter.cs:119-154 | the result, the variables and the stack are those `Evaluation` gives |
| SimpleAstEvaluationFacts.PushThenRead | simple_interpreter/AST/Interpreter.cs:101-117 | the token `Push` makes reads back as the pushed int, for every int including negative ones and the minimum |
| SimpleAstEvaluationFacts.ReadAgain | simple_interpreter/AST/Interpreter.cs:101-112 | an operand read once reads the same value again after that value is assigned to a name |
| SimpleAstEvaluationFacts.ApplyFromValue | simple_interpreter/AST/Interpreter.cs:128-148 | for the operators that evaluate operand1 first, replacing operand1 by the token of its value changes nothing, and its error is the pass's error |
| SimpleAstEvaluationFacts.AssignPushesAssignedValue | simple_interpreter/AST/Interpreter.cs:142-145 | an assignment pass binds operand2's name to operand1's value and pushes that same value |
| SimpleAstEvaluationFacts.LeftChain | simple_interpreter/AST/Interpreter.cs:70-80 | a left-nested chain is an arithmetic tree |
| SimpleAstEvaluationFacts.Denote | simple_interpreter/AST/Interpreter.cs:101-148 | the reference value of an arithmetic tree, evaluated left then right; reading names only adds bindings |
| SimpleAstEvaluationFacts.LeafSettles | simple_interpreter/AST/Interpreter.cs:122-153 | a leaf on top of any admissible stack settles to its value |
| SimpleAstEvaluationFacts.LeafSettlesUnder | simple_interpreter/AST/Interpreter.cs:122-153 | a leaf on top of an operator and one more token settles to its value |
| SimpleAstEvaluationFacts.LastOperationSettles | simple_interpreter/AST/Interpreter.cs:122-151 | the last operation of a chain, on its left part's value, settles to the chain's value |
| SimpleAstEvaluationFacts.PassDenotes | simple_interpreter/AST/Interpreter.cs:128-141 | the pass of a chain's last operation computes the chain's reference value |
| SimpleAstEvaluationFacts.ChainReduces | simple_interpreter/AST/Interpreter.cs:119-154 | the reduction of a left chain comes to the chain's value pushed where it lay |
| SimpleAstEvaluationFacts.OperationSettles | simple_interpreter/AST/Interpreter.cs:119-154 | the inductive step: once the left part settles, the whole chain does |
| SimpleAstEvaluationFacts.ChainEvaluates | simple_interpreter/AST/Interpreter.cs:70-154 | a left chain evaluates to its reference value and leaves the variables the reference leaves |
| SimpleAstEvaluationFacts.AssignmentEvaluates | simple_interpreter/AST/Interpreter.cs:82-87 | `x = chain` evaluates to the chain's value and binds x to it |
| SimpleAstEvaluationFacts.AssignsPushedValue | simple_interpreter/AST/Interpreter.cs:142-153 | a value over a name and ASSIGN is assigned and is the result |
| SimpleAstEvaluationFacts.RightNestingFails | simple_interpreter/AST/Interpreter.cs:119-154 | `a op1 (b op2 c)` raises an empty-stack exception: the loop takes the operand c as an operator |
| SimpleAstEvaluationFacts.OperandAsOperator | simple_interpreter/AST/Interpreter.cs:149-150 | a pass whose operator is an operand pushes nothing and changes nothing |
| SimpleAstEvaluationFacts.OnePlusTwoTimesThree | simple_interpreter/AST/Interpreter.cs:119-154 | `1 + 2 * 3` is meant to be 7, and the calculator raises on it instead |
| SimpleAstEvaluationFacts.PostfixOfTree | simple_interpreter/AST/Interpreter.cs:70-80 | reading a tree's postfix tokens with an operand stack pushes its reference value |
| SimpleAstEvaluationFacts.OperatorStep | simple_interpreter/AST/Interpreter.cs:130-141 | an operator token replaces the top two operands by the operation's result |
| SimpleAstEvaluationFacts.PostfixEvaluationIsDenotation | simple_interpreter/AST/Interpreter.cs:70-154 | the corrected evaluation of the postfix tokens is the tree's value for every arithmetic tree |
| SimpleAstEvaluationFacts.CorrectedAgreesOnChains | simple_interpreter/AST/Interpreter.cs:119-154 | on left chains the corrected evaluation and the calculator agree |
| SimpleVisitorInterpreter.StackValueOf | simple_interpreter/Visitor/Interpreter.cs:30-58 | operators carry their kind and are the only operator values, STRING carries its text, any other non-literal token its lexeme as an identifier; only parsing an INTERGER, FLOAT, BOOL or CHAR lexeme can raise |
| SimpleVisitorInterpreter.CreateAll | simple_interpreter/Visitor/Interpreter.cs:139-162 | the visit creates the stack values of the postfix tokens in order and stops at the first that raises |
| SimpleVisitorInterpreter.Set | simple_interpreter/Visitor/Interpreter.cs:109-119 | `SetVariableValue` binds the name to the object whether it was bound or not, keeps every other binding, and raises on a null name |
| SimpleVisitorInterpreter.Get | simple_interpreter/Visitor/Interpreter.cs:121-132 | `GetVariableValue` gives the bound object, or null for an unbound name, which it then binds to null; a null name raises |
| SimpleVisitorInterpreter.AsString | simple_interpreter/Visitor/Interpreter.cs:203 | the cast to string succeeds exactly on a string or null |
| SimpleVisitorInterpreter.UnboxInt | simple_interpreter/Visitor/Interpreter.cs:268-269 | the cast to int succeeds exactly on a boxed int or enum and gives its number; null raises a null reference |
| SimpleVisitorInterpreter.UnboxBool | simple_interpreter/Visitor/Interpreter.cs:184-185 | the cast to bool succeeds exactly on a boxed bool |
| SimpleVisitorInterpreter.UnboxAs | simple_interpreter/Visitor/Interpreter.cs:182-187 | the casts to float and char succeed exactly on an object of that type |
| SimpleVisitorInterpreter.Evaluated | simple_interpreter/Visitor/Interpreter.cs:176-197 | `EvaluateOperand` unboxes a literal's payload as its kind, reads an identifier's variable, gives null for Null and 0 otherwise, and only an identifier changes the variables |
| SimpleVisitorInterpreter.RuntimeKind | simple_interpreter/Visitor/Interpreter.cs:205-228 | the kind tests classify every object exactly once, with Integer for whatever is not null, float, bool, char or string |
| SimpleVisitorInterpreter.Resolve | simple_interpreter/Visitor/Interpreter.cs:199-234 | a non-identifier is returned unchanged; an identifier becomes its variable's object with the kind of its runtime type, never an identifier |
| SimpleVisitorInterpreter.IntegerOperation | simple_interpreter/Visitor/Interpreter.cs:266-283 | both payloads are cast to int, the first first; `+ - *` wrap, and `/` raises exactly on a zero divisor or the overflowing `MIN / -1` |
| SimpleVisitorInterpreter.FloatOperand | simple_interpreter/Visitor/Interpreter.cs:287-288 | reading a float operand succeeds on a float or a boxed int |
| SimpleVisitorInterpreter.FloatFailure | simple_interpreter/Visitor/Interpreter.cs:285-304 | a float operation raises the first operand's cast error, then the second's; otherwise its float result is not modelled |
| SimpleVisitorInterpreter.StringOperation | simple_interpreter/Visitor/Interpreter.cs:306-317 | both payloads are turned to text, the first first; `+` joins them and any other operator gives "" |
| SimpleVisitorInterpreter.IntegerEffect | simple_interpreter/Visitor/Interpreter.cs:363 | pushes the integer result, or raises its error |
| SimpleVisitorInterpreter.ConcatEffect | simple_interpreter/Visitor/Interpreter.cs:389-412 | `+` pushes the joined text; any other operator raises undefined behaviour |
| SimpleVisitorInterpreter.SameKinds | simple_interpreter/Visitor/Interpreter.cs:352-413 | the switch on two operands of one kind: integer arithmetic, `^` and floats raise as not modelled, text concatenates, and the rest pushes nothing |
| SimpleVisitorInterpreter.MixedKinds | simple_interpreter/Visitor/Interpreter.cs:414-502 | the switch on two kinds: int with char computes on ints, int and float mix as floats, char and bool on the left raise, string concatenates, null pushes null |
| SimpleVisitorInterpreter.UnaryEffect | simple_interpreter/Visitor/Interpreter.cs:506-534 | `-` negates an int with wrap-around, `not` negates a bool, a float negation is not modelled, and anything else pushes nothing; the result keeps the operand's kind |
| SimpleVisitorInterpreter.Assign | simple_interpreter/Visitor/Interpreter.cs:557-564 | an assignment that succeeds pushes a value |
| SimpleVisitorInterpreter.Reduce | simple_interpreter/Visitor/Interpreter.cs:544-569 | the loop and the final pop leave an empty stack unless they raise |
| SimpleVisitorInterpreter.Continue | simple_interpreter/Visitor/Interpreter.cs:544-569 | after a pass, the rest of the loop leaves an empty stack unless it raises |
| SimpleVisitorInterpreter.ReduceBinaryOnTop | simple_interpreter/Visitor/Interpreter.cs:555-567 | a binary pass pops operand1, operand2 and the operator from the top; an operator that is not a token kind raises |
| SimpleVisitorInterpreter.ReduceUnaryOnTop | simple_interpreter/Visitor/Interpreter.cs:547-554 | an operator under the top value makes a unary pass over the two |
| SimpleVisitorInterpreter.Interpreter.constructor | simple_interpreter/Visitor/Interpreter.cs:98-102 | no variables, an empty stack |
| SimpleVisitorInterpreter.Interpreter.WithVariables | simple_interpreter/Visitor/Interpreter.cs:103-107 | the given variables, an empty stack |
| SimpleVisitorInterpreter.Interpreter.SetVariableValue | simple_interpreter/Visitor/Interpreter.cs:109-119 | the variables become what `Set` gives |
| SimpleVisitorInterpreter.Interpreter.GetVariableValue | simple_interpreter/Visitor/Interpreter.cs:121-132 | the object and the variables are those `Get` gives |
| SimpleVisitorInterpreter.Interpreter.PushToken | simple_interpreter/Visitor/Interpreter.cs:154 | pushes the token's stack value or raises |
| SimpleVisitorInterpreter.Interpreter.Visit | simple_interpreter/Visitor/Interpreter.cs:139-162 | pushes what `Visited` gives, up to the first exception |
| SimpleVisitorInterpreter.Interpreter.VisitBinary | simple_interpreter/Visitor/Interpreter.cs:139-144 | the left operand, then the right one, then the operator |
| SimpleVisitorInterpreter.Interpreter.VisitAssignment | simple_interpreter/Visitor/Interpreter.cs:157-162 | the right side, then the name, then ASSIGN |
| SimpleVisitorInterpreter.Interpreter.VisitThen | simple_interpreter/Visitor/Interpreter.cs:146-150 | an operand and then its operator |
| SimpleVisitorInterpreter.Interpreter.ReverseStack | simple_interpreter/Visitor/Interpreter.cs:164-174 | the stack becomes its reverse |
| SimpleVisitorInterpreter.Interpreter.Pop | simple_interpreter/Visitor/Interpreter.cs:546-547 | the top value is removed and returned; an empty stack raises |
| SimpleVisitorInterpreter.Interpreter.Push | simple_interpreter/Visitor/Interpreter.cs:236-264 | the value goes on top |
| SimpleVisitorInterpreter.Interpreter.EvaluateOperand | simple_interpreter/Visitor/Interpreter.cs:176-197 | the object and the variables are those `Evaluated` gives |
| SimpleVisitorInterpreter.Interpreter.ResolveStackValue | simple_interpreter/Visitor/Interpreter.cs:199-234 | the value and the variables are those `Resolve` gives |
| SimpleVisitorInterpreter.Interpreter.Perform | simple_interpreter/Visitor/Interpreter.cs:236-264 | pushes what the operation gives, or raises its exception |
| SimpleVisitorInterpreter.Interpreter.EvaluateBinaryOperation | simple_interpreter/Visitor/Interpreter.cs:348-504 | does what `Binary` says |
| SimpleVisitorInterpreter.Interpreter.EvaluateUnaryOperation | simple_interpreter/Visitor/Interpreter.cs:506-534 | does what `Unary` says |
| SimpleVisitorInterpreter.Interpreter.Assignment | simple_interpreter/Visitor/Interpreter.cs:559-564 | does what `Assign` says |
| SimpleVisitorInterpreter.Interpreter.ReducePass | simple_interpreter/Visitor/Interpreter.cs:544-569 | one pass shrinks the stack and leaves the rest of the reduction unchanged, or raises what the reduction raises |
| SimpleVisitorInterpreter.Interpreter.UnaryPass | simple_interpreter/Visitor/Interpreter.cs:549-554 | the same for a unary pass |
| SimpleVisitorInterpreter.Interpreter.BinaryPass | simple_interpreter/Visitor/Interpreter.cs:555-567 | the same for a binary or assignment pass |
| SimpleVisitorInterpreter.Interpreter.Evaluate | simple_interpreter/Visitor/Interpreter.cs:536-766 | the result, the variables and the stack are those `Evaluation` gives |
| SimpleVisitorEvaluationFacts.IntegerOperationIsArith | simple_interpreter/Visitor/Interpreter.cs:266-283 | on two ints the second evaluator's arithmetic is the first one's |
| SimpleVisitorEvaluationFacts.IntegersCombine | simple_interpreter/Visitor/Interpreter.cs:356-369 | two ints: `+ - * /` push the C# `int` result or raise, `^` goes through the float operation, other operators push nothing |
| SimpleVisitorEvaluationFacts.UnboundNameIsNull | simple_interpreter/Visitor/Interpreter.cs:121-132 | reading an unbound name binds it to null and the name resolves to Null |
| SimpleVisitorEvaluationFacts.BoundIntResolves | simple_interpreter/Visitor/Interpreter.cs:199-234 | a name bound to an int resolves to that int and changes nothing |
| SimpleVisitorEvaluationFacts.StoredValueReadsBack | simple_interpreter/Visitor/Interpreter.cs:199-234 | a null, float, bool, char or string in a variable reads back with its own kind |
| SimpleVisitorEvaluationFacts.TextConcatenates | simple_interpreter/Visitor/Interpreter.cs:389-412 | `+` on two chars, two strings, or a string and an int or char joins their texts; any other operator on them raises |
| SimpleVisitorEvaluationFacts.KindRules | simple_interpreter/Visitor/Interpreter.cs:384-502 | two bools push nothing, Null on the left pushes Null, char or bool with another kind raises, int with a non-number raises, and int with char raises an invalid cast |
| SimpleVisitorEvaluationFacts.IntegerNegation | simple_interpreter/Visitor/Interpreter.cs:511-517 | `-` negates an int and wraps `int.MinValue` to itself; other operators on an int push nothing |
| SimpleVisitorEvaluationFacts.OtherUnaryRules | simple_interpreter/Visitor/Interpreter.cs:525-534 | `not` negates a bool, and every other kind and operator pushes nothing |
| SimpleVisitorEvaluationFacts.AssignmentBindsAndPushes | simple_interpreter/Visitor/Interpreter.cs:559-564 | ASSIGN binds the name to the value's object and pushes the name resolved to it |
| SimpleVisitorEvaluationFacts.EndsOfEvaluation | simple_interpreter/Visitor/Interpreter.cs:538-541 | an empty stack evaluates to null; a single value is returned as its raw object, so a lone `+` reads as 0 |
| SimpleVisitorEvaluationFacts.CreateAllAppends | simple_interpreter/Visitor/Interpreter.cs:139-162 | creating the values of two token sequences in a row is the one after the other |
| SimpleVisitorEvaluationFacts.VisitedIsCreation | simple_interpreter/Visitor/Interpreter.cs:139-162 | the visit creates the values of the tree's tokens in postfix order, up to the first that raises |
| SimpleVisitorEvaluationFacts.LeftChain | simple_interpreter/Visitor/Interpreter.cs:139-144 | a left chain is an arithmetic tree |
| SimpleVisitorEvaluationFacts.TokenPushes | simple_interpreter/Visitor/Interpreter.cs:30-58 | an operator pushes its kind, a name its text as an identifier, and an int literal its parsed int |
| SimpleVisitorEvaluationFacts.LeafPushes | simple_interpreter/Visitor/Interpreter.cs:152-155 | a leaf pushes one value, which resolves and reads as its int |
| SimpleVisitorEvaluationFacts.ArithmeticVisits | simple_interpreter/Visitor/Interpreter.cs:139-155 | an arithmetic tree's visit raises nothing and an operation pushes its operands' values and then its operator |
| SimpleVisitorEvaluationFacts.ReducesAsItsInt | simple_interpreter/Visitor/Interpreter.cs:544-569 | a value that resolves and reads as an int reduces as that int |
| SimpleVisitorEvaluationFacts.LeafSettles | simple_interpreter/Visitor/Interpreter.cs:544-566 | a leaf on top of any stack settles to its int |
| SimpleVisitorEvaluationFacts.LastOperationSettles | simple_interpreter/Visitor/Interpreter.cs:555-567 | the last operation of a chain, on its left part's int, settles to the chain's value |
| SimpleVisitorEvaluationFacts.ChainReduces | simple_interpreter/Visitor/Interpreter.cs:544-569 | the reduction of a left chain comes to its int pushed where it lay |
| SimpleVisitorEvaluationFacts.ChainStepSettles | simple_interpreter/Visitor/Interpreter.cs:544-569 | the inductive step: once the left part settles, the chain does |
| SimpleVisitorEvaluationFacts.ChainEvaluates | simple_interpreter/Visitor/Interpreter.cs:536-766 | visiting a left chain and evaluating gives its value and changes no variable |
| SimpleVisitorEvaluationFacts.SettledEvaluation | simple_interpreter/Visitor/Interpreter.cs:536-766 | values that settle on an empty stack evaluate to the settled int |
| SimpleVisitorEvaluationFacts.AssignmentEvaluates | simple_interpreter/Visitor/Interpreter.cs:157-162 | `x = chain` evaluates to the chain's value and binds x to it |
| SimpleVisitorEvaluationFacts.AssignmentOfInt | simple_interpreter/Visitor/Interpreter.cs:559-564 | an int over a name and ASSIGN is bound to the name and is the result |
| SimpleVisitorEvaluationFacts.AssignmentPushes | simple_interpreter/Visitor/Interpreter.cs:157-162 | the visit of `x = e` pushes e's values, then the name, then ASSIGN |
| SimpleVisitorEvaluationFacts.RightNestingTakesOperandForOperator | simple_interpreter/Visitor/Interpreter.cs:555-567 | the first pass over `a op1 (b op2 c)` computes `a` with `b` under the operator whose number is c |
| SimpleVisitorEvaluationFacts.OnePlusTwoTimesSeven | simple_interpreter/Visitor/Interpreter.cs:536-766 | `1 + 2 * 7` is meant to be 15 and evaluates to 0: the 7 is read as the operator numbered 7, which is `+` in the `XSS.Compiler/Token.cs` numbering the model adopts |
| SimpleVisitorEvaluationFacts.OnePlusTwoTimesSevenEvaluates | simple_interpreter/Visitor/Interpreter.cs:536-766 | the calculator's result for `1 + 2 * 7` is 0 under the adopted token numbering |
| SimpleVisitorEvaluationFacts.SumBeforeProduct | simple_interpreter/Visitor/Interpreter.cs:536-766 | `a + b * c` with c the number of `+` evaluates to 0 whenever `a + b` does not raise |
| SimpleVisitorEvaluationFacts.OnePlusTwoTimesSevenDenotes | simple_interpreter/Visitor/Interpreter.cs:139-144 | the tree of `1 + 2 * 7` stands for 15 |
| SimpleVisitorEvaluationFacts.RightNestedDenotes | simple_interpreter/Visitor/Interpreter.cs:139-144 | `a op1 (b op2 c)` stands for `b op2 c`, then `a op1` that |
| SimpleVisitorEvaluationFacts.TimesLeavesPlus | simple_interpreter/Visitor/Interpreter.cs:549-554 | after `1 + 2`, `*` is a unary pass on the sum that pushes nothing, and the `+` left alone reads as 0 |
| SimpleVisitorEvaluationFacts.UnaryLeavesNothing | simple_interpreter/Visitor/Interpreter.cs:549-554 | a unary pass that pushes nothing just removes its two values |
| SimpleVisitorEvaluationFacts.PlusAloneReadsZero | simple_interpreter/Visitor/Interpreter.cs:765 | an operator alone on the stack is read as its number |
| SimpleVisitorEvaluationFacts.CorrectedTakesOperand | simple_interpreter/Visitor/Interpreter.cs:544-569 | the corrected reading puts a non-operator on the operand stack |
| SimpleVisitorEvaluationFacts.SettledReads | simple_interpreter/Visitor/Interpreter.cs:199-234 | what a tree leaves on the operand stack resolves and reads as its int |
| SimpleVisitorEvaluationFacts.OperatorOnSettled | simple_interpreter/Visitor/Interpreter.cs:348-369 | an operator on two settled trees pushes the int arithmetic's result |
| SimpleVisitorEvaluationFacts.CorrectedPass | simple_interpreter/Visitor/Interpreter.cs:348-504 | an arithmetic operator over two operands goes on with what the interpreter's operation gives |
| SimpleVisitorEvaluationFacts.CorrectedOfTree | simple_interpreter/Visitor/Interpreter.cs:139-162 | reading a tree's values leaves it settled on the operand stack, or raises what its value raises |
| SimpleVisitorEvaluationFacts.CorrectedOfOperation | simple_interpreter/Visitor/Interpreter.cs:139-144 | the operation case: the left part, the right part, then the operator |
| SimpleVisitorEvaluationFacts.CorrectedIsDenotation | simple_interpreter/Visitor/Interpreter.cs:536-766 | the corrected evaluation of the visit gives every arithmetic tree's value and changes no variable |
| SimpleVisitorEvaluationFacts.CorrectedAgreesOnChains | simple_interpreter/Visitor/Interpreter.cs:536-766 | on left chains the corrected evaluation and the calculator agree |

## Left out

- Floating point: float arithmetic, comparisons, `Math.Pow`, `float.Parse` and rendering a float as text. A float keeps its lexeme as an opaque payload. Every operation that would compute with one ends in the error `FloatNotModelled`. This covers the Integer↔Float branches of the operator table and `^` on integers.
- Console output (`Console.WriteLine` in `Execute`, `Stringify`), both `Program.cs` REPLs with their file I/O and JSON dumps, both `PrettyPrinter.cs` and both `DotVisualizer.cs`: presentation only.
- `XSS.Compiler/Implementation/Parser.cs`, `XSS.Compiler/Compiler.cs` and `ILexer.cs`: an unfinished skeleton and wiring. Only the token kinds of `XSS.Compiler/Token.cs` are used.
- `NativeFunction.cs` and `CompiledFunction.cs` of `XSS/Visitor/InterpreterEngine`: host delegates. The interpreter's `as NativeFunction` cast names the class declared in `XSS/Visitor/Interpreter.cs`, and only that class is modelled.
- `simple_interpreter/Utility/TypeSwitch.cs` and `ExtensionMethod.ToEnum`: reflection.
- `string.GetHashCode`: it is randomised per process, so the hash of a signature's name is an input of `XssSignature.GetHashCode`.
- Culture-sensitive `string.CompareTo`: string ordering is ordinal, code point by code point.
- Unicode character classes: `char.IsDigit`, `IsLetter` and `IsLetterOrDigit` are modelled on their ASCII members, and `ToLower` likewise folds ASCII letters only. `char.IsWhiteSpace` is modelled in full: U+0009 to U+000D, U+0020, U+0085, U+00A0, U+1680, U+2000 to U+200A, U+2028, U+2029, U+202F, U+205F and U+3000.
- UTF-16 code units: a Dafny `char` is a Unicode scalar value, and a C# `char` is a UTF-16 code unit. A character outside the Basic Multilingual Plane is one `char` in the model and a surrogate pair in the source. So `'😀'` lexes as one CHAR literal in `XssLexer.CharF`, while XSS/Lexer.cs:120-132 finds the second surrogate where it expects the closing quote and raises. Texts are taken to hold only characters of the Basic Multilingual Plane.
- Token numbering of the calculator: the calculator's second evaluator boxes token kinds and casts boxed values back to `TokenType`, so the kinds' numbers matter. The model gives both calculators the kinds and numbering of `XSS.Compiler/Token.cs` (46 members, with PLUS = 7), not those of `simple_interpreter/Token.cs` (11 members, with ASSIGN = 7). The value 0 that `SimpleVisitorEvaluationFacts.OnePlusTwoTimesSeven` computes for `1 + 2 * 7` depends on this choice. Under the calculator's own numbering the 7 selects ASSIGN, and the `(string)` cast of the boxed 2 raises InvalidCast instead.
- ValType of the calculator: `simple_interpreter/Visitor/Interpreter.cs` uses `ValType.Null`, which the calculator's own `simple_interpreter/AST/Operand.cs` (7 members) does not declare. The model gives the second evaluator the 12-member ValType of `XSS/AST/Operand.cs`.
- XssLexer.Lexer.constructor and SimpleLexer.Lexer.constructor: each requires a non-empty text, because the C# constructor reads `text[0]` (XSS/Lexer.cs:28, simple_interpreter/Lexer.cs:15) and raises IndexOutOfRange on an empty one. An empty script file or a blank calculator line reaches it. The raising call is modelled by `XssLexer.NewLexer` and `SimpleLexer.NewLexer`, which return that failure, and by `XssLexer.Lex` and `SimpleLexer.Lex`, whose token stream is that failure alone.
- XssOperators.UnboxInt: a boxed `TokenType` or `ValType` gives InvalidCast, where the CLR would unbox the enum to its number. No Integer-kind value holds an enum, so the evaluator never reaches that case.
- Exception message texts: an error is a constructor naming its kind and the offending token, name or character, not the formatted message.
- Aliasing: the XSS interpreter holds its scopes as the sequence of their dictionaries, innermost first, so no second reference to a scope object can observe a change made through another one.
- The fuel bound: a program that has not finished within the budget ends in `OutOfFuel`. Real non-termination is captured only as running out of every budget (`WhileTrueNeverEnds`).
- `breakFlag` and `isInFunction` in the XSS interpreter: no statement sets `breakFlag`, and `isInFunction` is only reset. Neither changes what a program computes.
- Unboxing an int as an enum (`(TokenType)value`, `(ValType)value`) outside the enum's declared members: .NET lets the value through, and it would then match no case. The model raises an error instead.
- Line and column counters of the XSS lexer: they are kept as state and advanced as the source does. Only error texts and `CurrentLineSource` read them, and those are not modelled.
- The empty visitor stubs for `if`, `match`, `while`, `fun` and `return` of `XSS/Visitor/Interpreter.cs`: they push nothing, which the model's visit does too. `Execute` handles those nodes.
- Stacks.Reverse: its own contract states only that the length is kept. The order it produces is stated by `Stacks.ReverseAppend` and by the lemmas that reverse particular stacks.

## Findings

| source | as written | input that shows it | evidently intended | confidence | as-written member | corrected member |
|---|---|---|---|---|---|---|
| XSS/AST/FunctionDeclaration.cs:37-40 | `if (!(instance.Parameters.Length != this.Parameters.Length)) return false;` rejects signatures with equal parameter counts, and the loop then compares signatures of different lengths | a signature compared with itself gives false; `f(INT)` compared with `f()` indexes past the end of the other array | equal counts are required, and each position must agree or be Any | high (not executed) | XssSignature.EqualsAsWrittenIsBroken | XssSignature.EqualsCorrected |
| simple_interpreter/AST/Interpreter.cs:119-153 | the reduction pops two operands and an operator from the reversed postfix stack, which is right only for left-nested trees | `1 + 2 * 3`, as the parser builds it, raises an empty-stack exception instead of giving 7 | the postfix tokens evaluated with an operand stack | high (not executed) | SimpleAstEvaluationFacts.OnePlusTwoTimesThree | SimpleAstEvaluationFacts.PostfixEvaluationIsDenotation |
| simple_interpreter/Visitor/Interpreter.cs:544-569 | the same three-at-a-time reduction over typed stack values | `1 + 2 * 7` is meant to give 15. The reduction takes the literal 7 as the operator, whatever the numbering. Under the `XSS.Compiler/Token.cs` numbering the model adopts, 7 is `+` and the evaluation gives 0. Under `simple_interpreter/Token.cs`, 7 is ASSIGN and the `(string)` cast of the boxed 2 raises InvalidCast | the stack values evaluated with an operand stack | high that the 7 is taken as the operator; the value 0 holds under the adopted numbering (not executed) | SimpleVisitorEvaluationFacts.OnePlusTwoTimesSeven | SimpleVisitorEvaluationFacts.CorrectedIsDenotation |
| XSS/Visitor/Interpreter.cs:1153-1157 | the callee's scope is made current, the body runs, and the reset to `Global` follows it with no `finally`, in an interpreter the REPL keeps across inputs (XSS/Program.cs:29-70) | `f()` for a function whose body is `return;`: the null return value is dereferenced, and the exception leaves the callee's scope current, so the next input declares its variables there | the callee's scope is released on every exit, and the global scope is current after an exception too | medium: the missing reset is certain, that it is unintended is inferred from the reset on the normal path (not executed) | XssEvaluationFacts.CallOfRaisingBodyKeepsScope | XssEvaluationFacts.EnterReleasing |
