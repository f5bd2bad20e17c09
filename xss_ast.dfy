/** The syntax tree of XSS: the node classes under XSS/AST (Operand, UnaryOperation,
    BinaryOperation, Assignment, VariableDeclareStatement, Block, IfStatement, FunctionCall,
    FunctionDeclaration), the ExpressionStatement and ReturnStatement nodes, and the match and
    while statements. A C# reference that may be null is an `Option`. */
module XssAst {
  import opened Wrappers
  import opened Tokens
  import opened XssOperand

  datatype Node =
    | Operand(token: Token)
    | UnaryOperation(op: Token, operand: Node)
    | BinaryOperation(left: Node, op: Token, right: Node)
    | Assignment(ident: Token, expression: Node)
    | VariableDeclare(ident: Token, init: Option<Node>)
    | ExpressionStatement(expression: Node)
    | Block(statements: seq<Node>)
    | If(condition: Node, ifBody: Node, elseBody: Option<Node>)
    | While(condition: Node, body: Node)
    | Match(subject: Node, cases: seq<MatchCase>, defaultCase: Option<Node>)
    | FunctionDeclare(decl: FunctionDeclaration)
    | FunctionCall(name: string, parameters: seq<Node>)
    | Return(returnValue: Option<Node>)

  /** One `TYPE : statement` arm of a match. */
  datatype MatchCase = MatchCase(caseType: ValType, statement: Node)

  /** A function's name and parameter kinds (the C# struct FunctionSignature). */
  datatype FunctionSignature = FunctionSignature(parameters: seq<ValType>, name: string)

  /** A declared function. The two-argument constructor leaves the body, the parameter
      names and the return type at their defaults (null, null, Null). */
  datatype FunctionDeclaration = FunctionDeclaration(
    signature: FunctionSignature,
    body: Option<Node>,
    returnType: ValType,
    parameterNames: Option<seq<string>>)
}
