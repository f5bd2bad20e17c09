/** Function signatures and declarations (XSS/AST/FunctionDeclaration.cs): signature
    equality, the hash fold, the renderings, and the two declaration constructors. */
module XssSignature {
  import opened Wrappers
  import opened Int32
  import opened XssOperand
  import opened XssAst

  /** The `object` that `Equals` receives. */
  datatype Obj = SignatureObj(sig: FunctionSignature) | OtherObj | NullObj

  /** The exceptions `Equals` can raise. */
  datatype EqualsError = NullReference | IndexOutOfRange

  /** Two parameter kinds are compatible when they are equal or either is `Any`. */
  predicate Compatible(a: ValType, b: ValType) { a == b || a == Any || b == Any }

  /** What `Equals` computes as written: the count guard has lost a negation, so equal counts
      give false and the element loop runs only over differing counts, indexing the other
      signature up to this one's length. */
  function EqualsAsWrittenSpec(self: FunctionSignature, obj: Obj): Result<bool, EqualsError>
  {
    match obj
    case NullObj => Failure(NullReference)
    case OtherObj => Success(false)
    case SignatureObj(other) =>
      var a, b := self.parameters, other.parameters;
      if other.name != self.name then Success(false)
      else if |b| == |a| then Success(false)
      else if exists j :: 0 <= j < |a| && j < |b| && !Compatible(a[j], b[j]) then Success(false)
      else if |a| > |b| then Failure(IndexOutOfRange)
      else Success(true)
  }

  /** `Equals`, as written. */
  method EqualsAsWritten(self: FunctionSignature, obj: Obj) returns (r: Result<bool, EqualsError>)
    ensures r == EqualsAsWrittenSpec(self, obj)
  {
    if obj.NullObj? {
      return Failure(NullReference);
    }
    if !obj.SignatureObj? {
      return Success(false);
    }
    var instance := obj.sig;
    if instance.name != self.name {
      return Success(false);
    }
    if !(|instance.parameters| != |self.parameters|) {
      return Success(false);
    }
    var i := 0;
    while i < |self.parameters|
      invariant 0 <= i <= |self.parameters| && i <= |instance.parameters|
      invariant forall j :: 0 <= j < i ==> Compatible(self.parameters[j], instance.parameters[j])
    {
      if i >= |instance.parameters| {
        return Failure(IndexOutOfRange);
      }
      if self.parameters[i] != instance.parameters[i]
        && self.parameters[i] != Any
        && instance.parameters[i] != Any
      {
        return Success(false);
      }
      i := i + 1;
    }
    return Success(true);
  }

  /** A signature is never equal to itself under the written guard, and a longer signature
      compared with a shorter compatible one raises instead of answering. */
  lemma EqualsAsWrittenIsBroken(s: FunctionSignature)
    ensures EqualsAsWrittenSpec(s, SignatureObj(s)) == Success(false)
    ensures EqualsAsWrittenSpec(FunctionSignature([Integer], s.name), SignatureObj(FunctionSignature([], s.name)))
            == Failure(IndexOutOfRange)
  {
  }

  /** As written, `Equals` answers true exactly for a signature with the same name and strictly
      more parameters, whose first parameters are compatible with this one's. */
  lemma EqualsAsWrittenTrue(self: FunctionSignature, other: FunctionSignature)
    ensures EqualsAsWrittenSpec(self, SignatureObj(other)) == Success(true)
            <==> other.name == self.name && |self.parameters| < |other.parameters|
                 && forall j :: 0 <= j < |self.parameters| ==> Compatible(self.parameters[j], other.parameters[j])
  {
  }

  /** The evidently intended equality: same name, same count, compatible at every position. */
  predicate SignaturesMatch(a: FunctionSignature, b: FunctionSignature) {
    a.name == b.name && |a.parameters| == |b.parameters|
    && forall j :: 0 <= j < |a.parameters| ==> Compatible(a.parameters[j], b.parameters[j])
  }

  /** `Equals` with the count guard corrected. */
  method EqualsCorrected(self: FunctionSignature, obj: Obj) returns (r: Result<bool, EqualsError>)
    ensures obj.NullObj? <==> r == Failure(NullReference)
    ensures obj.OtherObj? ==> r == Success(false)
    ensures obj.SignatureObj? ==> r == Success(SignaturesMatch(self, obj.sig))
  {
    if obj.NullObj? {
      return Failure(NullReference);
    }
    if !obj.SignatureObj? {
      return Success(false);
    }
    var instance := obj.sig;
    if instance.name != self.name {
      return Success(false);
    }
    if |instance.parameters| != |self.parameters| {
      return Success(false);
    }
    var i := 0;
    while i < |self.parameters|
      invariant 0 <= i <= |self.parameters|
      invariant forall j :: 0 <= j < i ==> Compatible(self.parameters[j], instance.parameters[j])
    {
      if self.parameters[i] != instance.parameters[i]
        && self.parameters[i] != Any
        && instance.parameters[i] != Any
      {
        return Success(false);
      }
      i := i + 1;
    }
    return Success(true);
  }

  /** The corrected equality is reflexive and symmetric. */
  lemma SignaturesMatchReflexiveSymmetric(a: FunctionSignature, b: FunctionSignature)
    ensures SignaturesMatch(a, a)
    ensures SignaturesMatch(a, b) ==> SignaturesMatch(b, a)
  {
  }

  /** The hash before wrap-around: 91, then h*71 + x over the name's hash and each
      parameter's underlying value. */
  function HashPolynomial(nameHash: int32, ps: seq<ValType>): int
  {
    if ps == [] then 91 * 71 + nameHash as int
    else HashPolynomial(nameHash, ps[..|ps| - 1]) * 71 + ValOrdinal(ps[|ps| - 1])
  }

  lemma {:induction false} WrapStep(x: int, y: int)
    ensures Wrap(Wrap(x) as int * 71 + y) == Wrap(x * 71 + y)
  {
    var w := Wrap(x) as int;
    var k := (w - x) / MODULUS;
    assert w - x == k * MODULUS;
    assert w * 71 + y == x * 71 + y + (k * 71) * MODULUS;
    WrapShift(x * 71 + y, k * 71);
  }

  lemma WrapShift(x: int, k: int)
    ensures Wrap(x + k * MODULUS) == Wrap(x)
  {
    var a, b := Wrap(x + k * MODULUS) as int, Wrap(x) as int;
    assert (a - (x + k * MODULUS)) % MODULUS == 0;
    assert (b - x) % MODULUS == 0;
    assert (a - b) % MODULUS == 0 by {
      ModSub(a - (x + k * MODULUS), b - x, k);
    }
  }

  lemma ModSub(p: int, q: int, k: int)
    requires p % MODULUS == 0 && q % MODULUS == 0
    ensures (p - q + k * MODULUS) % MODULUS == 0
  {
    var p', q' := p / MODULUS, q / MODULUS;
    assert p == p' * MODULUS && q == q' * MODULUS;
    assert p - q + k * MODULUS == (p' - q' + k) * MODULUS;
  }

  /** `GetHashCode()` in the unchecked context; the name's own hash is randomised per process in
      .NET, so it is an input here. */
  method GetHashCode(sig: FunctionSignature, nameHash: int32) returns (hash: int32)
    ensures hash == Wrap(HashPolynomial(nameHash, sig.parameters))
  {
    hash := 91;
    hash := Wrap(hash as int * 71 + nameHash as int);
    var i := 0;
    while i < |sig.parameters|
      invariant 0 <= i <= |sig.parameters|
      invariant hash == Wrap(HashPolynomial(nameHash, sig.parameters[..i]))
    {
      assert sig.parameters[..i + 1][..i] == sig.parameters[..i];
      WrapStep(HashPolynomial(nameHash, sig.parameters[..i]), ValOrdinal(sig.parameters[i]));
      hash := Wrap(hash as int * 71 + ValOrdinal(sig.parameters[i]) as int);
      i := i + 1;
    }
    assert sig.parameters[..i] == sig.parameters;
  }

  /** `string.Join(sep, names)`. */
  function JoinWith(names: seq<string>, sep: string): string
  {
    if names == [] then "" else if |names| == 1 then names[0] else names[0] + sep + JoinWith(names[1..], sep)
  }

  function ValTypeNames(ps: seq<ValType>): (r: seq<string>)
    ensures |r| == |ps| && forall i :: 0 <= i < |ps| ==> r[i] == ValTypeName(ps[i])
  {
    if ps == [] then [] else [ValTypeName(ps[0])] + ValTypeNames(ps[1..])
  }

  /** `ToString()`: the parameter kinds' names between parentheses, separated by ", ". */
  function SignatureToString(sig: FunctionSignature): (s: string)
    ensures |s| >= 2 && s[0] == '(' && s[|s| - 1] == ')'
  {
    "(" + JoinWith(ValTypeNames(sig.parameters), ", ") + ")"
  }

  lemma SignatureRenderings()
    ensures SignatureToString(FunctionSignature([], "f")) == "()"
    ensures SignatureToString(FunctionSignature([Integer, Bool], "f")) == "(Integer, Bool)"
  {
  }

  /** The declaration's name, read through its signature. */
  function DeclName(d: FunctionDeclaration): string { d.signature.name }

  /** The declaration's parameter kinds, read through its signature. */
  function DeclParameterTypes(d: FunctionDeclaration): seq<ValType> { d.signature.parameters }

  /** The constructor taking a signature and a body; it stores only the signature. */
  function NewDeclarationFromSignature(sig: FunctionSignature, body: Option<Node>): (d: FunctionDeclaration)
    ensures d.signature == sig && DeclName(d) == sig.name && DeclParameterTypes(d) == sig.parameters
    ensures d.body == None && d.parameterNames == None && d.returnType == Null
  {
    FunctionDeclaration(sig, None, Null, None)
  }

  /** The constructor taking name, body, parameter kinds and names and a return kind. */
  function NewDeclaration(name: string, body: Option<Node>, parameterTypes: seq<ValType>,
                          parameterNames: Option<seq<string>>, returnType: ValType := Null): (d: FunctionDeclaration)
    ensures DeclName(d) == name && DeclParameterTypes(d) == parameterTypes
    ensures d.body == body && d.parameterNames == parameterNames && d.returnType == returnType
  {
    FunctionDeclaration(FunctionSignature(parameterTypes, name), body, returnType, parameterNames)
  }

  /** `Value()`: name, signature and return kind. */
  function DeclarationValue(d: FunctionDeclaration): string
  {
    DeclName(d) + " " + SignatureToString(d.signature) + "->" + ValTypeName(d.returnType)
  }

  lemma DeclarationValueExample()
    ensures DeclarationValue(NewDeclaration("add", None, [Integer, Integer], Some(["a", "b"])))
            == "add (Integer, Integer)->Null"
  {
  }
}
