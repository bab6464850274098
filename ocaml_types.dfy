// The OCaml type model the code generator works with (parser/gen/ocaml/types.go): the type
// variants, their kinds, how they print, stepping through the arguments of a function type, and
// the module record with its predefined types. Parsing type text is left to tree-sitter and is
// not part of this model.

module OcamlTypes {
  import opened Base
  import opened Strings

  datatype Identifier = Identifier(modules: seq<string>, name: string)

  /** The variants of the `Type` interface. */
  datatype Type =
    | Func(inType: Type, outType: Type)
    | Tuple(elems: seq<Type>)
    | Cons(args: seq<Type>)
    | Variants(variants: seq<Variant>)
    | Record(fields: seq<RecordField>)
    | TypeDef(ident: Identifier, body: Type)
    | Ident(id: Identifier)
    | Primitive(primName: string)

  /** A constructor of a variant type, with its payload type if it has one. */
  datatype Variant = Variant(name: string, payload: Option<Type>)

  datatype RecordField = RecordField(fieldName: string, ty: Type)

  // ---------------------------------------------------------------------------
  // Kinds
  // ---------------------------------------------------------------------------

  const TFunc := 1
  const TTuple := 2
  const TCons := 3
  const TVariants := 4
  const TRecord := 5
  const TTypeDef := 6
  const TIdentifier := 7
  const TPrimitive := 8

  /** `Kind()`: one constant per variant. */
  function KindOf(t: Type): (r: int)
    ensures r == TFunc <==> t.Func?
    ensures r == TTuple <==> t.Tuple?
    ensures r == TCons <==> t.Cons?
    ensures r == TVariants <==> t.Variants?
    ensures r == TRecord <==> t.Record?
    ensures r == TTypeDef <==> t.TypeDef?
    ensures r == TIdentifier <==> t.Ident?
    ensures r == TPrimitive <==> t.Primitive?
  {
    match t
    case Func(_, _) => TFunc
    case Tuple(_) => TTuple
    case Cons(_) => TCons
    case Variants(_) => TVariants
    case Record(_) => TRecord
    case TypeDef(_, _) => TTypeDef
    case Ident(_) => TIdentifier
    case Primitive(_) => TPrimitive
  }

  // ---------------------------------------------------------------------------
  // Printing
  // ---------------------------------------------------------------------------

  /** `Identifier.String`: the modules and the name, dot-separated. */
  function ShowIdent(id: Identifier): string {
    if |id.modules| > 0 then Join(id.modules, ".") + "." + id.name else id.name
  }

  function ShowField(name: string, shown: string): string {
    name + " : " + shown
  }

  /** The text each `String` method builds. */
  function Show(t: Type): string
    decreases t
  {
    match t
    case Func(i, o) => Show(i) + " -> " + Show(o)
    case Tuple(ts) => Join(seq(|ts|, i requires 0 <= i < |ts| => Show(ts[i])), " * ")
    case Cons(ts) => Join(seq(|ts|, i requires 0 <= i < |ts| => Show(ts[i])), " ")
    case Variants(vs) => Join(seq(|vs|, i requires 0 <= i < |vs| => vs[i].name), " | ")
    case Record(fs) => "{" + Join(seq(|fs|, i requires 0 <= i < |fs| => ShowField(fs[i].fieldName, Show(fs[i].ty))), "; ") + "}"
    case TypeDef(id, _) => ShowIdent(id)
    case Ident(id) => ShowIdent(id)
    case Primitive(n) => n
  }

  /** The `strs[i] = child.String()` loop into a slice of `len(t)` entries. */
  method ShowChildren(ts: seq<Type>, ghost parent: Type) returns (strs: array<string>)
    requires forall i :: 0 <= i < |ts| ==> ts[i] < parent
    ensures fresh(strs)
    ensures strs[..] == seq(|ts|, i requires 0 <= i < |ts| => Show(ts[i]))
    decreases parent, 0
  {
    strs := new string[|ts|](_ => "");
    for i := 0 to |ts|
      invariant forall j :: 0 <= j < i ==> strs[j] == Show(ts[j])
    {
      strs[i] := TypeString(ts[i]);
    }
  }

  /** `String()` on any type. */
  method TypeString(t: Type) returns (s: string)
    ensures s == Show(t)
    decreases t, 1
  {
    match t {
      case Func(i, o) =>
        var a := TypeString(i);
        var b := TypeString(o);
        s := a + " -> " + b;
      case Tuple(ts) =>
        var strs := ShowChildren(ts, t);
        s := Join(strs[..], " * ");
      case Cons(ts) =>
        var strs := ShowChildren(ts, t);
        s := Join(strs[..], " ");
      case Variants(vs) =>
        var strs := new string[|vs|](_ => "");
        for i := 0 to |vs|
          invariant forall j :: 0 <= j < i ==> strs[j] == vs[j].name
        {
          strs[i] := vs[i].name;
        }
        assert strs[..] == seq(|vs|, i requires 0 <= i < |vs| => vs[i].name);
        s := Join(strs[..], " | ");
      case Record(fs) =>
        s := RecordString(fs, t);
      case TypeDef(id, _) =>
        s := ShowIdent(id);
      case Ident(id) =>
        s := ShowIdent(id);
      case Primitive(n) =>
        s := n;
    }
  }

  /** `Record.String`: "{", the fields separated by "; ", then "}". */
  method RecordString(fs: seq<RecordField>, ghost parent: Type) returns (s: string)
    requires forall i :: 0 <= i < |fs| ==> fs[i].ty < parent
    ensures s == "{" + Join(seq(|fs|, i requires 0 <= i < |fs| => ShowField(fs[i].fieldName, Show(fs[i].ty))), "; ") + "}"
    decreases parent, 0
  {
    ghost var shown := seq(|fs|, i requires 0 <= i < |fs| => ShowField(fs[i].fieldName, Show(fs[i].ty)));
    var res := "";
    for i := 0 to |fs|
      invariant res == Join(shown[..i], "; ")
    {
      var child := TypeString(fs[i].ty);
      if i > 0 {
        JoinSnoc(shown[..i], shown[i], "; ");
        res := res + "; ";
      }
      assert shown[..i + 1] == shown[..i] + [shown[i]];
      res := res + ShowField(fs[i].fieldName, child);
    }
    assert shown[..|fs|] == shown;
    s := "{" + res + "}";
  }

  /** A type definition prints as its name, whatever its body. */
  lemma TypeDefIgnoresBody(id: Identifier, a: Type, b: Type)
    ensures Show(TypeDef(id, a)) == Show(TypeDef(id, b)) == Show(Ident(id))
  {
  }

  /** An identifier prints as its modules and name joined by "."; when none of them contains a
      dot, splitting the text at the dots gives them back. */
  lemma IdentifierRoundTrip(id: Identifier)
    requires NoneContain(id.modules + [id.name], '.')
    ensures Split(ShowIdent(id), '.') == id.modules + [id.name]
  {
    if |id.modules| > 0 {
      JoinSnoc(id.modules, id.name, ".");
    } else {
      assert id.modules + [id.name] == [id.name];
    }
    JoinSplit(id.modules + [id.name], '.');
  }

  /** The elements of a tuple print between " * " separators, so the text's length is the sum
      of theirs plus three per separator. */
  lemma TupleLength(ts: seq<Type>)
    requires ts != []
    ensures |Show(Tuple(ts))| ==
      TotalLength(seq(|ts|, i requires 0 <= i < |ts| => Show(ts[i]))) + 3 * (|ts| - 1)
  {
    JoinLength(seq(|ts|, i requires 0 <= i < |ts| => Show(ts[i])), " * ");
  }

  // ---------------------------------------------------------------------------
  // Function types
  // ---------------------------------------------------------------------------

  /** The type reached after `n` steps to the result type; `None` when a step meets a type that
      is not a function (the type assertion panics). A count of zero or less takes no step. */
  function AfterArgs(t: Type, n: int): Option<Type>
    decreases if n > 0 then n else 0
  {
    if n <= 0 then Some(t)
    else if t.Func? then AfterArgs(t.outType, n - 1)
    else None
  }

  /** `GetArgType(i)`: the argument type of the function type reached after `i` steps. */
  function ArgType(f: Type, i: int): Option<Type>
    requires f.Func?
  {
    match AfterArgs(f, i)
    case Some(Func(a, _)) => Some(a)
    case _ => None
  }

  /** The number of arrows along the result types. */
  function Arity(t: Type): nat {
    if t.Func? then 1 + Arity(t.outType) else 0
  }

  method GetTypeAfterApplyingArgs(f: Type, numArgs: int) returns (r: Option<Type>)
    requires f.Func?
    ensures r == AfterArgs(f, numArgs)
  {
    var res := f;
    for k := 0 to if numArgs > 0 then numArgs else 0
      invariant AfterArgs(f, numArgs) == AfterArgs(res, numArgs - k)
    {
      if !res.Func? {
        return None;
      }
      res := res.outType;
    }
    return Some(res);
  }

  method GetArgType(f: Type, i: int) returns (r: Option<Type>)
    requires f.Func?
    ensures r == ArgType(f, i)
  {
    var funcType := f;
    for k := 0 to if i > 0 then i else 0
      invariant funcType.Func?
      invariant AfterArgs(f, i) == AfterArgs(funcType, i - k)
    {
      if !funcType.outType.Func? {
        assert AfterArgs(funcType, i - k) == AfterArgs(funcType.outType, i - k - 1);
        AfterArgsNotFunc(funcType.outType, i - k - 1);
        return None;
      }
      funcType := funcType.outType;
    }
    return Some(funcType.inType);
  }

  lemma AfterArgsNotFunc(t: Type, n: int)
    requires !t.Func?
    ensures AfterArgs(t, n).None? || AfterArgs(t, n) == Some(t)
  {
  }

  /** Applying `a` arguments and then `b` more is applying `a + b`. */
  lemma {:induction false} AfterArgsCompose(t: Type, a: nat, b: nat)
    ensures AfterArgs(t, a + b) == match AfterArgs(t, a) case None => None case Some(u) => AfterArgs(u, b)
    decreases a
  {
    if a > 0 && t.Func? {
      AfterArgsCompose(t.outType, a - 1, b);
    }
  }

  /** The type reached after `i` steps is a function exactly when argument `i` exists, and then
      its result type is the type reached after `i + 1` steps. */
  lemma ArgTypeStep(f: Type, i: nat, x: Type, y: Type)
    requires f.Func?
    ensures AfterArgs(f, i) == Some(Func(x, y)) <==> ArgType(f, i) == Some(x) && AfterArgs(f, i + 1) == Some(y)
  {
    AfterArgsCompose(f, i, 1);
  }

  /** Applying arguments succeeds exactly up to the type's arity. */
  lemma {:induction false} AfterArgsArity(t: Type, n: nat)
    ensures AfterArgs(t, n).Some? <==> n <= Arity(t)
    ensures n == Arity(t) ==> !AfterArgs(t, n).value.Func?
    decreases n
  {
    if n > 0 && t.Func? {
      AfterArgsArity(t.outType, n - 1);
    }
  }

  // ---------------------------------------------------------------------------
  // Modules
  // ---------------------------------------------------------------------------

  datatype Module = Module(parentModules: seq<string>, name: string, defs: map<string, Type>)

  /** `NewModule`: a top-level module that knows the predefined types. */
  function NewModule(name: string): (r: Module)
    ensures r.parentModules == [] && r.name == name
    ensures r.defs.Keys == {"bool", "string", "int", "int32", "int64", "list", "option"}
    ensures forall n :: n in r.defs ==> r.defs[n].Primitive?
    ensures r.defs["int"] == Primitive("OInt") && r.defs["int32"] == Primitive("OInt32") &&
      r.defs["int64"] == Primitive("OInt64")
    ensures forall n :: n in r.defs && n !in {"int", "int32", "int64"} ==> r.defs[n] == Primitive(n)
  {
    Module([], name, map[
      "bool" := Primitive("bool"),
      "string" := Primitive("string"),
      "int" := Primitive("OInt"),
      "int32" := Primitive("OInt32"),
      "int64" := Primitive("OInt64"),
      "list" := Primitive("list"),
      "option" := Primitive("option")])
  }

  /** `Namespace()`: the parent modules, then the module itself. */
  function Namespace(m: Module): (r: seq<string>)
    ensures |r| == |m.parentModules| + 1 && r[|m.parentModules|] == m.name && r[..|m.parentModules|] == m.parentModules
  {
    m.parentModules + [m.name]
  }

  /** An identifier declared in a top-level module prints qualified by that module. */
  lemma TopLevelIdentifier(moduleName: string, name: string)
    ensures Show(Ident(Identifier(Namespace(NewModule(moduleName)), name))) == moduleName + "." + name
  {
    assert Namespace(NewModule(moduleName)) == [moduleName];
  }
}
