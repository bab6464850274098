// The naming helpers of the decoder generator (parser/gen/gen.go): how OCaml module paths and
// names become Go identifiers, and the two pieces of generator state that hand out names, the
// temporary counter and the list of tuple unpackers.
//
// Strings are sequences of characters; the source's regular expression works on runes and its
// upper-casing on the first byte, which agree on ASCII text.

module GenNames {
  import opened Base
  import opened Strings
  import opened OcamlTypes

  // ---------------------------------------------------------------------------
  // Sanitising
  // ---------------------------------------------------------------------------

  /** The characters `reUnsafeChar` does not match. */
  predicate SafeChar(c: char) {
    ('a' <= c <= 'z') || ('A' <= c <= 'Z') || ('0' <= c <= '9') || c == '_'
  }

  predicate AllSafe(s: string) {
    forall i :: 0 <= i < |s| ==> SafeChar(s[i])
  }

  /** `reUnsafeChar.ReplaceAllString(s, "_")`: every unsafe character becomes '_'. */
  function Sanitise(s: string): (r: string)
    ensures |r| == |s| && AllSafe(r)
    ensures forall i :: 0 <= i < |s| ==> (SafeChar(s[i]) ==> r[i] == s[i]) && (!SafeChar(s[i]) ==> r[i] == '_')
  {
    seq(|s|, i requires 0 <= i < |s| => if SafeChar(s[i]) then s[i] else '_')
  }

  /** Sanitising leaves safe text alone, so it is idempotent. */
  lemma SanitiseKeepsSafe(s: string)
    requires AllSafe(s)
    ensures Sanitise(s) == s
  {
  }

  lemma SanitiseIdempotent(s: string)
    ensures Sanitise(Sanitise(s)) == Sanitise(s)
  {
    SanitiseKeepsSafe(Sanitise(s));
  }

  // ---------------------------------------------------------------------------
  // snake2camel
  // ---------------------------------------------------------------------------

  /** `strings.ToUpper` on a one-character string. */
  function Upper(c: char): char {
    if 'a' <= c <= 'z' then (c as int - 32) as char else c
  }

  /** Upper-case the first character, if any. */
  function Capitalise(p: string): string {
    if p == [] then [] else [Upper(p[0])] + p[1..]
  }

  /** A left-to-right reading of snake2camel: drop each '_' and upper-case the character after
      it, and the first character. `cap` says whether the next character starts a part. */
  function CamelScan(s: string, cap: bool): string
    decreases |s|
  {
    if s == [] then []
    else if s[0] == '_' then CamelScan(s[1..], true)
    else [if cap then Upper(s[0]) else s[0]] + CamelScan(s[1..], false)
  }

  /** `snake2camel`: split at '_', capitalise each non-empty part in place, and concatenate. */
  method Snake2Camel(s: string) returns (r: string)
    ensures r == CamelScan(s, true)
  {
    var parts := Split(s, '_');
    ghost var orig := parts;
    for i := 0 to |parts|
      invariant |parts| == |orig|
      invariant forall j :: 0 <= j < |parts| ==> parts[j] == if j < i then Capitalise(orig[j]) else orig[j]
    {
      if parts[i] != "" {
        parts := parts[i := [Upper(parts[i][0])] + parts[i][1..]];
      }
    }
    assert parts == seq(|orig|, j requires 0 <= j < |orig| => Capitalise(orig[j]));
    r := Join(parts, "");
    SplitJoin(s, '_');
    CamelOfParts(orig);
  }

  /** A part without '_' is copied, capitalised when it starts a part. */
  lemma {:induction false} ScanPart(p: string, rest: string, cap: bool)
    requires '_' !in p
    ensures CamelScan(p + rest, cap) == (if cap then Capitalise(p) else p) + CamelScan(rest, cap && p == [])
    decreases |p|
  {
    if p != [] {
      var head := if cap then Upper(p[0]) else p[0];
      assert (p + rest)[0] == p[0] != '_';
      assert (p + rest)[1..] == p[1..] + rest;
      assert CamelScan(p + rest, cap) == [head] + CamelScan(p[1..] + rest, false);
      ScanPart(p[1..], rest, false);
      assert (if cap then Capitalise(p) else p) == [head] + p[1..];
      assert [head] + (p[1..] + CamelScan(rest, false)) == [head] + p[1..] + CamelScan(rest, false);
    } else {
      assert p + rest == rest;
    }
  }

  /** Reading the '_'-joined parts is concatenating the capitalised parts. */
  lemma {:induction false} CamelOfParts(parts: seq<string>)
    requires |parts| >= 1 && NoneContain(parts, '_')
    ensures CamelScan(Join(parts, "_"), true) == Join(seq(|parts|, j requires 0 <= j < |parts| => Capitalise(parts[j])), "")
    decreases |parts|
  {
    hide Capitalise, Upper;
    var caps := seq(|parts|, j requires 0 <= j < |parts| => Capitalise(parts[j]));
    if |parts| == 1 {
      ScanPart(parts[0], "", true);
      assert parts[0] + "" == parts[0];
    } else {
      var rest := parts[1..];
      CamelOfParts(rest);
      var tail := Join(rest, "_");
      ScanPart(parts[0], "_" + tail, true);
      assert parts[0] + "_" + tail == parts[0] + ("_" + tail);
      assert ("_" + tail)[1..] == tail;
      assert caps[1..] == seq(|rest|, j requires 0 <= j < |rest| => Capitalise(rest[j]));
    }
  }

  /** snake2camel leaves no '_'. */
  lemma {:induction false} CamelNoUnderscore(s: string, cap: bool)
    ensures '_' !in CamelScan(s, cap)
    decreases |s|
  {
    if s != [] {
      CamelNoUnderscore(s[1..], cap);
      CamelNoUnderscore(s[1..], true);
      CamelNoUnderscore(s[1..], false);
    }
  }

  /** snake2camel's output, when not empty, starts with an upper-cased character. */
  lemma {:induction false} CamelStartsUpper(s: string)
    ensures CamelScan(s, true) == [] || CamelScan(s, true)[0] == Upper(CamelScan(s, true)[0])
    decreases |s|
  {
    if s != [] && s[0] == '_' {
      CamelStartsUpper(s[1..]);
    }
  }

  /** Applying snake2camel twice is applying it once. */
  lemma Snake2CamelIdempotent(s: string)
    ensures CamelScan(CamelScan(s, true), true) == CamelScan(s, true)
  {
    var t := CamelScan(s, true);
    CamelNoUnderscore(s, true);
    CamelStartsUpper(s);
    ScanPart(t, "", true);
    assert t + "" == t;
    if t != [] {
      assert [t[0]] + t[1..] == t;
    }
  }

  // ---------------------------------------------------------------------------
  // Names
  // ---------------------------------------------------------------------------

  /** One module of a path, as the name helpers spell it. */
  function ModulePart(n: string): string {
    Sanitise(CamelScan(n, true))
  }

  function ModuleParts(path: seq<string>): (r: seq<string>)
    ensures |r| == |path| && forall i :: 0 <= i < |path| ==> r[i] == ModulePart(path[i])
  {
    seq(|path|, i requires 0 <= i < |path| => ModulePart(path[i]))
  }

  /** What `camelName` returns. */
  function CamelName(path: seq<string>, name: string): string {
    Join(ModuleParts(path) + [Sanitise(name)], "_")
  }

  /** What `varName` returns. */
  function VarName(path: seq<string>, name: string): string {
    (if |path| > 0 then Join(ModuleParts(path), "_") else "") + "_" + Sanitise(name)
  }

  /** The loop over the module path shared by `camelName` and `varName`. */
  method ModulePartsOf(path: seq<string>) returns (parts: seq<string>)
    ensures parts == ModuleParts(path)
  {
    parts := [];
    for i := 0 to |path|
      invariant parts == ModuleParts(path[..i])
    {
      var c := Snake2Camel(path[i]);
      assert path[..i + 1] == path[..i] + [path[i]];
      parts := parts + [Sanitise(c)];
    }
    assert path[..|path|] == path;
  }

  method CamelNameOf(path: seq<string>, name: string) returns (r: string)
    ensures r == CamelName(path, name)
  {
    var parts := ModulePartsOf(path);
    parts := parts + [Sanitise(name)];
    r := Join(parts, "_");
  }

  method VarNameOf(path: seq<string>, name: string) returns (r: string)
    ensures r == VarName(path, name)
  {
    var res := "";
    if |path| > 0 {
      var parts := ModulePartsOf(path);
      res := res + Join(parts, "_");
    }
    r := res + "_" + Sanitise(name);
  }

  /** Every character of a generated name is a letter, a digit or '_'. */
  lemma CamelNameSafe(path: seq<string>, name: string)
    ensures AllSafe(CamelName(path, name))
  {
    var parts := ModuleParts(path) + [Sanitise(name)];
    JoinChars(parts, "_", SafeChar);
  }

  /** `varName` and `camelName` spell a non-empty path the same way; an empty path gives a
      leading '_' instead. */
  lemma VarNameIsCamelName(path: seq<string>, name: string)
    ensures |path| > 0 ==> VarName(path, name) == CamelName(path, name)
    ensures |path| == 0 ==> VarName(path, name) == "_" + CamelName(path, name)
  {
    if |path| > 0 {
      JoinSnoc(ModuleParts(path), Sanitise(name), "_");
    } else {
      assert ModuleParts(path) + [Sanitise(name)] == [Sanitise(name)];
    }
  }

  /** `fieldName`. */
  function FieldName(name: string): (r: string)
    ensures r == Sanitise(name)
  {
    assert ModuleParts([]) + [Sanitise(name)] == [Sanitise(name)];
    CamelName([], name)
  }

  /** `funcName`: the camel name, then "_" and the argument count when it is not negative. */
  function FuncName(path: seq<string>, name: string, numArgs: int): (r: string)
    ensures AllSafe(r)
    ensures |r| >= |CamelName(path, name)| && r[..|CamelName(path, name)|] == CamelName(path, name)
  {
    CamelNameSafe(path, name);
    CamelName(path, name) + (if numArgs >= 0 then "_" + Decimal(numArgs) else "")
  }

  /** The argument count can be read back from a function name: two names for the same OCaml
      function agree exactly when both counts are the same or both are negative. */
  lemma FuncNameArity(path: seq<string>, name: string, a: int, b: int)
    ensures FuncName(path, name, a) == FuncName(path, name, b) <==> a == b || (a < 0 && b < 0)
  {
    var c := CamelName(path, name);
    if a >= 0 && b >= 0 && a != b {
      DecimalInjective(a, b);
      assert FuncName(path, name, a)[|c| + 1..] == Decimal(a);
      assert FuncName(path, name, b)[|c| + 1..] == Decimal(b);
    }
  }

  /** `typeName`. */
  function TypeName(path: seq<string>, name: string): (r: string)
    ensures |r| > 0 && r[0] == 'O' && AllSafe(r)
  {
    CamelNameSafe(path, name);
    "O" + CamelName(path, name)
  }

  /** `variantName`. */
  function VariantName(path: seq<string>, typeName: string, name: string): (r: string)
    ensures |r| > 0 && r[0] == '_' && AllSafe(r)
  {
    CamelNameSafe(path, typeName + "_" + name);
    "_" + CamelName(path, typeName + "_" + name)
  }

  /** `variantKindName`. */
  function VariantKindName(path: seq<string>, typeName: string, name: string): (r: string)
    ensures |r| > 0 && r[0] == 'K' && AllSafe(r)
  {
    CamelNameSafe(path, typeName + "_" + name);
    "K" + CamelName(path, typeName + "_" + name)
  }

  /** `variantTypeName`. */
  function VariantTypeName(path: seq<string>, typeName: string, name: string): (r: string)
    ensures |r| > 0 && r[0] == 'O' && AllSafe(r)
  {
    CamelNameSafe(path, typeName + "_" + name);
    "O" + CamelName(path, typeName + "_" + name)
  }

  /** `typeParamName`. */
  function TypeParamName(name: string): (r: string)
    ensures |r| > 0 && r[0] == 'T' && AllSafe(r) && |r| == |name| + 1
  {
    "T" + Sanitise(name)
  }

  /** A variant's payload type is named as if `Type_Variant` were a type of its own, so the two
      can collide; the variant's constructor and kind constant cannot collide with any type
      name, nor with each other. */
  lemma VariantNamesVersusTypeNames(path: seq<string>, typeName: string, name: string, other: seq<string>, otherName: string)
    ensures VariantTypeName(path, typeName, name) == TypeName(path, typeName + "_" + name)
    ensures VariantName(path, typeName, name) != TypeName(other, otherName)
    ensures VariantKindName(path, typeName, name) != TypeName(other, otherName)
    ensures VariantName(path, typeName, name) != VariantKindName(other, otherName, name)
  {
  }

  // ---------------------------------------------------------------------------
  // Generator state
  // ---------------------------------------------------------------------------

  /** A tuple unpacker the generator will emit once per name. */
  datatype Unpack = Unpack(owner: Module, name: string, tupleType: seq<Type>)

  function TmpName(n: nat): string {
    "__tmp" + Decimal(n)
  }

  function UnpackName(tup: seq<Type>): string {
    "__unpack" + VarName([], Show(Tuple(tup)))
  }

  predicate HasUnpack(unpacks: seq<Unpack>, name: string) {
    exists i :: 0 <= i < |unpacks| && unpacks[i].name == name
  }

  predicate UniqueNames(unpacks: seq<Unpack>) {
    forall i, j :: 0 <= i < j < |unpacks| ==> unpacks[i].name != unpacks[j].name
  }

  /** The package-level `tmpCount` and `unpacks` of the generator. */
  class Generator {
    var tmpCount: nat
    var unpacks: seq<Unpack>

    constructor ()
      ensures tmpCount == 0 && unpacks == []
    {
      tmpCount := 0;
      unpacks := [];
    }

    /** `tmpCount = 0` at the start of each function. */
    method ResetTmp()
      modifies this
      ensures tmpCount == 0 && unpacks == old(unpacks)
    {
      tmpCount := 0;
    }

    /** `tmpVar`: the next temporary name. */
    method TmpVar() returns (name: string)
      modifies this
      ensures tmpCount == old(tmpCount) + 1 && unpacks == old(unpacks)
      ensures name == TmpName(tmpCount)
    {
      tmpCount := tmpCount + 1;
      var digits := Decimal(tmpCount);
      name := "__tmp" + digits;
    }

    /** `trackUnpack`: the unpacker's name, recording the unpacker unless one of that name is
        already recorded. */
    method TrackUnpack(tup: seq<Type>, current: Module) returns (name: string)
      modifies this
      ensures name == UnpackName(tup) && tmpCount == old(tmpCount)
      ensures unpacks == old(unpacks) + (if HasUnpack(old(unpacks), name) then [] else [Unpack(current, name, tup)])
      ensures HasUnpack(unpacks, name)
      ensures UniqueNames(old(unpacks)) ==> UniqueNames(unpacks)
    {
      var shown := TypeString(Tuple(tup));
      var v := VarNameOf([], shown);
      name := "__unpack" + v;
      var already := false;
      for i := 0 to |unpacks|
        invariant already <==> exists j :: 0 <= j < i && unpacks[j].name == name
      {
        if unpacks[i].name == name {
          already := true;
        }
      }
      if !already {
        unpacks := unpacks + [Unpack(current, name, tup)];
        assert unpacks[|unpacks| - 1].name == name;
      }
    }
  }

  /** Temporary names are distinct between two resets of the counter. */
  lemma TmpNamesDistinct(a: nat, b: nat)
    requires a != b
    ensures TmpName(a) != TmpName(b)
  {
    DecimalInjective(a, b);
    assert TmpName(a)[5..] == Decimal(a);
    assert TmpName(b)[5..] == Decimal(b);
  }
}
