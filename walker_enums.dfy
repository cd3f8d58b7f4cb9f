/** Extraction of enum values from constant declarations (walker_enums.go): the
    rendering of a constant's value expression, the normalisation of the enum's
    type name, and the walk over the specs of one declaration group. */
module Enums {
  import opened Strings
  import opened Wrappers

  /** The unary operators of Go's `token` package that can head a `*ast.UnaryExpr`. */
  datatype UnaryOp = Add | Sub | Not | Xor | Mul | And | Arrow | Tilde

  /** `token.Token.String()` of a unary operator. */
  function OpText(op: UnaryOp): (r: string)
    ensures |r| >= 1 && r[0] in "+-!^*&<~"
  {
    match op
    case Add => "+"
    case Sub => "-"
    case Not => "!"
    case Xor => "^"
    case Mul => "*"
    case And => "&"
    case Arrow => "<-"
    case Tilde => "~"
  }

  /** Value expressions: a literal as written in the source (quotes included), a
      unary expression, an identifier, or anything else, known by its Go type
      name as `%T` prints it (such as `*ast.BinaryExpr`). */
  datatype Expr =
    | BasicLit(value: string)
    | UnaryExpr(op: UnaryOp, x: Expr)
    | Ident(name: string)
    | OtherExpr(goTypeName: string)

  /** The operators of a chain of unary expressions, outermost first. */
  function UnaryPrefix(e: Expr): string {
    if e.UnaryExpr? then OpText(e.op) + UnaryPrefix(e.x) else ""
  }

  /** The operand under a chain of unary expressions. */
  function Operand(e: Expr): (r: Expr)
    ensures !r.UnaryExpr?
    ensures !e.UnaryExpr? ==> r == e
  {
    if e.UnaryExpr? then Operand(e.x) else e
  }

  /** `resolveValueExpression`: a literal renders as written and an identifier
      as its name, the rendering of a unary chain starts with its operators, and
      any other expression renders as `Unknown<` its Go type name `>`. */
  function ResolveValueExpression(e: Expr): (r: string)
    ensures e.BasicLit? ==> r == e.value
    ensures e.Ident? ==> r == e.name
    ensures e.OtherExpr? ==> r == "Unknown<" + e.goTypeName + ">"
  {
    match e
    case BasicLit(value) => value
    case UnaryExpr(op, x) => OpText(op) + ResolveValueExpression(x)
    case Ident(name) => name
    case OtherExpr(goTypeName) => "Unknown<" + goTypeName + ">"
  }

  /** A unary chain renders as its operators followed by its operand's rendering. */
  lemma {:induction false} RenderUnaryChain(e: Expr)
    ensures ResolveValueExpression(e) == UnaryPrefix(e) + ResolveValueExpression(Operand(e))
  {
    if e.UnaryExpr? {
      RenderUnaryChain(e.x);
      assert OpText(e.op) + (UnaryPrefix(e.x) + ResolveValueExpression(Operand(e.x)))
          == (OpText(e.op) + UnaryPrefix(e.x)) + ResolveValueExpression(Operand(e.x));
    }
  }

  /** Only the identifier `iota` (or a literal written `iota`, which Go has none
      of) renders as "iota": a unary expression starts with an operator character
      and an unknown expression with "U". */
  lemma RendersAsIota(e: Expr)
    ensures ResolveValueExpression(e) == "iota" <==> e == Ident("iota") || e == BasicLit("iota")
  {
    match e
    case UnaryExpr(op, x) =>
      var r := ResolveValueExpression(e);
      assert r[0] == OpText(op)[0];
      assert r[0] != 'i';
    case OtherExpr(t) =>
      assert ResolveValueExpression(e)[0] == 'U';
    case _ =>
  }

  /** The type name normalisation at the top of `findEnumValues`: at most one
      leading "*" is dropped, then everything up to and including the first ".". */
  function NormalizeEnumTypeName(typeName: string): (r: string)
    ensures HasSuffix(typeName, r)
    ensures var t := TrimPrefix(typeName, "*");
      if '.' in t then t == t[..IndexOf(t, '.')] + "." + r && '.' !in t[..IndexOf(t, '.')]
      else r == t
  {
    var t := TrimPrefix(typeName, "*");
    if '.' in t then
      var i := IndexOf(t, '.');
      assert t == t[..i] + "." + t[i + 1..];
      t[i + 1..]
    else t
  }

  /** The values the walk collects: Go's `interface{}` holds either the counter
      (an `int`) or the rendered expression (a `string`). */
  datatype EnumValue = IntValue(n: int) | StringValue(s: string)

  /** One spec of a declaration group: a `*ast.ValueSpec` with its resolved type
      name (when it states one), its names and its value expressions, or any
      other kind of spec. */
  datatype Spec =
    | ValueSpec(typeName: Option<string>, names: seq<string>, values: seq<Expr>)
    | OtherSpec

  /** The walk's local state: the type in effect, the iota-like counter, and the
      values collected so far in this group. */
  datatype GroupState = GroupState(typ: string, iot: int, values: seq<EnumValue>)

  const GroupStart := GroupState("", 0, [])

  /** Whether a spec of effective type `typ` is taken for the enum type `target`:
      it must be of that type, declare exactly one name and at most one value. */
  predicate Accepted(target: string, typ: string, spec: Spec)
    requires spec.ValueSpec?
  {
    typ == target && |spec.names| == 1 && |spec.values| <= 1
  }

  /** One iteration of the loop over `t.Specs`. */
  function Step(target: string, st: GroupState, spec: Spec): (r: GroupState)
    ensures |r.values| == |st.values| + (if spec.ValueSpec? && Accepted(target, r.typ, spec) then 1 else 0)
    ensures r.values[..|st.values|] == st.values
  {
    if !spec.ValueSpec? then st
    else
      var typ := if spec.typeName.Some? then spec.typeName.value else st.typ;
      if typ != target || |spec.names| != 1 || |spec.values| > 1 then GroupState(typ, st.iot, st.values)
      else if |spec.values| == 0 then GroupState(typ, st.iot + 1, st.values + [IntValue(st.iot + 1)])
      else
        var v := ResolveValueExpression(spec.values[0]);
        if v == "iota" then GroupState(typ, 0, st.values + [IntValue(0)])
        else GroupState(typ, st.iot, st.values + [StringValue(v)])
  }

  /** The state after the first `|specs|` iterations. */
  function Run(target: string, st: GroupState, specs: seq<Spec>): GroupState
    decreases |specs|
  {
    if specs == [] then st else Step(target, Run(target, st, specs[..|specs| - 1]), specs[|specs| - 1])
  }

  /** The values one declaration group contributes to the enum `target`. */
  function GroupValues(target: string, specs: seq<Spec>): seq<EnumValue> {
    Run(target, GroupStart, specs).values
  }

  /** Values are only ever appended, at most one per spec. */
  lemma {:induction false} RunAppends(target: string, st: GroupState, specs: seq<Spec>)
    ensures |st.values| <= |Run(target, st, specs).values| <= |st.values| + |specs|
    ensures Run(target, st, specs).values[..|st.values|] == st.values
    decreases |specs|
  {
    if specs != [] {
      var mid := Run(target, st, specs[..|specs| - 1]);
      RunAppends(target, st, specs[..|specs| - 1]);
      assert Run(target, st, specs).values[..|mid.values|] == mid.values;
      assert mid.values[..|st.values|] == st.values;
    }
  }

  predicate Annotated(spec: Spec) {
    spec.ValueSpec? && spec.typeName.Some?
  }

  /** A spec that states no type leaves the type in effect unchanged. */
  lemma {:induction false} TypeKept(target: string, st: GroupState, specs: seq<Spec>)
    requires forall i :: 0 <= i < |specs| ==> !Annotated(specs[i])
    ensures Run(target, st, specs).typ == st.typ
    decreases |specs|
  {
    if specs != [] {
      var n := |specs| - 1;
      assert forall i :: 0 <= i < n ==> specs[..n][i] == specs[i];
      TypeKept(target, st, specs[..n]);
    }
  }

  /** A spec without a type inherits the type of the most recent spec that states one. */
  lemma {:induction false} TypeInherited(target: string, st: GroupState, specs: seq<Spec>, i: nat)
    requires i < |specs| && Annotated(specs[i])
    requires forall j :: i < j < |specs| ==> !Annotated(specs[j])
    ensures Run(target, st, specs).typ == specs[i].typeName.value
    decreases |specs|
  {
    var n := |specs| - 1;
    if i < n {
      assert specs[..n][i] == specs[i];
      assert forall j :: i < j < n ==> specs[..n][j] == specs[j];
      TypeInherited(target, st, specs[..n], i);
    }
  }

  /** A spec that states no type and has more than one name, or more than one
      value, leaves the state unchanged wherever it stands: removing it changes
      nothing. */
  lemma {:induction false} SkippedSpecIsInert(target: string, st: GroupState, pre: seq<Spec>, s: Spec, post: seq<Spec>)
    requires s.ValueSpec? && s.typeName.None? && (|s.names| != 1 || |s.values| > 1)
    ensures Run(target, st, pre + [s] + post) == Run(target, st, pre + post)
    decreases |post|
  {
    if post == [] {
      assert (pre + [s] + post)[..|pre + [s] + post| - 1] == pre;
      assert pre + post == pre;
    } else {
      var n := |post| - 1;
      SkippedSpecIsInert(target, st, pre, s, post[..n]);
      assert (pre + [s] + post)[..|pre + [s] + post| - 1] == pre + [s] + post[..n];
      assert (pre + post)[..|pre + post| - 1] == pre + post[..n];
      assert (pre + [s] + post)[|pre + [s] + post| - 1] == post[n];
      assert (pre + post)[|pre + post| - 1] == post[n];
    }
  }

  /** A spec with one name, no stated type and no value. */
  predicate Implicit(s: Spec) {
    s.ValueSpec? && s.typeName.None? && |s.names| == 1 && s.values == []
  }

  /** The counter values `from`, `from + 1`, … `from + n - 1`. */
  function Counting(from: int, n: nat): seq<EnumValue> {
    seq(n, k => IntValue(from + k))
  }

  lemma CountingSnoc(from: int, n: nat)
    ensures Counting(from, n + 1) == Counting(from, n) + [IntValue(from + n)]
  {
    assert forall k :: 0 <= k < n ==> Counting(from, n + 1)[k] == Counting(from, n)[k];
  }

  lemma CountingCons(from: int, n: nat)
    ensures Counting(from, n + 1) == [IntValue(from)] + Counting(from + 1, n)
  {
    var a, b := Counting(from, n + 1), Counting(from + 1, n);
    assert forall k :: 1 <= k < n + 1 ==> a[k] == b[k - 1];
  }

  /** Implicit specs of the enum's type, one name each, continue the counter:
      from counter `c` they append c+1, c+2, … in order. */
  lemma {:induction false} ImplicitSpecsCount(target: string, st: GroupState, specs: seq<Spec>)
    requires st.typ == target
    requires forall i :: 0 <= i < |specs| ==> Implicit(specs[i])
    ensures Run(target, st, specs).typ == target
    ensures Run(target, st, specs).iot == st.iot + |specs|
    ensures Run(target, st, specs).values == st.values + Counting(st.iot + 1, |specs|)
    decreases |specs|
  {
    if specs != [] {
      var n := |specs| - 1;
      assert forall i :: 0 <= i < n ==> specs[..n][i] == specs[i];
      ImplicitSpecsCount(target, st, specs[..n]);
      assert Implicit(specs[n]);
      CountingSnoc(st.iot + 1, n);
    }
  }

  /** A group that opens with `A T = iota` followed by implicit specs yields
      0, 1, 2, …: the first implicit value after a reset is 1. */
  lemma IotaGroup(target: string, first: string, rest: seq<Spec>)
    requires forall i :: 0 <= i < |rest| ==> Implicit(rest[i])
    ensures GroupValues(target, [ValueSpec(Some(target), [first], [Ident("iota")])] + rest)
         == Counting(0, |rest| + 1)
  {
    var head := ValueSpec(Some(target), [first], [Ident("iota")]);
    var specs := [head] + rest;
    var st1 := GroupState(target, 0, [IntValue(0)]);
    assert Run(target, GroupStart, [head]) == st1;
    RunSplit(target, GroupStart, [head], rest);
    ImplicitSpecsCount(target, st1, rest);
    CountingCons(0, |rest|);
  }

  /** A spec the walk passes over whatever the type in effect: not a value spec,
      a value spec stating another type, or one with other than one name or
      with more than one value. */
  predicate Rejected(target: string, s: Spec) {
    !s.ValueSpec? || (s.typeName.Some? && s.typeName.value != target)
    || |s.names| != 1 || |s.values| > 1
  }

  /** Specs the walk passes over leave the counter and the collected values as
      they were, from any state. */
  lemma {:induction false} ForeignSpecsInert(target: string, st: GroupState, specs: seq<Spec>)
    requires forall i :: 0 <= i < |specs| ==> Rejected(target, specs[i])
    ensures Run(target, st, specs).iot == st.iot
    ensures Run(target, st, specs).values == st.values
    decreases |specs|
  {
    if specs != [] {
      var n := |specs| - 1;
      assert forall i :: 0 <= i < n ==> specs[..n][i] == specs[i];
      ForeignSpecsInert(target, st, specs[..n]);
      assert Rejected(target, specs[n]);
    }
  }

  /** Under an inherited foreign type, specs that state no type are passed over
      whatever their names and values: the state, type included, is unchanged. */
  lemma {:induction false} InheritedForeignInert(target: string, st: GroupState, specs: seq<Spec>)
    requires st.typ != target
    requires forall i :: 0 <= i < |specs| ==> !specs[i].ValueSpec? || specs[i].typeName.None?
    ensures Run(target, st, specs) == GroupState(st.typ, st.iot, st.values)
    decreases |specs|
  {
    if specs != [] {
      var n := |specs| - 1;
      assert forall i :: 0 <= i < n ==> specs[..n][i] == specs[i];
      InheritedForeignInert(target, st, specs[..n]);
      assert !specs[n].ValueSpec? || specs[n].typeName.None?;
    }
  }

  /** An untyped `B = iota` under the enum's inherited type resets the counter
      as well: it appends 0 and sets the counter to 0. */
  lemma InheritedIotaResets(target: string, st: GroupState, s: Spec)
    requires st.typ == target
    requires s.ValueSpec? && s.typeName.None? && |s.names| == 1 && |s.values| == 1
    requires s.values[0] == Ident("iota") || s.values[0] == BasicLit("iota")
    ensures Step(target, st, s) == GroupState(target, 0, st.values + [IntValue(0)])
  {
    RendersAsIota(s.values[0]);
  }

  /** `X Other = 1; Y; A Color = iota; B = iota` gives 0, 0 for Color: the
      untyped `Y` inherits `Other` and is skipped, and the untyped `B = iota`
      inherits `Color` and resets. */
  lemma InheritedTypesExample()
    ensures GroupValues("Color", [ValueSpec(Some("Other"), ["X"], [BasicLit("1")]), ValueSpec(None, ["Y"], []),
                                  ValueSpec(Some("Color"), ["A"], [Ident("iota")]), ValueSpec(None, ["B"], [Ident("iota")])])
         == [IntValue(0), IntValue(0)]
  {
    var x := ValueSpec(Some("Other"), ["X"], [BasicLit("1")]);
    var y := ValueSpec(None, ["Y"], []);
    var a := ValueSpec(Some("Color"), ["A"], [Ident("iota")]);
    var b := ValueSpec(None, ["B"], [Ident("iota")]);
    var st1 := GroupState("Other", 0, []);
    RunAppendOne("Color", GroupStart, [], x);
    assert [] + [x] == [x];
    assert Run("Color", GroupStart, [x]) == st1;
    RunAppendOne("Color", GroupStart, [x], y);
    InheritedForeignInert("Color", st1, [y]);
    RunSplit("Color", GroupStart, [x], [y]);
    assert Run("Color", GroupStart, [x, y]) == st1;
    RunAppendOne("Color", GroupStart, [x, y], a);
    IotaStep("Color", st1, a);
    var st2 := GroupState("Color", 0, [IntValue(0)]);
    assert [x, y] + [a] == [x, y, a];
    RunAppendOne("Color", GroupStart, [x, y, a], b);
    InheritedIotaResets("Color", st2, b);
    assert [x, y, a] + [b] == [x, y, a, b];
  }

  /** A spec of the enum's type (stated or inherited) with one name and one
      value that does not render as "iota". */
  predicate Explicit(target: string, s: Spec) {
    s.ValueSpec? && (s.typeName.None? || s.typeName.value == target)
    && |s.names| == 1 && |s.values| == 1 && ResolveValueExpression(s.values[0]) != "iota"
  }

  /** The rendering an explicit spec contributes (its first value's). */
  function Rendered(s: Spec): EnumValue {
    if s.ValueSpec? && |s.values| > 0 then StringValue(ResolveValueExpression(s.values[0])) else StringValue("")
  }

  /** Explicit specs append their values' renderings in order and keep the
      counter, from any state whose type is the enum's. */
  lemma {:induction false} ExplicitValues(target: string, st: GroupState, specs: seq<Spec>)
    requires st.typ == target
    requires forall i :: 0 <= i < |specs| ==> Explicit(target, specs[i])
    ensures Run(target, st, specs).typ == target
    ensures Run(target, st, specs).iot == st.iot
    ensures Run(target, st, specs).values == st.values + seq(|specs|, k requires 0 <= k < |specs| => Rendered(specs[k]))
    decreases |specs|
  {
    if specs != [] {
      var n := |specs| - 1;
      assert forall i :: 0 <= i < n ==> specs[..n][i] == specs[i];
      ExplicitValues(target, st, specs[..n]);
      assert Explicit(target, specs[n]);
      var prev := seq(n, k requires 0 <= k < n => Rendered(specs[..n][k]));
      assert seq(|specs|, k requires 0 <= k < |specs| => Rendered(specs[k])) == prev + [Rendered(specs[n])];
    }
  }

  /** A spec of the enum's type with one name whose one value is `iota`, the
      only expressions that render as "iota" (`RendersAsIota`). */
  predicate IotaSpec(target: string, s: Spec) {
    s.ValueSpec? && s.typeName == Some(target) && |s.names| == 1 && |s.values| == 1
    && (s.values[0] == Ident("iota") || s.values[0] == BasicLit("iota"))
  }

  /** `X T = iota` resets the counter from any state: it appends 0, and the
      implicit specs after it append 1, 2, … */
  lemma IotaResets(target: string, st: GroupState, pre: seq<Spec>, s: Spec, post: seq<Spec>)
    requires IotaSpec(target, s)
    requires forall i :: 0 <= i < |post| ==> Implicit(post[i])
    ensures Run(target, st, pre + [s] + post).iot == |post|
    ensures Run(target, st, pre + [s] + post).values
         == Run(target, st, pre).values + Counting(0, |post| + 1)
  {
    var mid := Run(target, st, pre);
    var st1 := GroupState(target, 0, mid.values + [IntValue(0)]);
    RunAppendOne(target, st, pre, s);
    IotaStep(target, mid, s);
    RunSplit(target, st, pre + [s], post);
    ImplicitSpecsCount(target, st1, post);
    CountingCons(0, |post|);
    AppendAssoc(mid.values, [IntValue(0)], Counting(1, |post|));
  }

  lemma AppendAssoc<T>(a: seq<T>, b: seq<T>, c: seq<T>)
    ensures (a + b) + c == a + (b + c)
  {
  }

  /** A spec of another type between two of the enum's neither adds a value nor
      disturbs the counter: `A Color = iota; X Other = 7; B Color` gives 0, 1. */
  lemma ForeignSpecBetween()
    ensures GroupValues("Color", [ValueSpec(Some("Color"), ["A"], [Ident("iota")]),
                                  ValueSpec(Some("Other"), ["X"], [BasicLit("7")]),
                                  ValueSpec(Some("Color"), ["B"], [])])
         == [IntValue(0), IntValue(1)]
  {
    var a := ValueSpec(Some("Color"), ["A"], [Ident("iota")]);
    var x := ValueSpec(Some("Other"), ["X"], [BasicLit("7")]);
    var b := ValueSpec(Some("Color"), ["B"], []);
    assert [a, x, b][..2] == [a, x] && [a, x][..1] == [a] && [a][..0] == [];
    assert Run("Color", GroupStart, [a]) == GroupState("Color", 0, [IntValue(0)]);
    assert Run("Color", GroupStart, [a, x]) == GroupState("Other", 0, [IntValue(0)]);
  }

  /** Running over a concatenation runs over the first part, then the second. */
  lemma {:induction false} RunSplit(target: string, st: GroupState, a: seq<Spec>, b: seq<Spec>)
    ensures Run(target, st, a + b) == Run(target, Run(target, st, a), b)
    decreases |b|
  {
    if b == [] {
      assert a + b == a;
    } else {
      var n := |b| - 1;
      RunSplit(target, st, a, b[..n]);
      assert (a + b)[..|a + b| - 1] == a + b[..n];
      assert (a + b)[|a + b| - 1] == b[n];
    }
  }

  lemma IotaStep(target: string, st: GroupState, s: Spec)
    requires IotaSpec(target, s)
    ensures Step(target, st, s) == GroupState(target, 0, st.values + [IntValue(0)])
  {
    RendersAsIota(s.values[0]);
  }

  lemma RunAppendOne(target: string, st: GroupState, a: seq<Spec>, x: Spec)
    ensures Run(target, st, a + [x]) == Step(target, Run(target, st, a), x)
  {
    assert (a + [x])[..|a|] == a;
  }

  /** One more spec is one more step. */
  lemma RunSnoc(target: string, specs: seq<Spec>, i: nat)
    requires i < |specs|
    ensures Run(target, GroupStart, specs[..i + 1]) == Step(target, Run(target, GroupStart, specs[..i]), specs[i])
  {
    assert specs[..i + 1][..i] == specs[..i];
  }

  /** The two constant groups of the documentation: `A = iota; B; C` gives
      0, 1, 2, and `A = "x"; B = "y"` gives the two literals as written. */
  lemma Examples()
    ensures GroupValues("Color", [ValueSpec(Some("Color"), ["A"], [Ident("iota")]),
                                  ValueSpec(None, ["B"], []), ValueSpec(None, ["C"], [])])
         == [IntValue(0), IntValue(1), IntValue(2)]
    ensures GroupValues("Kind", [ValueSpec(Some("Kind"), ["A"], [BasicLit("\"x\"")]),
                                 ValueSpec(Some("Kind"), ["B"], [BasicLit("\"y\"")])])
         == [StringValue("\"x\""), StringValue("\"y\"")]
  {
    var rest := [ValueSpec(None, ["B"], []), ValueSpec(None, ["C"], [])];
    IotaGroup("Color", "A", rest);
    assert [ValueSpec(Some("Color"), ["A"], [Ident("iota")])] + rest
        == [ValueSpec(Some("Color"), ["A"], [Ident("iota")]), ValueSpec(None, ["B"], []), ValueSpec(None, ["C"], [])];
    assert Counting(0, 3) == [IntValue(0), IntValue(1), IntValue(2)];
    var a := ValueSpec(Some("Kind"), ["A"], [BasicLit("\"x\"")]);
    var b := ValueSpec(Some("Kind"), ["B"], [BasicLit("\"y\"")]);
    assert [a, b][..1] == [a] && [a][..0] == [];
    assert "\"x\"" != "iota" && "\"y\"" != "iota";
    assert Run("Kind", GroupStart, [a]) == GroupState("Kind", 0, [StringValue("\"x\"")]);
  }

  /** The syntax nodes `ast.Walk` hands to the visitor. */
  datatype Node = GenDecl(specs: seq<Spec>) | FuncDecl | ImportSpec | OtherNode

  /** `EnumVisitor`: collects, over a whole walk, the values of the enum type `typeName`. */
  class EnumVisitor {
    /** Whether the visitor was given a file set (`Fset != nil`). */
    var hasFileSet: bool
    var typeName: string
    var values: seq<EnumValue>

    constructor (hasFileSet: bool, typeName: string)
      ensures this.hasFileSet == hasFileSet && this.typeName == typeName && values == []
    {
      this.hasFileSet := hasFileSet;
      this.typeName := typeName;
      values := [];
    }

    /** `Visit`: returns whether the walk goes on into the node's children. Each
        declaration group is walked with a fresh type and counter. */
    method Visit(node: Node) returns (descend: bool)
      modifies this
      ensures hasFileSet == old(hasFileSet) && typeName == old(typeName)
      ensures descend == (hasFileSet && !node.FuncDecl? && !node.ImportSpec?)
      ensures values == if hasFileSet && node.GenDecl? then old(values) + GroupValues(typeName, node.specs) else old(values)
    {
      if !hasFileSet {
        return false;
      }
      match node
      case GenDecl(specs) =>
        var typ := "";
        var iot := 0;
        for i := 0 to |specs|
          invariant hasFileSet && typeName == old(typeName)
          invariant typ == Run(typeName, GroupStart, specs[..i]).typ
          invariant iot == Run(typeName, GroupStart, specs[..i]).iot
          invariant values == old(values) + Run(typeName, GroupStart, specs[..i]).values
        {
          RunSnoc(typeName, specs, i);
          var spec := specs[i];
          if !spec.ValueSpec? {
            continue;
          }
          if spec.typeName.Some? {
            typ := spec.typeName.value;
          }
          if typ != typeName {
            continue;
          }
          if |spec.names| != 1 {
            continue;
          }
          var val: EnumValue;
          if |spec.values| == 0 {
            iot := iot + 1;
            val := IntValue(iot);
          } else if |spec.values| > 1 {
            continue;
          } else {
            var rendered := ResolveValueExpression(spec.values[0]);
            if rendered == "iota" {
              val := IntValue(0);
              iot := 0;
            } else {
              val := StringValue(rendered);
            }
          }
          values := values + [val];
        }
        assert specs[..|specs|] == specs;
        return true;
      case FuncDecl =>
        return false;
      case ImportSpec =>
        return false;
      case OtherNode =>
        return true;
    }
  }
}
