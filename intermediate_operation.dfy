/** Operation annotations (intermediate_operation.go): a comment block is first
    read as sections, whose summary, path and method headers fill three fields,
    and then line by line, where `@Accept`, `@Description`, `@Param`,
    `@Success`/`@Failure`, `@Router` and `@Title` lines fill or extend the
    operation. */
module Operations {
  import opened Strings
  import opened Wrappers
  import opened Patterns
  import opened Sections

  /** `MemberIntermediate` as far as these scanners fill it. */
  datatype MemberType = MemberType(typeName: string, jsonName: string)

  /** `ParameterIntermediate`; `location` is the Go field `In`. */
  datatype ParameterIntermediate = ParameterIntermediate(
    location: string, required: bool, description: string, typ: MemberType)

  /** The `SchemerDefiner` a response gets: a slice of a value type, or a plain member. */
  datatype ResponseType = SliceType(goType: string, valueType: string) | ScalarType(goType: string)

  datatype ResponseIntermediate = ResponseIntermediate(
    success: bool, statusCode: int, description: string, typ: ResponseType)

  /** `OperationIntermediate`; `httpMethod` is the Go field `Method`. */
  datatype OperationIntermediate = OperationIntermediate(
    accepts: seq<string>,
    description: string,
    httpMethod: string,
    packagePath: string,
    parameters: seq<ParameterIntermediate>,
    path: string,
    responses: seq<ResponseIntermediate>,
    summary: string,
    tag: string)

  const EmptyOperation := OperationIntermediate([], "", "", "", [], "", [], "", "")

  /** The scalar fields that sections and annotation lines overwrite. */
  datatype OpField = SummaryField | PathField | MethodField | DescriptionField

  function FieldOf(op: OperationIntermediate, f: OpField): string {
    match f
    case SummaryField => op.summary
    case PathField => op.path
    case MethodField => op.httpMethod
    case DescriptionField => op.description
  }

  // ---- the section pass ----

  /** The field a section title selects, after trimming and lowercasing; the
      other titles the source names have empty cases. */
  function SectionFieldOf(title: string): (r: Option<OpField>)
    ensures r != Some(DescriptionField)
    ensures r == Some(SummaryField) <==> ToLower(TrimSpace(title)) == "openapi summary"
    ensures r == Some(PathField) <==> ToLower(TrimSpace(title)) == "openapi path"
    ensures r == Some(MethodField) <==> ToLower(TrimSpace(title)) == "openapi method"
  {
    var t := ToLower(TrimSpace(title));
    if t == "openapi summary" then Some(SummaryField)
    else if t == "openapi path" then Some(PathField)
    else if t == "openapi method" then Some(MethodField)
    else None
  }

  predicate SectionSets(section: Section, f: OpField) {
    SectionFieldOf(section.title) == Some(f) && section.Line(0).1
  }

  function ApplySection(op: OperationIntermediate, section: Section): OperationIntermediate {
    var l := section.Line(0);
    match SectionFieldOf(section.title)
    case Some(SummaryField) => if l.1 then op.(summary := l.0) else op
    case Some(PathField) => if l.1 then op.(path := l.0) else op
    case Some(MethodField) => if l.1 then op.(httpMethod := l.0) else op
    case _ => op
  }

  function SectionPass(op: OperationIntermediate, sections: seq<Section>): OperationIntermediate {
    if sections == [] then op
    else ApplySection(SectionPass(op, sections[..|sections| - 1]), sections[|sections| - 1])
  }

  /** Sections touch only the three scalar fields. */
  lemma {:induction false} SectionPassKeeps(op: OperationIntermediate, sections: seq<Section>)
    ensures var r := SectionPass(op, sections);
      r.accepts == op.accepts && r.parameters == op.parameters && r.responses == op.responses &&
      r.description == op.description && r.packagePath == op.packagePath && r.tag == op.tag
  {
    if sections != [] {
      SectionPassKeeps(op, sections[..|sections| - 1]);
    }
  }

  /** A field takes the first body line of the last section that sets it. */
  lemma {:induction false} SectionLastWins(op: OperationIntermediate, sections: seq<Section>, f: OpField, k: nat)
    requires k < |sections| && SectionSets(sections[k], f)
    requires forall j :: k < j < |sections| ==> !SectionSets(sections[j], f)
    ensures FieldOf(SectionPass(op, sections), f) == sections[k].Line(0).0
  {
    if k < |sections| - 1 {
      LastSectionKeeps(SectionPass(op, sections[..|sections| - 1]), sections[|sections| - 1], f);
      SectionLastWins(op, sections[..|sections| - 1], f, k);
    }
  }

  lemma LastSectionKeeps(op: OperationIntermediate, section: Section, f: OpField)
    requires !SectionSets(section, f)
    ensures FieldOf(ApplySection(op, section), f) == FieldOf(op, f)
  {
  }

  /** A field no section sets keeps its value. */
  lemma {:induction false} SectionUntouched(op: OperationIntermediate, sections: seq<Section>, f: OpField)
    requires forall j :: 0 <= j < |sections| ==> !SectionSets(sections[j], f)
    ensures FieldOf(SectionPass(op, sections), f) == FieldOf(op, f)
  {
    if sections != [] {
      LastSectionKeeps(SectionPass(op, sections[..|sections| - 1]), sections[|sections| - 1], f);
      SectionUntouched(op, sections[..|sections| - 1], f);
    }
  }

  // ---- @Accept ----

  predicate Lowered(s: string) {
    ToLower(s) == s
  }

  /** One item of an `@Accept` list: trimmed and lowercased, dropped when empty,
      with the short forms `json` and `xml` spelled out as media types. */
  function NormalizeAccept(item: string): (r: Option<string>)
    ensures r.None? <==> TrimSpace(item) == ""
    ensures r.Some? ==> r.value != "" && Trimmed(r.value) && Lowered(r.value)
    ensures r.Some? ==> r.value != "json" && r.value != "xml"
    ensures var a := ToLower(TrimSpace(item));
      && (a == "json" ==> r == Some("application/json"))
      && (a == "xml" ==> r == Some("application/xml"))
      && (a != "" && a != "json" && a != "xml" ==> r == Some(a))
  {
    var t := TrimSpace(item);
    var a := ToLower(t);
    assert Trimmed(a) by {
      if a != [] {
        assert a[0] == LowerChar(t[0]) && a[|a| - 1] == LowerChar(t[|t| - 1]);
      }
    }
    ToLowerIdempotent(t);
    if a == "" then None
    else if a == "json" then Some("application/json")
    else if a == "xml" then Some("application/xml")
    else Some(a)
  }

  /** A normalised item is its own normal form. */
  lemma NormalizeAcceptFixed(item: string)
    requires NormalizeAccept(item).Some?
    ensures NormalizeAccept(NormalizeAccept(item).value) == NormalizeAccept(item)
  {
  }

  /** A normalised item holds a character only if the raw item did. */
  lemma NormalizeAcceptNoComma(item: string)
    requires ',' !in item && NormalizeAccept(item).Some?
    ensures ',' !in NormalizeAccept(item).value
  {
    TrimSpaceKeepsOut(item, ',');
  }

  function NormalizedItems(items: seq<string>): (r: seq<string>)
    ensures |r| <= |items|
    ensures forall k :: 0 <= k < |r| ==> r[k] != "" && Trimmed(r[k]) && Lowered(r[k])
  {
    if items == [] then []
    else
      var n := NormalizeAccept(items[|items| - 1]);
      NormalizedItems(items[..|items| - 1]) + (if n.Some? then [n.value] else [])
  }

  /** The media types an `@Accept` payload lists. */
  function NormalizeAccepts(raw: string): seq<string> {
    NormalizedItems(Split(raw, ','))
  }

  lemma {:induction false} NormalizedItemsAppend(a: seq<string>, b: seq<string>)
    ensures NormalizedItems(a + b) == NormalizedItems(a) + NormalizedItems(b)
    decreases |b|
  {
    if b == [] {
      assert a + b == a;
    } else {
      var init := b[..|b| - 1];
      assert (a + b)[..|a + b| - 1] == a + init;
      assert (a + b)[|a + b| - 1] == b[|b| - 1];
      NormalizedItemsAppend(a, init);
    }
  }

  /** A single item is listed, normalised, exactly when it is not blank. */
  lemma NormalizedItemsSingle(item: string)
    ensures NormalizedItems([item]) == if NormalizeAccept(item).Some? then [NormalizeAccept(item).value] else []
  {
    assert [item][..0] == [];
  }

  lemma {:induction false} NormalizedItemsIdempotent(items: seq<string>)
    ensures NormalizedItems(NormalizedItems(items)) == NormalizedItems(items)
  {
    if items != [] {
      var init := items[..|items| - 1];
      var n := NormalizeAccept(items[|items| - 1]);
      var tail := if n.Some? then [n.value] else [];
      NormalizedItemsIdempotent(init);
      NormalizedItemsAppend(NormalizedItems(init), tail);
      if n.Some? {
        NormalizeAcceptFixed(items[|items| - 1]);
        assert [n.value][..0] == [];
      }
    }
  }

  lemma {:induction false} NormalizedItemsNoComma(items: seq<string>)
    requires forall k :: 0 <= k < |items| ==> ',' !in items[k]
    ensures forall k :: 0 <= k < |NormalizedItems(items)| ==> ',' !in NormalizedItems(items)[k]
  {
    if items != [] {
      var init := items[..|items| - 1];
      NormalizedItemsNoComma(init);
      if NormalizeAccept(items[|items| - 1]).Some? {
        NormalizeAcceptNoComma(items[|items| - 1]);
      }
    }
  }

  /** Writing the normalised list back as an `@Accept` payload and reading it
      again gives the same list. */
  lemma NormalizeAcceptsIdempotent(raw: string)
    ensures NormalizeAccepts(Join(NormalizeAccepts(raw), ',')) == NormalizeAccepts(raw)
  {
    var items := NormalizeAccepts(raw);
    if items == [] {
      assert Split("", ',') == [""];
      assert NormalizedItems([""]) == [] by {
        assert [""][..0] == [];
      }
    } else {
      NormalizedItemsNoComma(Split(raw, ','));
      SplitJoin(items, ',');
      NormalizedItemsIdempotent(Split(raw, ','));
    }
  }

  lemma AcceptJson()
    ensures NormalizeAccept("json") == Some("application/json")
  {
    assert ToLower("json") == "json";
  }

  lemma AcceptXml()
    ensures NormalizeAccept(" XML") == Some("application/xml")
  {
    assert TrimSpace(" XML") == "XML" by {
      assert " XML"[1..] == "XML";
    }
    assert ToLower("XML") == "xml";
  }

  lemma AcceptBlank()
    ensures NormalizeAccept("") == None
  {
  }

  lemma AcceptOther()
    ensures NormalizeAccept(" text/plain") == Some("text/plain")
  {
    assert TrimSpace(" text/plain") == "text/plain" by {
      assert " text/plain"[1..] == "text/plain";
    }
    assert ToLower("text/plain") == "text/plain";
  }

  /** Normalising a list one item longer. */
  lemma NormalizedItemsSnoc(items: seq<string>, item: string, r: seq<string>)
    requires NormalizedItems(items) == r
    ensures NormalizedItems(items + [item]) ==
      r + if NormalizeAccept(item).Some? then [NormalizeAccept(item).value] else []
  {
    assert (items + [item])[..|items|] == items;
  }

  /** `json, XML,, text/plain` lists `application/json`, `application/xml` and `text/plain`. */
  lemma AcceptItemsExample()
    ensures NormalizedItems(["json", " XML", "", " text/plain"]) == ["application/json", "application/xml", "text/plain"]
  {
    AcceptItemsPrefix();
    AcceptOther();
    NormalizedItemsSnoc(["json", " XML", ""], " text/plain", ["application/json", "application/xml"]);
    assert ["json", " XML", ""] + [" text/plain"] == ["json", " XML", "", " text/plain"];
  }

  lemma AcceptItemsPrefix()
    ensures NormalizedItems(["json", " XML", ""]) == ["application/json", "application/xml"]
  {
    AcceptItemsPair();
    AcceptBlank();
    NormalizedItemsSnoc(["json", " XML"], "", ["application/json", "application/xml"]);
    assert ["json", " XML"] + [""] == ["json", " XML", ""];
  }

  lemma AcceptItemsSingle()
    ensures NormalizedItems(["json"]) == ["application/json"]
  {
    AcceptJson();
    NormalizedItemsSnoc([], "json", []);
    assert [] + ["json"] == ["json"];
  }

  lemma AcceptItemsPair()
    ensures NormalizedItems(["json", " XML"]) == ["application/json", "application/xml"]
  {
    AcceptItemsSingle();
    AcceptXml();
    NormalizedItemsSnoc(["json"], " XML", ["application/json"]);
    assert ["json"] + [" XML"] == ["json", " XML"];
  }

  // ---- @Success / @Failure ----

  /** With meta `array`, in any case, the type is made a slice type unless it is one already. */
  function ResponseGoType(meta: string, goType: string): (r: string)
    ensures ToLower(meta) == "array" ==> HasPrefix(r, "[]") && (HasPrefix(goType, "[]") ==> r == goType)
    ensures ToLower(meta) != "array" ==> r == goType
    ensures r == goType || r == "[]" + goType
  {
    if ToLower(meta) == "array" && !HasPrefix(goType, "[]") then "[]" + goType else goType
  }

  /** Forcing the slice prefix twice is forcing it once. */
  lemma ResponseGoTypeIdempotent(meta: string, goType: string)
    ensures ResponseGoType(meta, ResponseGoType(meta, goType)) == ResponseGoType(meta, goType)
  {
  }

  const MaxInt := 0x7fff_ffff_ffff_ffff

  predicate AllDigits(s: string) {
    forall k :: 0 <= k < |s| ==> '0' <= s[k] <= '9'
  }

  function DecimalValue(s: string): nat
    requires AllDigits(s)
  {
    if s == [] then 0 else DecimalValue(s[..|s| - 1]) * 10 + (s[|s| - 1] as int - '0' as int)
  }

  /** `strconv.Atoi` on a 64-bit `int`, its error ignored, for the texts the
      response pattern's `(\d+)` can capture: a digit string gives its value,
      and one too large for `int` gives the largest `int`. Signs and other text
      never reach it; they give 0 here. */
  function Atoi(s: string): (r: int)
    ensures 0 <= r <= MaxInt
    ensures AllDigits(s) && s != [] && DecimalValue(s) <= MaxInt ==> r == DecimalValue(s)
    ensures AllDigits(s) && s != [] && DecimalValue(s) > MaxInt ==> r == MaxInt
  {
    if s == [] || !AllDigits(s) then 0
    else if DecimalValue(s) > MaxInt then MaxInt
    else DecimalValue(s)
  }

  lemma DigitCharValue(d: nat)
    requires d < 10
    ensures DigitChar(d) as int - '0' as int == d
  {
    if d == 0 {} else if d == 1 {} else if d == 2 {} else if d == 3 {} else if d == 4 {}
    else if d == 5 {} else if d == 6 {} else if d == 7 {} else if d == 8 {} else {}
  }

  /** The digits `%d` prints are read back as the same number. */
  lemma {:induction false} DecimalOfNatToString(n: nat)
    ensures AllDigits(NatToString(n)) && DecimalValue(NatToString(n)) == n
  {
    DigitCharValue(n % 10);
    if n >= 10 {
      DecimalOfNatToString(n / 10);
      var s := NatToString(n);
      var init := NatToString(n / 10);
      assert s == init + [DigitChar(n % 10)];
      assert s[..|s| - 1] == init;
      assert DecimalValue(s) == DecimalValue(init) * 10 + (DigitChar(n % 10) as int - '0' as int);
    }
  }

  lemma AtoiRoundTrip(n: nat)
    requires n <= MaxInt
    ensures Atoi(NatToString(n)) == n
  {
    DecimalOfNatToString(n);
  }

  /** The response a `@Success`/`@Failure` line yields, from the five captures;
      `isSlice` is the type classifier the source calls. */
  function ResponseOf(c: seq<string>, isSlice: string -> (bool, string)): (r: ResponseIntermediate)
    requires |c| == 5
    ensures r.success <==> ToLower(c[0]) == "success"
    ensures r.statusCode == Atoi(c[1]) && r.description == c[4]
    ensures r.typ.goType == ResponseGoType(c[2], c[3])
    ensures r.typ.SliceType? <==> isSlice(r.typ.goType).0
    ensures r.typ.SliceType? ==> r.typ.valueType == isSlice(r.typ.goType).1
  {
    var goType := ResponseGoType(c[2], c[3]);
    var sl := isSlice(goType);
    ResponseIntermediate(
      ToLower(c[0]) == "success",
      Atoi(c[1]),
      c[4],
      if sl.0 then SliceType(goType, sl.1) else ScalarType(goType))
  }

  /** The success flag records which keyword the line used. */
  lemma ResponseSuccess(c: seq<string>, isSlice: string -> (bool, string))
    requires |c| == 5 && (c[0] == "Success" || c[0] == "Failure")
    ensures ResponseOf(c, isSlice).success <==> c[0] == "Success"
  {
    if c[0] == "Failure" {
      assert ToLower(c[0])[0] == 'f';
    }
  }

  /** The parameter a `@Param` line yields; it is required when its fourth
      capture is `true` in any case. */
  function ParamOf(c: seq<string>): (r: ParameterIntermediate)
    requires |c| == 5
    ensures r.typ.jsonName == c[0] && r.location == c[1] && r.typ.typeName == c[2] && r.description == c[4]
    ensures r.required <==> ToLower(c[3]) == "true"
  {
    ParameterIntermediate(c[1], ToLower(c[3]) == "true", c[4], MemberType(c[2], c[0]))
  }

  /** A well-formed `@Param` line yields the parameter its fields spell: the
      first names it, the second places it, the third types it. */
  lemma ParamFromLine(name: string, location: string, typ: string, required: string, description: string)
    requires ParamParts(name, location, typ, required, description)
    ensures Find(ParamPattern, ParamAnnotation(name, location, typ, required, description)).Some?
    ensures ParamOf(Find(ParamPattern, ParamAnnotation(name, location, typ, required, description)).value)
            == ParameterIntermediate(location, ToLower(required) == "true", description, MemberType(typ, name))
  {
    ParamCaptures(name, location, typ, required, description);
  }

  /** A well-formed `@Success`/`@Failure` line yields a response with the
      line's outcome, status code, description and type. */
  lemma ResponseFromLine(outcome: string, code: string, meta: string, typ: string, description: string,
                         isSlice: string -> (bool, string))
    requires ResponseParts(outcome, code, meta, typ, description)
    ensures Find(ResponsePattern, ResponseAnnotation(outcome, code, meta, typ, description)).Some?
    ensures var r := ResponseOf(Find(ResponsePattern, ResponseAnnotation(outcome, code, meta, typ, description)).value, isSlice);
      && (r.success <==> outcome == "Success")
      && r.statusCode == Atoi(code)
      && r.description == description
      && r.typ.goType == ResponseGoType(meta, typ)
  {
    ResponseCaptures(outcome, code, meta, typ, description);
    ResponseSuccess([outcome, code, meta, typ, description], isSlice);
  }

  // ---- the annotation scan ----

  const AcceptPattern := KeywordText("@Accept")
  const DescriptionPattern := KeywordText("@Description")
  const TitlePattern := KeywordText("@Title")

  datatype OpLine =
    | AcceptLine(raw: string)
    | DescriptionLine(text: string)
    | ParamLine(parameter: ParameterIntermediate)
    | ResponseLine(response: ResponseIntermediate)
    | RouteLine(path: string, verb: string)
    | TitleLine(text: string)
    | OtherLine

  /** The case of the `switch` a line falls into; the cases are tried in the
      order accept, description, parameter, response, router, title. */
  function ClassifyOpLine(line: string, isSlice: string -> (bool, string)): (r: OpLine)
    ensures Find(AcceptPattern, line).Some? ==> r.AcceptLine?
    ensures r.DescriptionLine? ==> Find(AcceptPattern, line).None?
    ensures r.ParamLine? ==> Find(AcceptPattern, line).None? && Find(DescriptionPattern, line).None?
    ensures r.ResponseLine? ==>
      Find(AcceptPattern, line).None? && Find(DescriptionPattern, line).None? && Find(ParamPattern, line).None?
    ensures r.RouteLine? ==>
      Find(AcceptPattern, line).None? && Find(DescriptionPattern, line).None? && Find(ParamPattern, line).None? &&
      Find(ResponsePattern, line).None?
    ensures r.TitleLine? ==>
      Find(AcceptPattern, line).None? && Find(DescriptionPattern, line).None? && Find(ParamPattern, line).None? &&
      Find(ResponsePattern, line).None? && Find(RouterPattern, line).None?
    ensures r.OtherLine? <==>
      Find(AcceptPattern, line).None? && Find(DescriptionPattern, line).None? && Find(ParamPattern, line).None? &&
      Find(ResponsePattern, line).None? && Find(RouterPattern, line).None? && Find(TitlePattern, line).None?
  {
    match Find(AcceptPattern, line)
    case Some(m) => AcceptLine(m[0])
    case None =>
      match Find(DescriptionPattern, line)
      case Some(m) => DescriptionLine(m[0])
      case None =>
        match Find(ParamPattern, line)
        case Some(m) => ParamLine(ParamOf(m))
        case None =>
          match Find(ResponsePattern, line)
          case Some(m) => ResponseLine(ResponseOf(m, isSlice))
          case None =>
            match Find(RouterPattern, line)
            case Some(m) => RouteLine(m[0], m[1])
            case None =>
              match Find(TitlePattern, line)
              case Some(m) => TitleLine(m[0])
              case None => OtherLine
  }

  /** A response line's success flag is set exactly for `@Success`. */
  lemma ResponseLineSuccess(line: string, isSlice: string -> (bool, string))
    requires ClassifyOpLine(line, isSlice).ResponseLine?
    ensures ClassifyOpLine(line, isSlice).response.success <==> Find(ResponsePattern, line).value[0] == "Success"
  {
    ResponseSuccess(Find(ResponsePattern, line).value, isSlice);
  }

  function ApplyOpLine(op: OperationIntermediate, line: string, isSlice: string -> (bool, string)): OperationIntermediate {
    match ClassifyOpLine(line, isSlice)
    case AcceptLine(raw) => op.(accepts := op.accepts + NormalizeAccepts(raw))
    case DescriptionLine(text) => op.(description := text)
    case ParamLine(p) => op.(parameters := op.parameters + [p])
    case ResponseLine(r) => op.(responses := op.responses + [r])
    case RouteLine(path, verb) => op.(path := path, httpMethod := verb)
    case TitleLine(text) => op.(summary := text)
    case OtherLine => op
  }

  function LinesPass(op: OperationIntermediate, lines: seq<string>, isSlice: string -> (bool, string)): OperationIntermediate {
    if lines == [] then op
    else ApplyOpLine(LinesPass(op, lines[..|lines| - 1], isSlice), lines[|lines| - 1], isSlice)
  }

  /** `intermediatateOperation`'s result: the line scan runs after the section pass. */
  function OperationOf(commentBlock: string, isSlice: string -> (bool, string)): OperationIntermediate {
    LinesPass(SectionPass(EmptyOperation, SectionsOf(TrimmedLines(commentBlock))), ScanLines(commentBlock), isSlice)
  }

  /** The new text a line gives a scalar field, if any. */
  function LineValue(c: OpLine, f: OpField): Option<string> {
    match c
    case DescriptionLine(text) => if f == DescriptionField then Some(text) else None
    case RouteLine(path, verb) =>
      if f == PathField then Some(path) else if f == MethodField then Some(verb) else None
    case TitleLine(text) => if f == SummaryField then Some(text) else None
    case _ => None
  }

  predicate LineSets(line: string, f: OpField, isSlice: string -> (bool, string)) {
    LineValue(ClassifyOpLine(line, isSlice), f).Some?
  }

  lemma ApplyOpLineField(op: OperationIntermediate, line: string, f: OpField, isSlice: string -> (bool, string))
    ensures FieldOf(ApplyOpLine(op, line, isSlice), f) ==
      LineValue(ClassifyOpLine(line, isSlice), f).GetOr(FieldOf(op, f))
  {
  }

  /** A field no annotation line sets keeps the value the section pass gave it. */
  lemma {:induction false} LinesUntouched(op: OperationIntermediate, lines: seq<string>, f: OpField, isSlice: string -> (bool, string))
    requires forall j :: 0 <= j < |lines| ==> !LineSets(lines[j], f, isSlice)
    ensures FieldOf(LinesPass(op, lines, isSlice), f) == FieldOf(op, f)
  {
    if lines != [] {
      ApplyOpLineField(LinesPass(op, lines[..|lines| - 1], isSlice), lines[|lines| - 1], f, isSlice);
      LinesUntouched(op, lines[..|lines| - 1], f, isSlice);
    }
  }

  /** The last annotation line that sets a field decides it, whatever the
      sections said: a later `@Router` overrides the path and the method, and
      a later `@Title` the summary. */
  lemma {:induction false} LinesLastWins(op: OperationIntermediate, lines: seq<string>, f: OpField, k: nat, isSlice: string -> (bool, string))
    requires k < |lines| && LineSets(lines[k], f, isSlice)
    requires forall j :: k < j < |lines| ==> !LineSets(lines[j], f, isSlice)
    ensures FieldOf(LinesPass(op, lines, isSlice), f) == LineValue(ClassifyOpLine(lines[k], isSlice), f).value
  {
    ApplyOpLineField(LinesPass(op, lines[..|lines| - 1], isSlice), lines[|lines| - 1], f, isSlice);
    if k < |lines| - 1 {
      LinesLastWins(op, lines[..|lines| - 1], f, k, isSlice);
    }
  }

  /** Scanning runs on where it stopped. */
  lemma {:induction false} LinesPassAppend(op: OperationIntermediate, a: seq<string>, b: seq<string>, isSlice: string -> (bool, string))
    ensures LinesPass(op, a + b, isSlice) == LinesPass(LinesPass(op, a, isSlice), b, isSlice)
    decreases |b|
  {
    if b == [] {
      assert a + b == a;
    } else {
      var init := b[..|b| - 1];
      assert (a + b)[..|a + b| - 1] == a + init;
      assert (a + b)[|a + b| - 1] == b[|b| - 1];
      LinesPassAppend(op, a, init, isSlice);
    }
  }

  function AddedAccepts(c: OpLine): seq<string> {
    if c.AcceptLine? then NormalizeAccepts(c.raw) else []
  }

  function AddedParameters(c: OpLine): seq<ParameterIntermediate> {
    if c.ParamLine? then [c.parameter] else []
  }

  function AddedResponses(c: OpLine): seq<ResponseIntermediate> {
    if c.ResponseLine? then [c.response] else []
  }

  /** What one line appends to each list. */
  lemma ApplyOpLineLists(op: OperationIntermediate, line: string, isSlice: string -> (bool, string))
    ensures ApplyOpLine(op, line, isSlice).accepts == op.accepts + AddedAccepts(ClassifyOpLine(line, isSlice))
    ensures ApplyOpLine(op, line, isSlice).parameters == op.parameters + AddedParameters(ClassifyOpLine(line, isSlice))
    ensures ApplyOpLine(op, line, isSlice).responses == op.responses + AddedResponses(ClassifyOpLine(line, isSlice))
  {
  }

  /** The lists only grow: scanning appends to whatever the lists held, and
      appends the same as it would to empty lists. */
  lemma {:induction false} ListsShift(op: OperationIntermediate, b: seq<string>, isSlice: string -> (bool, string))
    ensures LinesPass(op, b, isSlice).accepts == op.accepts + LinesPass(EmptyOperation, b, isSlice).accepts
    ensures LinesPass(op, b, isSlice).parameters == op.parameters + LinesPass(EmptyOperation, b, isSlice).parameters
    ensures LinesPass(op, b, isSlice).responses == op.responses + LinesPass(EmptyOperation, b, isSlice).responses
  {
    if b != [] {
      var init := b[..|b| - 1];
      var last := b[|b| - 1];
      ListsShift(op, init, isSlice);
      ApplyOpLineLists(LinesPass(op, init, isSlice), last, isSlice);
      ApplyOpLineLists(LinesPass(EmptyOperation, init, isSlice), last, isSlice);
    }
  }

  /** Lines of a concatenation add what the first part adds followed by what
      the second part adds on its own. */
  lemma ListsAppend(op: OperationIntermediate, a: seq<string>, b: seq<string>, isSlice: string -> (bool, string))
    ensures LinesPass(op, a + b, isSlice).accepts ==
      LinesPass(op, a, isSlice).accepts + LinesPass(EmptyOperation, b, isSlice).accepts
    ensures LinesPass(op, a + b, isSlice).parameters ==
      LinesPass(op, a, isSlice).parameters + LinesPass(EmptyOperation, b, isSlice).parameters
    ensures LinesPass(op, a + b, isSlice).responses ==
      LinesPass(op, a, isSlice).responses + LinesPass(EmptyOperation, b, isSlice).responses
  {
    LinesPassAppend(op, a, b, isSlice);
    ListsShift(LinesPass(op, a, isSlice), b, isSlice);
  }

  /** What one line adds to the lists. */
  lemma ListsSingle(line: string, isSlice: string -> (bool, string))
    ensures LinesPass(EmptyOperation, [line], isSlice).accepts == AddedAccepts(ClassifyOpLine(line, isSlice))
    ensures LinesPass(EmptyOperation, [line], isSlice).parameters == AddedParameters(ClassifyOpLine(line, isSlice))
    ensures LinesPass(EmptyOperation, [line], isSlice).responses == AddedResponses(ClassifyOpLine(line, isSlice))
  {
    assert [line][..0] == [];
    ApplyOpLineLists(EmptyOperation, line, isSlice);
  }

  // ---- the method ----

  /** The media types of one `@Accept` payload appended to `accepts`. */
  method AppendAccepts(accepts: seq<string>, raw: string) returns (r: seq<string>)
    ensures r == accepts + NormalizeAccepts(raw)
  {
    var items := Split(raw, ',');
    r := accepts;
    for k := 0 to |items|
      invariant r == accepts + NormalizedItems(items[..k])
    {
      assert items[..k + 1][..k] == items[..k];
      var accept := TrimSpace(items[k]);
      accept := ToLower(accept);
      if accept == "" {
        continue;
      } else if accept == "json" {
        accept := "application/json";
      } else if accept == "xml" {
        accept := "application/xml";
      }
      r := r + [accept];
    }
    assert items[..|items|] == items;
  }

  /** The response built from the captures of a `@Success`/`@Failure` line. */
  method ScanResponse(matches: seq<string>, isSlice: string -> (bool, string)) returns (response: ResponseIntermediate)
    requires |matches| == 5
    ensures response == ResponseOf(matches, isSlice)
  {
    var statusCode := Atoi(matches[1]);
    var goType := matches[3];
    if ToLower(matches[2]) == "array" && !HasPrefix(goType, "[]") {
      goType := "[]" + goType;
    }
    var responseType;
    var sl := isSlice(goType);
    if sl.0 {
      responseType := SliceType(goType, sl.1);
    } else {
      responseType := ScalarType(goType);
    }
    response := ResponseIntermediate(ToLower(matches[0]) == "success", statusCode, matches[4], responseType);
  }

  /** The parameter built from the captures of a `@Param` line. */
  method ScanParam(matches: seq<string>) returns (parameter: ParameterIntermediate)
    requires |matches| == 5
    ensures parameter == ParamOf(matches)
  {
    var parameterType := MemberType(matches[2], matches[0]);
    parameter := ParameterIntermediate(matches[1], ToLower(matches[3]) == "true", matches[4], parameterType);
  }

  /** What `ApplyOpLine` does, case by case in the order the patterns are tried. */
  lemma ApplyOpLineFirstCases(op: OperationIntermediate, line: string, isSlice: string -> (bool, string))
    ensures Find(AcceptPattern, line).Some? ==>
      ApplyOpLine(op, line, isSlice) == op.(accepts := op.accepts + NormalizeAccepts(Find(AcceptPattern, line).value[0]))
    ensures Find(AcceptPattern, line).None? && Find(DescriptionPattern, line).Some? ==>
      ApplyOpLine(op, line, isSlice) == op.(description := Find(DescriptionPattern, line).value[0])
    ensures Find(AcceptPattern, line).None? && Find(DescriptionPattern, line).None? && Find(ParamPattern, line).Some? ==>
      ApplyOpLine(op, line, isSlice) == op.(parameters := op.parameters + [ParamOf(Find(ParamPattern, line).value)])
  {
  }

  /** The later cases of `ClassifyOpLine`, once the earlier patterns have failed. */
  lemma ClassifiedResponse(line: string, isSlice: string -> (bool, string), m: seq<string>)
    requires Find(AcceptPattern, line).None? && Find(DescriptionPattern, line).None? && Find(ParamPattern, line).None?
    requires Find(ResponsePattern, line) == Some(m)
    ensures ClassifyOpLine(line, isSlice) == ResponseLine(ResponseOf(m, isSlice))
  {
  }

  lemma ClassifiedRoute(line: string, isSlice: string -> (bool, string), m: seq<string>)
    requires Find(AcceptPattern, line).None? && Find(DescriptionPattern, line).None? && Find(ParamPattern, line).None?
    requires Find(ResponsePattern, line).None? && Find(RouterPattern, line) == Some(m)
    ensures ClassifyOpLine(line, isSlice) == RouteLine(m[0], m[1])
  {
  }

  lemma ClassifiedTitle(line: string, isSlice: string -> (bool, string), m: seq<string>)
    requires Find(AcceptPattern, line).None? && Find(DescriptionPattern, line).None? && Find(ParamPattern, line).None?
    requires Find(ResponsePattern, line).None? && Find(RouterPattern, line).None?
    requires Find(TitlePattern, line) == Some(m)
    ensures ClassifyOpLine(line, isSlice) == TitleLine(m[0])
  {
  }

  lemma ClassifiedOther(line: string, isSlice: string -> (bool, string))
    requires Find(AcceptPattern, line).None? && Find(DescriptionPattern, line).None? && Find(ParamPattern, line).None?
    requires Find(ResponsePattern, line).None? && Find(RouterPattern, line).None?
    requires Find(TitlePattern, line).None?
    ensures ClassifyOpLine(line, isSlice) == OtherLine
  {
  }

  /** What `ApplyOpLine` does with a line of each of the later cases. */
  lemma ApplyOpLineLater(op: OperationIntermediate, line: string, isSlice: string -> (bool, string))
    ensures ClassifyOpLine(line, isSlice).ResponseLine? ==>
      ApplyOpLine(op, line, isSlice) == op.(responses := op.responses + [ClassifyOpLine(line, isSlice).response])
    ensures ClassifyOpLine(line, isSlice).RouteLine? ==>
      ApplyOpLine(op, line, isSlice) ==
        op.(path := ClassifyOpLine(line, isSlice).path, httpMethod := ClassifyOpLine(line, isSlice).verb)
    ensures ClassifyOpLine(line, isSlice).TitleLine? ==>
      ApplyOpLine(op, line, isSlice) == op.(summary := ClassifyOpLine(line, isSlice).text)
    ensures ClassifyOpLine(line, isSlice).OtherLine? ==> ApplyOpLine(op, line, isSlice) == op
  {
  }

  /** One pass of the source's `switch` over a line. */
  method ScanOperationLine(op0: OperationIntermediate, line: string, isSlice: string -> (bool, string))
    returns (op: OperationIntermediate)
    ensures op == ApplyOpLine(op0, line, isSlice)
  {
    ApplyOpLineFirstCases(op0, line, isSlice);
    ApplyOpLineLater(op0, line, isSlice);
    var m := Find(AcceptPattern, line);
    if m.Some? {
      var accepts := AppendAccepts(op0.accepts, m.value[0]);
      return op0.(accepts := accepts);
    }
    m := Find(DescriptionPattern, line);
    if m.Some? {
      return op0.(description := m.value[0]);
    }
    m := Find(ParamPattern, line);
    if m.Some? {
      var parameter := ScanParam(m.value);
      return op0.(parameters := op0.parameters + [parameter]);
    }
    m := Find(ResponsePattern, line);
    if m.Some? {
      ClassifiedResponse(line, isSlice, m.value);
      var response := ScanResponse(m.value, isSlice);
      return op0.(responses := op0.responses + [response]);
    }
    m := Find(RouterPattern, line);
    if m.Some? {
      ClassifiedRoute(line, isSlice, m.value);
      return op0.(path := m.value[0], httpMethod := m.value[1]);
    }
    m := Find(TitlePattern, line);
    if m.Some? {
      ClassifiedTitle(line, isSlice, m.value);
      return op0.(summary := m.value[0]);
    }
    ClassifiedOther(line, isSlice);
    return op0;
  }

  method SectionPassMethod(sections: seq<Section>) returns (op: OperationIntermediate)
    ensures op == SectionPass(EmptyOperation, sections)
  {
    op := EmptyOperation;
    for k := 0 to |sections|
      invariant op == SectionPass(EmptyOperation, sections[..k])
    {
      assert sections[..k + 1][..k] == sections[..k];
      var section := sections[k];
      var title := TrimSpace(section.title);
      title := ToLower(title);
      if title == "openapi summary" {
        var l := section.Line(0);
        if l.1 {
          op := op.(summary := l.0);
        }
      } else if title == "openapi path" {
        var l := section.Line(0);
        if l.1 {
          op := op.(path := l.0);
        }
      } else if title == "openapi method" {
        var l := section.Line(0);
        if l.1 {
          op := op.(httpMethod := l.0);
        }
      }
    }
    assert sections[..|sections|] == sections;
  }

  /** `intermediatateOperation`. */
  method IntermediateOperation(commentBlock: string, isSlice: string -> (bool, string))
    returns (op: OperationIntermediate)
    ensures op == OperationOf(commentBlock, isSlice)
  {
    var sections := ParseSections(commentBlock);
    op := SectionPassMethod(sections);
    ghost var start := op;
    var lines := ScanLines(commentBlock);
    for k := 0 to |lines|
      invariant op == LinesPass(start, lines[..k], isSlice)
    {
      assert lines[..k + 1][..k] == lines[..k];
      op := ScanOperationLine(op, lines[k], isSlice);
    }
    assert lines[..|lines|] == lines;
  }

  // ---- query-string parameter sections ----

  /** The parameter a query-parameter line yields, if it matches. The source
      trims a copy of the description and ignores the copy, so the description
      is kept as captured. */
  function QueryParamOf(line: string): (r: Option<ParameterIntermediate>)
    ensures r.Some? ==> r.value.location == "query"
  {
    match Find(QueryParamPattern, line)
    case Some(m) => Some(ParameterIntermediate("query", ToLower(m[2]) == "required", m[3], MemberType(m[1], m[0])))
    case None => None
  }

  function QueryParamsOf(lines: seq<string>): (r: seq<ParameterIntermediate>)
    ensures |r| <= |lines|
    ensures forall k :: 0 <= k < |r| ==> r[k].location == "query"
  {
    if lines == [] then []
    else
      var p := QueryParamOf(lines[|lines| - 1]);
      QueryParamsOf(lines[..|lines| - 1]) + (if p.Some? then [p.value] else [])
  }

  /** `parseQueryStringParams`: the body lines are read one index at a time
      until `Line` reports that there are no more. */
  method ParseQueryStringParams(section: Section) returns (out: seq<ParameterIntermediate>)
    ensures out == QueryParamsOf(BodyLines(section.body))
  {
    ghost var lines := BodyLines(section.body);
    out := [];
    var i := 0;
    while true
      invariant 0 <= i <= |lines|
      invariant out == QueryParamsOf(lines[..i])
      decreases |lines| - i
    {
      var l := section.Line(i);
      if !l.1 {
        break;
      }
      assert lines[..i + 1][..i] == lines[..i];
      var matches := Find(QueryParamPattern, l.0);
      if matches.Some? {
        var m := matches.value;
        var parameterType := MemberType(m[1], m[0]);
        var parameter := ParameterIntermediate("query", ToLower(m[2]) == "required", m[3], parameterType);
        out := out + [parameter];
      }
      i := i + 1;
    }
    assert lines[..i] == lines;
  }

  lemma {:induction false} QueryParamsAppend(a: seq<string>, b: seq<string>)
    ensures QueryParamsOf(a + b) == QueryParamsOf(a) + QueryParamsOf(b)
    decreases |b|
  {
    if b == [] {
      assert a + b == a;
    } else {
      var init := b[..|b| - 1];
      assert (a + b)[..|a + b| - 1] == a + init;
      assert (a + b)[|a + b| - 1] == b[|b| - 1];
      QueryParamsAppend(a, init);
    }
  }

  /** A line `name type required description` yields the parameter named
      `name` of type `type`, required when the third word is `required` in
      any case, described by the rest of the line. */
  lemma QueryParamLineParsed(name: string, typ: string, required: string, description: string)
    requires name != [] && typ != [] && required != [] && description != []
    requires AllIn(name, WordDash) && AllIn(typ, Word) && AllIn(required, WordDot)
    requires !InClass(description[0], Space) && '\n' !in description
    ensures QueryParamsOf([QueryParamLine(name, typ, required, description)]) ==
      [ParameterIntermediate("query", ToLower(required) == "required", description, MemberType(typ, name))]
  {
    QueryParamCaptures(name, typ, required, description);
    assert [QueryParamLine(name, typ, required, description)][..0] == [];
  }
}
