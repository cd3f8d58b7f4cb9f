/** The API header annotations (intermediate_api.go): every line of every API
    comment block is tried against the header patterns; scalar fields keep the
    last value seen and `@SubApi` lines accumulate. */
module Api {
  import opened Strings
  import opened Wrappers
  import opened Patterns

  datatype SubApiIntermediate = SubApiIntermediate(name: string, path: string)

  datatype ApiIntermediate = ApiIntermediate(
    apiVersion: string,
    apiTitle: string,
    apiDescription: string,
    basePath: string,
    subApis: seq<SubApiIntermediate>)

  /** The value the scan starts from: empty fields and an empty `SubApis`. */
  const EmptyApi := ApiIntermediate("", "", "", "", [])

  const VersionPattern := KeywordToken("@APIVersion", DigitDot)
  const TitlePattern := KeywordText("@APITitle")
  const DescriptionPattern := KeywordText("@APIDescription")
  const BasePathPattern := KeywordToken("@BasePath", PathChar)

  /** The scalar fields an annotation line can set. */
  datatype Field = Version | Title | Description | BasePath

  /** What one line does to the result. */
  datatype ApiLine = SetField(field: Field, text: string) | AddSubApi(subApi: SubApiIntermediate) | Ignored

  /** The case of the `switch` a line falls into; the cases are tried in the
      order description, title, version, base path, sub-API. */
  function ClassifyApiLine(line: string): (r: ApiLine)
    ensures Find(DescriptionPattern, line).Some? ==> r.SetField? && r.field == Description
    ensures r.SetField? && r.field == Title ==> Find(DescriptionPattern, line).None?
    ensures r.SetField? && r.field == Version ==>
      Find(DescriptionPattern, line).None? && Find(TitlePattern, line).None?
    ensures r.SetField? && r.field == BasePath ==>
      Find(DescriptionPattern, line).None? && Find(TitlePattern, line).None? && Find(VersionPattern, line).None?
    ensures r.AddSubApi? ==>
      Find(DescriptionPattern, line).None? && Find(TitlePattern, line).None? &&
      Find(VersionPattern, line).None? && Find(BasePathPattern, line).None?
    ensures r.Ignored? <==>
      Find(DescriptionPattern, line).None? && Find(TitlePattern, line).None? &&
      Find(VersionPattern, line).None? && Find(BasePathPattern, line).None? &&
      Find(SubApiPattern, line).None?
  {
    match Find(DescriptionPattern, line)
    case Some(m) => SetField(Description, m[0])
    case None =>
      match Find(TitlePattern, line)
      case Some(m) => SetField(Title, m[0])
      case None =>
        match Find(VersionPattern, line)
        case Some(m) => SetField(Version, m[0])
        case None =>
          match Find(BasePathPattern, line)
          case Some(m) => SetField(BasePath, m[0])
          case None =>
            match Find(SubApiPattern, line)
            case Some(m) => AddSubApi(SubApiIntermediate(m[0], m[1]))
            case None => Ignored
  }

  /** The text a line sets, or the sub-API it adds, is the capture of the
      pattern of its case. */
  lemma ClassifiedDescription(line: string, m: seq<string>)
    requires Find(DescriptionPattern, line) == Some(m)
    ensures ClassifyApiLine(line) == SetField(Description, m[0])
  {
  }

  lemma ClassifiedTitle(line: string, m: seq<string>)
    requires Find(DescriptionPattern, line).None? && Find(TitlePattern, line) == Some(m)
    ensures ClassifyApiLine(line) == SetField(Title, m[0])
  {
  }

  lemma ClassifiedVersion(line: string, m: seq<string>)
    requires Find(DescriptionPattern, line).None? && Find(TitlePattern, line).None?
    requires Find(VersionPattern, line) == Some(m)
    ensures ClassifyApiLine(line) == SetField(Version, m[0])
  {
  }

  lemma ClassifiedBasePath(line: string, m: seq<string>)
    requires Find(DescriptionPattern, line).None? && Find(TitlePattern, line).None?
    requires Find(VersionPattern, line).None? && Find(BasePathPattern, line) == Some(m)
    ensures ClassifyApiLine(line) == SetField(BasePath, m[0])
  {
  }

  lemma ClassifiedSubApi(line: string, m: seq<string>)
    requires Find(DescriptionPattern, line).None? && Find(TitlePattern, line).None?
    requires Find(VersionPattern, line).None? && Find(BasePathPattern, line).None?
    requires Find(SubApiPattern, line) == Some(m)
    ensures ClassifyApiLine(line) == AddSubApi(SubApiIntermediate(m[0], m[1]))
  {
  }

  function FieldOf(api: ApiIntermediate, f: Field): string {
    match f
    case Version => api.apiVersion
    case Title => api.apiTitle
    case Description => api.apiDescription
    case BasePath => api.basePath
  }

  /** Setting one field leaves the other fields and the sub-APIs as they were. */
  function WithField(api: ApiIntermediate, f: Field, text: string): (r: ApiIntermediate)
    ensures FieldOf(r, f) == text
    ensures forall g :: g != f ==> FieldOf(r, g) == FieldOf(api, g)
    ensures r.subApis == api.subApis
  {
    match f
    case Version => api.(apiVersion := text)
    case Title => api.(apiTitle := text)
    case Description => api.(apiDescription := text)
    case BasePath => api.(basePath := text)
  }

  function ApplyApiLine(api: ApiIntermediate, line: string): ApiIntermediate {
    match ClassifyApiLine(line)
    case SetField(f, text) => WithField(api, f, text)
    case AddSubApi(sub) => api.(subApis := api.subApis + [sub])
    case Ignored => api
  }

  function ApiOfLines(api: ApiIntermediate, lines: seq<string>): ApiIntermediate {
    if lines == [] then api
    else ApplyApiLine(ApiOfLines(api, lines[..|lines| - 1]), lines[|lines| - 1])
  }

  /** The lines of all blocks, block after block, as the scanner yields them. */
  function BlockLines(blocks: seq<string>): seq<string> {
    if blocks == [] then []
    else BlockLines(blocks[..|blocks| - 1]) + ScanLines(blocks[|blocks| - 1])
  }

  /** One pass of the source's `switch` over a line. */
  method ApplyLine(api0: ApiIntermediate, line: string) returns (api: ApiIntermediate)
    ensures api == ApplyApiLine(api0, line)
  {
    api := api0;
    var m := Find(DescriptionPattern, line);
    if m.Some? {
      api := api.(apiDescription := m.value[0]);
    } else {
      m := Find(TitlePattern, line);
      if m.Some? {
        api := api.(apiTitle := m.value[0]);
      } else {
        m := Find(VersionPattern, line);
        if m.Some? {
          api := api.(apiVersion := m.value[0]);
        } else {
          m := Find(BasePathPattern, line);
          if m.Some? {
            api := api.(basePath := m.value[0]);
          } else {
            m := Find(SubApiPattern, line);
            if m.Some? {
              var subApi := SubApiIntermediate(m.value[0], m.value[1]);
              api := api.(subApis := api.subApis + [subApi]);
            }
          }
        }
      }
    }
  }

  /** Scanning runs on where it stopped: the lines of a concatenation are the
      lines of the second part applied to the result of the first. */
  lemma {:induction false} ApiOfLinesAppend(api: ApiIntermediate, a: seq<string>, b: seq<string>)
    ensures ApiOfLines(api, a + b) == ApiOfLines(ApiOfLines(api, a), b)
    decreases |b|
  {
    if b == [] {
      assert a + b == a;
    } else {
      var init := b[..|b| - 1];
      assert (a + b)[..|a + b| - 1] == a + init;
      assert (a + b)[|a + b| - 1] == b[|b| - 1];
      ApiOfLinesAppend(api, a, init);
    }
  }

  /** The scan of the lines of one comment block. */
  method ApplyLines(api0: ApiIntermediate, lines: seq<string>) returns (api: ApiIntermediate)
    ensures api == ApiOfLines(api0, lines)
  {
    api := api0;
    for k := 0 to |lines|
      invariant api == ApiOfLines(api0, lines[..k])
    {
      assert lines[..k + 1][..k] == lines[..k];
      api := ApplyLine(api, lines[k]);
    }
    assert lines[..|lines|] == lines;
  }

  /** `intermediatateApi`. */
  method IntermediateApi(commentBlocks: seq<string>) returns (api: ApiIntermediate)
    ensures api == ApiOfLines(EmptyApi, BlockLines(commentBlocks))
  {
    api := EmptyApi;
    for b := 0 to |commentBlocks|
      invariant api == ApiOfLines(EmptyApi, BlockLines(commentBlocks[..b]))
    {
      var lines := ScanLines(commentBlocks[b]);
      ApiOfLinesAppend(EmptyApi, BlockLines(commentBlocks[..b]), lines);
      assert commentBlocks[..b + 1][..b] == commentBlocks[..b];
      api := ApplyLines(api, lines);
    }
    assert commentBlocks[..|commentBlocks|] == commentBlocks;
  }

  predicate SetsField(line: string, f: Field) {
    var c := ClassifyApiLine(line);
    c.SetField? && c.field == f
  }

  /** A field no line sets keeps its value; in particular it stays "" when
      scanning starts from `EmptyApi`. */
  lemma {:induction false} FieldUntouched(api: ApiIntermediate, lines: seq<string>, f: Field)
    requires forall j :: 0 <= j < |lines| ==> !SetsField(lines[j], f)
    ensures FieldOf(ApiOfLines(api, lines), f) == FieldOf(api, f)
  {
    if lines != [] {
      var init := lines[..|lines| - 1];
      FieldUntouched(api, init, f);
    }
  }

  /** A field holds the text of the last line that sets it. */
  lemma {:induction false} LastMatchWins(api: ApiIntermediate, lines: seq<string>, f: Field, k: nat)
    requires k < |lines| && SetsField(lines[k], f)
    requires forall j :: k < j < |lines| ==> !SetsField(lines[j], f)
    ensures FieldOf(ApiOfLines(api, lines), f) == ClassifyApiLine(lines[k]).text
  {
    var init := lines[..|lines| - 1];
    if k < |lines| - 1 {
      LastMatchWins(api, init, f, k);
    }
  }

  /** Sub-APIs accumulate: those of a concatenation are those of the first part
      followed by those the second part adds on its own. */
  lemma {:induction false} SubApisAppend(api: ApiIntermediate, a: seq<string>, b: seq<string>)
    ensures ApiOfLines(api, a + b).subApis == ApiOfLines(api, a).subApis + ApiOfLines(EmptyApi, b).subApis
    decreases |b|
  {
    if b == [] {
      assert a + b == a;
    } else {
      var init := b[..|b| - 1];
      assert (a + b)[..|a + b| - 1] == a + init;
      assert (a + b)[|a + b| - 1] == b[|b| - 1];
      SubApisAppend(api, a, init);
    }
  }

  /** A single line adds the sub-API it names, if it is a sub-API line. */
  lemma SubApiSingle(line: string)
    ensures ApiOfLines(EmptyApi, [line]).subApis ==
      if ClassifyApiLine(line).AddSubApi? then [ClassifyApiLine(line).subApi] else []
  {
    assert [line][..0] == [];
  }

  /** The lines of several blocks are the lines of each block in turn. */
  lemma BlockLinesSnoc(blocks: seq<string>, block: string)
    ensures BlockLines(blocks + [block]) == BlockLines(blocks) + ScanLines(block)
  {
    assert (blocks + [block])[..|blocks|] == blocks;
  }

  lemma AssocLines(x: seq<string>, y: seq<string>, z: seq<string>)
    ensures (x + y) + z == x + (y + z)
  {
  }

  lemma {:induction false} BlockLinesAppend(a: seq<string>, b: seq<string>)
    ensures BlockLines(a + b) == BlockLines(a) + BlockLines(b)
    decreases |b|
  {
    if b == [] {
      assert a + b == a;
    } else {
      var init, last := b[..|b| - 1], b[|b| - 1];
      assert a + b == (a + init) + [last];
      assert b == init + [last];
      BlockLinesSnoc(a + init, last);
      BlockLinesSnoc(init, last);
      BlockLinesAppend(a, init);
      AssocLines(BlockLines(a), BlockLines(init), ScanLines(last));
    }
  }
}
