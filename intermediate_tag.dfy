/** Tag declarations (intermediate_tag.go): every section titled "OpenAPI Tag"
    becomes a tag named by its first body line and described by the rest. */
module Tags {
  import opened Strings
  import opened Sections

  datatype TagIntermediate = TagIntermediate(name: string, description: string)

  predicate IsTagSection(section: Section) {
    ToLower(section.title) == "openapi tag"
  }

  /** The tag a tag section's body declares. `strings.Split` never yields an empty
      slice, so the source's branch for a body without lines cannot be taken. */
  function TagOf(body: string): TagIntermediate {
    var lines := Split(body, '\n');
    TagIntermediate(TrimSpace(lines[0]), if |lines| > 1 then Join(lines[1..], '\n') else "")
  }

  /** The tags of a sequence of sections: one per tag section, in order. */
  function TagsOf(sections: seq<Section>): (r: seq<TagIntermediate>)
    ensures |r| <= |sections|
  {
    if sections == [] then []
    else
      var last := sections[|sections| - 1];
      TagsOf(sections[..|sections| - 1]) + (if IsTagSection(last) then [TagOf(last.body)] else [])
  }

  /** `intermediatateTags`. */
  method IntermediateTags(commentBlock: string) returns (tagIntermediates: seq<TagIntermediate>)
    ensures tagIntermediates == TagsOf(SectionsOf(TrimmedLines(commentBlock)))
  {
    var sections := ParseSections(commentBlock);
    tagIntermediates := [];
    for k := 0 to |sections|
      invariant tagIntermediates == TagsOf(sections[..k])
    {
      assert sections[..k + 1][..k] == sections[..k];
      var section := sections[k];
      var title := ToLower(section.title);
      if title != "openapi tag" {
        continue;
      }
      var lines := Split(section.body, '\n');
      var name := TrimSpace(lines[0]);
      var description := "";
      if |lines| > 1 {
        description := Join(lines[1..], '\n');
      }
      tagIntermediates := tagIntermediates + [TagIntermediate(name, description)];
    }
    assert sections[..|sections|] == sections;
  }

  /** The name is the trimmed text before the first newline. */
  lemma TagName(body: string)
    ensures TagOf(body).name == TrimSpace(body[..IndexOf(body, '\n')])
  {
    SplitHead(body, '\n');
  }

  /** The description is the text after the first newline, or empty without one. */
  lemma TagDescription(body: string)
    ensures '\n' in body ==> TagOf(body).description == body[IndexOf(body, '\n') + 1..]
    ensures '\n' !in body ==> TagOf(body).description == ""
  {
    if '\n' in body {
      JoinSplitTail(body, '\n');
    } else {
      assert Split(body, '\n') == [body];
    }
  }

  lemma {:induction false} TagsAppend(a: seq<Section>, b: seq<Section>)
    ensures TagsOf(a + b) == TagsOf(a) + TagsOf(b)
    decreases |b|
  {
    if b == [] {
      assert a + b == a;
    } else {
      var b' := b[..|b| - 1];
      assert (a + b)[..|a + b| - 1] == a + b';
      assert (a + b)[|a + b| - 1] == b[|b| - 1];
      TagsAppend(a, b');
    }
  }

  /** A single section yields a tag exactly when it is a tag section. */
  lemma TagsSingle(section: Section)
    ensures TagsOf([section]) == if IsTagSection(section) then [TagOf(section.body)] else []
  {
    assert [section][..0] == [];
  }

  /** For a tag section as the parser builds it, from body lines `ls`, the name
      is the first line and the description is the remaining lines, each ended by a newline. */
  lemma ParsedTag(ls: seq<string>)
    requires forall k :: 0 <= k < |ls| ==> Trimmed(ls[k]) && '\n' !in ls[k]
    ensures ls == [] ==> TagOf(Terminated(ls)) == TagIntermediate("", "")
    ensures ls != [] ==> TagOf(Terminated(ls)) == TagIntermediate(ls[0], Terminated(ls[1..]))
  {
    if ls == [] {
      assert Split("", '\n') == [""];
    } else {
      assert Terminated(ls) == ls[0] + "\n" + Terminated(ls[1..]);
      TagOfCons(ls[0], Terminated(ls[1..]));
    }
  }

  /** A trimmed first line, a newline, and the rest. */
  lemma TagOfCons(first: string, rest: string)
    requires Trimmed(first) && '\n' !in first
    ensures TagOf(first + "\n" + rest) == TagIntermediate(first, rest)
  {
    var body := first + "\n" + rest;
    assert body[|first|] == '\n';
    assert IndexOf(body, '\n') == |first|;
    assert body[..|first|] == first;
    assert body[|first| + 1..] == rest;
    TagName(body);
    TagDescription(body);
  }
}
