/** Reading a skill definition from the text of its file.  Strings are byte strings. */
module SkillParser {
  import opened Options
  import opened Text
  import opened SkillModel

  const HEAD_LINES := 20
  const DESCRIPTION_LIMIT := 100

  /** strings.SplitN by a newline: at most n pieces, the last one unsplit. */
  function SplitLines(text: string, n: nat): seq<string>
    requires n > 0
    decreases n
  {
    var end := LineEnd(text, 0);
    if n == 1 || end == |text| then [text] else [text[..end]] + SplitLines(text[end + 1..], n - 1)
  }

  function LineEnd(text: string, from: nat): (end: nat)
    requires from <= |text|
    ensures from <= end <= |text| && '\n' !in text[from..end]
    ensures end < |text| ==> text[end] == '\n'
    decreases |text| - from
  {
    if from == |text| || text[from] == '\n' then from
    else
      var end := LineEnd(text, from + 1);
      assert text[from..end] == [text[from]] + text[from + 1..end];
      end
  }

  datatype Head = Head(displayName: string, description: string, category: string, keywords: seq<string>)

  predicate IsTitle(line: string) {
    HasPrefix(line, "## ") || HasPrefix(line, "# ")
  }

  function TitleOf(line: string): string {
    TrimSpace(TrimPrefix(TrimPrefix(line, "## "), "# "))
  }

  predicate IsField(line: string, name: string) {
    HasPrefix(ToLower(line), name)
  }

  function KeywordsIn(parts: seq<string>): seq<string> {
    if parts == [] then []
    else
      var front, last := KeywordsIn(parts[..|parts| - 1]), TrimSpace(parts[|parts| - 1]);
      if last != "" then front + [last] else front
  }

  function SplitCommas(text: string, current: string): seq<string>
    decreases text
  {
    if text == "" then [current]
    else if text[0] == ',' then [current] + SplitCommas(text[1..], "")
    else SplitCommas(text[1..], current + [text[0]])
  }

  /** The effect of one line, already trimmed.  A field's name is recognised in any case but removed
      only in lower case. */
  function HeadAfter(h: Head, line: string): Head {
    if IsTitle(line) then
      if TitleOf(line) != "" then h.(displayName := TitleOf(line)) else h
    else if IsField(line, "description:") then h.(description := TrimSpace(TrimPrefix(line, "description:")))
    else if IsField(line, "category:") then h.(category := TrimSpace(TrimPrefix(line, "category:")))
    else if IsField(line, "keywords:") then
      h.(keywords := h.keywords + KeywordsIn(SplitCommas(TrimSpace(TrimPrefix(line, "keywords:")), "")))
    else h
  }

  function HeadOf(identifier: string, lines: seq<string>): Head {
    if lines == [] then Head(TrimPrefix(identifier, "/"), "", "general", [])
    else HeadAfter(HeadOf(identifier, lines[..|lines| - 1]), TrimSpace(lines[|lines| - 1]))
  }

  /** Without a description field: the first body line, cut at the limit. */
  function FallbackDescription(lines: seq<string>): string {
    if lines == [] then ""
    else
      var line := TrimSpace(lines[0]);
      if line != "" && !HasPrefix(line, "#")
      then if |line| > DESCRIPTION_LIMIT then line[..DESCRIPTION_LIMIT] + "..." else line
      else FallbackDescription(lines[1..])
  }

  function Described(h: Head, lines: seq<string>): Head {
    if h.description == "" && |lines| > 2 then h.(description := FallbackDescription(lines[2..])) else h
  }

  function ParsedDefinition(identifier: string, content: string): SkillDefinition {
    var lines := SplitLines(content, HEAD_LINES);
    var h := Described(HeadOf(identifier, lines), lines);
    SkillDefinition(SkillMetadata(identifier, h.displayName, h.description, h.keywords, h.category, 1), content)
  }

  method ParseSkillDefinition(identifier: string, content: string) returns (def: SkillDefinition)
    ensures def == ParsedDefinition(identifier, content)
  {
    var lines := SplitLines(content, HEAD_LINES);
    var displayName, description, category, keywords := ReadHead(identifier, lines);
    if description == "" && |lines| > 2 {
      description := FindDescription(lines[2..]);
    }
    def := SkillDefinition(SkillMetadata(identifier, displayName, description, keywords, category, 1), content);
  }

  method ReadHead(identifier: string, lines: seq<string>)
    returns (displayName: string, description: string, category: string, keywords: seq<string>)
    ensures Head(displayName, description, category, keywords) == HeadOf(identifier, lines)
  {
    displayName, description, category := TrimPrefix(identifier, "/"), "", "general";
    keywords := [];
    var i := 0;
    while i < |lines|
      invariant 0 <= i <= |lines|
      invariant Head(displayName, description, category, keywords) == HeadOf(identifier, lines[..i])
    {
      var line := TrimSpace(lines[i]);
      assert lines[..i + 1][..i] == lines[..i];
      assert HeadOf(identifier, lines[..i + 1]) == HeadAfter(Head(displayName, description, category, keywords), line);
      if IsTitle(line) {
        var title := TitleOf(line);
        if title != "" {
          displayName := title;
        }
      } else if IsField(line, "description:") {
        description := TrimSpace(TrimPrefix(line, "description:"));
      } else if IsField(line, "category:") {
        category := TrimSpace(TrimPrefix(line, "category:"));
      } else if IsField(line, "keywords:") {
        var more := CollectKeywords(SplitCommas(TrimSpace(TrimPrefix(line, "keywords:")), ""));
        keywords := keywords + more;
      }
      i := i + 1;
    }
    assert lines[..i] == lines;
  }

  method CollectKeywords(parts: seq<string>) returns (keywords: seq<string>)
    ensures keywords == KeywordsIn(parts)
  {
    keywords := [];
    var i := 0;
    while i < |parts|
      invariant 0 <= i <= |parts| && keywords == KeywordsIn(parts[..i])
    {
      assert parts[..i + 1][..i] == parts[..i];
      var keyword := TrimSpace(parts[i]);
      if keyword != "" {
        keywords := keywords + [keyword];
      }
      i := i + 1;
    }
    assert parts[..i] == parts;
  }

  method FindDescription(lines: seq<string>) returns (description: string)
    ensures description == FallbackDescription(lines)
  {
    var i := 0;
    while i < |lines|
      invariant 0 <= i <= |lines| && FallbackDescription(lines) == FallbackDescription(lines[i..])
    {
      var line := TrimSpace(lines[i]);
      assert lines[i..][1..] == lines[i + 1..];
      if line != "" && !HasPrefix(line, "#") {
        return if |line| > DESCRIPTION_LIMIT then line[..DESCRIPTION_LIMIT] + "..." else line;
      }
      i := i + 1;
    }
    description := "";
  }

  // ----- The pieces of a text -----

  /** Nothing is lost: the pieces, joined again, are the text; only the n-th can hold a newline. */
  lemma {:induction false} SplitLinesJoin(text: string, n: nat)
    requires n > 0
    ensures Join(SplitLines(text, n), "\n") == text && 1 <= |SplitLines(text, n)| <= n
    ensures forall i | 0 <= i < |SplitLines(text, n)| - 1 :: '\n' !in SplitLines(text, n)[i]
    ensures |SplitLines(text, n)| < n ==> '\n' !in SplitLines(text, n)[|SplitLines(text, n)| - 1]
    decreases n
  {
    var end := LineEnd(text, 0);
    if n > 1 && end < |text| {
      SplitLinesJoin(text[end + 1..], n - 1);
      assert text[0..end] == text[..end];
      assert text == text[..end] + "\n" + text[end + 1..];
    }
  }

  lemma {:induction false} SplitCommasJoin(text: string, current: string)
    requires ',' !in current
    ensures Join(SplitCommas(text, current), ",") == current + text && SplitCommas(text, current) != []
    ensures forall part | part in SplitCommas(text, current) :: ',' !in part
    decreases text
  {
    if text == "" {
    } else if text[0] == ',' {
      SplitCommasJoin(text[1..], "");
      assert current + text == current + "," + text[1..];
    } else {
      SplitCommasJoin(text[1..], current + [text[0]]);
      assert current + text == (current + [text[0]]) + text[1..];
    }
  }

  // ----- What the head says -----

  /** The last value given, or the default when none is. */
  function LastValue(values: seq<Option<string>>, default: string): string {
    if values == [] then default
    else match values[|values| - 1] { case Some(v) => v case None => LastValue(values[..|values| - 1], default) }
  }

  ghost predicate GivenLastAt(values: seq<Option<string>>, v: string, i: int) {
    0 <= i < |values| && values[i] == Some(v) && forall j | i < j < |values| :: values[j].None?
  }

  lemma {:induction false} LastValueMeaning(values: seq<Option<string>>, default: string)
    ensures if forall i | 0 <= i < |values| :: values[i].None? then LastValue(values, default) == default
            else exists i :: GivenLastAt(values, LastValue(values, default), i)
  {
    if values != [] {
      var front, n := values[..|values| - 1], |values| - 1;
      LastValueMeaning(front, default);
      assert forall i | 0 <= i < |front| :: front[i] == values[i];
      if values[n].Some? {
        assert LastValue(values, default) == values[n].value;
        assert GivenLastAt(values, LastValue(values, default), n);
        return;
      }
      assert LastValue(values, default) == LastValue(front, default);
      if i :| GivenLastAt(front, LastValue(front, default), i) {
        assert GivenLastAt(values, LastValue(front, default), i);
      }
    }
  }

  /** The title a line gives, if any. */
  function TitleIn(line: string): Option<string> {
    if IsTitle(TrimSpace(line)) && TitleOf(TrimSpace(line)) != "" then Some(TitleOf(TrimSpace(line))) else None
  }

  /** The value a line gives to a field, if it is that field's line. */
  function FieldIn(line: string, name: string): Option<string> {
    if IsField(TrimSpace(line), name) then Some(TrimSpace(TrimPrefix(TrimSpace(line), name))) else None
  }

  function KeywordsOf(line: string): seq<string> {
    match FieldIn(line, "keywords:") { case Some(v) => KeywordsIn(SplitCommas(v, "")) case None => [] }
  }

  function Titles(lines: seq<string>): seq<Option<string>> {
    seq(|lines|, i requires 0 <= i < |lines| => TitleIn(lines[i]))
  }

  function Fields(lines: seq<string>, name: string): seq<Option<string>> {
    seq(|lines|, i requires 0 <= i < |lines| => FieldIn(lines[i], name))
  }

  /** A line is a title or belongs to at most one field. */
  lemma LineKinds(line: string)
    ensures IsTitle(line) ==> !IsField(line, "description:") && !IsField(line, "category:") && !IsField(line, "keywords:")
    ensures IsField(line, "description:") ==> !IsField(line, "category:") && !IsField(line, "keywords:")
    ensures IsField(line, "category:") ==> !IsField(line, "keywords:")
  {
    if IsTitle(line) {
      assert line[0] == '#';
    }
    if IsField(line, "description:") {
      assert ToLower(line)[0] == "description:"[0];
    }
    if IsField(line, "category:") {
      assert ToLower(line)[0] == "category:"[0];
    }
    if IsField(line, "keywords:") {
      assert ToLower(line)[0] == "keywords:"[0];
    }
  }

  function Or(value: Option<string>, default: string): string {
    match value { case Some(v) => v case None => default }
  }

  /** One line changes the parts of the head independently. */
  lemma LineEffect(h: Head, line: string)
    ensures HeadAfter(h, TrimSpace(line)) ==
      Head(Or(TitleIn(line), h.displayName), Or(FieldIn(line, "description:"), h.description),
           Or(FieldIn(line, "category:"), h.category), h.keywords + KeywordsOf(line))
  {
    LineKinds(TrimSpace(line));
  }

  lemma HeadOfMore(identifier: string, lines: seq<string>, line: string)
    ensures var h := HeadOf(identifier, lines);
      HeadOf(identifier, lines + [line]) ==
      Head(Or(TitleIn(line), h.displayName), Or(FieldIn(line, "description:"), h.description),
           Or(FieldIn(line, "category:"), h.category), h.keywords + KeywordsOf(line))
  {
    assert (lines + [line])[..|lines|] == lines;
    LineEffect(HeadOf(identifier, lines), line);
  }

  lemma TitlesAfter(lines: seq<string>, line: string, default: string)
    ensures LastValue(Titles(lines + [line]), default) == Or(TitleIn(line), LastValue(Titles(lines), default))
  {
    var longer := Titles(lines + [line]);
    assert longer[..|lines|] == Titles(lines) && longer[|lines|] == TitleIn(line);
  }

  lemma FieldsAfter(lines: seq<string>, line: string, name: string, default: string)
    ensures LastValue(Fields(lines + [line], name), default) == Or(FieldIn(line, name), LastValue(Fields(lines, name), default))
  {
    var longer := Fields(lines + [line], name);
    assert longer[..|lines|] == Fields(lines, name) && longer[|lines|] == FieldIn(line, name);
  }

  /** The keywords of every keyword line, line after line. */
  function AllKeywords(lines: seq<string>): seq<string> {
    if lines == [] then [] else AllKeywords(lines[..|lines| - 1]) + KeywordsOf(lines[|lines| - 1])
  }

  /** What the head ought to be, each part on its own. */
  function Expected(identifier: string, lines: seq<string>): Head {
    Head(LastValue(Titles(lines), TrimPrefix(identifier, "/")), LastValue(Fields(lines, "description:"), ""),
         LastValue(Fields(lines, "category:"), "general"), AllKeywords(lines))
  }

  lemma ExpectedAfter(identifier: string, lines: seq<string>, line: string)
    ensures var h, longer := Expected(identifier, lines), Expected(identifier, lines + [line]);
      && longer.displayName == Or(TitleIn(line), h.displayName)
      && longer.description == Or(FieldIn(line, "description:"), h.description)
      && longer.category == Or(FieldIn(line, "category:"), h.category)
      && longer.keywords == h.keywords + KeywordsOf(line)
  {
    assert (lines + [line])[..|lines|] == lines;
    TitlesAfter(lines, line, TrimPrefix(identifier, "/"));
    FieldsAfter(lines, line, "description:", "");
    FieldsAfter(lines, line, "category:", "general");
  }

  lemma MeansMore(identifier: string, lines: seq<string>, line: string)
    requires HeadOf(identifier, lines) == Expected(identifier, lines)
    ensures HeadOf(identifier, lines + [line]) == Expected(identifier, lines + [line])
  {
    HeadOfMore(identifier, lines, line);
    ExpectedAfter(identifier, lines, line);
  }

  /** Name, description and category each come from their own last line in the head, the keywords from all
      their lines; without a title the name is the identifier's base name. */
  lemma {:induction false} HeadMeaning(identifier: string, lines: seq<string>)
    ensures HeadOf(identifier, lines) == Expected(identifier, lines)
  {
    if lines != [] {
      var front, last := lines[..|lines| - 1], lines[|lines| - 1];
      assert lines == front + [last];
      HeadMeaning(identifier, front);
      MeansMore(identifier, front, last);
    }
  }

  lemma {:induction false} KeywordsInMeaning(parts: seq<string>, k: string)
    ensures k in KeywordsIn(parts) <==> k != "" && exists part | part in parts :: TrimSpace(part) == k
  {
    if parts != [] {
      var front, last := parts[..|parts| - 1], parts[|parts| - 1];
      KeywordsInMeaning(front, k);
      assert forall part :: part in parts <==> part in front || part == last;
    }
  }

  /** Within a line order and repetitions are kept: the pieces contribute one after the other. */
  lemma {:induction false} KeywordsInJoin(a: seq<string>, b: seq<string>)
    ensures KeywordsIn(a + b) == KeywordsIn(a) + KeywordsIn(b)
    ensures forall part :: KeywordsIn([part]) == if TrimSpace(part) == "" then [] else [TrimSpace(part)]
    decreases b
  {
    forall part
      ensures KeywordsIn([part]) == if TrimSpace(part) == "" then [] else [TrimSpace(part)]
    {
      assert [part][..0] == [];
    }
    if b == [] {
      assert a + b == a;
    } else {
      assert (a + b)[..|a + b| - 1] == a + b[..|b| - 1];
      KeywordsInJoin(a, b[..|b| - 1]);
    }
  }

  lemma {:induction false} AllKeywordsAre(lines: seq<string>, k: string)
    ensures k in AllKeywords(lines) <==> exists line | line in lines :: k in KeywordsOf(line)
  {
    if lines != [] {
      var front, last := lines[..|lines| - 1], lines[|lines| - 1];
      AllKeywordsAre(front, k);
      assert forall line :: line in lines <==> line in front || line == last;
    }
  }

  /** The keywords are those of all keyword lines, line after line with repetitions. */
  lemma KeywordsMeaning(identifier: string, lines: seq<string>, k: string)
    ensures HeadOf(identifier, lines).keywords == AllKeywords(lines)
    ensures k in HeadOf(identifier, lines).keywords <==> exists line | line in lines :: k in KeywordsOf(line)
  {
    HeadMeaning(identifier, lines);
    AllKeywordsAre(lines, k);
  }

  predicate IsPlain(line: string) {
    TrimSpace(line) != "" && !HasPrefix(TrimSpace(line), "#")
  }

  /** `d` is the first plain line, cut at a hundred bytes; empty when there is none. */
  ghost predicate IsFallback(lines: seq<string>, d: string) {
    if forall line | line in lines :: !IsPlain(line) then d == ""
    else exists i | 0 <= i < |lines| ::
      && IsPlain(lines[i]) && (forall j | 0 <= j < i :: !IsPlain(lines[j]))
      && d == (if |TrimSpace(lines[i])| > 100 then TrimSpace(lines[i])[..100] + "..." else TrimSpace(lines[i]))
  }

  lemma {:induction false} FallbackMeaning(lines: seq<string>)
    ensures IsFallback(lines, FallbackDescription(lines))
  {
    if lines != [] {
      if IsPlain(lines[0]) {
        assert lines[0] in lines;
      } else {
        FallbackMeaning(lines[1..]);
        assert forall line :: line in lines <==> line == lines[0] || line in lines[1..];
      }
    }
  }

  // ----- Which lines give a title or a field -----

  /** A heading of the first or second level gives its text. */
  lemma TitleMeaning(t: string)
    requires t != "" && IsTrimmed(t)
    ensures TitleIn("# " + t) == Some(t)
    ensures !HasPrefix(t, "# ") ==> TitleIn("## " + t) == Some(t)
  {
    var first, second := "# " + t, "## " + t;
    assert first[0] == '#' && first[1] == ' ' && second[0] == '#' && second[1] == '#' && second[2] == ' ';
    assert first[|first| - 1] == second[|second| - 1] == t[|t| - 1];
    TrimsToItself(first);
    TrimsToItself(second);
    TrimsToItself(t);
    TrimPrefixOf("# ", t);
    TrimPrefixOf("## ", t);
  }

  /** Only such headings do. */
  lemma TitlesAreHeadings(line: string)
    ensures TitleIn(line).Some? ==> HasPrefix(TrimSpace(line), "# ") || HasPrefix(TrimSpace(line), "## ")
  {
  }

  predicate IsFieldName(name: string) {
    name == "description:" || name == "category:" || name == "keywords:"
  }

  lemma FieldNames(name: string)
    requires IsFieldName(name)
    ensures |name| >= 2 && !IsSpace(name[0]) && ToLower(name) == name
  {
  }

  /** A field written in lower case gives what follows its name. */
  lemma FieldMeaning(name: string, gap: string, value: string)
    requires IsFieldName(name) && AllSpace(gap) && value != "" && IsTrimmed(value)
    ensures FieldIn(name + gap + value, name) == Some(value)
  {
    var line := name + (gap + value);
    assert line == name + gap + value;
    FieldNames(name);
    assert line[0] == name[0] && line[|line| - 1] == value[|value| - 1];
    TrimsToItself(line);
    assert ToLower(line)[..|name|] == ToLower(name);
    TrimPrefixOf(name, gap + value);
    TrimSpaceSkipsBefore(gap, value);
  }

  /** Written in any other case it is recognised as well, but its name stays in the value. */
  lemma CapitalisedFieldKeepsItsName(name: string, line: string)
    requires line != "" && IsTrimmed(line) && HasPrefix(ToLower(line), name) && !HasPrefix(line, name)
    ensures FieldIn(line, name) == Some(line)
  {
    TrimsToItself(line);
  }

  /** A later section heading replaces the display name that the first heading gave. */
  lemma SectionOverridesName(identifier: string, lines: seq<string>, t: string)
    requires t != "" && IsTrimmed(t) && !HasPrefix(t, "# ")
    ensures HeadOf(identifier, lines + ["## " + t]).displayName == t
  {
    HeadOfMore(identifier, lines, "## " + t);
    TitleMeaning(t);
  }

  // ----- The definition -----

  /** Every part of the definition, in terms of the first twenty lines: the description is that of the field
      unless it is empty, and otherwise the first plain line after the second. */
  lemma DefinitionMeaning(identifier: string, content: string)
    ensures var lines, def := SplitLines(content, 20), ParsedDefinition(identifier, content);
      var meta, given := def.metadata, LastValue(Fields(lines, "description:"), "");
      && def.instructions == content && meta.identifier == identifier && meta.schemaVersion == 1
      && meta.displayName == LastValue(Titles(lines), TrimPrefix(identifier, "/"))
      && meta.category == LastValue(Fields(lines, "category:"), "general")
      && meta.keywords == AllKeywords(lines)
      && (given != "" ==> meta.description == given)
      && (given == "" ==> if |lines| > 2 then IsFallback(lines[2..], meta.description) else meta.description == "")
  {
    var lines := SplitLines(content, 20);
    HeadMeaning(identifier, lines);
    if |lines| > 2 {
      FallbackMeaning(lines[2..]);
    }
  }

  /** The body is kept whole, and the display name is never empty. */
  lemma ParsedIsRegistrable(identifier: string, content: string)
    requires |identifier| >= 2 && identifier[0] == '/'
    ensures var def := ParsedDefinition(identifier, content);
      && def.metadata.identifier == identifier && def.instructions == content
      && def.metadata.displayName != ""
  {
    var lines := SplitLines(content, HEAD_LINES);
    var name := LastValue(Titles(lines), TrimPrefix(identifier, "/"));
    HeadMeaning(identifier, lines);
    LastValueMeaning(Titles(lines), TrimPrefix(identifier, "/"));
    if i :| GivenLastAt(Titles(lines), name, i) {
      assert TitleIn(lines[i]) == Some(name);
    }
  }
}
