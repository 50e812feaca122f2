/** Skill files in an S3 bucket: their keys, and how they are listed and loaded.

    Strings are byte strings.  The bucket is a map; a call that fails has no effect. */
module SkillLoader {
  import opened Options
  import opened Text
  import opened SkillModel
  import opened SkillParser

  type Objects = map<string, string>

  const EXTENSION := ".md"
  const UPPER_EXTENSION := ".MD"

  // ----- Names and keys -----

  function BuildSkillKey(prefix: string, identifier: string): string {
    prefix + TrimPrefix(identifier, "/") + EXTENSION
  }

  /** "" when the key is not a skill file directly under the prefix. */
  function ExtractSkillName(key: string, prefix: string): string {
    var relative := TrimPrefix(key, prefix);
    if relative == "" || '/' in relative then ""
    else
      var base := TrimSuffix(TrimSuffix(relative, EXTENSION), UPPER_EXTENSION);
      if base == "" then "" else "/" + base
  }

  /** The name under which a key is listed, or "" if it is not. */
  function ListedName(key: string, prefix: string): string {
    if HasSuffix(ToLower(key), EXTENSION) then ExtractSkillName(key, prefix) else ""
  }

  lemma LowerExtension(stem: string)
    ensures HasSuffix(ToLower(stem + EXTENSION), EXTENSION)
  {
    assert ToLower(stem + EXTENSION) == ToLower(stem) + EXTENSION;
    TrimSuffixOf(ToLower(stem), EXTENSION);
  }

  lemma ExtractedName(prefix: string, name: string)
    requires name != "" && '/' !in name + EXTENSION && !HasSuffix(name, UPPER_EXTENSION)
    ensures ExtractSkillName(prefix + (name + EXTENSION), prefix) == "/" + name
  {
    TrimPrefixOf(prefix, name + EXTENSION);
    TrimSuffixOf(name, EXTENSION);
  }

  /** Only skill files directly under the prefix are listed, each under "/" and a name without a slash. */
  lemma ListedOnlyIf(key: string, prefix: string)
    requires ListedName(key, prefix) != ""
    ensures HasSuffix(ToLower(key), ".md") && '/' !in TrimPrefix(key, prefix)
    ensures var name := ListedName(key, prefix); |name| >= 2 && name[0] == '/' && '/' !in name[1..]
  {
    var relative := TrimPrefix(key, prefix);
    var base := TrimSuffix(TrimSuffix(relative, EXTENSION), UPPER_EXTENSION);
    assert base <= relative && ("/" + base)[1..] == base;
  }

  lemma StemOf(relative: string)
    ensures relative == TrimSuffix(TrimSuffix(relative, EXTENSION), UPPER_EXTENSION) + EXTENSION <==>
      HasSuffix(relative, EXTENSION) && !HasSuffix(TrimSuffix(relative, EXTENSION), UPPER_EXTENSION)
  {
    var inner := TrimSuffix(relative, EXTENSION);
    var base := TrimSuffix(inner, UPPER_EXTENSION);
    TrimSuffixOf(base, EXTENSION);
    if HasSuffix(relative, EXTENSION) {
      assert relative == inner + EXTENSION;
      assert |base + EXTENSION| == |base| + 3 && |inner + EXTENSION| == |inner| + 3;
    }
  }

  /** Which listed keys the loader asks for again when it loads the name it listed: exactly those with a
      lower-case extension in front of which no upper-case one was stripped. */
  lemma ListedKeyIsRebuiltIff(prefix: string, relative: string)
    requires ListedName(prefix + relative, prefix) != ""
    ensures BuildSkillKey(prefix, ListedName(prefix + relative, prefix)) == prefix + relative <==>
      HasSuffix(relative, EXTENSION) && !HasSuffix(TrimSuffix(relative, EXTENSION), UPPER_EXTENSION)
  {
    TrimPrefixOf(prefix, relative);
    var base := TrimSuffix(TrimSuffix(relative, EXTENSION), UPPER_EXTENSION);
    TrimPrefixOf("/", base);
    assert prefix + base + EXTENSION == prefix + (base + EXTENSION);
    PrefixCancels(prefix, base + EXTENSION, relative);
    StemOf(relative);
  }

  lemma PrefixCancels(p: string, a: string, b: string)
    ensures p + a == p + b <==> a == b
  {
    assert (p + a)[|p|..] == a && (p + b)[|p|..] == b;
  }

  // ----- Listing and loading -----

  /** One answer of a paged listing: its keys, or None when the call fails. */
  type Page = Option<seq<string>>

  function AllKeys(pages: seq<Page>): seq<string> {
    if pages == [] then []
    else AllKeys(pages[..|pages| - 1]) + (match pages[|pages| - 1] { case None => [] case Some(keys) => keys })
  }

  predicate AllAnswered(pages: seq<Page>) {
    pages == [] || (AllAnswered(pages[..|pages| - 1]) && pages[|pages| - 1].Some?)
  }

  lemma {:induction false} NotAllAnswered(pages: seq<Page>, i: nat)
    requires i < |pages| && pages[i].None?
    ensures !AllAnswered(pages)
  {
    if i < |pages| - 1 {
      NotAllAnswered(pages[..|pages| - 1], i);
    }
  }

  /** The pages, if all arrive, are a listing of the keys under the prefix. */
  ghost predicate IsListing(objects: Objects, prefix: string, pages: seq<Page>) {
    pages != [] && (AllAnswered(pages) ==> forall k :: k in AllKeys(pages) <==> k in objects && HasPrefix(k, prefix))
  }

  /** The names of the listed skills, in listing order. */
  function NamesIn(keys: seq<string>, prefix: string): seq<string> {
    if keys == [] then []
    else
      var front, name := NamesIn(keys[..|keys| - 1], prefix), ListedName(keys[|keys| - 1], prefix);
      if name != "" then front + [name] else front
  }

  /** The names of a listing are those of its pages, one page after the other. */
  lemma {:induction false} NamesJoin(a: seq<string>, b: seq<string>, prefix: string)
    ensures NamesIn(a + b, prefix) == NamesIn(a, prefix) + NamesIn(b, prefix)
    decreases b
  {
    if b == [] {
      assert a + b == a;
    } else {
      assert (a + b)[..|a + b| - 1] == a + b[..|b| - 1];
      NamesJoin(a, b[..|b| - 1], prefix);
    }
  }

  /** The names found page by page. */
  function NamesOnPages(pages: seq<Page>, prefix: string): seq<string> {
    if pages == [] then []
    else
      NamesOnPages(pages[..|pages| - 1], prefix) +
      match pages[|pages| - 1] { case None => [] case Some(keys) => NamesIn(keys, prefix) }
  }

  lemma {:induction false} NamesOnPagesAre(pages: seq<Page>, prefix: string)
    ensures NamesOnPages(pages, prefix) == NamesIn(AllKeys(pages), prefix)
  {
    if pages != [] {
      var front, last := pages[..|pages| - 1], pages[|pages| - 1];
      NamesOnPagesAre(front, prefix);
      NamesJoin(AllKeys(front), if last.Some? then last.value else [], prefix);
    }
  }

  /** One read: the parsed object, if the call succeeds and there is one. */
  function Attempt(objects: Objects, prefix: string, name: string, arrived: bool): Option<SkillDefinition> {
    var key := BuildSkillKey(prefix, name);
    if arrived && key in objects then Some(ParsedDefinition(name, objects[key])) else None
  }

  /** The definitions that load, in listing order; `arrives(i)` says whether the i-th read succeeds. */
  function LoadedFrom(objects: Objects, prefix: string, names: seq<string>, arrives: nat -> bool): seq<SkillDefinition> {
    if names == [] then []
    else
      var n := |names| - 1;
      var front, attempt := LoadedFrom(objects, prefix, names[..n], arrives), Attempt(objects, prefix, names[n], arrives(n));
      if attempt.Some? then front + [attempt.value] else front
  }

  class S3SkillLoader {
    const bucket: string
    const prefix: string
    var objects: Objects

    constructor (bucket: string, prefix: string, objects: Objects)
      ensures this.bucket == bucket && this.prefix == prefix && this.objects == objects
    {
      this.bucket, this.prefix, this.objects := bucket, prefix, objects;
    }

    /** The skills among the objects of one page. */
    method CollectNames(keys: seq<string>) returns (names: seq<string>)
      ensures names == NamesIn(keys, prefix)
    {
      names := [];
      var j := 0;
      while j < |keys|
        invariant 0 <= j <= |keys| && names == NamesIn(keys[..j], prefix)
      {
        assert keys[..j + 1][..j] == keys[..j];
        if HasSuffix(ToLower(keys[j]), EXTENSION) {
          var name := ExtractSkillName(keys[j], prefix);
          if name != "" {
            names := names + [name];
          }
        }
        j := j + 1;
      }
      assert keys[..j] == keys;
    }

    /** Lists page by page and stops at the first page that fails. */
    method ListSkills(pages: seq<Page>) returns (names: Option<seq<string>>)
      requires pages != []
      ensures names == if AllAnswered(pages) then Some(NamesIn(AllKeys(pages), prefix)) else None
    {
      var found: seq<string> := [];
      var i := 0;
      while true
        invariant 0 <= i < |pages|
        invariant AllAnswered(pages[..i]) && found == NamesOnPages(pages[..i], prefix)
        decreases |pages| - i
      {
        if pages[i].None? {
          NotAllAnswered(pages, i);
          return None;
        }
        var more := CollectNames(pages[i].value);
        assert pages[..i + 1][..i] == pages[..i];
        found := found + more;
        if i + 1 == |pages| {
          break;
        }
        i := i + 1;
      }
      assert pages[..i + 1] == pages;
      NamesOnPagesAre(pages, prefix);
      names := Some(found);
    }

    method LoadSkill(identifier: string, arrives: bool) returns (def: Option<SkillDefinition>)
      ensures def == Attempt(objects, prefix, identifier, arrives)
    {
      var key := BuildSkillKey(prefix, identifier);
      if !arrives || key !in objects {
        return None;
      }
      var parsed := ParseSkillDefinition(identifier, objects[key]);
      def := Some(parsed);
    }

    /** A failed listing fails the load; a failed read only skips that skill. */
    method LoadAllSkills(pages: seq<Page>, arrives: nat -> bool) returns (defs: Option<seq<SkillDefinition>>)
      requires pages != []
      ensures defs == if AllAnswered(pages)
                      then Some(LoadedFrom(objects, prefix, NamesIn(AllKeys(pages), prefix), arrives)) else None
    {
      var listed := ListSkills(pages);
      if listed.None? {
        return None;
      }
      var found := LoadNamed(listed.value, arrives);
      defs := Some(found);
    }

    method LoadNamed(names: seq<string>, arrives: nat -> bool) returns (found: seq<SkillDefinition>)
      ensures found == LoadedFrom(objects, prefix, names, arrives)
    {
      found := [];
      var i := 0;
      while i < |names|
        invariant 0 <= i <= |names|
        invariant found == LoadedFrom(objects, prefix, names[..i], arrives)
      {
        assert names[..i + 1][..i] == names[..i];
        var def := LoadSkill(names[i], arrives(i));
        if def.Some? {
          found := found + [def.value];
        }
        i := i + 1;
      }
      assert names[..i] == names;
    }

    method UploadSkill(name: string, content: string, arrives: bool) returns (ok: bool)
      modifies this
      ensures ok == (bucket != "" && arrives)
      ensures objects == if ok then old(objects)[BuildSkillKey(prefix, name) := content] else old(objects)
    {
      ok := bucket != "" && arrives;
      if ok {
        objects := objects[BuildSkillKey(prefix, name) := content];
      }
    }

    /** None when the call fails for another reason than a missing object. */
    method SkillExists(name: string, arrives: bool) returns (found: Option<bool>)
      ensures found == if bucket == "" then Some(false)
                       else if arrives then Some(BuildSkillKey(prefix, name) in objects) else None
    {
      if bucket == "" {
        return Some(false);
      }
      found := if arrives then Some(BuildSkillKey(prefix, name) in objects) else None;
    }

    method DeleteSkill(name: string, arrives: bool) returns (ok: bool)
      modifies this
      ensures ok == (bucket != "" && arrives)
      ensures objects == if ok then old(objects) - {BuildSkillKey(prefix, name)} else old(objects)
    {
      ok := bucket != "" && arrives;
      if ok {
        objects := objects - {BuildSkillKey(prefix, name)};
      }
    }
  }

  // ----- What loading returns -----

  /** Exactly the listable keys are listed. */
  lemma {:induction false} NamesIff(keys: seq<string>, prefix: string, name: string)
    ensures name in NamesIn(keys, prefix) <==> name != "" && exists key | key in keys :: ListedName(key, prefix) == name
  {
    if keys != [] {
      var front, last := keys[..|keys| - 1], keys[|keys| - 1];
      NamesIff(front, prefix, name);
      assert forall key :: key in keys <==> key in front || key == last;
    }
  }

  /** The i-th read yields this definition. */
  predicate LoadsAt(objects: Objects, prefix: string, names: seq<string>, arrives: nat -> bool, def: SkillDefinition, i: nat) {
    i < |names| && Attempt(objects, prefix, names[i], arrives(i)) == Some(def)
  }

  lemma LoadedLast(objects: Objects, prefix: string, names: seq<string>, arrives: nat -> bool, def: SkillDefinition)
    requires names != []
    ensures def in LoadedFrom(objects, prefix, names, arrives) <==>
      def in LoadedFrom(objects, prefix, names[..|names| - 1], arrives)
      || LoadsAt(objects, prefix, names, arrives, def, |names| - 1)
  {
  }

  lemma FrontLoads(objects: Objects, prefix: string, names: seq<string>, arrives: nat -> bool, def: SkillDefinition, i: nat)
    requires i < |names| - 1
    ensures LoadsAt(objects, prefix, names[..|names| - 1], arrives, def, i) == LoadsAt(objects, prefix, names, arrives, def, i)
  {
  }

  lemma {:induction false} LoadedBy(objects: Objects, prefix: string, names: seq<string>, arrives: nat -> bool,
                                    def: SkillDefinition) returns (i: nat)
    requires def in LoadedFrom(objects, prefix, names, arrives)
    ensures LoadsAt(objects, prefix, names, arrives, def, i)
  {
    i := |names| - 1;
    LoadedLast(objects, prefix, names, arrives, def);
    if !LoadsAt(objects, prefix, names, arrives, def, i) {
      i := LoadedBy(objects, prefix, names[..|names| - 1], arrives, def);
      FrontLoads(objects, prefix, names, arrives, def, i);
    }
  }

  lemma {:induction false} LoadsIsLoaded(objects: Objects, prefix: string, names: seq<string>, arrives: nat -> bool,
                                         def: SkillDefinition, i: nat)
    requires LoadsAt(objects, prefix, names, arrives, def, i)
    ensures def in LoadedFrom(objects, prefix, names, arrives)
  {
    LoadedLast(objects, prefix, names, arrives, def);
    if i < |names| - 1 {
      FrontLoads(objects, prefix, names, arrives, def, i);
      LoadsIsLoaded(objects, prefix, names[..|names| - 1], arrives, def, i);
    }
  }

  /** Exactly the names whose read succeeds are loaded, each as the object under its own key. */
  lemma LoadedIff(objects: Objects, prefix: string, names: seq<string>, arrives: nat -> bool, def: SkillDefinition)
    ensures def in LoadedFrom(objects, prefix, names, arrives) <==>
      exists i: nat :: LoadsAt(objects, prefix, names, arrives, def, i)
  {
    if def in LoadedFrom(objects, prefix, names, arrives) {
      var i := LoadedBy(objects, prefix, names, arrives, def);
    }
    if i: nat :| LoadsAt(objects, prefix, names, arrives, def, i) {
      LoadsIsLoaded(objects, prefix, names, arrives, def, i);
    }
  }

  /** Whatever a listing loads can be registered, and holds the object stored under its own key. */
  lemma LoadedIsRegistrable(objects: Objects, prefix: string, keys: seq<string>, arrives: nat -> bool, def: SkillDefinition)
    requires def in LoadedFrom(objects, prefix, NamesIn(keys, prefix), arrives)
    ensures def.metadata.identifier != "" && def.metadata.displayName != ""
    ensures var key := BuildSkillKey(prefix, def.metadata.identifier);
      key in objects && def.instructions == objects[key]
  {
    var names := NamesIn(keys, prefix);
    LoadedIff(objects, prefix, names, arrives, def);
    var i: nat :| LoadsAt(objects, prefix, names, arrives, def, i);
    NamesIff(keys, prefix, names[i]);
    var key :| key in keys && ListedName(key, prefix) == names[i];
    ParsedIsRegistrable(names[i], objects[BuildSkillKey(prefix, names[i])]);
  }
}
