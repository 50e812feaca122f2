/** The codec between storage paths and S3 object keys of skill files. */
module StoragePath {
  import opened Text

  const PREFIX := "skills/"
  const EXTENSION := ".md"

  datatype Path = Path(bucket: string, fileName: string)

  datatype PathError = BucketEmpty | KeyEmpty | WrongPrefix | WrongExtension | FileNameMissing | Nested | Traversal

  datatype Result = Ok(path: Path) | Err(error: PathError)

  function ObjectKey(p: Path): string {
    PREFIX + p.fileName + EXTENSION
  }

  function Cleaned(skillName: string): string {
    TrimSpace(TrimSuffix(skillName, EXTENSION))
  }

  function NewSkillStoragePath(bucket: string, skillName: string): Result {
    var cleaned := Cleaned(skillName);
    if bucket == "" then Err(BucketEmpty)
    else if cleaned == "" then Err(FileNameMissing)
    else if '/' in cleaned || '\\' in cleaned then Err(Nested)
    else Ok(Path(bucket, cleaned))
  }

  function ParseSkillObjectKey(bucket: string, key: string): Result {
    if bucket == "" then Err(BucketEmpty)
    else if key == "" then Err(KeyEmpty)
    else if Contains(key, "..") then Err(Traversal)
    else if Contains(key, "\\") then Err(Nested)
    else if !HasPrefix(key, PREFIX) then Err(WrongPrefix)
    else if !HasSuffix(key, EXTENSION) then Err(WrongExtension)
    else
      var name := TrimSuffix(TrimPrefix(key, PREFIX), EXTENSION);
      if name == "" then Err(FileNameMissing)
      else if Contains(name, "/") then Err(Nested)
      else Ok(Path(bucket, name))
  }

  lemma ContainsChar(s: string, c: char)
    ensures Contains(s, [c]) <==> c in s
  {
    if Contains(s, [c]) {
      var i: nat :| i <= |s| && OccursAt(s, [c], i);
      assert s[i..i + 1][0] == s[i];
    }
    if c in s {
      var i :| 0 <= i < |s| && s[i] == c;
      assert OccursAt(s, [c], i);
    }
  }

  /** Prefix and extension cannot overlap, so what is between them is well defined. */
  lemma PrefixAndExtension(key: string)
    requires HasPrefix(key, PREFIX) && HasSuffix(key, EXTENSION)
    ensures key == PREFIX + TrimSuffix(TrimPrefix(key, PREFIX), EXTENSION) + EXTENSION
  {
    assert key[6] == PREFIX[6] == '/';
    var tail := key[|key| - 3..];
    assert tail == EXTENSION && tail[0] == key[|key| - 3] == '.' && tail[1] == key[|key| - 2] == 'm'
           && tail[2] == key[|key| - 1] == 'd';
    assert |key| >= 10;
    var rest := key[7..];
    assert rest[|rest| - 3..] == tail;
  }

  /** Whatever key is accepted, the path found is the one whose key it is. */
  lemma ParsedKeyIsObjectKey(bucket: string, key: string)
    ensures ParseSkillObjectKey(bucket, key).Ok? ==>
      ParseSkillObjectKey(bucket, key).path.bucket == bucket && ObjectKey(ParseSkillObjectKey(bucket, key).path) == key
  {
    if ParseSkillObjectKey(bucket, key).Ok? {
      PrefixAndExtension(key);
    }
  }

  predicate DotsAt(s: string, i: int) {
    0 <= i < |s| - 1 && s[i] == '.' && s[i + 1] == '.'
  }

  lemma ContainsDots(s: string)
    ensures Contains(s, "..") <==> exists i :: DotsAt(s, i)
  {
    if Contains(s, "..") {
      var i: nat :| i <= |s| && OccursAt(s, "..", i);
      assert s[i..i + 2][0] == s[i] && s[i..i + 2][1] == s[i + 1];
      assert DotsAt(s, i);
    }
    if i :| DotsAt(s, i) {
      assert s[i..i + 2] == "..";
      assert OccursAt(s, "..", i);
    }
  }

  lemma KeyChars(name: string)
    ensures var key := PREFIX + name + EXTENSION;
      && |key| == |name| + 10 && (forall i | 0 <= i < |name| :: key[i + 7] == name[i])
      && key[|name| + 7] == '.' && key[|name| + 8] == 'm' && key[|name| + 9] == 'd'
      && forall i | 0 <= i < 7 :: key[i] == PREFIX[i]
  {
  }

  lemma PrefixHasNoDot(i: int)
    requires 0 <= i < 7
    ensures PREFIX[i] != '.'
  {
    assert PREFIX == ['s', 'k', 'i', 'l', 'l', 's', '/'];
  }

  lemma DotsInName(name: string)
    requires Contains(PREFIX + name + EXTENSION, "..")
    ensures Contains(name, "..") || (name != "" && name[|name| - 1] == '.')
  {
    var key := PREFIX + name + EXTENSION;
    KeyChars(name);
    ContainsDots(key);
    ContainsDots(name);
    var i :| DotsAt(key, i);
    if i < 7 {
      PrefixHasNoDot(i);
      assert false;
    }
    if i + 1 < |name| + 7 {
      assert name[i - 7] == key[i - 7 + 7] && name[i - 6] == key[i - 6 + 7];
      assert DotsAt(name, i - 7);
    } else {
      assert name != "" ==> name[|name| - 1] == key[|name| - 1 + 7];
    }
  }

  lemma DotsInKey(name: string)
    requires Contains(name, "..") || (name != "" && name[|name| - 1] == '.')
    ensures Contains(PREFIX + name + EXTENSION, "..")
  {
    var key := PREFIX + name + EXTENSION;
    KeyChars(name);
    ContainsDots(key);
    ContainsDots(name);
    if i :| DotsAt(name, i) {
      assert key[i + 7] == name[i] && key[i + 1 + 7] == name[i + 1];
      assert DotsAt(key, i + 7);
    } else {
      assert key[|name| - 1 + 7] == name[|name| - 1];
      assert DotsAt(key, |name| + 6);
    }
  }

  lemma KeyShape(name: string)
    ensures var key := PREFIX + name + EXTENSION;
      HasPrefix(key, PREFIX) && HasSuffix(key, EXTENSION) && TrimSuffix(TrimPrefix(key, PREFIX), EXTENSION) == name
  {
    TrimPrefixOf(PREFIX, name + EXTENSION);
    assert PREFIX + (name + EXTENSION) == PREFIX + name + EXTENSION;
    TrimSuffixOf(name, EXTENSION);
    TrimSuffixOf(PREFIX + name, EXTENSION);
  }

  lemma NoBackslashInKey(name: string)
    requires '\\' !in name
    ensures !Contains(PREFIX + name + EXTENSION, "\\")
  {
    ContainsChar(PREFIX + name + EXTENSION, '\\');
  }

  /** The name that the key of a flat file name parses to, or why it is refused. */
  lemma FlatNameParses(bucket: string, name: string)
    requires bucket != "" && name != "" && '/' !in name && '\\' !in name
    ensures ParseSkillObjectKey(bucket, ObjectKey(Path(bucket, name))) ==
      if Contains(PREFIX + name + EXTENSION, "..") then Err(Traversal) else Ok(Path(bucket, name))
  {
    KeyShape(name);
    NoBackslashInKey(name);
    ContainsChar(name, '/');
  }

  /** A path built from a skill name survives the trip through its key exactly when the cleaned name has
      no ".." and does not end in "."; otherwise its own key is refused as a traversal. */
  lemma BuiltPathRoundTrip(bucket: string, skillName: string)
    requires NewSkillStoragePath(bucket, skillName).Ok?
    ensures var path, name := NewSkillStoragePath(bucket, skillName).path, Cleaned(skillName);
      ParseSkillObjectKey(bucket, ObjectKey(path)) ==
      if Contains(name, "..") || name[|name| - 1] == '.' then Err(Traversal) else Ok(path)
  {
    var name := Cleaned(skillName);
    FlatNameParses(bucket, name);
    if Contains(name, "..") || name[|name| - 1] == '.' {
      DotsInKey(name);
    } else if Contains(PREFIX + name + EXTENSION, "..") {
      DotsInName(name);
    }
  }

  /** A key is accepted exactly when it is the key of a non-empty flat name and holds no "..". */
  lemma AcceptedIff(bucket: string, key: string)
    ensures ParseSkillObjectKey(bucket, key).Ok? <==>
      && bucket != "" && !Contains(key, "..")
      && exists name :: name != "" && '/' !in name && '\\' !in name && key == PREFIX + name + EXTENSION
  {
    if ParseSkillObjectKey(bucket, key).Ok? {
      var name := ParseSkillObjectKey(bucket, key).path.fileName;
      PrefixAndExtension(key);
      ContainsChar(key, '\\');
      ContainsChar(name, '/');
      KeyChars(name);
      forall c | c in name
        ensures c in key
      {
        var i :| 0 <= i < |name| && name[i] == c;
        assert key[i + 7] == c;
      }
    }
    if bucket != "" {
      if name :| name != "" && '/' !in name && '\\' !in name && key == PREFIX + name + EXTENSION {
        FlatNameParses(bucket, name);
      }
    }
  }

  /** One ".md" at the very end and white space around the rest are dropped; nothing else is. */
  lemma NamesAreCleaned(bucket: string, lead: string, name: string, tail: string)
    requires bucket != "" && AllSpace(lead) && AllSpace(tail) && name != "" && IsTrimmed(name)
    requires '/' !in name && '\\' !in name && !HasSuffix(lead + name + tail, EXTENSION)
    ensures NewSkillStoragePath(bucket, lead + name + tail) == Ok(Path(bucket, name))
    ensures NewSkillStoragePath(bucket, lead + name + tail + EXTENSION) == Ok(Path(bucket, name))
  {
    TrimSuffixOf(lead + name + tail, EXTENSION);
    TrimSpaceSkips(lead, name, tail);
  }
}
