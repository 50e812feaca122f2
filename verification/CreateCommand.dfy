/** The "#create_skill <name> <description>" chat command. */
module CreateCommand {
  import opened Text

  const COMMAND := "#create_skill"

  predicate IsNameChar(c: char) {
    'a' <= c <= 'z' || '0' <= c <= '9' || c == '_'
  }

  /** What the skill name pattern accepts. */
  predicate IsSkillName(name: string) {
    1 <= |name| <= 64 && forall c | c in name :: IsNameChar(c)
  }

  datatype Command = NotCommand | Command(name: string, description: string)

  /** The position of the first blank, or the length. */
  function FirstBlank(s: string): (i: nat)
    ensures i <= |s| && ' ' !in s[..i]
    ensures i < |s| ==> s[i] == ' '
  {
    if s == "" || s[0] == ' ' then 0
    else
      var i := 1 + FirstBlank(s[1..]);
      assert s[..i] == [s[0]] + s[1..][..i - 1];
      i
  }

  /** The command word needs no separator after it; the name ends at the first blank. */
  function ParseCreateSkillCommand(message: string): Command {
    var trimmed := TrimSpace(message);
    if !HasPrefix(trimmed, COMMAND) then NotCommand
    else
      var rest := TrimSpace(TrimPrefix(trimmed, COMMAND));
      var cut := FirstBlank(rest);
      if cut == |rest| then Command(TrimSpace(rest), "")
      else Command(TrimSpace(rest[..cut]), TrimSpace(rest[cut + 1..]))
  }

  // ----- What the parser accepts -----

  /** The message spells the command, with white space `lead`, `gap`, `separator` and `tail` in the four
      places where it is ignored; only a blank separates the name from the description. */
  predicate Spells(message: string, name: string, description: string,
                   lead: string, gap: string, separator: string, tail: string)
  {
    && AllSpace(lead) && AllSpace(gap) && AllSpace(separator) && AllSpace(tail) && ' ' in separator
    && message == lead + (COMMAND + (gap + (name + separator + description))) + tail
  }

  lemma {:induction false} FirstBlankIs(front: string, back: string)
    requires ' ' !in front
    ensures FirstBlank(front + " " + back) == |front|
  {
    if front != "" {
      assert front[0] in front;
      assert (front + " " + back)[1..] == front[1..] + " " + back;
      FirstBlankIs(front[1..], back);
    }
  }

  lemma NamesHaveNoSpace(name: string)
    requires IsSkillName(name)
    ensures name != "" && ' ' !in name && IsTrimmed(name)
  {
    assert IsNameChar(name[0]) && IsNameChar(name[|name| - 1]);
  }

  /** The first blank of the separator is the first of the whole. */
  lemma RestCut(name: string, separator: string, description: string) returns (before: string, after: string)
    requires ' ' !in name && ' ' in separator && AllSpace(separator)
    ensures AllSpace(before) && AllSpace(after)
    ensures var rest := name + separator + description;
      var cut := FirstBlank(rest);
      cut < |rest| && rest[..cut] == name + before && rest[cut + 1..] == after + description
  {
    var j := FirstBlank(separator);
    before, after := separator[..j], separator[j + 1..];
    var left, right := name + before, after + description;
    assert name + separator + description == left + " " + right;
    FirstBlankIs(left, right);
  }

  lemma NonSpaceEnds(name: string, separator: string, description: string)
    requires name != "" && IsTrimmed(name) && description != "" && IsTrimmed(description)
    ensures name + separator + description != "" && IsTrimmed(name + separator + description)
  {
    var rest := name + separator + description;
    assert rest[0] == name[0] && rest[|rest| - 1] == description[|description| - 1];
  }

  /** The part after the command word. */
  lemma RestParses(name: string, description: string, separator: string)
    requires IsSkillName(name) && description != "" && IsTrimmed(description)
    requires AllSpace(separator) && ' ' in separator
    ensures var rest := name + separator + description;
      var cut := FirstBlank(rest);
      && IsTrimmed(rest) && cut < |rest|
      && TrimSpace(rest[..cut]) == name && TrimSpace(rest[cut + 1..]) == description
  {
    NamesHaveNoSpace(name);
    NonSpaceEnds(name, separator, description);
    var before, after := RestCut(name, separator, description);
    TrimSpaceSkipsBehind(name, before);
    TrimSpaceSkipsBefore(after, description);
  }

  lemma CommandIsTrimmed(gap: string, rest: string)
    requires rest != "" && IsTrimmed(rest)
    ensures IsTrimmed(COMMAND + (gap + rest))
    ensures HasPrefix(COMMAND + (gap + rest), COMMAND) && TrimPrefix(COMMAND + (gap + rest), COMMAND) == gap + rest
  {
    var whole := COMMAND + (gap + rest);
    assert whole[0] == COMMAND[0] == '#' && whole[|whole| - 1] == rest[|rest| - 1];
    TrimPrefixOf(COMMAND, gap + rest);
  }

  lemma SpelledParses(message: string, name: string, description: string,
                      lead: string, gap: string, separator: string, tail: string)
    requires IsSkillName(name) && description != "" && IsTrimmed(description)
    requires Spells(message, name, description, lead, gap, separator, tail)
    ensures ParseCreateSkillCommand(message) == Command(name, description)
  {
    var rest := name + separator + description;
    RestParses(name, description, separator);
    CommandIsTrimmed(gap, rest);
    TrimSpaceSkips(lead, COMMAND + (gap + rest), tail);
    TrimSpaceSkipsBefore(gap, rest);
  }

  lemma RestIsSpelled(rest: string, cut: nat) returns (lead: string, separator: string, tail: string)
    requires cut < |rest| && rest[cut] == ' '
    ensures AllSpace(lead) && AllSpace(separator) && AllSpace(tail) && ' ' in separator
    ensures rest == lead + (TrimSpace(rest[..cut]) + separator + TrimSpace(rest[cut + 1..])) + tail
  {
    var left, right := rest[..cut], rest[cut + 1..];
    var l, r;
    lead, l := TrimSpaceSplits(left);
    r, tail := TrimSpaceSplits(right);
    separator := l + " " + r;
    assert separator[|l|] == ' ';
    assert rest == left + " " + right;
    Regroup(lead, TrimSpace(left), l, r, TrimSpace(right), tail);
  }

  lemma Regroup(lead: string, name: string, l: string, r: string, description: string, tail: string)
    ensures (lead + name + l) + " " + (r + description + tail) == lead + (name + (l + " " + r) + description) + tail
  {
    assert name + (l + " " + r) + description == (name + l) + " " + (r + description);
  }

  lemma Nest(lead: string, gap: string, l: string, core: string, t: string, end: string, tail: string)
    ensures lead + (COMMAND + (gap + (l + core + t) + end)) + tail == lead + (COMMAND + ((gap + l) + core)) + (t + end + tail)
  {
    assert gap + (l + core + t) + end == (gap + l) + core + (t + end);
    assert COMMAND + ((gap + l) + core + (t + end)) == (COMMAND + ((gap + l) + core)) + (t + end);
  }

  lemma SpellsFrom(message: string, name: string, description: string, lost: string, end: string,
                   start: string, behind: string, l: string, separator: string, t: string)
    requires AllSpace(lost) && AllSpace(end) && AllSpace(start) && AllSpace(behind) && AllSpace(l) && AllSpace(t)
    requires AllSpace(separator) && ' ' in separator
    requires message == lost + (COMMAND + (start + (l + (name + separator + description) + t) + behind)) + end
    ensures Spells(message, name, description, lost, start + l, separator, t + behind + end)
  {
    Nest(lost, start, l, name + separator + description, t, behind, end);
    AllSpaceJoin(start, l);
    AllSpaceJoin(t, behind);
    AllSpaceJoin(t + behind, end);
  }

  lemma ParsedIsSpelled(message: string, name: string, description: string)
    returns (lead: string, gap: string, separator: string, tail: string)
    requires ParseCreateSkillCommand(message) == Command(name, description) && description != ""
    ensures Spells(message, name, description, lead, gap, separator, tail)
  {
    var trimmed := TrimSpace(message);
    var after := TrimPrefix(trimmed, COMMAND);
    var rest := TrimSpace(after);
    var lost, end := TrimSpaceSplits(message);
    var start, behind := TrimSpaceSplits(after);
    var l, t;
    l, separator, t := RestIsSpelled(rest, FirstBlank(rest));
    assert trimmed == COMMAND + after;
    SpellsFrom(message, name, description, lost, end, start, behind, l, separator, t);
    lead, gap, tail := lost, start + l, t + behind + end;
  }

  /** Whatever is parsed is trimmed, and a blank never gets into the name. */
  lemma ParsedIsTrimmed(message: string)
    requires ParseCreateSkillCommand(message).Command?
    ensures var c := ParseCreateSkillCommand(message);
      IsTrimmed(c.name) && IsTrimmed(c.description) && ' ' !in c.name
  {
    var rest := TrimSpace(TrimPrefix(TrimSpace(message), COMMAND));
    var cut := FirstBlank(rest);
    var first := if cut == |rest| then rest else rest[..cut];
    TrimSpaceTrims(first);
    var lead, tail := TrimSpaceSplits(first);
    assert rest[..cut] == first;
    assert forall c :: c in TrimSpace(first) ==> c in first;
    if cut < |rest| {
      TrimSpaceTrims(rest[cut + 1..]);
    }
  }

  /** A message is the command for a valid name and a description exactly when it spells it so. */
  lemma ParsesIffSpelled(message: string, name: string, description: string)
    requires IsSkillName(name) && description != "" && IsTrimmed(description)
    ensures ParseCreateSkillCommand(message) == Command(name, description) <==>
      exists lead, gap, separator, tail :: Spells(message, name, description, lead, gap, separator, tail)
  {
    if ParseCreateSkillCommand(message) == Command(name, description) {
      var lead, gap, separator, tail := ParsedIsSpelled(message, name, description);
    }
    if exists lead, gap, separator, tail :: Spells(message, name, description, lead, gap, separator, tail) {
      var lead, gap, separator, tail :| Spells(message, name, description, lead, gap, separator, tail);
      SpelledParses(message, name, description, lead, gap, separator, tail);
    }
  }

  /** A message is a command at all exactly when it begins with the command word, white space aside. */
  lemma IsCommandIff(message: string)
    ensures ParseCreateSkillCommand(message).Command? <==>
      exists lead, rest :: AllSpace(lead) && message == lead + (COMMAND + rest)
  {
    var trimmed := TrimSpace(message);
    if HasPrefix(trimmed, COMMAND) {
      var lead, tail := TrimSpaceSplits(message);
      var rest := trimmed[|COMMAND|..] + tail;
      assert trimmed == COMMAND + trimmed[|COMMAND|..];
      assert message == lead + (COMMAND + rest);
    }
    if lead, rest :| AllSpace(lead) && message == lead + (COMMAND + rest) {
      TrimLeftSkips(lead, COMMAND + rest);
      assert (COMMAND + rest)[0] == COMMAND[0] == '#';
      assert COMMAND[|COMMAND| - 1] == 'l';
      TrimRightKeepsFront(COMMAND, rest);
    }
  }

  lemma LastIsNoSpace(rest: string, cut: nat)
    requires IsTrimmed(rest) && cut < |rest| && rest[cut] == ' '
    ensures TrimSpace(rest[cut + 1..]) != ""
  {
    assert cut + 1 < |rest|;
    var right := rest[cut + 1..];
    assert right[|right| - 1] == rest[|rest| - 1];
    NonSpaceStays(right, |right| - 1);
  }

  predicate SpellsName(message: string, name: string, lead: string, gap: string, tail: string) {
    AllSpace(lead) && AllSpace(gap) && AllSpace(tail) && message == lead + (COMMAND + (gap + name)) + tail
  }

  lemma NoBlank(s: string)
    requires ' ' !in s
    ensures FirstBlank(s) == |s|
  {
    assert forall i | 0 <= i < |s| :: s[i] in s;
  }

  lemma RestIsName(rest: string, name: string)
    requires IsTrimmed(rest) && name != ""
    requires var cut := FirstBlank(rest);
      if cut == |rest| then TrimSpace(rest) == name
      else TrimSpace(rest[..cut]) == name && TrimSpace(rest[cut + 1..]) == ""
    ensures rest == name
  {
    var cut := FirstBlank(rest);
    if cut < |rest| {
      LastIsNoSpace(rest, cut);
    } else if rest != "" {
      TrimsToItself(rest);
    }
  }

  lemma ParsedIsName(message: string, name: string) returns (lead: string, gap: string, tail: string)
    requires ParseCreateSkillCommand(message) == Command(name, "") && name != ""
    ensures SpellsName(message, name, lead, gap, tail)
  {
    var trimmed := TrimSpace(message);
    var after := TrimPrefix(trimmed, COMMAND);
    var rest := TrimSpace(after);
    var end, behind;
    lead, end := TrimSpaceSplits(message);
    gap, behind := TrimSpaceSplits(after);
    TrimSpaceTrims(after);
    RestIsName(rest, name);
    AllSpaceJoin(behind, end);
    tail := behind + end;
    assert trimmed == COMMAND + after;
    Reassociate(lead, gap, name, behind, end);
  }

  lemma Reassociate(lead: string, gap: string, name: string, behind: string, end: string)
    ensures lead + (COMMAND + (gap + name + behind)) + end == lead + (COMMAND + (gap + name)) + (behind + end)
  {
    assert COMMAND + (gap + name + behind) == (COMMAND + (gap + name)) + behind;
  }

  lemma SpelledNameParses(message: string, name: string, lead: string, gap: string, tail: string)
    requires IsSkillName(name) && SpellsName(message, name, lead, gap, tail)
    ensures ParseCreateSkillCommand(message) == Command(name, "")
  {
    NamesHaveNoSpace(name);
    CommandIsTrimmed(gap, name);
    TrimSpaceSkips(lead, COMMAND + (gap + name), tail);
    TrimSpaceSkipsBefore(gap, name);
    NoBlank(name);
    TrimsToItself(name);
  }

  /** Without a description: a message names a skill and nothing else exactly when it spells only that. */
  lemma NameOnlyIff(message: string, name: string)
    requires IsSkillName(name)
    ensures ParseCreateSkillCommand(message) == Command(name, "") <==>
      exists lead, gap, tail :: SpellsName(message, name, lead, gap, tail)
  {
    if ParseCreateSkillCommand(message) == Command(name, "") {
      var lead, gap, tail := ParsedIsName(message, name);
    }
    if lead, gap, tail :| SpellsName(message, name, lead, gap, tail) {
      SpelledNameParses(message, name, lead, gap, tail);
    }
  }
}
