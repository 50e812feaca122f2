/** Creating a skill from a chat command: checks, a placeholder in the bucket, generation, upload, reload.

    Every call to the bucket and to the language model has an arbitrary outcome. */
module SkillPipeline {
  import opened Options
  import opened Text
  import opened SkillLoader
  import opened SkillParser
  import opened CreateCommand
  import SkillRegistry

  const MIN_DESCRIPTION := 5
  const MAX_DESCRIPTION := 1000
  const MAX_CONTENT := 50 * 1024

  // ----- Names and their keys -----

  lemma NameShape(name: string)
    requires IsSkillName(name)
    ensures TrimPrefix(name, "/") == name && '/' !in name + EXTENSION && !HasSuffix(name, UPPER_EXTENSION)
  {
    assert IsNameChar(name[0]) && IsNameChar(name[|name| - 1]);
  }

  /** An accepted name comes back from its own key, under any prefix. */
  lemma NameFromKey(prefix: string, name: string)
    requires IsSkillName(name)
    ensures BuildSkillKey(prefix, "/" + name) == BuildSkillKey(prefix, name) == prefix + name + EXTENSION
    ensures ListedName(BuildSkillKey(prefix, name), prefix) == "/" + name
  {
    NameShape(name);
    TrimPrefixOf("/", name);
    LowerExtension(prefix + name);
    assert prefix + name + EXTENSION == prefix + (name + EXTENSION);
    ExtractedName(prefix, name);
  }

  // ----- The pipeline -----

  /** What stays fixed while the server runs.  No bucket: there is no loader; "": it has no bucket name. */
  datatype Site = Site(bucket: Option<string>, prefix: string, production: bool, allowed: bool,
                       inputInjected: string -> bool, outputInjected: string -> bool)

  /** How the calls made for one command turn out. */
  datatype Outcomes = Outcomes(head: bool, reserve: bool, answer: Option<string>, cleanup: bool, upload: bool,
                               pages: seq<Page>, loads: nat -> bool)

  /** The event of an error reply; on the wire its name is in snake case. */
  datatype Event =
    | InvalidSkillName | DescriptionTooLong | MissingDescription | PromptInjectionDetected
    | SkillCreationDisabled | S3Unavailable | S3BucketMissing | S3CheckFailed | SkillAlreadyExists
    | S3ReserveFailed | LlmGenerationFailed | OutputInjectionDetected | S3UploadFailed
    | Forbidden

  datatype Reply = Error(event: Event) | Created(name: string, content: string)

  datatype Message = Thinking(step: string) | Final(reply: Reply) | SkillsList

  /** The model's answer, trimmed and cut. */
  function Generated(answer: string): string {
    var content := TrimSpace(answer);
    if |content| > MAX_CONTENT then content[..MAX_CONTENT] else content
  }

  /** Content fit to be stored. */
  predicate Validated(site: Site, content: string) {
    |content| <= MAX_CONTENT && !site.outputInjected(content)
  }

  /** Failures of the service are not told apart in production. */
  function Failure(site: Site, event: Event): Reply {
    Error(if site.production then Forbidden else event)
  }

  /** The first check that the command fails before the bucket is asked. */
  function Refusal(site: Site, name: string, description: string): Option<Reply> {
    if !IsSkillName(name) then Some(Error(InvalidSkillName))
    else if |description| > MAX_DESCRIPTION then Some(Error(DescriptionTooLong))
    else if |description| < MIN_DESCRIPTION then Some(Error(MissingDescription))
    else if site.inputInjected(description) then Some(Error(PromptInjectionDetected))
    else if !site.allowed then Some(Failure(site, SkillCreationDisabled))
    else if site.bucket.None? then Some(Failure(site, S3Unavailable))
    else if site.bucket.value == "" then Some(Failure(site, S3BucketMissing))
    else None
  }

  /** The bucket and the reply after a command. */
  function Create(site: Site, objects: Objects, name: string, description: string, o: Outcomes): (Objects, Reply) {
    var key := BuildSkillKey(site.prefix, name);
    var reserved := objects[key := ""];
    var cleaned := if o.cleanup then reserved - {key} else reserved;
    match Refusal(site, name, description)
    case Some(reply) => (objects, reply)
    case None =>
      if !o.head then (objects, Failure(site, S3CheckFailed))
      else if key in objects then (objects, Failure(site, SkillAlreadyExists))
      else if !o.reserve then (objects, Failure(site, S3ReserveFailed))
      else if o.answer.None? then (cleaned, Failure(site, LlmGenerationFailed))
      else
        var content := Generated(o.answer.value);
        if site.outputInjected(content) then (cleaned, Error(OutputInjectionDetected))
        else if !o.upload then (reserved, Failure(site, S3UploadFailed))
        else (reserved[key := content], Created(name, content))
  }

  /** The replies among the messages sent. */
  function Replies(messages: seq<Message>): seq<Reply> {
    if messages == [] then []
    else
      var front, last := Replies(messages[..|messages| - 1]), messages[|messages| - 1];
      if last.Final? then front + [last.reply] else front
  }

  lemma RepliesAfter(messages: seq<Message>, m: Message)
    ensures Replies(messages + [m]) == Replies(messages) + if m.Final? then [m.reply] else []
  {
    assert (messages + [m])[..|messages|] == messages;
  }

  /** The last messages of a command: after a creation the new list follows the reply. */
  function Closing(reply: Reply): seq<Message> {
    if reply.Created? then [Thinking("registry_reload"), Final(reply), SkillsList] else [Final(reply)]
  }

  class ChatHandler {
    const loader: S3SkillLoader?
    const registry: SkillRegistry.Registry
    var sent: seq<Message>

    constructor (loader: S3SkillLoader?, registry: SkillRegistry.Registry)
      ensures this.loader == loader && this.registry == registry && sent == []
    {
      this.loader, this.registry, sent := loader, registry, [];
    }

    function Objects(): Objects
      reads loader
    {
      if loader == null then map[] else loader.objects
    }

    /** The handler's loader is the one the site describes. */
    predicate At(site: Site) {
      if loader == null then site.bucket == None else site.bucket == Some(loader.bucket) && site.prefix == loader.prefix
    }

    method Send(m: Message)
      modifies this
      ensures sent == old(sent) + [m] && Replies(sent) == Replies(old(sent)) + if m.Final? then [m.reply] else []
    {
      RepliesAfter(sent, m);
      sent := sent + [m];
    }

    /** Answers a command with exactly one error or final response. */
    method TryHandleCreateSkillCommand(site: Site, message: string, o: Outcomes) returns (handled: bool)
      requires At(site) && registry.Valid() && o.pages != []
      modifies this, loader, registry
      ensures registry.Valid()
      ensures handled <==> ParseCreateSkillCommand(message).Command?
      ensures !handled ==> sent == old(sent) && Objects() == old(Objects()) && registry.skills == old(registry.skills)
      ensures handled ==>
        var c := ParseCreateSkillCommand(message);
        var result := Create(site, old(Objects()), c.name, c.description, o);
        && Objects() == result.0
        && Replies(sent) == Replies(old(sent)) + [result.1]
        && old(sent) < sent && (sent[|sent| - 1] == if result.1.Created? then SkillsList else Final(result.1))
        && registry.skills == if result.1.Created? && AllAnswered(o.pages)
                              then Served(site, result.0, o) else old(registry.skills)
    {
      var c := ParseCreateSkillCommand(message);
      handled := c.Command?;
      if handled {
        var reply := DecideReply(site, c.name, c.description, o);
        Report(site, reply, o);
      }
    }

    /** Refuses the command, or works on the bucket. */
    method DecideReply(site: Site, name: string, description: string, o: Outcomes) returns (reply: Reply)
      requires At(site)
      modifies this, loader
      ensures (Objects(), reply) == Create(site, old(Objects()), name, description, o)
      ensures reply.Created? ==> loader != null
      ensures Replies(sent) == Replies(old(sent)) && old(sent) <= sent
    {
      var refusal := Refusal(site, name, description);
      if refusal.Some? {
        return refusal.value;
      }
      reply := CreateSkill(site, name, description, o);
    }

    /** Sends the reply; after a creation the registry is refreshed first and the new list pushed last. */
    method Report(site: Site, reply: Reply, o: Outcomes)
      requires At(site) && registry.Valid() && o.pages != [] && (reply.Created? ==> loader != null)
      modifies this, registry
      ensures registry.Valid()
      ensures Replies(sent) == Replies(old(sent)) + [reply]
      ensures registry.skills == if reply.Created? && AllAnswered(o.pages)
                                 then Served(site, Objects(), o) else old(registry.skills)
      ensures sent == old(sent) + Closing(reply)
    {
      if reply.Created? {
        Send(Thinking("registry_reload"));
        RefreshRegistry(site, o);
      }
      Send(Final(reply));
      if reply.Created? {
        Send(SkillsList);
      }
    }

    method CreateSkill(site: Site, name: string, description: string, o: Outcomes) returns (reply: Reply)
      requires At(site) && Refusal(site, name, description) == None
      modifies this, loader
      ensures (Objects(), reply) == Create(site, old(Objects()), name, description, o)
      ensures Replies(sent) == Replies(old(sent)) && old(sent) <= sent
    {
      Send(Thinking("existence_check"));
      var found := loader.SkillExists(name, o.head);
      if found.None? {
        return Failure(site, S3CheckFailed);
      }
      if found.value {
        return Failure(site, SkillAlreadyExists);
      }
      Send(Thinking("name_reservation"));
      var reserved := loader.UploadSkill(name, "", o.reserve);
      if !reserved {
        return Failure(site, S3ReserveFailed);
      }
      Send(Thinking("llm_generation"));
      if o.answer.None? {
        var cleaned := loader.DeleteSkill(name, o.cleanup);
        return Failure(site, LlmGenerationFailed);
      }
      var content := Generated(o.answer.value);
      if site.outputInjected(content) {
        var cleaned := loader.DeleteSkill(name, o.cleanup);
        return Error(OutputInjectionDetected);
      }
      Send(Thinking("s3_commit"));
      var uploaded := loader.UploadSkill(name, content, o.upload);
      if !uploaded {
        return Failure(site, S3UploadFailed);
      }
      reply := Created(name, content);
    }

    /** A failed listing keeps the old registry; what does load is never refused. */
    method RefreshRegistry(site: Site, o: Outcomes)
      requires At(site) && loader != null && registry.Valid() && o.pages != []
      modifies registry
      ensures registry.Valid()
      ensures registry.skills == if AllAnswered(o.pages) then Served(site, Objects(), o) else old(registry.skills)
    {
      var defs := loader.LoadAllSkills(o.pages, o.loads);
      if defs.Some? {
        forall d | d in defs.value ensures SkillRegistry.Registrable(d) {
          LoadedIsRegistrable(loader.objects, loader.prefix, AllKeys(o.pages), o.loads, d);
        }
        var ok := registry.Reload(defs.value);
      }
    }
  }

  /** The names listed after a command, and the registry's table once it has loaded them. */
  function ListedNames(site: Site, o: Outcomes): seq<string> {
    NamesIn(AllKeys(o.pages), site.prefix)
  }

  function Served(site: Site, objects: Objects, o: Outcomes): SkillRegistry.Skills {
    SkillRegistry.Loaded(LoadedFrom(objects, site.prefix, ListedNames(site, o), o.loads))
  }

  // ----- One command: what the theorems about runs are built from -----

  lemma GeneratedIsCapped(answer: string)
    ensures |Generated(answer)| <= MAX_CONTENT && Generated(answer) <= TrimSpace(answer)
  {
  }

  /** What is stored and reported is the trimmed answer, whole, unless it has to be cut at 50 KiB. */
  lemma CreatedContent(site: Site, objects: Objects, name: string, description: string, o: Outcomes)
    requires Create(site, objects, name, description, o).1.Created?
    ensures o.answer.Some? && !site.outputInjected(Create(site, objects, name, description, o).1.content)
    ensures var whole, content := TrimSpace(o.answer.value), Create(site, objects, name, description, o).1.content;
      && content <= whole && |content| <= 50 * 1024
      && (content == whole || |content| == 50 * 1024)
  {
  }

  /** A name of 1 to 64 lower-case letters, digits and underscores. */
  ghost predicate MatchesNamePattern(name: string) {
    1 <= |name| <= 64 && forall i | 0 <= i < |name| :: 'a' <= name[i] <= 'z' || '0' <= name[i] <= '9' || name[i] == '_'
  }

  ghost predicate PassesChecks(site: Site, name: string, description: string) {
    MatchesNamePattern(name) && 5 <= |description| <= 1000 && !site.inputInjected(description)
  }

  lemma NamePattern(name: string)
    ensures IsSkillName(name) <==> MatchesNamePattern(name)
  {
    if MatchesNamePattern(name) {
      forall c | c in name
        ensures IsNameChar(c)
      {
        var i :| 0 <= i < |name| && name[i] == c;
      }
    }
    if IsSkillName(name) {
      forall i | 0 <= i < |name|
        ensures IsNameChar(name[i])
      {
        assert name[i] in name;
      }
    }
  }

  /** The checks on the command itself: each error is sent exactly for its own cause, in production too. */
  lemma CheckErrorsIff(site: Site, objects: Objects, name: string, description: string, o: Outcomes)
    ensures var reply := Create(site, objects, name, description, o).1;
      && (reply == Error(InvalidSkillName) <==> !MatchesNamePattern(name))
      && (reply == Error(DescriptionTooLong) <==> MatchesNamePattern(name) && |description| > 1000)
      && (reply == Error(MissingDescription) <==> MatchesNamePattern(name) && |description| < 5)
      && (reply == Error(PromptInjectionDetected) <==>
            MatchesNamePattern(name) && 5 <= |description| <= 1000 && site.inputInjected(description))
  {
    NamePattern(name);
  }

  /** Behind the checks: permission, configuration and the calls, in the order in which they are made. */
  predicate Reaches(site: Site, objects: Objects, name: string, o: Outcomes, stage: nat) {
    && (stage > 0 ==> site.allowed)
    && (stage > 1 ==> site.bucket.Some? && site.bucket.value != "")
    && (stage > 2 ==> o.head)
    && (stage > 3 ==> site.prefix + TrimPrefix(name, "/") + ".md" !in objects)
    && (stage > 4 ==> o.reserve)
    && (stage > 5 ==> o.answer.Some?)
    && (stage > 6 ==> o.answer.Some? && !site.outputInjected(Generated(o.answer.value)))
  }

  /** Each later error is sent exactly when everything before it went well and its own cause holds; in
      production only the output check is told apart. */
  lemma CallErrorsIff(site: Site, objects: Objects, name: string, description: string, o: Outcomes)
    requires PassesChecks(site, name, description)
    ensures var reply := Create(site, objects, name, description, o).1;
      && (reply.Created? <==> Reaches(site, objects, name, o, 7) && o.upload)
      && (reply == Error(OutputInjectionDetected) <==>
            Reaches(site, objects, name, o, 6) && site.outputInjected(Generated(o.answer.value)))
      && (site.production && reply.Error? ==> reply.event == Forbidden || reply.event == OutputInjectionDetected)
      && (!site.production ==>
            && (reply == Error(SkillCreationDisabled) <==> !site.allowed)
            && (reply == Error(S3Unavailable) <==> Reaches(site, objects, name, o, 1) && site.bucket.None?)
            && (reply == Error(S3BucketMissing) <==> Reaches(site, objects, name, o, 1) && site.bucket == Some(""))
            && (reply == Error(S3CheckFailed) <==> Reaches(site, objects, name, o, 2) && !o.head)
            && (reply == Error(SkillAlreadyExists) <==>
                  Reaches(site, objects, name, o, 3) && !Reaches(site, objects, name, o, 4))
            && (reply == Error(S3ReserveFailed) <==> Reaches(site, objects, name, o, 4) && !o.reserve)
            && (reply == Error(LlmGenerationFailed) <==> Reaches(site, objects, name, o, 5) && o.answer.None?)
            && (reply == Error(S3UploadFailed) <==> Reaches(site, objects, name, o, 7) && !o.upload))
  {
    NamePattern(name);
  }

  /** No command touches another key or a key already there. */
  lemma OtherKeysAreKept(site: Site, objects: Objects, name: string, description: string, o: Outcomes, key: string)
    requires key in objects || key != BuildSkillKey(site.prefix, name)
    ensures var after := Create(site, objects, name, description, o).0;
      (key in after <==> key in objects) && (key in objects ==> after[key] == objects[key])
  {
  }

  /** What a command leaves under its own, so far unused, key. */
  lemma FreshKeyAfter(site: Site, objects: Objects, name: string, description: string, o: Outcomes)
    requires BuildSkillKey(site.prefix, name) !in objects
    ensures var (after, reply) := Create(site, objects, name, description, o);
      var key := BuildSkillKey(site.prefix, name);
      if reply.Created? then
        key in after && after[key] == reply.content && reply.name == name && IsSkillName(name) && Validated(site, reply.content)
      else
        key !in after || after[key] == ""
  {
    if o.answer.Some? {
      GeneratedIsCapped(o.answer.value);
    }
  }

  predicate Accepted(site: Site, objects: Objects, name: string, description: string) {
    Refusal(site, name, description) == None && BuildSkillKey(site.prefix, name) !in objects
  }

  /** The answer is there and passes the output check. */
  predicate Usable(site: Site, answer: Option<string>) {
    answer.Some? && !site.outputInjected(Generated(answer.value))
  }

  lemma CreatedIff(site: Site, objects: Objects, name: string, description: string, o: Outcomes)
    ensures Create(site, objects, name, description, o).1.Created? <==>
      Accepted(site, objects, name, description) && o.head && o.reserve && Usable(site, o.answer) && o.upload
  {
  }

  /** An unused key is left behind as a placeholder exactly when it was reserved and then either the
      cleanup after an unusable answer or the final upload failed. */
  lemma PlaceholderLeftIff(site: Site, objects: Objects, name: string, description: string, o: Outcomes)
    requires BuildSkillKey(site.prefix, name) !in objects
    ensures var (after, reply) := Create(site, objects, name, description, o);
      BuildSkillKey(site.prefix, name) in after && !reply.Created? <==>
        && Accepted(site, objects, name, description) && o.head && o.reserve
        && if Usable(site, o.answer) then !o.upload else !o.cleanup
  {
  }

  /** Different names have different keys. */
  lemma KeysDiffer(prefix: string, a: string, b: string)
    requires IsSkillName(a) && IsSkillName(b) && a != b
    ensures BuildSkillKey(prefix, a) != BuildSkillKey(prefix, b)
  {
    NameFromKey(prefix, a);
    NameFromKey(prefix, b);
    assert ("/" + a)[1..] == a && ("/" + b)[1..] == b;
  }

  lemma InvalidNameIsRefused(site: Site, objects: Objects, name: string, description: string, o: Outcomes)
    requires !IsSkillName(name)
    ensures Create(site, objects, name, description, o) == (objects, Error(InvalidSkillName))
  {
  }

  lemma OtherNameElsewhere(site: Site, objects: Objects, name: string, description: string, o: Outcomes, other: string)
    requires IsSkillName(other) && name != other && BuildSkillKey(site.prefix, other) !in objects
    ensures BuildSkillKey(site.prefix, other) !in Create(site, objects, name, description, o).0
  {
    if IsSkillName(name) {
      KeysDiffer(site.prefix, name, other);
      OtherKeysAreKept(site, objects, name, description, o, BuildSkillKey(site.prefix, other));
    } else {
      InvalidNameIsRefused(site, objects, name, description, o);
    }
  }

  // ----- Serial runs -----

  /** A chat message as parsed, with the outcomes of the calls made for it. */
  datatype Request = Request(command: Command, outcomes: Outcomes)

  function AfterRequest(site: Site, objects: Objects, r: Request): Objects {
    match r.command
    case NotCommand => objects
    case Command(name, description) => Create(site, objects, name, description, r.outcomes).0
  }

  function AfterRun(site: Site, objects: Objects, run: seq<Request>): Objects {
    if run == [] then objects
    else AfterRequest(site, AfterRun(site, objects, run[..|run| - 1]), run[|run| - 1])
  }

  /** The i-th request of the run reported this skill as created, with this content. */
  predicate Reported(site: Site, objects: Objects, run: seq<Request>, i: nat, name: string, content: string) {
    i < |run| && match run[i].command
      case NotCommand => false
      case Command(n, d) =>
        Create(site, AfterRun(site, objects, run[..i]), n, d, run[i].outcomes).1 == Created(name, content)
  }

  lemma RequestKeeps(site: Site, objects: Objects, r: Request, key: string)
    requires key in objects
    ensures var after := AfterRequest(site, objects, r); key in after && after[key] == objects[key]
  {
    match r.command
    case NotCommand =>
    case Command(name, description) => OtherKeysAreKept(site, objects, name, description, r.outcomes, key);
  }

  lemma RunUnfolds(site: Site, objects: Objects, run: seq<Request>, j: nat)
    requires j < |run|
    ensures AfterRun(site, objects, run[..j + 1]) == AfterRequest(site, AfterRun(site, objects, run[..j]), run[j])
  {
    assert run[..j + 1][..j] == run[..j];
  }

  /** Once there, a key keeps its content, whatever commands follow and however their calls turn out. */
  lemma {:induction false} RunKeepsFrom(site: Site, objects: Objects, run: seq<Request>, i: nat, j: nat, key: string)
    requires i <= j <= |run| && key in AfterRun(site, objects, run[..i])
    ensures var before, after := AfterRun(site, objects, run[..i]), AfterRun(site, objects, run[..j]);
      key in after && after[key] == before[key]
    decreases j - i
  {
    if i < j {
      RunKeepsFrom(site, objects, run, i, j - 1, key);
      RunUnfolds(site, objects, run, j - 1);
      RequestKeeps(site, AfterRun(site, objects, run[..j - 1]), run[j - 1], key);
    }
  }

  /** A key keeps its content through any run. */
  lemma RunKeepsObjects(site: Site, objects: Objects, run: seq<Request>, key: string)
    requires key in objects
    ensures var after := AfterRun(site, objects, run); key in after && after[key] == objects[key]
  {
    assert AfterRun(site, objects, run[..0]) == objects;
    RunKeepsFrom(site, objects, run, 0, |run|, key);
    assert run[..|run|] == run;
  }

  lemma RequestAdds(site: Site, objects: Objects, r: Request, key: string)
    requires key !in objects && key in AfterRequest(site, objects, r)
    ensures var c := r.command;
      && c.Command? && IsSkillName(c.name) && key == BuildSkillKey(site.prefix, c.name)
      && var (after, reply) := Create(site, objects, c.name, c.description, r.outcomes);
      && (reply.Created? ==> reply == Created(c.name, after[key]) && Validated(site, after[key]))
      && (!reply.Created? ==> after[key] == "")
  {
    var c := r.command;
    if key != BuildSkillKey(site.prefix, c.name) {
      OtherKeysAreKept(site, objects, c.name, c.description, r.outcomes, key);
      assert false;
    }
    FreshKeyAfter(site, objects, c.name, c.description, r.outcomes);
  }

  /** The i-th request of the run left this skill's placeholder behind: it got as far as the reservation, and
      then the upload, or the cleanup after an unusable answer, failed. */
  predicate Abandoned(site: Site, objects: Objects, run: seq<Request>, i: nat, name: string) {
    i < |run| && run[i].command.Command? && run[i].command.name == name &&
    var o := run[i].outcomes;
    && Accepted(site, AfterRun(site, objects, run[..i]), name, run[i].command.description) && o.head && o.reserve
    && if Usable(site, o.answer) then !o.upload else !o.cleanup
  }

  /** The i-th request of the run reported this skill as created. */
  predicate Creates(site: Site, objects: Objects, run: seq<Request>, i: nat, name: string) {
    i < |run| && run[i].command.Command? && run[i].command.name == name &&
    Create(site, AfterRun(site, objects, run[..i]), name, run[i].command.description, run[i].outcomes).1.Created?
  }

  predicate Occupies(site: Site, objects: Objects, run: seq<Request>, i: nat, name: string) {
    Creates(site, objects, run, i, name) || Abandoned(site, objects, run, i, name)
  }

  /** Which single request brings a key into being. */
  lemma RequestOccupiesIff(site: Site, objects: Objects, run: seq<Request>, i: nat, name: string)
    requires i < |run| && IsSkillName(name)
    requires BuildSkillKey(site.prefix, name) !in AfterRun(site, objects, run[..i])
    ensures BuildSkillKey(site.prefix, name) in AfterRun(site, objects, run[..i + 1]) <==> Occupies(site, objects, run, i, name)
  {
    var before, c := AfterRun(site, objects, run[..i]), run[i].command;
    RunUnfolds(site, objects, run, i);
    if c.Command? {
      if c.name == name {
        PlaceholderLeftIff(site, before, name, c.description, run[i].outcomes);
        FreshKeyAfter(site, before, name, c.description, run[i].outcomes);
      } else {
        OtherNameElsewhere(site, before, c.name, c.description, run[i].outcomes, name);
      }
    }
  }

  lemma OccupiesUnused(site: Site, objects: Objects, run: seq<Request>, i: nat, name: string)
    requires Occupies(site, objects, run, i, name)
    ensures IsSkillName(name) && BuildSkillKey(site.prefix, name) !in AfterRun(site, objects, run[..i])
  {
    CreatedIff(site, AfterRun(site, objects, run[..i]), name, run[i].command.description, run[i].outcomes);
  }

  lemma OccupiedAfter(site: Site, objects: Objects, run: seq<Request>, i: nat, name: string)
    requires i < |run| && IsSkillName(name)
    ensures var key := BuildSkillKey(site.prefix, name);
      key in AfterRun(site, objects, run[..i + 1]) <==>
      key in AfterRun(site, objects, run[..i]) || Occupies(site, objects, run, i, name)
  {
    var key := BuildSkillKey(site.prefix, name);
    if key in AfterRun(site, objects, run[..i]) {
      RunKeepsFrom(site, objects, run, i, i + 1, key);
    } else {
      RequestOccupiesIff(site, objects, run, i, name);
    }
  }

  lemma {:induction false} Occupier(site: Site, objects: Objects, run: seq<Request>, j: nat, name: string) returns (i: nat)
    requires j <= |run| && IsSkillName(name) && BuildSkillKey(site.prefix, name) !in objects
    requires BuildSkillKey(site.prefix, name) in AfterRun(site, objects, run[..j])
    ensures i < j && Occupies(site, objects, run, i, name)
  {
    assert j > 0 by {
      assert AfterRun(site, objects, run[..0]) == objects;
    }
    OccupiedAfter(site, objects, run, j - 1, name);
    if Occupies(site, objects, run, j - 1, name) {
      i := j - 1;
    } else {
      i := Occupier(site, objects, run, j - 1, name);
    }
  }

  lemma OccupierStays(site: Site, objects: Objects, run: seq<Request>, i: nat, j: nat, name: string)
    requires i < j <= |run| && Occupies(site, objects, run, i, name)
    ensures BuildSkillKey(site.prefix, name) in AfterRun(site, objects, run[..j])
  {
    OccupiesUnused(site, objects, run, i, name);
    OccupiedAfter(site, objects, run, i, name);
    RunKeepsFrom(site, objects, run, i + 1, j, BuildSkillKey(site.prefix, name));
  }

  /** Over a whole run, from a bucket without the key: the key is there afterwards exactly when some request
      reported the skill or abandoned its placeholder. */
  lemma OccupiedIff(site: Site, objects: Objects, run: seq<Request>, name: string)
    requires IsSkillName(name) && BuildSkillKey(site.prefix, name) !in objects
    ensures BuildSkillKey(site.prefix, name) in AfterRun(site, objects, run) <==>
      exists i: nat :: Occupies(site, objects, run, i, name)
  {
    assert run[..|run|] == run;
    if BuildSkillKey(site.prefix, name) in AfterRun(site, objects, run) {
      var i := Occupier(site, objects, run, |run|, name);
    }
    if i: nat :| Occupies(site, objects, run, i, name) {
      OccupierStays(site, objects, run, i, |run|, name);
    }
  }

  /** At most one request of a run ever occupies a name. */
  lemma OccupiedOnce(site: Site, objects: Objects, run: seq<Request>, i: nat, j: nat, name: string)
    requires i < j && Occupies(site, objects, run, i, name)
    ensures !Occupies(site, objects, run, j, name)
  {
    if Occupies(site, objects, run, j, name) {
      OccupiesUnused(site, objects, run, i, name);
      OccupiesUnused(site, objects, run, j, name);
      RequestOccupiesIff(site, objects, run, i, name);
      RunKeepsFrom(site, objects, run, i + 1, j, BuildSkillKey(site.prefix, name));
      assert false;
    }
  }

  /** Whatever a run adds is an empty placeholder, or the validated content of a skill it reported. */
  lemma {:induction false} RunAddsOnlyReported(site: Site, objects: Objects, run: seq<Request>, j: nat, key: string)
    requires j <= |run| && key !in objects && key in AfterRun(site, objects, run[..j])
    ensures var content := AfterRun(site, objects, run[..j])[key];
      || content == ""
      || (Validated(site, content)
          && exists i: nat, name :: ReportedUnder(site, objects, run, i, name, content, key))
  {
    if j > 0 {
      var before := AfterRun(site, objects, run[..j - 1]);
      if key in before {
        RunAddsOnlyReported(site, objects, run, j - 1, key);
        RunKeepsFrom(site, objects, run, j - 1, j, key);
      } else {
        RunUnfolds(site, objects, run, j - 1);
        RequestAdds(site, before, run[j - 1], key);
        var content := AfterRun(site, objects, run[..j])[key];
        if content != "" {
          assert ReportedUnder(site, objects, run, j - 1, run[j - 1].command.name, content, key);
        }
      }
    }
  }

  predicate ReportedUnder(site: Site, objects: Objects, run: seq<Request>, i: nat, name: string, content: string,
                          key: string)
  {
    Reported(site, objects, run, i, name, content) && IsSkillName(name) && key == BuildSkillKey(site.prefix, name)
  }

  lemma ReportedLands(site: Site, objects: Objects, run: seq<Request>, i: nat, name: string, content: string)
    requires Reported(site, objects, run, i, name, content)
    ensures IsSkillName(name)
    ensures var key, after := BuildSkillKey(site.prefix, name), AfterRun(site, objects, run[..i + 1]);
      key !in AfterRun(site, objects, run[..i]) && key in after && after[key] == content
  {
    RunUnfolds(site, objects, run, i);
  }

  lemma ReportedCreates(site: Site, objects: Objects, run: seq<Request>, i: nat, name: string, content: string)
    requires Reported(site, objects, run, i, name, content)
    ensures Creates(site, objects, run, i, name)
  {
  }

  /** What is reported as created is in the bucket from then on, under a key unused before, and no name is
      reported twice. */
  lemma ReportedStays(site: Site, objects: Objects, run: seq<Request>, i: nat, name: string, content: string)
    requires Reported(site, objects, run, i, name, content)
    ensures var key, after := BuildSkillKey(site.prefix, name), AfterRun(site, objects, run);
      key !in objects && key in after && after[key] == content
    ensures forall j: nat, c | Reported(site, objects, run, j, name, c) :: j == i
  {
    var key := BuildSkillKey(site.prefix, name);
    ReportedLands(site, objects, run, i, name, content);
    RunKeepsFrom(site, objects, run, i + 1, |run|, key);
    assert run[..|run|] == run;
    if key in objects {
      RunKeepsObjects(site, objects, run[..i], key);
      assert false;
    }
    forall j: nat, c | Reported(site, objects, run, j, name, c)
      ensures j == i
    {
      ReportedCreates(site, objects, run, i, name, content);
      ReportedCreates(site, objects, run, j, name, c);
      if i < j {
        OccupiedOnce(site, objects, run, i, j, name);
      } else if j < i {
        OccupiedOnce(site, objects, run, j, i, name);
      }
    }
  }

  /** A key that is there, placeholder or not, blocks its name in every later command of every run. */
  lemma PlaceholderBlocks(site: Site, objects: Objects, run: seq<Request>, i: nat, name: string, content: string)
    requires BuildSkillKey(site.prefix, name) in objects
    ensures !Reported(site, objects, run, i, name, content)
  {
    if Reported(site, objects, run, i, name, content) {
      ReportedLands(site, objects, run, i, name, content);
      RunKeepsObjects(site, objects, run[..i], BuildSkillKey(site.prefix, name));
      assert false;
    }
  }

  // ----- Create, then load -----

  lemma KeyHasPrefix(prefix: string, name: string)
    ensures HasPrefix(BuildSkillKey(prefix, name), prefix)
  {
    assert BuildSkillKey(prefix, name) == prefix + (TrimPrefix(name, "/") + EXTENSION);
  }

  lemma CreatedIsListed(site: Site, objects: Objects, name: string, o: Outcomes)
    requires IsSkillName(name) && BuildSkillKey(site.prefix, name) in objects
    requires IsListing(objects, site.prefix, o.pages) && AllAnswered(o.pages)
    ensures "/" + name in ListedNames(site, o)
    ensures BuildSkillKey(site.prefix, "/" + name) == BuildSkillKey(site.prefix, name)
  {
    NameFromKey(site.prefix, name);
    var key := BuildSkillKey(site.prefix, name);
    KeyHasPrefix(site.prefix, name);
    assert key in AllKeys(o.pages);
    NamesIff(AllKeys(o.pages), site.prefix, "/" + name);
  }

  /** Round trip: once the bucket's listing has arrived, a created skill is served under "/name" exactly
      when one of its reads has arrived, and what is served is the uploaded content. */
  lemma CreatedSkillIsServed(site: Site, objects: Objects, name: string, description: string, o: Outcomes)
    requires var result := Create(site, objects, name, description, o);
      result.1.Created? && IsListing(result.0, site.prefix, o.pages) && AllAnswered(o.pages)
    ensures var result := Create(site, objects, name, description, o);
      var names, served, id := ListedNames(site, o), Served(site, result.0, o), "/" + name;
      && id in names
      && (id in served <==> exists i | 0 <= i < |names| :: names[i] == id && o.loads(i))
      && (id in served ==> served[id].instructions == result.1.content && served[id].metadata.identifier == id)
    ensures o.answer.Some?
    ensures var served, whole := Served(site, Create(site, objects, name, description, o).0, o), TrimSpace(o.answer.value);
      "/" + name in served && |whole| <= 50 * 1024 ==> served["/" + name].instructions == whole
  {
    CreatedContent(site, objects, name, description, o);
    CreatedLeaves(site, objects, name, description, o);
    var after := Create(site, objects, name, description, o).0;
    CreatedIsListed(site, after, name, o);
    ServedMeaning(after, site.prefix, ListedNames(site, o), o.loads, "/" + name);
  }

  lemma CreatedLeaves(site: Site, objects: Objects, name: string, description: string, o: Outcomes)
    requires Create(site, objects, name, description, o).1.Created?
    ensures var result := Create(site, objects, name, description, o);
      var key := BuildSkillKey(site.prefix, name);
      IsSkillName(name) && key in result.0 && result.0[key] == result.1.content
  {
  }

  lemma ServedMeaning(objects: Objects, prefix: string, names: seq<string>, loads: nat -> bool, id: string)
    requires BuildSkillKey(prefix, id) in objects
    ensures var served := SkillRegistry.Loaded(LoadedFrom(objects, prefix, names, loads));
      && (id in served <==> exists i | 0 <= i < |names| :: names[i] == id && loads(i))
      && (id in served ==> served[id] == ParsedDefinition(id, objects[BuildSkillKey(prefix, id)]))
  {
    var defs, def := LoadedFrom(objects, prefix, names, loads), ParsedDefinition(id, objects[BuildSkillKey(prefix, id)]);
    SkillRegistry.LoadedMeaning(defs, id);
    LoadedIff(objects, prefix, names, loads, def);
    if i :| 0 <= i < |names| && names[i] == id && loads(i) {
      assert LoadsAt(objects, prefix, names, loads, def, i);
      var k :| 0 <= k < |defs| && defs[k] == def;
      assert def.metadata.identifier == id;
    }
    if id in SkillRegistry.Loaded(defs) {
      var served := SkillRegistry.Loaded(defs)[id];
      assert served in defs;
      LoadedIff(objects, prefix, names, loads, served);
      var i: nat :| LoadsAt(objects, prefix, names, loads, served, i);
      assert names[i] == served.metadata.identifier == id;
    }
  }
}
