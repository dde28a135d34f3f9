/** The interactive creation wizard: a step counter, an `aborted` flag, the
    responses filled in a fixed order, the action rows shown under the wizard's
    message, and the user messages collected while prompting. What the platform
    answers (clicks, prompt results, the abort button, timeouts) is an input
    script. */
module EclassInteractiveBuilder {
  import opened Utils
  import opened Database

  type Snowflake = string

  // ---------------------------------------------------------------------------
  // Components, thrown values and the script of the platform's answers

  /** A select-menu option: a subject's, or one whose label and emoji come from
      the configuration texts (only its value is kept). */
  datatype MenuOption = SubjectOption(title: string, emoji: string, value: string) | FixedOption(value: string)

  datatype ButtonStyle = Primary | Secondary | Danger

  datatype Component =
    | SelectMenu(customId: string, options: seq<MenuOption>)
    | Button(customId: string, style: ButtonStyle)

  datatype ActionRow = ActionRow(components: seq<Component>)

  /** The row holding the abort button, always first. */
  const AbortRow: ActionRow := ActionRow([Button("abort", Danger)])

  const SchoolYearMenu: Component :=
    SelectMenu("select-schoolyear", [FixedOption("L1"), FixedOption("L2"), FixedOption("L3")])

  const IsRecordedMenu: Component :=
    SelectMenu("select-is-recorded", [FixedOption("yes"), FixedOption("no")])

  const TargetRoleL3: seq<Component> := [
    Button("button-target-role-l3-all", Primary),
    Button("button-target-role-l3-abroad", Secondary),
    Button("button-target-role-l3-half-campus", Secondary),
    Button("button-target-role-l3-full-campus", Secondary)]

  /** The configuration entries naming the L3 target roles. */
  datatype RoleEntry = SchoolYearL3 | SchoolYearL3Abroad | SchoolYearL3HalfCampus | SchoolYearL3FullCampus

  /** `targetRoles`: the configuration entry behind each L3 button. */
  function TargetRoleEntry(customId: string): Option<RoleEntry>
  {
    if customId == "button-target-role-l3-all" then Some(SchoolYearL3)
    else if customId == "button-target-role-l3-abroad" then Some(SchoolYearL3Abroad)
    else if customId == "button-target-role-l3-half-campus" then Some(SchoolYearL3HalfCampus)
    else if customId == "button-target-role-l3-full-campus" then Some(SchoolYearL3FullCampus)
    else None
  }

  /** The lookup table is defined on exactly the four L3 buttons, and gives each
      of them its own entry. */
  lemma TargetRolesCoverButtons(customId: string)
    ensures TargetRoleEntry(customId).Some? <==> exists i :: 0 <= i < |TargetRoleL3| && TargetRoleL3[i].customId == customId
    ensures forall i, j :: 0 <= i < j < |TargetRoleL3| ==>
      TargetRoleEntry(TargetRoleL3[i].customId) != TargetRoleEntry(TargetRoleL3[j].customId)
  {
    if TargetRoleEntry(customId).Some? {
      var i := if customId == "button-target-role-l3-all" then 0
        else if customId == "button-target-role-l3-abroad" then 1
        else if customId == "button-target-role-l3-half-campus" then 2 else 3;
      assert TargetRoleL3[i].customId == customId;
    }
  }

  /** A value thrown inside the wizard: an `Error` (name and message), a string,
      or anything else (kept as its JSON serialisation). */
  datatype Thrown = ErrorObj(name: string, message: string) | StringThrown(text: string) | OtherThrown(json: string)

  /** What a component collector throws when it ends without a matching click. */
  const CollectorError: Thrown :=
    ErrorObj("Error [" + CollectorErrorCode + "]", "Collector received no interactions before ending with reason: time")

  /** The code discord.js puts in a collector error's name. */
  const CollectorErrorCode := "INTERACTION_COLLECTOR_ERROR"

  /** What the prompter throws when nobody answers in time. */
  const PromptTimeoutError: Thrown := ErrorObj("Error", "TIME OUT")

  /** The notice the wizard ends on when it is aborted. */
  datatype AbortReason = PromptTimeout | StoppedPrompting | ErrorDetails(details: string)

  /** The classification of the `catch` block of `start`. */
  function Classify(err: Thrown): AbortReason
  {
    match err
    case ErrorObj(name, message) =>
      if Includes(name, CollectorErrorCode) || message == "TIME OUT" then PromptTimeout
      else if message == "STOP" then StoppedPrompting
      else ErrorDetails(message)
    case StringThrown(text) => ErrorDetails(text)
    case OtherThrown(json) => ErrorDetails(json)
  }

  /** A collector error or a "TIME OUT" message is a timeout, "STOP" a stop, and
      anything else an error whose details are the message, the string itself or
      its serialisation. */
  lemma ClassifyCases(err: Thrown)
    ensures Classify(err) == PromptTimeout <==>
      err.ErrorObj? && (Includes(err.name, CollectorErrorCode) || err.message == "TIME OUT")
    ensures Classify(err) == StoppedPrompting <==>
      err.ErrorObj? && !Includes(err.name, CollectorErrorCode) && err.message == "STOP"
    ensures Classify(err).ErrorDetails? ==>
      Classify(err).details == (match err
        case ErrorObj(_, message) => message
        case StringThrown(text) => text
        case OtherThrown(json) => json)
  {
  }

  /** The two errors the wizard raises itself are both read as timeouts. */
  lemma TimeoutsClassified()
    ensures Classify(CollectorError) == PromptTimeout
    ensures Classify(PromptTimeoutError) == PromptTimeout
  {
    CollectorErrorNamesItself();
  }

  /** The collector error's name holds its code. */
  lemma CollectorErrorNamesItself()
    ensures Includes(CollectorError.name, CollectorErrorCode)
  {
    OccursInMiddle("Error [", CollectorErrorCode, "]");
  }

  lemma OccursInMiddle(a: string, b: string, c: string)
    ensures OccursAt(a + b + c, b, |a|)
  {
    assert (a + b + c)[|a|..|a| + |b|] == b;
  }

  /** A click on a component of the wizard's message. */
  datatype Interaction = Interaction(customId: string, values: seq<string>)

  /** What happens while a component step waits: whether the abort button is
      pressed first, and the author's clicks in order. */
  datatype ComponentWait = ComponentWait(abortPressed: bool, clicks: seq<Interaction>)

  /** A user message recorded by the prompter. */
  datatype UserMessage = UserMessage(id: string, fromBot: bool)

  /** The prompter's answer to one prompt: a parsed value, with the messages it
      recorded, or a throw (a timeout among others); either way, whether the
      abort button was pressed while the prompt was pending. */
  datatype PromptReply<T> =
    | Answered(value: T, posted: set<UserMessage>, abortPressed: bool)
    | PromptFailed(err: Thrown, abortPressed: bool)

  predicate IsOn(click: Interaction, components: seq<Component>)
  {
    exists c :: c in components && c.customId == click.customId
  }

  /** The first click on one of the components. */
  function FirstClickOn(clicks: seq<Interaction>, components: seq<Component>): (r: Option<nat>)
    ensures r.Some? ==> r.value < |clicks| && IsOn(clicks[r.value], components)
    ensures r.Some? ==> forall j :: 0 <= j < r.value ==> !IsOn(clicks[j], components)
    ensures r.None? ==> forall j :: 0 <= j < |clicks| ==> !IsOn(clicks[j], components)
  {
    if clicks == [] then None
    else if IsOn(clicks[0], components) then Some(0)
    else match FirstClickOn(clicks[1..], components)
      case None => None
      case Some(k) => Some(k + 1)
  }

  /** `awaitMessageComponent` with the wizard's filter: the first click on one of
      the step's components, unless the wizard is aborted, in which case the
      filter lets nothing through and the collector times out. */
  function AwaitComponent(wait: ComponentWait, components: seq<Component>, aborted: bool): Result<Interaction>
  {
    if aborted || wait.abortPressed then Failure(CollectorError)
    else match FirstClickOn(wait.clicks, components)
      case None => Failure(CollectorError)
      case Some(k) => Success(wait.clicks[k])
  }

  datatype Result<T> = Success(value: T) | Failure(err: Thrown)

  /** `values.shift()`. */
  function FirstValue(values: seq<string>): Option<string>
  {
    if values == [] then None else Some(values[0])
  }

  // ---------------------------------------------------------------------------
  // The free-text step

  /** How a free-text step ends: `Raised` records whether the abort button was
      pressed before the prompter threw. */
  datatype MessageStepEnd<T> = Accepted(value: T) | AbortedStep | Raised(err: Thrown, abortPressed: bool)

  /** Whether the wizard is aborted once a free-text step has ended. */
  predicate AbortedAfter<T>(end: MessageStepEnd<T>, aborted: bool)
  {
    aborted || end.AbortedStep? || (end.Raised? && end.abortPressed)
  }

  /** The validator of the free-text steps that accept any parsed answer. */
  predicate AcceptAny<T>(value: T)
  {
    true
  }

  /** The do-while of `_makeMessageStep`: how the step ends and how many prompts
      it makes. A script that runs out means nobody answered and nobody pressed
      the abort button: the prompter times out. A timeout after the abort button
      is a `PromptFailed` reply with the button pressed. */
  function RunMessageStep<T>(replies: seq<PromptReply<T>>, validator: T -> bool, aborted: bool): (MessageStepEnd<T>, nat)
    decreases |replies|
  {
    if replies == [] then (Raised(PromptTimeoutError, false), 1)
    else match replies[0]
      case PromptFailed(err, pressed) => (Raised(err, pressed), 1)
      case Answered(v, _, pressed) =>
        if aborted || pressed then (AbortedStep, 1)
        else if validator(v) then (Accepted(v), 1)
        else
          var next := RunMessageStep(replies[1..], validator, false);
          (next.0, next.1 + 1)
  }

  predicate Rejected<T>(reply: PromptReply<T>, validator: T -> bool)
  {
    reply.Answered? && !reply.abortPressed && !validator(reply.value)
  }

  /** The step accepts the first answer the validator accepts, after rejecting
      every earlier one; it prompts once per answer read. */
  lemma {:induction false} MessageStepAcceptsFirstValid<T>(replies: seq<PromptReply<T>>, validator: T -> bool, aborted: bool)
    requires RunMessageStep(replies, validator, aborted).0.Accepted?
    ensures var (end, n) := RunMessageStep(replies, validator, aborted);
      && 1 <= n <= |replies|
      && replies[n - 1].Answered? && end.value == replies[n - 1].value && validator(end.value)
      && !aborted
      && forall j :: 0 <= j < n - 1 ==> Rejected(replies[j], validator)
    decreases |replies|
  {
    var r := replies[0];
    if !(r.Answered? && validator(r.value)) {
      MessageStepAcceptsFirstValid(replies[1..], validator, false);
    }
  }

  /** Conversely, rejected answers followed by an accepted one end the step on
      the accepted one. */
  lemma {:induction false} MessageStepReachesValid<T>(replies: seq<PromptReply<T>>, validator: T -> bool, k: nat)
    requires k < |replies|
    requires forall j :: 0 <= j < k ==> Rejected(replies[j], validator)
    requires replies[k].Answered? && !replies[k].abortPressed && validator(replies[k].value)
    ensures RunMessageStep(replies, validator, false) == (Accepted(replies[k].value), k + 1)
    decreases k
  {
    if k > 0 {
      assert Rejected(replies[0], validator);
      MessageStepReachesValid(replies[1..], validator, k - 1);
    }
  }

  /** Only rejected answers until the script ends: the prompter times out. */
  lemma {:induction false} MessageStepTimesOut<T>(replies: seq<PromptReply<T>>, validator: T -> bool)
    requires forall j :: 0 <= j < |replies| ==> Rejected(replies[j], validator)
    ensures RunMessageStep(replies, validator, false) == (Raised(PromptTimeoutError, false), |replies| + 1)
    decreases |replies|
  {
    if replies != [] {
      assert Rejected(replies[0], validator);
      MessageStepTimesOut(replies[1..], validator);
    }
  }

  /** An already aborted wizard returns after one prompt, unless that prompt throws. */
  lemma MessageStepAfterAbort<T>(replies: seq<PromptReply<T>>, validator: T -> bool)
    requires replies != [] && replies[0].Answered?
    ensures RunMessageStep(replies, validator, true) == (AbortedStep, 1)
  {
  }

  /** The non-bot messages of a set. */
  function BotOnly(s: set<UserMessage>): set<UserMessage>
  {
    set m | m in s && m.fromBot
  }

  // ---------------------------------------------------------------------------
  // Subject menus

  /** The option a subject gets in the subject menus. */
  function SubjectMenuOption(s: Subject): MenuOption
  {
    SubjectOption(s.name, s.emoji, s.classCode)
  }

  function SubjectMenuId(i: nat): string
  {
    "select-subject-" + NatToString(i)
  }

  function MenuOptions(menus: seq<Component>): seq<seq<MenuOption>>
    requires forall m :: m in menus ==> m.SelectMenu?
  {
    seq(|menus|, i requires 0 <= i < |menus| => menus[i].options)
  }

  /** The subject menus: the i-th holds the i-th chunk of 25 subjects. */
  function SubjectMenus(subjects: seq<Subject>): seq<Component>
  {
    var parts := Chunk(subjects, 25);
    seq(|parts|, i requires 0 <= i < |parts| => SelectMenu(SubjectMenuId(i), Map(SubjectMenuOption, parts[i])))
  }

  /** `getSubjectMenus`: one menu per chunk of 25 subjects, numbered from 0, whose
      options, read in order, are the subjects' options in order. */
  method GetSubjectMenus(subjects: seq<Subject>) returns (menus: seq<Component>)
    ensures menus == SubjectMenus(subjects)
    ensures |menus| == (|subjects| + 24) / 25
    ensures forall i :: 0 <= i < |menus| ==> menus[i].SelectMenu? && menus[i].customId == SubjectMenuId(i)
    ensures forall i :: 0 <= i < |menus| ==> 0 < |menus[i].options| <= 25
    ensures Flatten(MenuOptions(menus)) == Map(SubjectMenuOption, subjects)
  {
    var parts := Chunk(subjects, 25);
    menus := [];
    var i := 0;
    while i < |parts|
      invariant 0 <= i <= |parts|
      invariant |menus| == i
      invariant forall j :: 0 <= j < i ==> menus[j] == SelectMenu(SubjectMenuId(j), Map(SubjectMenuOption, parts[j]))
      invariant Flatten(MenuOptions(menus)) == Map(SubjectMenuOption, Flatten(parts[..i]))
    {
      var menu := SelectMenu(SubjectMenuId(i), Map(SubjectMenuOption, parts[i]));
      SubjectMenusStep(menus, parts, i);
      menus := menus + [menu];
      i := i + 1;
    }
    assert parts[..i] == parts;
  }

  /** One iteration of `getSubjectMenus`: appending the menu of chunk `i` appends
      that chunk's options. */
  lemma SubjectMenusStep(menus: seq<Component>, parts: seq<seq<Subject>>, i: nat)
    requires i < |parts|
    requires forall m :: m in menus ==> m.SelectMenu?
    requires Flatten(MenuOptions(menus)) == Map(SubjectMenuOption, Flatten(parts[..i]))
    ensures Flatten(MenuOptions(menus + [SelectMenu(SubjectMenuId(i), Map(SubjectMenuOption, parts[i]))]))
         == Map(SubjectMenuOption, Flatten(parts[..i + 1]))
  {
    var menu := SelectMenu(SubjectMenuId(i), Map(SubjectMenuOption, parts[i]));
    assert MenuOptions(menus + [menu]) == MenuOptions(menus) + [menu.options];
    FlattenAppend(MenuOptions(menus), [menu.options]);
    assert parts[..i + 1] == parts[..i] + [parts[i]];
    FlattenAppend(parts[..i], [parts[i]]);
    MapAppend(SubjectMenuOption, Flatten(parts[..i]), parts[i]);
    assert Flatten([menu.options]) == menu.options;
    assert Flatten([parts[i]]) == parts[i];
  }

  lemma MapAppend<A, B>(f: A -> B, a: seq<A>, b: seq<A>)
    ensures Map(f, a + b) == Map(f, a) + Map(f, b)
  {
    assert forall i :: 0 <= i < |a + b| ==> Map(f, a + b)[i] == (Map(f, a) + Map(f, b))[i];
  }

  /** The subject menus have pairwise distinct ids. */
  lemma SubjectMenuIdsDistinct(i: nat, j: nat)
    requires i != j
    ensures SubjectMenuId(i) != SubjectMenuId(j)
  {
    var p := "select-subject-";
    if SubjectMenuId(i) == SubjectMenuId(j) {
      assert SubjectMenuId(i)[|p|..] == NatToString(i);
      assert SubjectMenuId(j)[|p|..] == NatToString(j);
      NatToStringInjective(i, j);
    }
  }

  // ---------------------------------------------------------------------------
  // The wizard

  /** The creation options as the wizard gathers them; `None` is `null` or
      `undefined`. */
  datatype Responses = Responses(
    date: Option<int>,
    subject: Option<Subject>,
    topic: Option<string>,
    duration: Option<int>,
    professor: Option<Snowflake>,
    targetRole: Option<Snowflake>,
    isRecorded: Option<bool>)

  const NoResponses: Responses := Responses(None, None, None, None, None, None, None)

  /** The steps of the wizard, in the order it asks them. */
  datatype WizardStep = SchoolYearStep | SubjectStep | TopicStep | DateStep | DurationStep | ProfessorStep
    | TargetRoleStep | RecordedStep

  /** The steps every run asks first. */
  const FirstSteps: seq<WizardStep> := [SchoolYearStep, SubjectStep, TopicStep, DateStep, DurationStep, ProfessorStep]

  /** The steps of a complete run: the target-role step only for an L3 subject. */
  function FullRun(isL3: bool): seq<WizardStep>
  {
    FirstSteps + (if isL3 then [TargetRoleStep] else []) + [RecordedStep]
  }

  /** The platform's and the database's answers during one run of the wizard. */
  datatype WizardScript = WizardScript(
    schoolYearWait: ComponentWait,
    subjectsOf: Option<string> -> seq<Subject>,
    subjectWait: ComponentWait,
    topicReplies: seq<PromptReply<string>>,
    dateReplies: seq<PromptReply<int>>,
    validateDate: int -> bool,
    durationReplies: seq<PromptReply<int>>,
    professorReplies: seq<PromptReply<Snowflake>>,
    targetWait: ComponentWait,
    configRole: (RoleEntry, Snowflake) -> Option<Snowflake>,
    guild: Snowflake,
    recordedWait: ComponentWait,
    noSubjectsText: string)

  /** The value a free-text step leaves in its response: `undefined` after an abort. */
  function StepValue<T>(end: MessageStepEnd<T>): Option<T>
  {
    if end.Accepted? then Some(end.value) else None
  }

  // ---------------------------------------------------------------------------
  // What one run of the prompts does, step by step

  /** Where a run of (part of) the prompts ends: the error thrown if any, the
      responses, whether the wizard is aborted, and the steps reached. */
  datatype PromptsRun = PromptsRun(err: Option<Thrown>, responses: Responses, aborted: bool, asked: seq<WizardStep>)

  /** What the wizard throws when the chosen school year has no subject. */
  function NoSubjectsError(script: WizardScript): Thrown
  {
    ErrorObj("Error", script.noSubjectsText)
  }

  /** What reading `schoolYear` of an undefined subject throws. */
  const SubjectTypeError: Thrown := ErrorObj("TypeError", "Cannot read properties of undefined (reading 'schoolYear')")

  /** Steps 1 and 2: the school year, then the subject among that year's subjects. */
  function SubjectRun(script: WizardScript, r: Responses, aborted: bool): (o: PromptsRun)
    ensures o.asked == [SchoolYearStep] || o.asked == [SchoolYearStep, SubjectStep]
    ensures o.err.None? ==> o.asked == [SchoolYearStep, SubjectStep]
    ensures aborted ==> o.aborted && o.err.Some?
    ensures o.responses == r.(subject := o.responses.subject)
  {
    var year := AwaitComponent(script.schoolYearWait, [SchoolYearMenu], aborted);
    var a1 := aborted || script.schoolYearWait.abortPressed;
    if year.Failure? then PromptsRun(Some(year.err), r, a1, [SchoolYearStep])
    else
      var subjects := script.subjectsOf(FirstValue(year.value.values));
      if |subjects| == 0 then PromptsRun(Some(NoSubjectsError(script)), r, a1, [SchoolYearStep, SubjectStep])
      else
        var pick := AwaitComponent(script.subjectWait, SubjectMenus(subjects), a1);
        var a2 := a1 || script.subjectWait.abortPressed;
        if pick.Failure? then PromptsRun(Some(pick.err), r, a2, [SchoolYearStep, SubjectStep])
        else PromptsRun(None, r.(subject := FindSubject(subjects, FirstValue(pick.value.values))), a2, [SchoolYearStep, SubjectStep])
  }

  /** Steps 3 to 6: topic, date (checked by the date validator), duration and
      professor. A step that ends with an abort leaves `undefined` and the next
      one still runs; a throw ends the run. */
  function DetailsRun(script: WizardScript, r: Responses, aborted: bool): (o: PromptsRun)
    ensures 1 <= |o.asked| <= 4 && o.asked <= [TopicStep, DateStep, DurationStep, ProfessorStep]
    ensures o.err.None? ==> o.asked == [TopicStep, DateStep, DurationStep, ProfessorStep]
    ensures aborted ==> o.aborted
    ensures o.responses.subject == r.subject && o.responses.targetRole == r.targetRole
      && o.responses.isRecorded == r.isRecorded
  {
    var topic := RunMessageStep(script.topicReplies, AcceptAny, aborted).0;
    var a1 := AbortedAfter(topic, aborted);
    if topic.Raised? then PromptsRun(Some(topic.err), r, a1, [TopicStep])
    else
      var r1 := r.(topic := StepValue(topic));
      var date := RunMessageStep(script.dateReplies, script.validateDate, a1).0;
      var a2 := AbortedAfter(date, a1);
      if date.Raised? then PromptsRun(Some(date.err), r1, a2, [TopicStep, DateStep])
      else
        var r2 := r1.(date := StepValue(date));
        var duration := RunMessageStep(script.durationReplies, AcceptAny, a2).0;
        var a3 := AbortedAfter(duration, a2);
        if duration.Raised? then PromptsRun(Some(duration.err), r2, a3, [TopicStep, DateStep, DurationStep])
        else
          var r3 := r2.(duration := StepValue(duration));
          var professor := RunMessageStep(script.professorReplies, AcceptAny, a3).0;
          var a4 := AbortedAfter(professor, a3);
          var steps := [TopicStep, DateStep, DurationStep, ProfessorStep];
          if professor.Raised? then PromptsRun(Some(professor.err), r3, a4, steps)
          else PromptsRun(None, r3.(professor := StepValue(professor)), a4, steps)
  }

  /** Step 7: the configured role behind the clicked L3 button. */
  function TargetRun(script: WizardScript, r: Responses, aborted: bool): (o: PromptsRun)
    ensures o.asked == [TargetRoleStep] && (aborted ==> o.aborted && o.err.Some?)
    ensures o.responses == r.(targetRole := o.responses.targetRole)
  {
    var click := AwaitComponent(script.targetWait, TargetRoleL3, aborted);
    var a := aborted || script.targetWait.abortPressed;
    if click.Failure? then PromptsRun(Some(click.err), r, a, [TargetRoleStep])
    else
      FirstClickIsOn(script.targetWait.clicks, TargetRoleL3);
      TargetRolesCoverButtons(click.value.customId);
      var entry := TargetRoleEntry(click.value.customId).value;
      PromptsRun(None, r.(targetRole := script.configRole(entry, script.guild)), a, [TargetRoleStep])
  }

  /** Step 8: recorded exactly when the selected value is "yes". */
  function RecordedRun(script: WizardScript, r: Responses, aborted: bool): (o: PromptsRun)
    ensures o.asked == [RecordedStep] && (aborted ==> o.aborted && o.err.Some?)
    ensures o.responses == r.(isRecorded := o.responses.isRecorded)
  {
    var click := AwaitComponent(script.recordedWait, [IsRecordedMenu], aborted);
    var a := aborted || script.recordedWait.abortPressed;
    if click.Failure? then PromptsRun(Some(click.err), r, a, [RecordedStep])
    else PromptsRun(None, r.(isRecorded := Some(FirstValue(click.value.values) == Some("yes"))), a, [RecordedStep])
  }

  /** Steps 7 and 8, once the details are asked: the target role for an L3
      subject only, then the recording; a missing subject makes the L3 test throw. */
  function ClosingRun(script: WizardScript, r: Responses, aborted: bool): (o: PromptsRun)
    ensures o.err.None? ==> r.subject.Some? && o.asked == (if r.subject.value.schoolYear == L3 then [TargetRoleStep] else []) + [RecordedStep]
    ensures o.asked <= [TargetRoleStep, RecordedStep] || o.asked <= [RecordedStep]
    ensures o.responses == r.(targetRole := o.responses.targetRole, isRecorded := o.responses.isRecorded)
  {
    if r.subject.None? then PromptsRun(Some(SubjectTypeError), r, aborted, [])
    else
      var t := if r.subject.value.schoolYear == L3 then TargetRun(script, r, aborted)
        else PromptsRun(None, r, aborted, []);
      if t.err.Some? then t
      else
        var c := RecordedRun(script, t.responses, t.aborted);
        c.(asked := t.asked + c.asked)
  }

  /** Three parts of a run one after the other: the first error ends the run. */
  function Chain(s: PromptsRun, d: PromptsRun, c: PromptsRun): PromptsRun
  {
    if s.err.Some? then s
    else if d.err.Some? then d.(asked := s.asked + d.asked)
    else c.(asked := s.asked + d.asked + c.asked)
  }

  /** `_askPrompts`: the steps in order; the first error ends the run. */
  function PromptsSpec(script: WizardScript, r: Responses, aborted: bool): PromptsRun
  {
    var s := SubjectRun(script, r, aborted);
    var d := DetailsRun(script, s.responses, s.aborted);
    Chain(s, d, ClosingRun(script, d.responses, d.aborted))
  }

  /** How `start` ends: the responses returned, the error caught, the notice the
      wizard ends on, and whether the error is thrown again. */
  datatype StartRun = StartRun(result: Option<Responses>, caught: Option<Thrown>, notice: Option<AbortReason>, rethrow: bool)

  /** `start` on a wizard that is not aborted: an abort, by the button or by a
      caught error, returns nothing; the button's stop notice wins over the
      error's; only an error shown with its details is thrown again. */
  function StartSpec(script: WizardScript, r: Responses): StartRun
  {
    var p := PromptsSpec(script, r, false);
    if p.err.Some? then
      if p.aborted then StartRun(None, p.err, Some(StoppedPrompting), false)
      else
        var reason := Classify(p.err.value);
        StartRun(None, p.err, Some(reason), reason.ErrorDetails?)
    else if p.aborted then StartRun(None, None, Some(StoppedPrompting), false)
    else StartRun(Some(p.responses), None, None, false)
  }

  /** The steps reached are those of a complete run, in order, cut where the
      run stops. */
  lemma PromptsAskInOrder(script: WizardScript, r: Responses, aborted: bool)
    ensures var p := PromptsSpec(script, r, aborted);
      |p.asked| >= 1 && (p.asked <= FullRun(false) || p.asked <= FullRun(true))
  {
    var s := SubjectRun(script, r, aborted);
    var d := DetailsRun(script, s.responses, s.aborted);
    ChainInOrder(s, d, ClosingRun(script, d.responses, d.aborted));
  }

  lemma ChainInOrder(s: PromptsRun, d: PromptsRun, c: PromptsRun)
    requires s.asked == [SchoolYearStep] || s.asked == [SchoolYearStep, SubjectStep]
    requires s.err.None? ==> s.asked == [SchoolYearStep, SubjectStep]
    requires 1 <= |d.asked| <= 4 && d.asked <= [TopicStep, DateStep, DurationStep, ProfessorStep]
    requires d.err.None? ==> d.asked == [TopicStep, DateStep, DurationStep, ProfessorStep]
    requires c.asked <= [TargetRoleStep, RecordedStep] || c.asked <= [RecordedStep]
    ensures var p := Chain(s, d, c);
      |p.asked| >= 1 && (p.asked <= FullRun(false) || p.asked <= FullRun(true))
  {
    if s.err.Some? {
      FirstStepsPrefix(s.asked);
    } else {
      var asked := s.asked + d.asked;
      assert asked <= FirstSteps;
      if d.err.Some? {
        FirstStepsPrefix(asked);
      } else {
        assert asked == FirstSteps;
        ClosingPrefix(c.asked);
      }
    }
  }

  lemma FullRunSplit(isL3: bool)
    ensures FullRun(isL3) == FirstSteps + ((if isL3 then [TargetRoleStep] else []) + [RecordedStep])
  {
  }

  lemma FirstStepsPrefix(asked: seq<WizardStep>)
    requires 1 <= |asked| && asked <= FirstSteps
    ensures asked <= FullRun(false) && asked <= FullRun(true)
  {
  }

  lemma ClosingPrefix(asked: seq<WizardStep>)
    requires asked <= [TargetRoleStep, RecordedStep] || asked <= [RecordedStep]
    ensures FirstSteps + asked <= FullRun(false) || FirstSteps + asked <= FullRun(true)
  {
    if asked <= [TargetRoleStep, RecordedStep] {
      assert FullRun(true) == FirstSteps + [TargetRoleStep, RecordedStep];
    } else {
      assert FullRun(false) == FirstSteps + [RecordedStep];
    }
  }

  /** A run that ends without error reached every step its subject calls for. */
  lemma PromptsAskAll(script: WizardScript, r: Responses, aborted: bool)
    ensures var p := PromptsSpec(script, r, aborted);
      p.err.None? ==> p.responses.subject.Some? && p.asked == FullRun(p.responses.subject.value.schoolYear == L3)
  {
    var s := SubjectRun(script, r, aborted);
    var d := DetailsRun(script, s.responses, s.aborted);
    var c := ClosingRun(script, d.responses, d.aborted);
    assert c.responses.subject == d.responses.subject;
    ChainAskAll(s, d, c);
  }

  lemma ChainAskAll(s: PromptsRun, d: PromptsRun, c: PromptsRun)
    requires s.err.None? ==> s.asked == [SchoolYearStep, SubjectStep]
    requires d.err.None? ==> d.asked == [TopicStep, DateStep, DurationStep, ProfessorStep]
    requires c.err.None? ==>
      c.responses.subject.Some? && c.asked == (if c.responses.subject.value.schoolYear == L3 then [TargetRoleStep] else []) + [RecordedStep]
    ensures var p := Chain(s, d, c);
      p.err.None? ==> p.responses.subject.Some? && p.asked == FullRun(p.responses.subject.value.schoolYear == L3)
  {
    if s.err.None? && d.err.None? && c.err.None? {
      assert s.asked + d.asked == FirstSteps;
      FullRunSplit(c.responses.subject.value.schoolYear == L3);
    }
  }

  /** A free-text step that accepts any answer keeps the first one. */
  lemma {:induction false} AnyAnswerIsFirst<T>(replies: seq<PromptReply<T>>, aborted: bool)
    requires RunMessageStep(replies, AcceptAny, aborted).0.Accepted?
    ensures replies != [] && replies[0].Answered? && !replies[0].abortPressed && !aborted
    ensures RunMessageStep(replies, AcceptAny, aborted).0.value == replies[0].value
  {
    MessageStepAcceptsFirstValid(replies, AcceptAny, aborted);
  }

  /** The free-text steps of a run that is not aborted fill every detail: the
      topic, duration and professor are the first answers, and the date is the
      first answer the date validator accepts, after rejected ones. */
  lemma DetailsFilledUnlessAborted(script: WizardScript, r: Responses, aborted: bool)
    requires var d := DetailsRun(script, r, aborted); d.err.None? && !d.aborted
    ensures var d := DetailsRun(script, r, aborted);
      && script.topicReplies != [] && script.topicReplies[0].Answered?
      && d.responses.topic == Some(script.topicReplies[0].value)
      && script.durationReplies != [] && script.durationReplies[0].Answered?
      && d.responses.duration == Some(script.durationReplies[0].value)
      && script.professorReplies != [] && script.professorReplies[0].Answered?
      && d.responses.professor == Some(script.professorReplies[0].value)
    ensures var d := DetailsRun(script, r, aborted);
      exists k :: 0 <= k < |script.dateReplies| && script.dateReplies[k].Answered?
        && d.responses.date == Some(script.dateReplies[k].value)
        && script.validateDate(script.dateReplies[k].value)
        && forall j :: 0 <= j < k ==> Rejected(script.dateReplies[j], script.validateDate)
    ensures var d := DetailsRun(script, r, aborted);
      d.responses == r.(topic := d.responses.topic, date := d.responses.date,
        duration := d.responses.duration, professor := d.responses.professor)
  {
    AnyAnswerIsFirst(script.topicReplies, aborted);
    AnyAnswerIsFirst(script.durationReplies, false);
    AnyAnswerIsFirst(script.professorReplies, false);
    MessageStepAcceptsFirstValid(script.dateReplies, script.validateDate, false);
    var k := RunMessageStep(script.dateReplies, script.validateDate, false).1 - 1;
    assert 0 <= k < |script.dateReplies|;
  }

  /** The subject of a completed run is one of the chosen year's subjects, the
      one whose class code was selected in the subject menus. */
  lemma CompletedRunKeepsSubject(script: WizardScript, r: Responses)
    requires StartSpec(script, r).result.Some?
    ensures var year := AwaitComponent(script.schoolYearWait, [SchoolYearMenu], false);
      year.Success? && (
      var subjects := script.subjectsOf(FirstValue(year.value.values));
      var pick := AwaitComponent(script.subjectWait, SubjectMenus(subjects), false);
      var out := StartSpec(script, r).result.value;
      && pick.Success? && out.subject.Some? && out.subject.value in subjects
      && FirstValue(pick.value.values) == Some(out.subject.value.classCode))
  {
  }

  /** The details of a completed run are the answers given: see
      `DetailsFilledUnlessAborted`; and it was recorded exactly when "yes" was
      selected. */
  lemma CompletedRunKeepsAnswers(script: WizardScript, r: Responses)
    requires StartSpec(script, r).result.Some?
    ensures var out := StartSpec(script, r).result.value;
      && script.topicReplies != [] && script.topicReplies[0].Answered?
      && out.topic == Some(script.topicReplies[0].value)
      && script.durationReplies != [] && script.durationReplies[0].Answered?
      && out.duration == Some(script.durationReplies[0].value)
      && script.professorReplies != [] && script.professorReplies[0].Answered?
      && out.professor == Some(script.professorReplies[0].value)
      && out.date.Some? && script.validateDate(out.date.value)
    ensures var click := AwaitComponent(script.recordedWait, [IsRecordedMenu], false);
      && click.Success?
      && StartSpec(script, r).result.value.isRecorded == Some(FirstValue(click.value.values) == Some("yes"))
  {
    var s := SubjectRun(script, r, false);
    DetailsFilledUnlessAborted(script, s.responses, s.aborted);
  }

  /** An abort by the button ends the wizard on the stop notice, returns nothing
      and throws nothing again, whatever error the prompts end on. */
  lemma AbortedRunStopsQuietly(script: WizardScript, r: Responses)
    requires PromptsSpec(script, r, false).aborted
    ensures var o := StartSpec(script, r);
      o.result.None? && o.notice == Some(StoppedPrompting) && !o.rethrow
  {
  }

  /** The abort button pressed while the topic prompt is pending, and the prompt
      then timing out: the wizard ends on the stop notice, not the timeout one,
      and nothing is thrown again. Without the button, the same timeout ends on
      the timeout notice. */
  lemma AbortWhilePromptingThenTimeout(script: WizardScript, r: Responses)
    requires !script.schoolYearWait.abortPressed && !script.subjectWait.abortPressed
    requires FirstClickOn(script.schoolYearWait.clicks, [SchoolYearMenu]).Some?
    requires var year := script.schoolYearWait.clicks[FirstClickOn(script.schoolYearWait.clicks, [SchoolYearMenu]).value];
      var subjects := script.subjectsOf(FirstValue(year.values));
      |subjects| > 0 && FirstClickOn(script.subjectWait.clicks, SubjectMenus(subjects)).Some?
    ensures script.topicReplies == [PromptFailed(PromptTimeoutError, true)] ==>
      StartSpec(script, r) == StartRun(None, Some(PromptTimeoutError), Some(StoppedPrompting), false)
    ensures script.topicReplies == [PromptFailed(PromptTimeoutError, false)] ==>
      StartSpec(script, r) == StartRun(None, Some(PromptTimeoutError), Some(PromptTimeout), false)
  {
    TimeoutsClassified();
  }

  class Builder {
    var step: nat
    var aborted: bool
    var responses: Responses
    var actionRows: seq<ActionRow>
    var userResponses: set<UserMessage>
    /** The components shown under the wizard's message. */
    var shownRows: seq<ActionRow>
    /** The notice the last abort wrote into the prompt message. */
    var abortNotice: Option<AbortReason>

    /** The abort row always comes first, and a notice exists exactly when the
        wizard is aborted. */
    predicate Valid()
      reads this
    {
      |actionRows| >= 1 && actionRows[0] == AbortRow && (aborted <==> abortNotice.Some?)
    }

    constructor ()
      ensures Valid()
      ensures step == 0 && !aborted && responses == NoResponses
      ensures actionRows == [AbortRow] && userResponses == {} && shownRows == [] && abortNotice == None
    {
      step := 0;
      aborted := false;
      responses := NoResponses;
      actionRows := [AbortRow];
      userResponses := {};
      shownRows := [];
      abortNotice := None;
    }

    /** `_emoteForStep`: the gear for the current step, a question mark otherwise. */
    function EmoteForStep(index: int): (emote: string)
      reads this
      ensures emote == ":gear:" <==> step == index
      ensures emote == ":question:" <==> step != index
    {
      if step == index then ":gear:" else ":question:"
    }

    /** `_updateStep`: the next step, and the message shows the current rows. */
    method UpdateStep()
      modifies this
      ensures step == old(step) + 1 && shownRows == actionRows
      ensures aborted == old(aborted) && abortNotice == old(abortNotice) && responses == old(responses)
      ensures actionRows == old(actionRows) && userResponses == old(userResponses)
    {
      step := step + 1;
      shownRows := actionRows;
    }

    /** `_abort`: sets the flag for good, writes the notice and removes every
        component. */
    method Abort(reason: AbortReason)
      modifies this
      ensures aborted && abortNotice == Some(reason) && shownRows == []
      ensures step == old(step) && responses == old(responses)
      ensures actionRows == old(actionRows) && userResponses == old(userResponses)
    {
      aborted := true;
      abortNotice := Some(reason);
      shownRows := [];
    }

    /** The delete loop of `_makeMessageStep`: every message not sent by a bot is
        deleted and forgotten. */
    method DiscardUserResponses()
      modifies this
      ensures userResponses == BotOnly(old(userResponses))
      ensures step == old(step) && aborted == old(aborted) && responses == old(responses)
      ensures actionRows == old(actionRows) && shownRows == old(shownRows) && abortNotice == old(abortNotice)
    {
      var pending := userResponses;
      while pending != {}
        invariant pending <= old(userResponses)
        invariant userResponses == BotOnly(old(userResponses) - pending) + pending
        invariant step == old(step) && aborted == old(aborted) && responses == old(responses)
        invariant actionRows == old(actionRows) && shownRows == old(shownRows) && abortNotice == old(abortNotice)
        decreases |pending|
      {
        var response :| response in pending;
        if !response.fromBot {
          userResponses := userResponses - {response};
        }
        pending := pending - {response};
      }
    }

    /** `_makeSelectMenuStep` and `_makeButtonStep`: the step's rows are pushed
        after the abort row and shown; after a click the rows are cut back to the
        abort row, while a collector error leaves them in place. */
    method ComponentStep(rows: seq<ActionRow>, components: seq<Component>, wait: ComponentWait)
      returns (r: Result<Interaction>)
      requires Valid()
      modifies this
      ensures Valid()
      ensures r == AwaitComponent(wait, components, old(aborted))
      ensures r.Success? ==> actionRows == old(actionRows)[..1]
      ensures r.Failure? ==> actionRows == old(actionRows) + rows
      ensures aborted == (old(aborted) || wait.abortPressed)
      ensures abortNotice == (if !old(aborted) && wait.abortPressed then Some(StoppedPrompting) else old(abortNotice))
      ensures shownRows == (if wait.abortPressed then [] else old(actionRows) + rows)
      ensures step == old(step) && responses == old(responses) && userResponses == old(userResponses)
    {
      actionRows := actionRows + rows;
      shownRows := actionRows;
      if wait.abortPressed {
        if !aborted {
          Abort(StoppedPrompting);
        } else {
          shownRows := [];
        }
      }
      if aborted {
        return Failure(CollectorError);
      }
      var k := FirstClickOn(wait.clicks, components);
      if k.None? {
        return Failure(CollectorError);
      }
      actionRows := actionRows[..1];
      r := Success(wait.clicks[k.value]);
    }

    method MakeSelectMenuStep(menus: seq<Component>, wait: ComponentWait) returns (r: Result<Interaction>)
      requires Valid()
      modifies this
      ensures Valid()
      ensures r == AwaitComponent(wait, menus, old(aborted))
      ensures r.Success? ==> actionRows == [AbortRow]
      ensures r.Failure? ==> actionRows == old(actionRows) + Map(c => ActionRow([c]), menus)
      ensures shownRows == (if wait.abortPressed then [] else old(actionRows) + Map(c => ActionRow([c]), menus))
      ensures aborted == (old(aborted) || wait.abortPressed)
      ensures abortNotice == (if !old(aborted) && wait.abortPressed then Some(StoppedPrompting) else old(abortNotice))
      ensures step == old(step) && responses == old(responses) && userResponses == old(userResponses)
    {
      r := ComponentStep(Map(c => ActionRow([c]), menus), menus, wait);
    }

    method MakeButtonStep(buttons: seq<Component>, wait: ComponentWait) returns (r: Result<Interaction>)
      requires Valid()
      modifies this
      ensures Valid()
      ensures r == AwaitComponent(wait, buttons, old(aborted))
      ensures r.Success? ==> actionRows == [AbortRow]
      ensures r.Failure? ==> actionRows == old(actionRows) + Map(c => ActionRow(c), Chunk(buttons, 5))
      ensures shownRows == (if wait.abortPressed then [] else old(actionRows) + Map(c => ActionRow(c), Chunk(buttons, 5)))
      ensures aborted == (old(aborted) || wait.abortPressed)
      ensures abortNotice == (if !old(aborted) && wait.abortPressed then Some(StoppedPrompting) else old(abortNotice))
      ensures step == old(step) && responses == old(responses) && userResponses == old(userResponses)
    {
      r := ComponentStep(Map(c => ActionRow(c), Chunk(buttons, 5)), buttons, wait);
    }

    /** `_makeMessageStep`: prompts (saying "previous attempt invalid" from the
        second prompt on) until the validator accepts, returning early when the
        wizard is aborted; after every answer read, the user's own messages are
        deleted. */
    method MakeMessageStep<T>(replies: seq<PromptReply<T>>, validator: T -> bool)
      returns (end: MessageStepEnd<T>, failureFlags: seq<bool>)
      requires Valid()
      modifies this
      ensures Valid()
      ensures (end, |failureFlags|) == RunMessageStep(replies, validator, old(aborted))
      ensures forall i :: 0 <= i < |failureFlags| ==> failureFlags[i] == (i > 0)
      ensures aborted == AbortedAfter(end, old(aborted))
      ensures abortNotice == (if !old(aborted) && aborted then Some(StoppedPrompting) else old(abortNotice))
      ensures end.Accepted? ==> forall m :: m in userResponses ==> m.fromBot
      ensures BotOnly(old(userResponses)) <= userResponses
      ensures step == old(step) && responses == old(responses) && actionRows == old(actionRows)
    {
      var previousIsFailure := false;
      var k := 0;
      failureFlags := [];
      while true
        invariant Valid()
        invariant 0 <= k <= |replies| && |failureFlags| == k
        invariant forall i :: 0 <= i < k ==> failureFlags[i] == (i > 0)
        invariant previousIsFailure == (k > 0)
        invariant aborted == old(aborted) && abortNotice == old(abortNotice)
        invariant k > 0 ==> !aborted
        invariant var rest := RunMessageStep(replies[k..], validator, aborted);
          RunMessageStep(replies, validator, old(aborted)) == (rest.0, rest.1 + k)
        invariant BotOnly(old(userResponses)) <= userResponses
        invariant step == old(step) && responses == old(responses) && actionRows == old(actionRows)
        decreases |replies| - k
      {
        failureFlags := failureFlags + [previousIsFailure];
        if k == |replies| {
          return Raised(PromptTimeoutError, false), failureFlags;
        }
        assert replies[k..][0] == replies[k] && replies[k..][1..] == replies[k + 1..];
        match replies[k] {
          case PromptFailed(err, pressed) =>
            if pressed && !aborted {
              Abort(StoppedPrompting);
            }
            return Raised(err, pressed), failureFlags;
          case Answered(v, posted, pressed) =>
            userResponses := userResponses + posted;
            if pressed && !aborted {
              Abort(StoppedPrompting);
            }
            if aborted {
              return AbortedStep, failureFlags;
            }
            previousIsFailure := true;
            DiscardUserResponses();
            if validator(v) {
              return Accepted(v), failureFlags;
            }
            k := k + 1;
        }
      }
    }

    /** Steps 1 and 2 of `_askPrompts`: the school year, then the subject among
        that year's subjects. */
    method AskSubject(script: WizardScript) returns (err: Option<Thrown>, asked: seq<WizardStep>)
      requires Valid()
      modifies this
      ensures Valid()
      ensures AbortKept(old(aborted), old(abortNotice), aborted, abortNotice)
      ensures PromptsRun(err, responses, aborted, asked) == SubjectRun(script, old(responses), old(aborted))
      ensures asked == [SchoolYearStep] || asked == [SchoolYearStep, SubjectStep]
      ensures err.None? ==> asked == [SchoolYearStep, SubjectStep]
      ensures err.None? ==> actionRows == [AbortRow] && step == old(step) + 2
      ensures err.None? ==> responses == old(responses).(subject := responses.subject)
    {
      asked := [SchoolYearStep];
      var schoolYearClick := MakeSelectMenuStep([SchoolYearMenu], script.schoolYearWait);
      if schoolYearClick.Failure? {
        return Some(schoolYearClick.err), asked;
      }
      var schoolYear := FirstValue(schoolYearClick.value.values);
      UpdateStep();

      asked := asked + [SubjectStep];
      var subjects := script.subjectsOf(schoolYear);
      if |subjects| == 0 {
        return Some(NoSubjectsError(script)), asked;
      }
      var subjectMenus := GetSubjectMenus(subjects);
      var subjectClick := MakeSelectMenuStep(subjectMenus, script.subjectWait);
      if subjectClick.Failure? {
        return Some(subjectClick.err), asked;
      }
      var selectedSubjectCode := FirstValue(subjectClick.value.values);
      responses := responses.(subject := FindSubject(subjects, selectedSubjectCode));
      UpdateStep();
      err := None;
    }

    /** Steps 3 to 6 of `_askPrompts`: the free-text steps. Each one that ends
        with an abort leaves its response `undefined` and the next one still
        runs. */
    method AskDetails(script: WizardScript) returns (err: Option<Thrown>, asked: seq<WizardStep>)
      requires Valid()
      modifies this
      ensures Valid()
      ensures AbortKept(old(aborted), old(abortNotice), aborted, abortNotice)
      ensures PromptsRun(err, responses, aborted, asked) == DetailsRun(script, old(responses), old(aborted))
      ensures 1 <= |asked| <= 4 && asked <= [TopicStep, DateStep, DurationStep, ProfessorStep]
      ensures err.None? ==> asked == [TopicStep, DateStep, DurationStep, ProfessorStep]
      ensures err.None? ==> actionRows == old(actionRows) && step == old(step) + 4
      ensures err.None? ==>
        responses.subject == old(responses).subject && responses.targetRole == old(responses).targetRole
        && responses.isRecorded == old(responses).isRecorded
      ensures err.None? && !aborted ==>
        responses.topic.Some? && responses.date.Some? && responses.duration.Some? && responses.professor.Some?
        && script.validateDate(responses.date.value)
    {
      ghost var r0, a0 := responses, aborted;
      asked := [TopicStep];
      var topic := AskText(script.topicReplies, AcceptAny);
      if topic.Raised? {
        return Some(topic.err), asked;
      }
      responses := responses.(topic := StepValue(topic));

      asked := asked + [DateStep];
      var date := AskText(script.dateReplies, script.validateDate);
      if date.Raised? {
        return Some(date.err), asked;
      }
      responses := responses.(date := StepValue(date));

      asked := asked + [DurationStep];
      var duration := AskText(script.durationReplies, AcceptAny);
      if duration.Raised? {
        return Some(duration.err), asked;
      }
      responses := responses.(duration := StepValue(duration));

      asked := asked + [ProfessorStep];
      var professor := AskText(script.professorReplies, AcceptAny);
      if professor.Raised? {
        return Some(professor.err), asked;
      }
      responses := responses.(professor := StepValue(professor));
      err := None;
      if !aborted {
        DetailsFilledUnlessAborted(script, r0, a0);
      }
    }

    /** One free-text step of `_askPrompts`: the prompt, then the next step
        unless the prompt threw. */
    method AskText<T>(replies: seq<PromptReply<T>>, validator: T -> bool) returns (end: MessageStepEnd<T>)
      requires Valid()
      modifies this
      ensures Valid()
      ensures end == RunMessageStep(replies, validator, old(aborted)).0
      ensures aborted == AbortedAfter(end, old(aborted))
      ensures abortNotice == (if !old(aborted) && aborted then Some(StoppedPrompting) else old(abortNotice))
      ensures step == (if end.Raised? then old(step) else old(step) + 1)
      ensures responses == old(responses) && actionRows == old(actionRows)
    {
      var flags;
      end, flags := MakeMessageStep(replies, validator);
      if !end.Raised? {
        UpdateStep();
      }
    }

    /** Step 7 of `_askPrompts`: the L3 target role, read from the configuration
        entry behind the clicked button. The step counter does not move. */
    method AskTargetRole(script: WizardScript) returns (err: Option<Thrown>)
      requires Valid()
      modifies this
      ensures Valid()
      ensures AbortKept(old(aborted), old(abortNotice), aborted, abortNotice)
      ensures PromptsRun(err, responses, aborted, [TargetRoleStep]) == TargetRun(script, old(responses), old(aborted))
      ensures err.None? ==> actionRows == [AbortRow] && step == old(step)
      ensures err.None? ==>
        var click := AwaitComponent(script.targetWait, TargetRoleL3, false);
        && click.Success? && TargetRoleEntry(click.value.customId).Some?
        && responses == old(responses).(targetRole := script.configRole(TargetRoleEntry(click.value.customId).value, script.guild))
    {
      var response := MakeButtonStep(TargetRoleL3, script.targetWait);
      if response.Failure? {
        return Some(response.err);
      }
      TargetRolesCoverButtons(response.value.customId);
      FirstClickIsOn(script.targetWait.clicks, TargetRoleL3);
      var entry := TargetRoleEntry(response.value.customId).value;
      responses := responses.(targetRole := script.configRole(entry, script.guild));
      shownRows := actionRows;
      err := None;
    }

    /** Step 8 of `_askPrompts`: recorded exactly when the selected value is "yes". */
    method AskRecorded(script: WizardScript) returns (err: Option<Thrown>)
      requires Valid()
      modifies this
      ensures Valid()
      ensures AbortKept(old(aborted), old(abortNotice), aborted, abortNotice)
      ensures PromptsRun(err, responses, aborted, [RecordedStep]) == RecordedRun(script, old(responses), old(aborted))
      ensures err.None? ==> actionRows == [AbortRow] && step == old(step)
      ensures err.None? ==>
        var click := AwaitComponent(script.recordedWait, [IsRecordedMenu], false);
        && click.Success?
        && responses == old(responses).(isRecorded := Some(FirstValue(click.value.values) == Some("yes")))
    {
      var recordedClick := MakeSelectMenuStep([IsRecordedMenu], script.recordedWait);
      if recordedClick.Failure? {
        return Some(recordedClick.err);
      }
      responses := responses.(isRecorded := Some(FirstValue(recordedClick.value.values) == Some("yes")));
      err := None;
    }

    /** Steps 7 and 8 of `_askPrompts`: the target role for an L3 subject only,
        then the recording. A missing subject makes the L3 test throw. */
    method AskClosing(script: WizardScript) returns (err: Option<Thrown>, asked: seq<WizardStep>)
      requires Valid()
      modifies this
      ensures Valid()
      ensures AbortKept(old(aborted), old(abortNotice), aborted, abortNotice)
      ensures PromptsRun(err, responses, aborted, asked) == ClosingRun(script, old(responses), old(aborted))
      ensures err.None? ==> actionRows == [AbortRow] && step == old(step)
      ensures err.None? ==> (
        var click := AwaitComponent(script.recordedWait, [IsRecordedMenu], false);
        click.Success? && responses.isRecorded == Some(FirstValue(click.value.values) == Some("yes")))
      ensures err.None? && responses.subject.value.schoolYear != L3 ==> responses.targetRole == old(responses).targetRole
      ensures err.None? && responses.subject.value.schoolYear == L3 ==> (
        var click := AwaitComponent(script.targetWait, TargetRoleL3, false);
        && click.Success? && TargetRoleEntry(click.value.customId).Some?
        && responses.targetRole == script.configRole(TargetRoleEntry(click.value.customId).value, script.guild))
    {
      asked := [];
      if responses.subject.None? {
        // reading `schoolYear` of `undefined`
        return Some(SubjectTypeError), asked;
      }
      var isL3 := responses.subject.value.schoolYear == L3;
      if isL3 {
        asked := asked + [TargetRoleStep];
        err := AskTargetRole(script);
        if err.Some? {
          return;
        }
      }
      asked := asked + [RecordedStep];
      err := AskRecorded(script);
    }

    /** `_askPrompts`: school year, subject, topic, date, duration, professor,
        the target role for an L3 subject only, and whether the class is
        recorded, in that order; `asked` lists the steps reached. A missing
        subject makes the L3 test throw. */
    method AskPrompts(script: WizardScript) returns (err: Option<Thrown>, asked: seq<WizardStep>)
      requires Valid()
      modifies this
      ensures Valid()
      ensures AbortKept(old(aborted), old(abortNotice), aborted, abortNotice)
      ensures PromptsRun(err, responses, aborted, asked) == PromptsSpec(script, old(responses), old(aborted))
      ensures |asked| >= 1 && asked[0] == SchoolYearStep
      ensures err.None? ==> responses.subject.Some? && asked == FullRun(responses.subject.value.schoolYear == L3)
      ensures err.None? ==> actionRows == [AbortRow] && step == old(step) + 6
      ensures err.None? ==> (
        var click := AwaitComponent(script.recordedWait, [IsRecordedMenu], false);
        click.Success? && responses.isRecorded == Some(FirstValue(click.value.values) == Some("yes")))
      ensures err.None? && responses.subject.value.schoolYear != L3 ==> responses.targetRole == old(responses).targetRole
      ensures err.None? && responses.subject.value.schoolYear == L3 ==> (
        var click := AwaitComponent(script.targetWait, TargetRoleL3, false);
        && click.Success? && TargetRoleEntry(click.value.customId).Some?
        && responses.targetRole == script.configRole(TargetRoleEntry(click.value.customId).value, script.guild))
      ensures err.None? && !aborted ==>
        responses.topic.Some? && responses.date.Some? && responses.duration.Some? && responses.professor.Some?
        && script.validateDate(responses.date.value)
    {
      ghost var r0, a0 := responses, aborted;
      var rest;
      err, asked := AskSubject(script);
      if err.None? {
        err, rest := AskDetails(script);
        asked := asked + rest;
        if err.None? {
          err, rest := AskClosing(script);
          asked := asked + rest;
        }
      }
      PromptsAskInOrder(script, r0, a0);
      PromptsAskAll(script, r0, a0);
    }

    /** `start`, on a fresh wizard: runs the prompts; a caught error ends the
        wizard aborted (a timeout, a stop, or an error whose details are shown
        and which is thrown again) unless the abort button already did; the
        responses are returned only when the wizard was never aborted. */
    method Start(script: WizardScript) returns (result: Option<Responses>, caught: Option<Thrown>, rethrow: bool)
      requires Valid() && !aborted
      modifies this
      ensures Valid()
      ensures StartRun(result, caught, abortNotice, rethrow) == StartSpec(script, old(responses))
      ensures result.Some? <==> !aborted
      ensures result.Some? ==> result.value == responses && caught.None? && shownRows == []
      ensures result.Some? ==>
        responses.subject.Some? && responses.isRecorded.Some? && responses.topic.Some?
        && responses.date.Some? && responses.duration.Some? && responses.professor.Some?
      ensures caught.Some? ==> aborted && result.None?
      ensures caught.Some? ==> abortNotice == Some(StoppedPrompting) || abortNotice == Some(Classify(caught.value))
      ensures rethrow <==> caught.Some? && abortNotice == Some(Classify(caught.value)) && Classify(caught.value).ErrorDetails?
    {
      shownRows := actionRows;
      var asked;
      caught, asked := AskPrompts(script);
      rethrow := false;
      if caught.Some? {
        if aborted {
          return None, caught, false;
        }
        var reason := Classify(caught.value);
        Abort(reason);
        rethrow := reason.ErrorDetails?;
        return None, caught, rethrow;
      }
      if aborted {
        return None, None, false;
      }
      shownRows := [];
      result := Some(responses);
    }
  }

  /** An abort is for good and keeps its notice; a new abort during the
      prompts comes from the abort button. */
  predicate AbortKept(aborted0: bool, notice0: Option<AbortReason>, aborted1: bool, notice1: Option<AbortReason>)
  {
    (aborted0 ==> aborted1 && notice1 == notice0) && (!aborted0 && aborted1 ==> notice1 == Some(StoppedPrompting))
  }

  /** `subjects.find(subject => subject.classCode === code)`. */
  function FindSubject(subjects: seq<Subject>, code: Option<string>): (r: Option<Subject>)
    ensures r.Some? <==> code.Some? && exists i :: 0 <= i < |subjects| && subjects[i].classCode == code.value
    ensures r.Some? ==> r.value in subjects && r.value.classCode == code.value
    ensures r.Some? ==>
      exists i :: 0 <= i < |subjects| && subjects[i] == r.value && forall j :: 0 <= j < i ==> subjects[j].classCode != code.value
  {
    if code.None? || subjects == [] then None
    else if subjects[0].classCode == code.value then Some(subjects[0])
    else
      var rest := FindSubject(subjects[1..], code);
      assert forall i :: 1 <= i < |subjects| ==> subjects[i] == subjects[1..][i - 1];
      if rest.Some? then
        var i :| 0 <= i < |subjects| - 1 && subjects[1..][i] == rest.value
          && forall j :: 0 <= j < i ==> subjects[1..][j].classCode != code.value;
        assert subjects[i + 1] == rest.value;
        rest
      else rest
  }

  lemma FirstClickIsOn(clicks: seq<Interaction>, components: seq<Component>)
    ensures FirstClickOn(clicks, components).Some? ==>
      exists c :: c in components && c.customId == clicks[FirstClickOn(clicks, components).value].customId
  {
  }
}
