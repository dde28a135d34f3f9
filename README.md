# HorizonBot class sessions ("eclasses"), modelled in Dafny

HorizonBot is a Discord bot for a university's students. Its "eclass" feature
lets a professor plan a class session (an *eclass*) through an interactive
wizard. The bot then:

- stores the session in MongoDB;
- creates a Discord role for its subscribers and announces it in the channel
  of the class's school year;
- moves the session through its life cycle (planned, in progress, finished,
  canceled);
- keeps two kinds of channel message up to date: a per-school-year calendar
  embed and a "classes of the week" text message.

This project models the core of that feature:

| file | module | what it models |
|---|---|---|
| `utils.dfy` | `Utils` | the JavaScript and utility helpers the code relies on: nullable values, numbers in template literals, `split`/`join`, `toLowerCase`, `includes` and `chunk` |
| `database.dfy` | `Database` | the enumerations (status, place, school year) and the subject record |
| `professors.dfy` | `Professors` | the pure text functions of `config/commands/professors.ts`: the place sentence `where`, `someClassesFound`, the status tables and the "recorded" values |
| `eclass_manager.dfy` | `EclassManager` | `EclassManager`. The class `Manager` holds the stored records, the cached announcement ids, the guilds' roles and the members' roles. Each of its eight operations is proved equal to a specification function on the state (`AfterCreate`, `AfterStart`, …), and lemmas state the life-cycle properties of those functions. |
| `eclass_builder.dfy` | `EclassInteractiveBuilder` | the creation wizard. The class `Builder` holds the step counter, the `aborted` flag, the responses, the component rows and the user messages to delete. The clicks and replies of one run are a script given as input. |
| `eclass_messages.dfy` | `EclassMessagesManager` | the calendar embed and the week's message: an in-place insertion sort of the classes by date, `groupBy`, the message text, and which messages are edited, sent or deleted |

Discord, MongoDB, the clock and most helpers whose code is not part of this
model become parameters or inputs (two formatting helpers are given an assumed
format instead, see "Left out"):

- the prompter's parsed answers and the clicks on components;
- whether an edit finished within its 5-second timeout;
- the current time;
- the date validator;
- `capitalize`, the role-name template, the id generator, the date formatting
  and `splitText`.

The model follows the code as written:

- `startClass`, `finishClass` and `cancelClass` check no status. Any session
  can be started, finished or canceled again (`TransitionsAreUnconditional`).
- `subscribeMember` pushes the member id without checking for duplicates.
  `unsubscribeMember` pulls every occurrence (`PullUndoesPushes`).
- `finishClass` and `cancelClass` look the role up in the cache and delete it,
  which throws when the role is gone. The status is then never stored, but a
  cancel has already dropped the announcement id from the cache
  (`MissingRoleStopsTeardown`).
- `createAnnouncementEmbed` reads `recordedValues` from the `newClassEmbed`
  texts. In `config/commands/professors.ts`, `recordedValues` sits one level
  up (line 93). The model uses that one table: "Non" for index 0, "Oui" for
  index 1.

## Model

| member | source | states |
|---|---|---|
| Professors.WhereNamesPlace | config/commands/professors.ts:95-110 | the place sentence starts with "sur " and names its place unambiguously: the four kinds of place give texts that never collide |
| Professors.Where | config/commands/professors.ts:95-110 | the place sentence `where` (properties in the Where* lemmas) |
| Professors.WhereUnknownRoom | config/commands/professors.ts:102 | an on-site class without room information reads "sur le campus (salle inconnue)" |
| Professors.WhereUnknownPlace | config/commands/professors.ts:108 | an "other" place without information reads `sur "inconnu"` |
| Professors.WhereUnknownTeamsLink | config/commands/professors.ts:104-106 | a missing or empty Teams link reads "sur Microsoft Teams (lien inconnu)" |
| Professors.WhereNoVoiceChannel | config/commands/professors.ts:100 | a subject with no (or an empty) voice channel reads "sur Discord (aucun salon vocal défini)" |
| Professors.WhereLinks | config/commands/professors.ts:100-106 | a truthy Teams link becomes a hyperlink with its preview hidden; a truthy voice channel becomes a channel mention |
| Professors.WhereKeepsRoom | config/commands/professors.ts:102 | a given room, even an empty one, is carried into the text: distinct rooms give distinct texts |
| Professors.WhereKeepsPlaceName | config/commands/professors.ts:108 | a given place name, even an empty one, is carried into the text |
| Professors.WhereKeepsTeamsLink | config/commands/professors.ts:104-106 | a non-empty Teams link is carried into the text |
| Professors.SomeClassesFound | config/commands/professors.ts:115 | the sentence ends in "s !" (plural) exactly when more than one class was found, so 0 and 1 read in the singular |
| Professors.SomeClassesFoundCount | config/commands/professors.ts:115 | the sentence starts with the decimal count followed by a space, and reading those digits gives the amount back |
| Professors.Statuses | config/commands/professors.ts:81-86 | each status sentence is "est " plus the raw status, with the negation "n'" only for a planned class |
| Professors.RawStatuses | config/commands/professors.ts:87-92 | the raw status text reads back to its status, so the four texts are distinct |
| Professors.RecordedValue | config/commands/professors.ts:93 | `recordedValues[Number(isRecorded)]` is always within the table and starts with "Oui" for a recorded class and with "Non" otherwise |
| EclassManager.AnnouncementOfKey | src/lib/eclasses/EclassManager.ts:53-56 | `Object.keys(...).includes(key)`: a key found in the announcement table is the key of the target returned, and every key of the table is found |
| EclassManager.SchoolYearTargetSpec | src/lib/eclasses/EclassManager.ts:53-56 | a category name ending in "L1"/"l1" (or 2, or 3) targets that school year, and nothing else does; every other name, including names shorter than two characters, goes to the general channel |
| EclassManager.SchoolYearTarget | src/lib/eclasses/EclassManager.ts:53-56 | the announcement target of a category: the table entry of its lower-cased last two characters, or the general channel (properties in `SchoolYearTargetSpec`) |
| EclassManager.SubjectName | src/lib/eclasses/EclassManager.ts:42-44 | the subject name is the capitalised `-`-separated parts of the channel name after the first, joined by spaces (properties in `SubjectNameWords` and `SubjectNameWithoutDash`) |
| EclassManager.SubjectNameWords | src/lib/eclasses/EclassManager.ts:42-44 | the words of the subject name are the capitalised `-`-separated parts of the channel name after the first (emoji) part |
| EclassManager.SubjectNameWithoutDash | src/lib/eclasses/EclassManager.ts:42-44 | a channel name without `-` gives an empty subject name |
| EclassManager.CreateAnnouncementEmbed | src/lib/eclasses/EclassManager.ts:238-264 | the "recorded" field says "Oui" or "Non" as the class is recorded or not; the footer ends with the class id; subject, topic and date are carried over |
| EclassManager.Apply | src/lib/eclasses/EclassManager.ts:145-289 | each database update changes only the field it names: the status is set; the record link is overwritten; `reminded` becomes true and never false again; `$push` appends; `$pull` removes every occurrence; creation-time data never changes |
| EclassManager.FindByIdAndUpdate | src/lib/eclasses/EclassManager.ts:145-289 | `findByIdAndUpdate` changes the record with that id and leaves every other record and the set of ids alone |
| EclassManager.PullAppend | src/lib/eclasses/EclassManager.ts:289 | pulling from a concatenation pulls from each part |
| EclassManager.PullRemovesAll | src/lib/eclasses/EclassManager.ts:289 | `$pull` leaves no occurrence of the member and keeps every other subscriber with its multiplicity |
| EclassManager.PullUndoesPushes | src/lib/eclasses/EclassManager.ts:273-289 | one pull undoes any number of pushes of the same member |
| EclassManager.PullAllSame | src/lib/eclasses/EclassManager.ts:289 | pulling a member from a list of that member only leaves the list empty |
| EclassManager.CreateRefusesTakenName | src/lib/eclasses/EclassManager.ts:45-50 | when a role of the generated name already exists in the guild, creation answers "already exists" and changes nothing |
| EclassManager.CreateNeedsAnnouncementChannel | src/lib/eclasses/EclassManager.ts:59-65 | without an announcement channel for the target, creation stops with no record, no role and no cached announcement |
| EclassManager.CreateStoresPlannedClass | src/lib/eclasses/EclassManager.ts:84-105 | a successful creation caches the announcement id and creates the role; it stores a planned record that names that role and that announcement, with no subscribers, no record link and no reminder; members' roles are untouched |
| EclassManager.CreateTwiceRefused | src/lib/eclasses/EclassManager.ts:45-50 | creating the same class a second time in a guild is refused, because the first creation took the role name |
| EclassManager.CreateThenCancel | src/lib/eclasses/EclassManager.ts:84-195 | creating then canceling a class leaves the announcement cache as it was, removes the class role and stores the record as canceled |
| EclassManager.TransitionsAreUnconditional | src/lib/eclasses/EclassManager.ts:145-195 | start, finish and cancel set the status whatever it was before, and change no other field and no other record |
| EclassManager.MissingRoleStopsTeardown | src/lib/eclasses/EclassManager.ts:162-195 | finishing or canceling a class whose role is gone stores nothing; a cancel still drops the announcement from the cache |
| EclassManager.RemindIsIdempotent | src/lib/eclasses/EclassManager.ts:233 | after a reminder the record is marked reminded, and reminding again changes nothing |
| EclassManager.RecordLinkLastWins | src/lib/eclasses/EclassManager.ts:213 | the record link is overwritten, so the last link set wins |
| EclassManager.SubscriptionNeedsRole | src/lib/eclasses/EclassManager.ts:267-287 | without the class role in the member's guild, subscribing and unsubscribing change nothing |
| EclassManager.SubscriptionEffects | src/lib/eclasses/EclassManager.ts:273-291 | subscribing appends the member and leaves them holding the class role (roles unchanged if already held); unsubscribing removes every occurrence and leaves them without it |
| EclassManager.UnsubscribeUndoesSubscribe | src/lib/eclasses/EclassManager.ts:273-289 | unsubscribing after subscribing gives the old subscriber list with the member pulled |
| EclassManager.UpdatesKeepScheduleAndReminder | src/lib/eclasses/EclassManager.ts:145-233 | no update changes a record's creation-time data or clears `reminded` |
| EclassManager.AfterCreate | src/lib/eclasses/EclassManager.ts:32-116 | the state after `createClass`: refused on a taken role name, stopped without an announcement channel, otherwise announcement cached, role created and planned record stored (properties in the Create* lemmas) |
| EclassManager.AfterStart | src/lib/eclasses/EclassManager.ts:118-148 | the state after `startClass`: the record marked in progress |
| EclassManager.AfterFinish | src/lib/eclasses/EclassManager.ts:150-171 | the state after `finishClass`: with the class role, the role deleted and the record marked finished; without it, nothing stored |
| EclassManager.AfterCancel | src/lib/eclasses/EclassManager.ts:173-198 | the state after `cancelClass`: the announcement dropped from the cache; with the class role, the role deleted and the record marked canceled |
| EclassManager.AfterSetRecordLink | src/lib/eclasses/EclassManager.ts:200-216 | the state after `setRecordLink`: the record link overwritten |
| EclassManager.AfterRemind | src/lib/eclasses/EclassManager.ts:218-236 | the state after `remindClass`: the record marked reminded |
| EclassManager.AfterSubscribe | src/lib/eclasses/EclassManager.ts:266-280 | the state after `subscribeMember`: with the class role in the member's guild, the member given the role and pushed to the subscribers |
| EclassManager.AfterUnsubscribe | src/lib/eclasses/EclassManager.ts:282-296 | the state after `unsubscribeMember`: with the class role in the member's guild, the role taken from the member and the member pulled from the subscribers |
| EclassManager.Manager.constructor | src/lib/eclasses/EclassManager.ts:23-31 | the state the static class works on starts with no record and no cached announcement, with the configured announcement channels and the guilds' and members' roles given |
| EclassManager.Manager.CreateClass | src/lib/eclasses/EclassManager.ts:32-116 | the new state and the answer are those of `AfterCreate` |
| EclassManager.Manager.StartClass | src/lib/eclasses/EclassManager.ts:118-148 | the new state is `AfterStart`: the record is marked in progress |
| EclassManager.Manager.FinishClass | src/lib/eclasses/EclassManager.ts:150-171 | the new state and the success flag are those of `AfterFinish` |
| EclassManager.Manager.CancelClass | src/lib/eclasses/EclassManager.ts:173-198 | the new state and the success flag are those of `AfterCancel` |
| EclassManager.Manager.SetRecordLink | src/lib/eclasses/EclassManager.ts:200-216 | the new state is `AfterSetRecordLink` |
| EclassManager.Manager.RemindClass | src/lib/eclasses/EclassManager.ts:218-236 | the new state is `AfterRemind` |
| EclassManager.Manager.SubscribeMember | src/lib/eclasses/EclassManager.ts:266-280 | the new state is `AfterSubscribe` |
| EclassManager.Manager.UnsubscribeMember | src/lib/eclasses/EclassManager.ts:282-296 | the new state is `AfterUnsubscribe` |
| EclassInteractiveBuilder.TargetRolesCoverButtons | src/lib/eclasses/EclassInteractiveBuilder.ts:57-87 | the target-role table is defined on exactly the four L3 buttons, and distinct buttons give distinct entries |
| EclassInteractiveBuilder.ClassifyCases | src/lib/eclasses/EclassInteractiveBuilder.ts:165-185 | the catch block reads a collector error or a "TIME OUT" message as a timeout and "STOP" as a stop; anything else is shown with its details |
| EclassInteractiveBuilder.TimeoutsClassified | src/lib/eclasses/EclassInteractiveBuilder.ts:170-173 | the component collector's error and the prompter's timeout are both read as timeouts |
| EclassInteractiveBuilder.Classify | src/lib/eclasses/EclassInteractiveBuilder.ts:165-185 | the catch block's reading of an error: timeout, stop, or the error's details (`Error` message, string, or JSON); properties in `ClassifyCases` |
| EclassInteractiveBuilder.AwaitComponent | src/lib/eclasses/EclassInteractiveBuilder.ts:247-281 | `awaitMessageComponent` with the wizard's filter: the first click on the step's components, or the collector error when there is none, the wizard is aborted or the abort button is pressed |
| EclassInteractiveBuilder.RunMessageStep | src/lib/eclasses/EclassInteractiveBuilder.ts:283-308 | the do-while of `_makeMessageStep`: how the step ends and how many prompts it makes (properties in the MessageStep* lemmas) |
| EclassInteractiveBuilder.FirstClickOn | src/lib/eclasses/EclassInteractiveBuilder.ts:247-281 | the step answers the first click on one of its components, and no earlier click is on one of them |
| EclassInteractiveBuilder.MessageStepAcceptsFirstValid | src/lib/eclasses/EclassInteractiveBuilder.ts:283-308 | a free-text step that succeeds accepts the first answer the validator accepts; every earlier answer was rejected |
| EclassInteractiveBuilder.MessageStepReachesValid | src/lib/eclasses/EclassInteractiveBuilder.ts:283-308 | rejected answers followed by a valid one end the step on that one, after exactly that many prompts |
| EclassInteractiveBuilder.MessageStepTimesOut | src/lib/eclasses/EclassInteractiveBuilder.ts:283-308 | when every answer is rejected, the prompter times out after one more prompt |
| EclassInteractiveBuilder.MessageStepAfterAbort | src/lib/eclasses/EclassInteractiveBuilder.ts:292-297 | an already aborted wizard still prompts once, then returns |
| EclassInteractiveBuilder.AnyAnswerIsFirst | src/lib/eclasses/EclassInteractiveBuilder.ts:219-231 | a free-text step without validator that succeeds keeps the first answer, given before any abort |
| EclassInteractiveBuilder.SubjectRun | src/lib/eclasses/EclassInteractiveBuilder.ts:203-215 | school year then subject: one or both steps reached, both when no error; an aborted wizard fails; only the subject changes |
| EclassInteractiveBuilder.DetailsRun | src/lib/eclasses/EclassInteractiveBuilder.ts:219-231 | topic, date, duration, professor: the steps reached are a prefix of those four, all four when no error; an abort is kept; subject, target role and recording unchanged |
| EclassInteractiveBuilder.TargetRun | src/lib/eclasses/EclassInteractiveBuilder.ts:235-240 | the target-role step: only the target role changes; an aborted wizard fails |
| EclassInteractiveBuilder.RecordedRun | src/lib/eclasses/EclassInteractiveBuilder.ts:243-244 | the recording step: only the recording changes; an aborted wizard fails |
| EclassInteractiveBuilder.ClosingRun | src/lib/eclasses/EclassInteractiveBuilder.ts:235-244 | steps 7 and 8: a run without error had a subject and reached the target role (L3 only) then the recording; only those two fields change |
| EclassInteractiveBuilder.PromptsSpec | src/lib/eclasses/EclassInteractiveBuilder.ts:201-245 | `_askPrompts` as a function of the script: the steps in order, the first error ending the run (properties in the lemmas below) |
| EclassInteractiveBuilder.StartSpec | src/lib/eclasses/EclassInteractiveBuilder.ts:145-199 | `start` as a function of the script: the button's stop notice wins over a caught error, which is otherwise classified (properties in the lemmas below) |
| EclassInteractiveBuilder.PromptsAskInOrder | src/lib/eclasses/EclassInteractiveBuilder.ts:201-245 | the steps reached are a prefix of a complete run's steps |
| EclassInteractiveBuilder.PromptsAskAll | src/lib/eclasses/EclassInteractiveBuilder.ts:201-245 | a run without error has a subject and reached every step, the target role exactly for an L3 subject |
| EclassInteractiveBuilder.DetailsFilledUnlessAborted | src/lib/eclasses/EclassInteractiveBuilder.ts:219-231 | without error and abort, topic, duration and professor are the first answers, the date is the first answer the validator accepts after rejected ones, and nothing else changes |
| EclassInteractiveBuilder.CompletedRunKeepsSubject | src/lib/eclasses/EclassInteractiveBuilder.ts:203-215 | the subject returned is one of the clicked year's subjects, with the class code clicked in the subject menus |
| EclassInteractiveBuilder.CompletedRunKeepsAnswers | src/lib/eclasses/EclassInteractiveBuilder.ts:219-244 | the responses returned hold the first answers to topic, duration and professor, a valid date, and "recorded" exactly when "yes" was selected |
| EclassInteractiveBuilder.AbortedRunStopsQuietly | src/lib/eclasses/EclassInteractiveBuilder.ts:163-166 | after the abort button, `start` returns nothing, keeps the stop notice and throws nothing again |
| EclassInteractiveBuilder.AbortWhilePromptingThenTimeout | src/lib/eclasses/EclassInteractiveBuilder.ts:163-173 | the topic prompt timing out after the abort button ends on the stop notice; the same timeout without the button ends on the timeout notice |
| EclassInteractiveBuilder.GetSubjectMenus | src/lib/eclasses/EclassInteractiveBuilder.ts:89-102 | the loop builds `SubjectMenus`: one menu per chunk of 25 subjects (ceil(n/25) menus), numbered from 0, none empty and none over 25 options; read in order, the options are exactly the subjects' options |
| EclassInteractiveBuilder.SubjectMenuIdsDistinct | src/lib/eclasses/EclassInteractiveBuilder.ts:89-102 | the subject menus have pairwise distinct custom ids |
| EclassInteractiveBuilder.FindSubject | src/lib/eclasses/EclassInteractiveBuilder.ts:214-215 | `find`: a subject is found exactly when one has the selected class code, and the one found is the first with that code |
| EclassInteractiveBuilder.Builder.constructor | src/lib/eclasses/EclassInteractiveBuilder.ts:105-129 | a new wizard is at step 0, not aborted, with no responses, only the abort row and no user message |
| EclassInteractiveBuilder.Builder.EmoteForStep | src/lib/eclasses/EclassInteractiveBuilder.ts:352-354 | the gear emoji exactly for the current step, a question mark for every other step |
| EclassInteractiveBuilder.Builder.UpdateStep | src/lib/eclasses/EclassInteractiveBuilder.ts:310-317 | the step counter moves on by one and the message shows the current rows; nothing else changes |
| EclassInteractiveBuilder.Builder.Abort | src/lib/eclasses/EclassInteractiveBuilder.ts:319-328 | the wizard is aborted with that notice and shows no component; nothing else changes |
| EclassInteractiveBuilder.Builder.DiscardUserResponses | src/lib/eclasses/EclassInteractiveBuilder.ts:299-304 | every message not sent by a bot is deleted, and bot messages are kept |
| EclassInteractiveBuilder.Builder.MakeSelectMenuStep | src/lib/eclasses/EclassInteractiveBuilder.ts:247-262 | the answer is the first click on the menus, or a collector error when there is none or the wizard is aborted; the message shows the rows with one menu per row (none after the abort button); success drops the step's rows; the abort button aborts for good with the stop notice |
| EclassInteractiveBuilder.Builder.MakeButtonStep | src/lib/eclasses/EclassInteractiveBuilder.ts:264-281 | as for menus, with the buttons shown in rows of five |
| EclassInteractiveBuilder.Builder.ComponentStep | src/lib/eclasses/EclassInteractiveBuilder.ts:247-281 | what the two component steps share: the step's rows are pushed after the abort row and shown; the answer is `AwaitComponent`'s; a click cuts the rows back to the abort row, a collector error leaves them |
| EclassInteractiveBuilder.Builder.MakeMessageStep | src/lib/eclasses/EclassInteractiveBuilder.ts:283-308 | the outcome and the number of prompts are those of the do-while; every prompt after the first says the previous answer was invalid; an accepted answer leaves no user message behind; the abort button aborts, also when the prompt then throws |
| EclassInteractiveBuilder.Builder.AskSubject | src/lib/eclasses/EclassInteractiveBuilder.ts:203-215 | the outcome, responses and abort state are those of `SubjectRun`: the subject is the first of the chosen year's subjects with the clicked code; success moves two steps |
| EclassInteractiveBuilder.Builder.AskDetails | src/lib/eclasses/EclassInteractiveBuilder.ts:219-231 | the outcome, responses and abort state are those of `DetailsRun`: each field holds its step's accepted answer; without an abort all four are set and the date passes the validator |
| EclassInteractiveBuilder.Builder.AskText | src/lib/eclasses/EclassInteractiveBuilder.ts:219-222 | one free-text step: the prompt ends as `RunMessageStep` says, the abort flag and notice follow that ending, and the step counter advances unless the prompt threw; the collected responses and shown rows are untouched |
| EclassInteractiveBuilder.Builder.AskTargetRole | src/lib/eclasses/EclassInteractiveBuilder.ts:235-240 | the target role is the configured role of the entry behind the clicked L3 button; the step counter does not move |
| EclassInteractiveBuilder.Builder.AskRecorded | src/lib/eclasses/EclassInteractiveBuilder.ts:243-244 | the class is recorded exactly when the selected value is "yes" |
| EclassInteractiveBuilder.Builder.AskClosing | src/lib/eclasses/EclassInteractiveBuilder.ts:235-244 | the outcome, responses and abort state are those of `ClosingRun`: the target role (L3 only) and the recording come from the clicks |
| EclassInteractiveBuilder.Builder.AskPrompts | src/lib/eclasses/EclassInteractiveBuilder.ts:201-245 | the outcome, responses, abort state and steps reached are those of `PromptsSpec`; the steps are asked in order, the target role only for an L3 subject; a complete run moves six steps; an abort is never undone and a new one comes from the abort button |
| EclassInteractiveBuilder.Builder.Start | src/lib/eclasses/EclassInteractiveBuilder.ts:145-199 | the result, the caught error, the final notice and the rethrow are those of `StartSpec`: the responses are returned exactly when the wizard was never aborted; a caught error ends the wizard with its classification unless the abort button came first; only an error shown with its details is thrown again |
| EclassMessagesManager.SortBy | src/lib/eclasses/EclassMessagesManager.ts:67 | the classes are sorted in place by date, are a permutation of the classes given, and classes of the same date keep their order (a stable sort) |
| EclassMessagesManager.SortedPermutationUnique | src/lib/eclasses/EclassMessagesManager.ts:72 | a sorted permutation of a strictly sorted sequence is that sequence |
| EclassMessagesManager.StableSortUnique | src/lib/eclasses/EclassMessagesManager.ts:67 | a sorted permutation that keeps the order within each date is unique: the stable sort's result is determined |
| EclassMessagesManager.GroupBy | src/lib/eclasses/EclassMessagesManager.ts:37-39 | `groupBy` followed by `Object.values`, groups in first-occurrence order of their key (properties in `GroupBySpec`) |
| EclassMessagesManager.DayGroups | src/lib/eclasses/EclassMessagesManager.ts:67-72 | the classes grouped by day of the month (properties in `DayGroupsSpec`) |
| EclassMessagesManager.OrderByIntKey | src/lib/eclasses/EclassMessagesManager.ts:69-70 | `Object.values` orders integer keys numerically: the groups are a permutation of the groups given |
| EclassMessagesManager.GroupBySpec | src/lib/eclasses/EclassMessagesManager.ts:37-39 | `groupBy` loses and adds nothing; every group is non-empty and holds one key; no two groups share a key; every element's key has its group; each group is exactly the input's elements of its key, in input order |
| EclassMessagesManager.DayGroupsOrdered | src/lib/eclasses/EclassMessagesManager.ts:67-72 | grouping date-sorted classes by day gives groups in strictly increasing order of their first class's date |
| EclassMessagesManager.DayGroupsSpec | src/lib/eclasses/EclassMessagesManager.ts:67-72 | every class is in one day group, as many times as given; a group holds one day; no two groups hold the same day; groups follow one another by date; each group is the sorted input's classes of that day in input order, hence listed by time |
| EclassMessagesManager.GroupByDay | src/lib/eclasses/EclassMessagesManager.ts:69-72 | `Object.values` of the day grouping, sorted by the first class's date, is the day grouping in first-occurrence order |
| EclassMessagesManager.BuildUpcomingText | src/lib/eclasses/EclassMessagesManager.ts:74-90 | the builder loops produce the header, then one block per day (heading, one line per class, blank line), or the no-classes text |
| EclassMessagesManager.AppendClassLines | src/lib/eclasses/EclassMessagesManager.ts:80-84 | the inner loop appends one line per class of the group, in order |
| EclassMessagesManager.GenerateUpcomingClassesMessage | src/lib/eclasses/EclassMessagesManager.ts:65-93 | the array ends stably sorted by date and a permutation of what it held; the message renders the day groups of the sorted classes |
| EclassMessagesManager.EmptyUpcomingMessage | src/lib/eclasses/EclassMessagesManager.ts:74-90 | no classes gives the header followed by the no-classes text |
| EclassMessagesManager.RenderDaysHasEveryLine | src/lib/eclasses/EclassMessagesManager.ts:76-88 | every day's block appears in the message |
| EclassMessagesManager.CalendarFieldsAreGroups | src/lib/eclasses/EclassMessagesManager.ts:37-62 | with classes, the embed has no description and its fields hold the class-code groups, each field titled after its first class's subject |
| EclassMessagesManager.GenerateCalendarEmbed | src/lib/eclasses/EclassMessagesManager.ts:27-63 | the calendar embed: the no-classes description, or one field per class code (properties in `CalendarFieldsAreGroups` and `CalendarEmbedSpec`) |
| EclassMessagesManager.CalendarEmbedSpec | src/lib/eclasses/EclassMessagesManager.ts:27-63 | no classes gives the no-classes description and no field; otherwise every class code has one field, no two fields share a code, each field holds only classes of its code, and all classes are accounted for |
| EclassMessagesManager.CalendarFieldsKeepOrder | src/lib/eclasses/EclassMessagesManager.ts:37-62 | each field lists exactly its class code's classes, in the order the classes were given |
| EclassMessagesManager.BotMessages | src/lib/eclasses/EclassMessagesManager.ts:99-103 | the messages kept are exactly the fetched ones written by the bot, none when the fetch failed, and in the reverse of the fetch's order: oldest first |
| EclassMessagesManager.ReconcileUpcoming | src/lib/eclasses/EclassMessagesManager.ts:130-154 | the loop's effects are the upcoming plan |
| EclassMessagesManager.UpcomingPlan | src/lib/eclasses/EclassMessagesManager.ts:142-153 | the effects of `updateUpcomingClasses`: a write per chunk, then a delete per surplus bot message (properties in `UpcomingPlanSpec`) |
| EclassMessagesManager.UpcomingPlanSpec | src/lib/eclasses/EclassMessagesManager.ts:142-153 | each chunk is written once and in order; chunk i is an edit of the bot's i-th message exactly when that message exists and is editable, and a new crossposted message otherwise; exactly the bot messages past the chunks are deleted |
| EclassMessagesManager.ReconcileCalendar | src/lib/eclasses/EclassMessagesManager.ts:95-128 | the effects are the calendar plan |
| EclassMessagesManager.CalendarPlan | src/lib/eclasses/EclassMessagesManager.ts:104-127 | the effects of `updateClassesCalendar`: edit or send the embed, delete the other bot messages (properties in `CalendarPlanSpec`) |
| EclassMessagesManager.CalendarPlanSpec | src/lib/eclasses/EclassMessagesManager.ts:104-127 | the embed is written exactly once; every bot message but the oldest is deleted; the oldest is edited when it is editable and the edit completes; otherwise nothing is edited, the oldest is deleted first when deletable and the embed is sent anew; with no bot message the embed is just sent |
| EclassMessagesManager.WeekEnd | src/lib/eclasses/EclassMessagesManager.ts:198 | a week from now, truncated to the second, is within one second below now plus a week |
| EclassMessagesManager.CalendarClassesSpec | src/lib/eclasses/EclassMessagesManager.ts:168-181 | a class is in the calendar exactly when it belongs to the guild and school year and is among the given classes, or, with none given, is stored, planned and not yet begun |
| EclassMessagesManager.WeekClassesSpec | src/lib/eclasses/EclassMessagesManager.ts:194-206 | a class is in the week's message exactly when it belongs to the guild and is among the given classes, or, with none given, is stored, planned and within the coming week |
| EclassMessagesManager.CalendarClasses | src/lib/eclasses/EclassMessagesManager.ts:168-181 | the classes of a school year's calendar (properties in `CalendarClassesSpec`) |
| EclassMessagesManager.WeekClasses | src/lib/eclasses/EclassMessagesManager.ts:194-206 | the classes of the week's message (properties in `WeekClassesSpec`) |
| EclassMessagesManager.UpdateClassesCalendarForGuildAndSchoolYear | src/lib/eclasses/EclassMessagesManager.ts:157-182 | without a calendar channel for the year nothing happens; otherwise the effects are the calendar plan for the year's classes |
| EclassMessagesManager.UpdateUpcomingClassesForGuild | src/lib/eclasses/EclassMessagesManager.ts:184-209 | without a week channel nothing happens; otherwise the week's classes are stably sorted by date (same-instant classes keep their order), rendered, split and reconciled with the bot's messages |

## Left out

- Discord and MongoDB calls are not modelled as I/O. Their results (fetched messages, created roles, generated ids, role lookups) are inputs or state fields, and the deletes are modelled in program order although the code does not await them in order.
- Concurrency is not modelled: a press of the abort button is a flag in the script of each step, not an event that can interrupt a step midway.
- The 2-minute component timeout and the prompter's timeout are not modelled as time: a component step with no matching click, and a free-text step that runs out of scripted answers, raise the timeout error.
- The 5-second timeout on the calendar edit is a boolean input saying whether the edit completed.
- `dayjs`, `Date.now()`, `pupa`, `capitalize`, `splitText`, `generateId`, `Formatters`, the thumbnail helper and the date validator are not modelled: they are parameters. `Date.now()` and `dayjs()` are taken to read the same instant.
- `ToLower` lowers ASCII letters only: enough for the "L1"/"L2"/"L3" category suffixes the code looks for.
- EclassMessagesManager.GenerateCalendarEmbed: the fields come in the first-occurrence order of the class codes. `Object.values` would put integer-like class codes first, in numeric order; that ordering is not modelled.
- EclassMessagesManager.WeekEnd: a week is taken as 604 800 000 ms; `dayjs().add(1, 'week')` differs from that across a daylight-saving change.
- The embed's colours, titles, thumbnails and field texts are not modelled, and neither is the text of each calendar field. The model keeps the field's subject and its classes.
- `_buildStepsPreview` (EclassInteractiveBuilder.ts:330-350) only formats the wizard's embed; its text is not modelled, only the step counter and emoji choice it relies on.
- The announcement message and its later edit (EclassManager.ts:78-109) are not modelled as state. The edit fills the footer template `ID : {classId}` with `{ eclass }` as data; what `pupa` does with that missing key is not part of this model. `CreateAnnouncementEmbed` models the direct call, with the class id given.
- The direct messages sent on subscription, logging and `container.logger` warnings are not modelled.
- The schema defaults are assumed: a new record is planned, not reminded, with no subscribers and no record link. The school-year enumeration values are taken as "L1", "L2" and "L3". The model files `src/lib/models` and `src/lib/types` are not part of this model beyond those fields.
- The date-overlap check and the reminder scheduler that call these operations are not part of this model.
- EclassMessagesManager.ReconcileCalendar: deleting a bot message that is not deletable throws in the code; the model records the delete effect and does not model the throw.
- `channelMention` and `hyperlinkHideEmbed` are not part of this model's sources. `Professors.ChannelMention` is taken as `<#id>` and `Professors.HyperlinkHideEmbed` as `[text](<url>)`; `WhereLinks`, `WhereKeepsTeamsLink` and `WhereNamesPlace` rely on those formats.
- Before `findByIdAndUpdate`, `startClass`, `finishClass`, `cancelClass` and `setRecordLink` fetch and edit the announcement message (EclassManager.ts:120-127, 152-158, 175-183, 202-210), and `remindClass` resolves the class channel (EclassManager.ts:221-222). A missing channel or message throws there and nothing is stored. The model leaves out those throws: `AfterStart`, `AfterSetRecordLink` and `AfterRemind` always store, and of the throws before the update only the missing class role is modelled.
- EclassManager.AfterCreate: the generated record id and role id (`NewIds`) are taken to be fresh, as MongoDB and Discord make them; nothing in the model requires it, and a colliding id would overwrite the existing record or role.
- Besides `recordedValues`, the code reads `valueInProgress`, `valueFinished`, `createClassSetup` and `prompts` from the messages configuration; they are not in `config/commands/professors.ts` either. The model carries no text for them: the wizard's notices are their kinds (timeout, stop, error details) and the no-subject text is an input.
