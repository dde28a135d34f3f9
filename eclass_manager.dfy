/** The class-session registry and its life cycle: creation from a class
    channel, start, finish, cancel, record link, reminder, and member
    (un)subscription. Each operation is a guarded update of one stored record,
    of the guild's roles, or of the process-wide set of announcement messages
    that wait for reactions. Discord and database calls are reduced to their
    effect on this state. */
module EclassManager {
  import opened Utils
  import opened Database
  import Professors

  /** Discord ids and database ids are opaque strings. */
  type Snowflake = string
  type DocId = string

  // ---------------------------------------------------------------------------
  // Derivations from the class channel

  /** The announcement channels, one per school year plus a general one. */
  datatype AnnouncementSchoolYear = AnnounceL1 | AnnounceL2 | AnnounceL3 | AnnounceGeneral

  /** The keys of the announcement table. */
  function AnnouncementKey(target: AnnouncementSchoolYear): string
  {
    match target
    case AnnounceL1 => "l1"
    case AnnounceL2 => "l2"
    case AnnounceL3 => "l3"
    case AnnounceGeneral => "general"
  }

  /** Looks a string up among the keys of the announcement table. */
  function AnnouncementOfKey(key: string): (r: Option<AnnouncementSchoolYear>)
    ensures r.Some? ==> AnnouncementKey(r.value) == key
    ensures forall t :: AnnouncementKey(t) == key ==> r == Some(t)
  {
    if key == "l1" then Some(AnnounceL1)
    else if key == "l2" then Some(AnnounceL2)
    else if key == "l3" then Some(AnnounceL3)
    else if key == "general" then Some(AnnounceGeneral)
    else None
  }

  /** `s.slice(-2)`: the last two characters, or the whole string when shorter. */
  function LastTwo(s: string): string
  {
    if |s| < 2 then s else s[|s| - 2..]
  }

  /** The announcement target of a class: the lower-cased last two characters of
      its category's name when they name a key of the table, `general` otherwise. */
  function SchoolYearTarget(categoryName: string): AnnouncementSchoolYear
  {
    match AnnouncementOfKey(ToLower(LastTwo(categoryName)))
    case Some(target) => target
    case None => AnnounceGeneral
  }

  /** A category named "... L1"/"... l1" (and so on) targets that school year;
      everything else, including names too short to end in a key, goes to the
      general channel ("general" itself can never come out of a two-character
      slice). */
  lemma SchoolYearTargetSpec(categoryName: string)
    ensures var n, t := |categoryName|, SchoolYearTarget(categoryName);
      && (t == AnnounceL1 <==> n >= 2 && categoryName[n - 2] in "lL" && categoryName[n - 1] == '1')
      && (t == AnnounceL2 <==> n >= 2 && categoryName[n - 2] in "lL" && categoryName[n - 1] == '2')
      && (t == AnnounceL3 <==> n >= 2 && categoryName[n - 2] in "lL" && categoryName[n - 1] == '3')
  {
    var n := |categoryName|;
    var low := ToLower(LastTwo(categoryName));
    if n >= 2 {
      assert |low| == 2 && low[0] == ToLowerChar(categoryName[n - 2]) && low[1] == ToLowerChar(categoryName[n - 1]);
      assert low == [low[0], low[1]];
    } else {
      assert |low| < 2;
    }
  }

  /** The subject's name: the channel name's `-`-separated parts without the
      first one (the emoji), each capitalised, joined with spaces. */
  function SubjectName(channelName: string, capitalize: string -> string): string
  {
    Join(Map(capitalize, Split(channelName, '-')[1..]), " ")
  }

  /** When the capitalised parts hold no space, the subject's words are exactly
      the capitalised parts of the channel name after its first one. */
  lemma SubjectNameWords(channelName: string, capitalize: string -> string)
    requires '-' in channelName
    requires var parts := Split(channelName, '-');
      forall i :: 1 <= i < |parts| ==> ' ' !in capitalize(parts[i])
    ensures Split(SubjectName(channelName, capitalize), ' ') == Map(capitalize, Split(channelName, '-')[1..])
  {
    var parts := Split(channelName, '-');
    SplitAtSeparator(channelName, '-');
    var words := Map(capitalize, parts[1..]);
    forall i | 0 <= i < |words|
      ensures ' ' !in words[i]
    {
      assert words[i] == capitalize(parts[i + 1]);
    }
    SplitJoin(words, ' ');
  }

  /** A channel name without any `-` gives an empty subject. */
  lemma SubjectNameWithoutDash(channelName: string, capitalize: string -> string)
    requires '-' !in channelName
    ensures SubjectName(channelName, capitalize) == ""
  {
    SplitWithout(channelName, '-');
  }

  /** The fields of the announcement embed that the class-session code fills in
      from its own data. */
  datatype AnnouncementEmbed = AnnouncementEmbed(
    subject: string, topic: string, date: string, duration: string,
    professor: string, recorded: string, footer: string)

  /** The announcement embed: the "recorded" field is `recordedValues` indexed by
      `Number(isRecorded)`, and the footer shows the class id. */
  function CreateAnnouncementEmbed(
    subject: string, topic: string, formattedDate: string, humanDuration: string,
    professorMention: string, classId: string, isRecorded: bool): (e: AnnouncementEmbed)
    ensures |e.recorded| >= 3 && e.recorded[..3] == (if isRecorded then "Oui" else "Non")
    ensures |classId| <= |e.footer| && e.footer[|e.footer| - |classId|..] == classId
    ensures e.subject == subject && e.topic == topic && e.date == formattedDate
  {
    AnnouncementEmbed(subject, topic, formattedDate, humanDuration, professorMention,
      Professors.RecordedValue(isRecorded), "ID : " + classId)
  }

  // ---------------------------------------------------------------------------
  // Stored records and their updates

  /** One stored class session. */
  datatype Eclass = Eclass(
    classChannel: Snowflake,
    guild: Snowflake,
    topic: string,
    subject: string,
    date: int,
    duration: int,
    professor: Snowflake,
    classRole: Snowflake,
    targetRole: Snowflake,
    announcementMessage: Snowflake,
    announcementChannel: AnnouncementSchoolYear,
    classId: string,
    isRecorded: bool,
    status: EclassStatus,
    recordLink: Option<string>,
    reminded: bool,
    subscribers: seq<Snowflake>)

  /** The copy of a record that a caller holds, with its database id. */
  datatype EclassDocument = EclassDocument(id: DocId, eclass: Eclass)

  /** The single-record updates the operations send to the database. */
  datatype Update =
    | SetStatus(status: EclassStatus)
    | SetRecordLink(link: string)
    | SetReminded
    | PushSubscriber(member: Snowflake)
    | PullSubscriber(member: Snowflake)

  /** `$pull`: every occurrence of `x` goes. */
  function Pull(s: seq<Snowflake>, x: Snowflake): seq<Snowflake>
  {
    if s == [] then [] else (if s[0] == x then [] else [s[0]]) + Pull(s[1..], x)
  }

  /** The data fixed at creation, which no update touches. */
  function Schedule(e: Eclass): Eclass
  {
    e.(status := Planned, recordLink := None, reminded := false, subscribers := [])
  }

  /** Applies one update to a record. Only the field the update names changes:
      `$push` appends without looking for duplicates, `$pull` drops every
      occurrence, and nothing ever resets `reminded`. */
  function Apply(e: Eclass, u: Update): (r: Eclass)
    ensures Schedule(r) == Schedule(e)
    ensures r.status == (if u.SetStatus? then u.status else e.status)
    ensures r.recordLink == (if u.SetRecordLink? then Some(u.link) else e.recordLink)
    ensures r.reminded == (u.SetReminded? || e.reminded)
    ensures u.PushSubscriber? ==> r.subscribers == e.subscribers + [u.member]
    ensures u.PullSubscriber? ==> r.subscribers == Pull(e.subscribers, u.member)
    ensures !u.PushSubscriber? && !u.PullSubscriber? ==> r.subscribers == e.subscribers
  {
    match u
    case SetStatus(s) => e.(status := s)
    case SetRecordLink(link) => e.(recordLink := Some(link))
    case SetReminded => e.(reminded := true)
    case PushSubscriber(m) => e.(subscribers := e.subscribers + [m])
    case PullSubscriber(m) => e.(subscribers := Pull(e.subscribers, m))
  }

  /** `findByIdAndUpdate`: updates the record with that id, if there is one, and
      leaves every other record alone. */
  function FindByIdAndUpdate(records: map<DocId, Eclass>, id: DocId, u: Update): (r: map<DocId, Eclass>)
    ensures r.Keys == records.Keys
    ensures forall k :: k in records && k != id ==> r[k] == records[k]
    ensures id in records ==> r[id] == Apply(records[id], u)
  {
    if id in records then records[id := Apply(records[id], u)] else records
  }

  lemma {:induction false} PullAppend(a: seq<Snowflake>, b: seq<Snowflake>, x: Snowflake)
    ensures Pull(a + b, x) == Pull(a, x) + Pull(b, x)
  {
    if a != [] {
      assert (a + b)[0] == a[0] && (a + b)[1..] == a[1..] + b;
      PullAppend(a[1..], b, x);
    } else {
      assert a + b == b;
    }
  }

  /** `$pull` removes the member entirely and keeps every other subscription,
      with its multiplicity. */
  lemma {:induction false} PullRemovesAll(s: seq<Snowflake>, x: Snowflake)
    ensures x !in Pull(s, x)
    ensures forall y :: y != x ==> multiset(Pull(s, x))[y] == multiset(s)[y]
  {
    if s != [] {
      PullRemovesAll(s[1..], x);
      assert s == [s[0]] + s[1..];
    }
  }

  /** One unsubscription undoes any number of earlier subscriptions of the same
      member. */
  lemma PullUndoesPushes(s: seq<Snowflake>, x: Snowflake, n: nat)
    ensures Pull(s + seq(n, _ => x), x) == Pull(s, x)
  {
    PullAppend(s, seq(n, _ => x), x);
    PullAllSame(n, x);
  }

  lemma {:induction false} PullAllSame(n: nat, x: Snowflake)
    ensures Pull(seq(n, _ => x), x) == []
  {
    if n > 0 {
      assert seq(n, _ => x)[1..] == seq(n - 1, _ => x);
      PullAllSame(n - 1, x);
    }
  }

  // ---------------------------------------------------------------------------
  // The registry state and the operations on it

  /** A guild role, as far as the class-session code reads it. */
  datatype Role = Role(guild: Snowflake, name: string)

  /** A member of a guild. */
  datatype Member = Member(guild: Snowflake, user: Snowflake)

  /** Everything the operations change: the stored records, the ids of the
      announcement messages waiting for reactions, the guilds' roles and the
      members' roles. */
  datatype Registry = Registry(
    records: map<DocId, Eclass>,
    eclassRolesIds: set<Snowflake>,
    roles: map<Snowflake, Role>,
    memberRoles: map<Member, set<Snowflake>>)

  /** The role with that id exists in that guild. */
  predicate HasRole(roles: map<Snowflake, Role>, id: Snowflake, guild: Snowflake)
  {
    id in roles && roles[id].guild == guild
  }

  /** Some role of the guild already has that name. */
  predicate RoleNameTaken(roles: map<Snowflake, Role>, guild: Snowflake, name: string)
  {
    exists id :: id in roles && roles[id] == Role(guild, name)
  }

  function RolesOf(memberRoles: map<Member, set<Snowflake>>, m: Member): set<Snowflake>
  {
    if m in memberRoles then memberRoles[m] else {}
  }

  /** The class channel a class is created from. */
  datatype ClassChannel = ClassChannel(id: Snowflake, name: string, guild: Snowflake, parentName: string)

  /** What the wizard hands over for creation. */
  datatype CreationOptions = CreationOptions(
    date: int, topic: string, duration: int, professor: Snowflake, targetRole: Snowflake, isRecorded: bool)

  /** The helpers whose text the class-session code does not define: date
      formatting, capitalisation, the role-name template and the class-id
      derivation. */
  datatype Naming = Naming(
    formatDate: int -> string,
    capitalize: string -> string,
    roleName: (string, string, string) -> string,
    generateId: (string, Snowflake, int) -> string)

  /** The ids the platform and the database hand out during a creation. */
  datatype NewIds = NewIds(announcementMessage: Snowflake, role: Snowflake, doc: DocId)

  /** What `createClass` answers in the invoking channel. */
  datatype CreateOutcome = AlreadyExists | UnconfiguredChannel | Created(doc: DocId, classId: string)

  /** The name of the role created for a class. */
  function ClassRoleName(channel: ClassChannel, opts: CreationOptions, naming: Naming): string
  {
    naming.roleName(SubjectName(channel.name, naming.capitalize), opts.topic, naming.formatDate(opts.date))
  }

  /** The record a successful creation stores. */
  function NewEclass(channel: ClassChannel, opts: CreationOptions, naming: Naming, ids: NewIds): Eclass
  {
    Eclass(
      channel.id, channel.guild, opts.topic, SubjectName(channel.name, naming.capitalize),
      opts.date, opts.duration, opts.professor, ids.role, opts.targetRole,
      ids.announcementMessage, SchoolYearTarget(channel.parentName),
      naming.generateId(opts.topic, opts.professor, opts.date), opts.isRecorded,
      Planned, None, false, [])
  }

  /** `createClass`: refuses when the guild already has a role of the generated
      name, or when no announcement channel is configured for the target;
      otherwise caches the announcement id, creates the role and stores the
      record. */
  function AfterCreate(
    r: Registry, channels: map<(Snowflake, AnnouncementSchoolYear), Snowflake>, guild: Snowflake,
    channel: ClassChannel, opts: CreationOptions, naming: Naming, ids: NewIds): (Registry, CreateOutcome)
  {
    var name := ClassRoleName(channel, opts, naming);
    if RoleNameTaken(r.roles, guild, name) then (r, AlreadyExists)
    else if (guild, SchoolYearTarget(channel.parentName)) !in channels then (r, UnconfiguredChannel)
    else
      var e := NewEclass(channel, opts, naming, ids);
      (r.(eclassRolesIds := r.eclassRolesIds + {ids.announcementMessage},
          roles := r.roles[ids.role := Role(guild, name)],
          records := r.records[ids.doc := e]),
       Created(ids.doc, e.classId))
  }

  /** `startClass`: marks the record in progress, whatever its status. */
  function AfterStart(r: Registry, doc: EclassDocument): Registry
  {
    r.(records := FindByIdAndUpdate(r.records, doc.id, SetStatus(InProgress)))
  }

  /** `finishClass`: deletes the class role and marks the record finished. When
      the role is gone the deletion throws and nothing is stored. */
  function AfterFinish(r: Registry, doc: EclassDocument): (Registry, bool)
  {
    if !HasRole(r.roles, doc.eclass.classRole, doc.eclass.guild) then (r, false)
    else
      (r.(roles := r.roles - {doc.eclass.classRole},
          records := FindByIdAndUpdate(r.records, doc.id, SetStatus(Finished))), true)
  }

  /** `cancelClass`: drops the announcement from the cache, deletes the class role
      and marks the record canceled. When the role is gone the deletion throws
      after the cache was already updated. */
  function AfterCancel(r: Registry, doc: EclassDocument): (Registry, bool)
  {
    var uncached := r.(eclassRolesIds := r.eclassRolesIds - {doc.eclass.announcementMessage});
    if !HasRole(r.roles, doc.eclass.classRole, doc.eclass.guild) then (uncached, false)
    else
      (uncached.(roles := r.roles - {doc.eclass.classRole},
                 records := FindByIdAndUpdate(r.records, doc.id, SetStatus(Canceled))), true)
  }

  /** `setRecordLink`: overwrites the record link. */
  function AfterSetRecordLink(r: Registry, doc: EclassDocument, link: string): Registry
  {
    r.(records := FindByIdAndUpdate(r.records, doc.id, SetRecordLink(link)))
  }

  /** `remindClass`: marks the reminder as sent. */
  function AfterRemind(r: Registry, doc: EclassDocument): Registry
  {
    r.(records := FindByIdAndUpdate(r.records, doc.id, SetReminded))
  }

  /** `subscribeMember`: nothing when the class role is missing from the member's
      guild; otherwise pushes the member id and gives the role if not held. */
  function AfterSubscribe(r: Registry, member: Member, doc: EclassDocument): Registry
  {
    var role := doc.eclass.classRole;
    if !HasRole(r.roles, role, member.guild) then r
    else
      r.(records := FindByIdAndUpdate(r.records, doc.id, PushSubscriber(member.user)),
         memberRoles :=
           if role in RolesOf(r.memberRoles, member) then r.memberRoles
           else r.memberRoles[member := RolesOf(r.memberRoles, member) + {role}])
  }

  /** `unsubscribeMember`: nothing when the class role is missing from the
      member's guild; otherwise pulls the member id and takes the role if held. */
  function AfterUnsubscribe(r: Registry, member: Member, doc: EclassDocument): Registry
  {
    var role := doc.eclass.classRole;
    if !HasRole(r.roles, role, member.guild) then r
    else
      r.(records := FindByIdAndUpdate(r.records, doc.id, PullSubscriber(member.user)),
         memberRoles :=
           if role in RolesOf(r.memberRoles, member) then r.memberRoles[member := RolesOf(r.memberRoles, member) - {role}]
           else r.memberRoles)
  }

  // ---------------------------------------------------------------------------
  // Properties of the operations

  /** A taken role name stops the creation before anything is created or cached. */
  lemma CreateRefusesTakenName(
    r: Registry, channels: map<(Snowflake, AnnouncementSchoolYear), Snowflake>, guild: Snowflake,
    channel: ClassChannel, opts: CreationOptions, naming: Naming, ids: NewIds)
    requires exists id :: id in r.roles && r.roles[id] == Role(guild, ClassRoleName(channel, opts, naming))
    ensures AfterCreate(r, channels, guild, channel, opts, naming, ids) == (r, AlreadyExists)
  {
  }

  /** Without an announcement channel for the target the creation stops, with no
      record, no role and no cached announcement. */
  lemma CreateNeedsAnnouncementChannel(
    r: Registry, channels: map<(Snowflake, AnnouncementSchoolYear), Snowflake>, guild: Snowflake,
    channel: ClassChannel, opts: CreationOptions, naming: Naming, ids: NewIds)
    requires !RoleNameTaken(r.roles, guild, ClassRoleName(channel, opts, naming))
    requires (guild, SchoolYearTarget(channel.parentName)) !in channels
    ensures AfterCreate(r, channels, guild, channel, opts, naming, ids) == (r, UnconfiguredChannel)
  {
  }

  /** A successful creation caches the announcement id, adds a planned record with
      no subscribers, no link and no reminder, and one role named after it. */
  lemma CreateStoresPlannedClass(
    r: Registry, channels: map<(Snowflake, AnnouncementSchoolYear), Snowflake>, guild: Snowflake,
    channel: ClassChannel, opts: CreationOptions, naming: Naming, ids: NewIds)
    requires !RoleNameTaken(r.roles, guild, ClassRoleName(channel, opts, naming))
    requires (guild, SchoolYearTarget(channel.parentName)) in channels
    ensures var (r', outcome) := AfterCreate(r, channels, guild, channel, opts, naming, ids);
      && outcome.Created? && outcome.doc == ids.doc
      && r'.eclassRolesIds == r.eclassRolesIds + {ids.announcementMessage}
      && ids.doc in r'.records
      && r'.records[ids.doc].status == Planned
      && r'.records[ids.doc].subscribers == []
      && r'.records[ids.doc].recordLink.None? && !r'.records[ids.doc].reminded
      && r'.records[ids.doc].classRole == ids.role
      && r'.records[ids.doc].announcementMessage == ids.announcementMessage
      && RoleNameTaken(r'.roles, guild, ClassRoleName(channel, opts, naming))
      && r'.memberRoles == r.memberRoles
  {
    var r' := AfterCreate(r, channels, guild, channel, opts, naming, ids).0;
    assert r'.roles[ids.role] == Role(guild, ClassRoleName(channel, opts, naming));
  }

  /** Creating the same class twice in a guild is refused the second time: the
      first creation took the role name. */
  lemma CreateTwiceRefused(
    r: Registry, channels: map<(Snowflake, AnnouncementSchoolYear), Snowflake>, guild: Snowflake,
    channel: ClassChannel, opts: CreationOptions, naming: Naming, ids: NewIds, ids2: NewIds)
    requires AfterCreate(r, channels, guild, channel, opts, naming, ids).1.Created?
    ensures var r' := AfterCreate(r, channels, guild, channel, opts, naming, ids).0;
      AfterCreate(r', channels, guild, channel, opts, naming, ids2) == (r', AlreadyExists)
  {
    var r' := AfterCreate(r, channels, guild, channel, opts, naming, ids).0;
    assert r'.roles[ids.role] == Role(guild, ClassRoleName(channel, opts, naming));
  }

  /** A class created in its own guild and then canceled leaves the
      announcement cache as it was before (when it was not cached already), and
      ends canceled. */
  lemma CreateThenCancel(
    r: Registry, channels: map<(Snowflake, AnnouncementSchoolYear), Snowflake>,
    channel: ClassChannel, opts: CreationOptions, naming: Naming, ids: NewIds)
    requires ids.announcementMessage !in r.eclassRolesIds
    requires AfterCreate(r, channels, channel.guild, channel, opts, naming, ids).1.Created?
    ensures var r1 := AfterCreate(r, channels, channel.guild, channel, opts, naming, ids).0;
      var (r2, ok) := AfterCancel(r1, EclassDocument(ids.doc, r1.records[ids.doc]));
      && ok
      && r2.eclassRolesIds == r.eclassRolesIds
      && r2.records[ids.doc].status == Canceled
      && ids.role !in r2.roles
  {
    var r1 := AfterCreate(r, channels, channel.guild, channel, opts, naming, ids).0;
    assert r1.roles[ids.role].guild == channel.guild;
    assert r1.eclassRolesIds - {ids.announcementMessage} == r.eclassRolesIds;
  }

  /** Start, finish and cancel set the status whatever it was before (the code
      checks no status), and touch no other field of any record. */
  lemma TransitionsAreUnconditional(r: Registry, doc: EclassDocument)
    requires doc.id in r.records
    ensures AfterStart(r, doc).records[doc.id] == r.records[doc.id].(status := InProgress)
    ensures AfterFinish(r, doc).1 ==> AfterFinish(r, doc).0.records[doc.id] == r.records[doc.id].(status := Finished)
    ensures AfterCancel(r, doc).1 ==> AfterCancel(r, doc).0.records[doc.id] == r.records[doc.id].(status := Canceled)
    ensures forall k :: k in r.records && k != doc.id ==>
      AfterStart(r, doc).records[k] == AfterFinish(r, doc).0.records[k] == AfterCancel(r, doc).0.records[k] == r.records[k]
  {
  }

  /** Finishing or canceling a class whose role is gone stores nothing; a cancel
      still drops its announcement from the cache. */
  lemma MissingRoleStopsTeardown(r: Registry, doc: EclassDocument)
    requires !HasRole(r.roles, doc.eclass.classRole, doc.eclass.guild)
    ensures AfterFinish(r, doc) == (r, false)
    ensures AfterCancel(r, doc).0.records == r.records
    ensures AfterCancel(r, doc).0.eclassRolesIds == r.eclassRolesIds - {doc.eclass.announcementMessage}
  {
  }

  /** After a reminder the record is marked reminded, and reminding again
      changes nothing. */
  lemma RemindIsIdempotent(r: Registry, doc: EclassDocument)
    requires doc.id in r.records
    ensures AfterRemind(r, doc).records[doc.id].reminded
    ensures AfterRemind(AfterRemind(r, doc), doc) == AfterRemind(r, doc)
  {
    var e := r.records[doc.id];
    assert Apply(Apply(e, SetReminded), SetReminded) == Apply(e, SetReminded);
  }

  /** The record link is overwritten, not appended: the last link set wins. */
  lemma RecordLinkLastWins(r: Registry, doc: EclassDocument, first: string, second: string)
    requires doc.id in r.records
    ensures AfterSetRecordLink(r, doc, first).records[doc.id].recordLink == Some(first)
    ensures AfterSetRecordLink(AfterSetRecordLink(r, doc, first), doc, second) == AfterSetRecordLink(r, doc, second)
  {
    var e := r.records[doc.id];
    assert Apply(Apply(e, SetRecordLink(first)), SetRecordLink(second)) == Apply(e, SetRecordLink(second));
  }

  /** Without the class role in the member's guild, (un)subscribing changes
      nothing. */
  lemma SubscriptionNeedsRole(r: Registry, member: Member, doc: EclassDocument)
    requires !HasRole(r.roles, doc.eclass.classRole, member.guild)
    ensures AfterSubscribe(r, member, doc) == r && AfterUnsubscribe(r, member, doc) == r
  {
  }

  /** Subscribing appends the member (twice if subscribed twice) and leaves the
      member holding the class role; unsubscribing removes every occurrence and
      leaves the member without it. */
  lemma SubscriptionEffects(r: Registry, member: Member, doc: EclassDocument)
    requires HasRole(r.roles, doc.eclass.classRole, member.guild)
    requires doc.id in r.records
    ensures var s := AfterSubscribe(r, member, doc);
      && s.records[doc.id].subscribers == r.records[doc.id].subscribers + [member.user]
      && doc.eclass.classRole in RolesOf(s.memberRoles, member)
      && (doc.eclass.classRole in RolesOf(r.memberRoles, member) ==> s.memberRoles == r.memberRoles)
    ensures var u := AfterUnsubscribe(r, member, doc);
      && member.user !in u.records[doc.id].subscribers
      && doc.eclass.classRole !in RolesOf(u.memberRoles, member)
      && (doc.eclass.classRole !in RolesOf(r.memberRoles, member) ==> u.memberRoles == r.memberRoles)
  {
    PullRemovesAll(r.records[doc.id].subscribers, member.user);
  }

  /** Unsubscribing after subscribing gives the subscriber list as it was with
      the member pulled: one unsubscription undoes repeated subscriptions. */
  lemma UnsubscribeUndoesSubscribe(r: Registry, member: Member, doc: EclassDocument)
    requires HasRole(r.roles, doc.eclass.classRole, member.guild)
    requires doc.id in r.records
    ensures AfterUnsubscribe(AfterSubscribe(r, member, doc), member, doc).records[doc.id].subscribers
      == Pull(r.records[doc.id].subscribers, member.user)
  {
    PullUndoesPushes(r.records[doc.id].subscribers, member.user, 1);
    assert seq(1, _ => member.user) == [member.user];
  }

  /** No operation ever clears `reminded` nor changes a record's creation-time
      data. */
  lemma UpdatesKeepScheduleAndReminder(e: Eclass, u: Update)
    ensures Schedule(Apply(e, u)) == Schedule(e)
    ensures e.reminded ==> Apply(e, u).reminded
  {
  }

  // ---------------------------------------------------------------------------
  // The manager object

  /** The bot-side state the manager's operations mutate. */
  class Manager {
    var records: map<DocId, Eclass>
    var eclassRolesIds: set<Snowflake>
    var roles: map<Snowflake, Role>
    var memberRoles: map<Member, set<Snowflake>>
    /** The configured announcement channels, per guild and target. */
    const announcementChannels: map<(Snowflake, AnnouncementSchoolYear), Snowflake>

    function State(): Registry
      reads this
    {
      Registry(records, eclassRolesIds, roles, memberRoles)
    }

    constructor (
      announcementChannels: map<(Snowflake, AnnouncementSchoolYear), Snowflake>,
      roles: map<Snowflake, Role>,
      memberRoles: map<Member, set<Snowflake>>)
      ensures State() == Registry(map[], {}, roles, memberRoles)
      ensures this.announcementChannels == announcementChannels
    {
      this.announcementChannels := announcementChannels;
      this.records := map[];
      this.eclassRolesIds := {};
      this.roles := roles;
      this.memberRoles := memberRoles;
    }

    method CreateClass(guild: Snowflake, channel: ClassChannel, opts: CreationOptions, naming: Naming, ids: NewIds)
      returns (outcome: CreateOutcome)
      modifies this
      ensures (State(), outcome) == AfterCreate(old(State()), announcementChannels, guild, channel, opts, naming, ids)
    {
      var subject := SubjectName(channel.name, naming.capitalize);
      var name := naming.roleName(subject, opts.topic, naming.formatDate(opts.date));

      if exists id :: id in roles && roles[id] == Role(guild, name) {
        return AlreadyExists;
      }

      var target := SchoolYearTarget(channel.parentName);
      if (guild, target) !in announcementChannels {
        return UnconfiguredChannel;
      }

      eclassRolesIds := eclassRolesIds + {ids.announcementMessage};
      roles := roles[ids.role := Role(guild, name)];
      var classId := naming.generateId(opts.topic, opts.professor, opts.date);
      records := records[ids.doc := Eclass(
        channel.id, channel.guild, opts.topic, subject, opts.date, opts.duration, opts.professor,
        ids.role, opts.targetRole, ids.announcementMessage, target, classId, opts.isRecorded,
        Planned, None, false, [])];
      outcome := Created(ids.doc, classId);
    }

    method StartClass(doc: EclassDocument)
      modifies this
      ensures State() == AfterStart(old(State()), doc)
    {
      records := FindByIdAndUpdate(records, doc.id, SetStatus(InProgress));
    }

    method FinishClass(doc: EclassDocument) returns (ok: bool)
      modifies this
      ensures (State(), ok) == AfterFinish(old(State()), doc)
    {
      if !(doc.eclass.classRole in roles && roles[doc.eclass.classRole].guild == doc.eclass.guild) {
        return false;
      }
      roles := roles - {doc.eclass.classRole};
      records := FindByIdAndUpdate(records, doc.id, SetStatus(Finished));
      ok := true;
    }

    method CancelClass(doc: EclassDocument) returns (ok: bool)
      modifies this
      ensures (State(), ok) == AfterCancel(old(State()), doc)
    {
      eclassRolesIds := eclassRolesIds - {doc.eclass.announcementMessage};
      if !(doc.eclass.classRole in roles && roles[doc.eclass.classRole].guild == doc.eclass.guild) {
        return false;
      }
      roles := roles - {doc.eclass.classRole};
      records := FindByIdAndUpdate(records, doc.id, SetStatus(Canceled));
      ok := true;
    }

    method SetRecordLink(doc: EclassDocument, link: string)
      modifies this
      ensures State() == AfterSetRecordLink(old(State()), doc, link)
    {
      records := FindByIdAndUpdate(records, doc.id, Update.SetRecordLink(link));
    }

    method RemindClass(doc: EclassDocument)
      modifies this
      ensures State() == AfterRemind(old(State()), doc)
    {
      records := FindByIdAndUpdate(records, doc.id, SetReminded);
    }

    method SubscribeMember(member: Member, doc: EclassDocument)
      modifies this
      ensures State() == AfterSubscribe(old(State()), member, doc)
    {
      var role := doc.eclass.classRole;
      if !(role in roles && roles[role].guild == member.guild) {
        return;
      }
      records := FindByIdAndUpdate(records, doc.id, PushSubscriber(member.user));
      var held := RolesOf(memberRoles, member);
      if role !in held {
        memberRoles := memberRoles[member := held + {role}];
      }
    }

    method UnsubscribeMember(member: Member, doc: EclassDocument)
      modifies this
      ensures State() == AfterUnsubscribe(old(State()), member, doc)
    {
      var role := doc.eclass.classRole;
      if !(role in roles && roles[role].guild == member.guild) {
        return;
      }
      records := FindByIdAndUpdate(records, doc.id, PullSubscriber(member.user));
      var held := RolesOf(memberRoles, member);
      if role in held {
        memberRoles := memberRoles[member := held - {role}];
      }
    }
  }
}
