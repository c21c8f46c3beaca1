/**
 * The profile normaliser of `UserStatusService`: it checks the `error` field of a fetched RuneMetrics
 * profile and turns the payload into the canonical record that is stored and served.
 * The payload arrives already parsed; fetching it and parsing its text are not modelled.
 */
module ProfileNormalizer {
  import opened Wrappers
  import opened StableSort
  import opened Text

  /** A field of the parsed payload: missing, present with JSON null, or present with a value. */
  datatype Field<T> = Absent | JsonNull | Present(value: T)

  datatype RawSkill = RawSkill(id: Field<int>, level: Field<int>, xp: Field<int>, rank: Field<int>)

  datatype RawActivity = RawActivity(date: Field<string>, details: Field<string>, text: Field<string>)

  /** The fields of a fetched profile that the normaliser reads. */
  datatype RawProfile = RawProfile(
    error: Field<string>,
    name: Field<string>,
    rank: Field<int>,
    loggedIn: Field<bool>,
    combatlevel: Field<int>,
    totalskill: Field<int>,
    questsstarted: Field<int>,
    questscomplete: Field<int>,
    questsnotstarted: Field<int>,
    totalxp: Field<int>,
    skillvalues: Field<seq<RawSkill>>,
    activities: Field<seq<RawActivity>>)

  /** One entry of `skill_values`; `None` stands for JSON null. */
  datatype Skill = Skill(id: int, skillName: Option<string>, level: Option<int>, xp: int, rank: Option<int>)

  /** One entry of `activities`; `None` stands for JSON null. */
  datatype Activity = Activity(date: Option<string>, details: Option<string>, text: Option<string>)

  /** The canonical profile (`skill_values` is `skillValues`); `None` stands for JSON null. */
  datatype Profile = Profile(
    lowercaseName: Option<string>,
    name: Option<string>,
    rank: Option<int>,
    loggedIn: Option<bool>,
    combatlevel: Option<int>,
    totalskill: Option<int>,
    questsstarted: Option<int>,
    questscomplete: Option<int>,
    questsnotstarted: Option<int>,
    totalxp: Option<int>,
    skillValues: seq<Skill>,
    activities: seq<Activity>)

  /** The exceptions `GetUserInfo` lets escape. */
  datatype ProfileError =
    | ProfilePrivate
    | NoProfile
    | MalformedPayload  // the activities loop dereferenced a missing `activities` field

  /** The exception message the caller receives. */
  function Message(e: ProfileError): string {
    match e
    case ProfilePrivate => "The profile is private."
    case NoProfile => "The profile does not exist."
    case MalformedPayload => "Object reference not set to an instance of an object."
  }

  /** A payload field assigned into the output object: missing and JSON null both become null. */
  function Copied<T>(f: Field<T>): Option<T> {
    if f.Present? then Some(f.value) else None
  }

  // ---------------------------------------------------------------- skills

  /** The fixed id-to-name table of `GetUserSkills`. */
  const SkillTable: map<int, string> := map[
    0 := "Attack", 1 := "Defence", 2 := "Strength", 3 := "Constitution", 4 := "Ranged",
    5 := "Prayer", 6 := "Magic", 7 := "Cooking", 8 := "Woodcutting", 9 := "Fletching",
    10 := "Fishing", 11 := "Firemaking", 12 := "Crafting", 13 := "Smithing", 14 := "Mining",
    15 := "Herblore", 16 := "Agility", 17 := "Thieving", 18 := "Slayer", 19 := "Farming",
    20 := "Runecrafting", 21 := "Hunter", 22 := "Construction", 23 := "Summoning",
    24 := "Dungeoneering", 25 := "Divination", 26 := "Invention", 27 := "Archaeology"]

  /** `TryGetValue` on the table: a name exactly for the ids 0 to 27, null for every other id. */
  function SkillName(id: int): (name: Option<string>)
    ensures name.Some? <==> 0 <= id < 28
    ensures name.Some? ==> name.value == SkillTable[id] && name.value != ""
  {
    if id in SkillTable then Some(SkillTable[id]) else None
  }

  predicate IsInt32(x: int) { -0x8000_0000 <= x <= 0x7FFF_FFFF }

  /** C#'s `x / 10` on `int`: the quotient truncated toward zero, so the remainder has the sign of `x`. */
  function TruncDiv10(x: int): (q: int)
    ensures 0 <= x ==> 0 <= x - 10 * q < 10
    ensures x < 0 ==> -10 < x - 10 * q <= 0
  {
    if 0 <= x then x / 10 else -((-x) / 10)
  }

  /** `Value<int>()` on a token: it throws unless the token holds an integer that fits in an `int`. */
  predicate ReadsAsInt32(f: Field<int>) {
    f.Present? && IsInt32(f.value)
  }

  /**
   * The object built for one `skillvalues` entry, or `None` when building it throws: reading `id` or
   * `xp` as an `int` fails when the field is missing, null or out of range.
   */
  function SkillEntry(raw: RawSkill): (r: Option<Skill>)
    ensures r.Some? <==> ReadsAsInt32(raw.id) && ReadsAsInt32(raw.xp)
    ensures r.Some? ==> && r.value.id == raw.id.value
                        && r.value.skillName == SkillName(raw.id.value)
                        && r.value.level == Copied(raw.level)
                        && r.value.rank == Copied(raw.rank)
                        && r.value.xp == TruncDiv10(raw.xp.value)
  {
    if ReadsAsInt32(raw.id) && ReadsAsInt32(raw.xp) then
      Some(Skill(raw.id.value, SkillName(raw.id.value), Copied(raw.level), TruncDiv10(raw.xp.value), Copied(raw.rank)))
    else
      None
  }

  /** `built` holds the objects of the entries before the first one that throws, or of all entries. */
  ghost predicate ProcessedUntilFault(entries: seq<RawSkill>, built: seq<Skill>) {
    && |built| <= |entries|
    && (forall k :: 0 <= k < |built| ==> SkillEntry(entries[k]) == Some(built[k]))
    && (|built| < |entries| ==> SkillEntry(entries[|built|]).None?)
  }

  /** The skills loop: the first fault ends it and what was built so far is kept. */
  function BuildSkills(entries: seq<RawSkill>): (built: seq<Skill>)
    ensures ProcessedUntilFault(entries, built)
  {
    if entries == [] then []
    else match SkillEntry(entries[0])
      case None => []
      case Some(skill) => [skill] + BuildSkills(entries[1..])
  }

  /** Only one sequence is the prefix built before the first fault. */
  lemma ProcessedUntilFaultUnique(entries: seq<RawSkill>, a: seq<Skill>, b: seq<Skill>)
    requires ProcessedUntilFault(entries, a) && ProcessedUntilFault(entries, b)
    ensures a == b
  {
  }

  /** What `GetUserSkills` returns: a missing or null `skillvalues` gives no skills. */
  function SkillsOf(userInfo: RawProfile): seq<Skill> {
    if userInfo.skillvalues.Present? then BuildSkills(userInfo.skillvalues.value) else []
  }

  /**
   * `GetUserSkills`: a fault while building an entry is caught, so the method never fails and returns
   * the entries built before it. A missing `skillvalues` throws on the first step and so gives none.
   */
  method GetUserSkills(userInfo: RawProfile) returns (levelsArray: seq<Skill>)
    ensures userInfo.skillvalues.Present? ==> ProcessedUntilFault(userInfo.skillvalues.value, levelsArray)
    ensures !userInfo.skillvalues.Present? ==> levelsArray == []
    ensures levelsArray == SkillsOf(userInfo)
  {
    levelsArray := [];
    if userInfo.skillvalues.Present? {
      var entries := userInfo.skillvalues.value;
      var i := 0;
      while i < |entries|
        invariant i == |levelsArray| <= |entries|
        invariant forall k :: 0 <= k < i ==> SkillEntry(entries[k]) == Some(levelsArray[k])
      {
        var levelObject := SkillEntry(entries[i]);
        if levelObject.None? {
          break;  // the exception is caught and logged; the entries built so far stay
        }
        levelsArray := levelsArray + [levelObject.value];
        i := i + 1;
      }
      ProcessedUntilFaultUnique(entries, levelsArray, BuildSkills(entries));
    }
  }

  // ---------------------------------------------------------------- activities

  /** One `{date, details, text}` object: each token copied, a missing or JSON-null token becoming null. */
  function CopyActivity(raw: RawActivity): (r: Activity)
    ensures r.date.Some? <==> raw.date.Present?
    ensures r.details.Some? <==> raw.details.Present?
    ensures r.text.Some? <==> raw.text.Present?
    ensures raw.date.Present? ==> r.date.value == raw.date.value
    ensures raw.details.Present? ==> r.details.value == raw.details.value
    ensures raw.text.Present? ==> r.text.value == raw.text.value
  {
    Activity(Copied(raw.date), Copied(raw.details), Copied(raw.text))
  }

  /** What `GetUserActivities` returns: nothing catches the fault of a missing `activities` field. */
  function ActivitiesOf(userInfo: RawProfile): (r: Result<seq<Activity>, ProfileError>)
    ensures r.Failure? <==> userInfo.activities.Absent?
    ensures r.Failure? ==> r.error == MalformedPayload
    ensures userInfo.activities.JsonNull? ==> r == Success([])
    ensures userInfo.activities.Present? ==>
              && |r.value| == |userInfo.activities.value|
              && forall k :: 0 <= k < |r.value| ==> r.value[k] == CopyActivity(userInfo.activities.value[k])
  {
    match userInfo.activities
    case Absent => Failure(MalformedPayload)
    case JsonNull => Success([])
    case Present(items) => Success(seq(|items|, k requires 0 <= k < |items| => CopyActivity(items[k])))
  }

  /** `GetUserActivities`: copies each `{date, details, text}` triple in order. */
  method GetUserActivities(userInfo: RawProfile) returns (r: Result<seq<Activity>, ProfileError>)
    ensures r == ActivitiesOf(userInfo)
  {
    if userInfo.activities.Absent? {
      return Failure(MalformedPayload);  // iterating a null token throws, and nothing catches it
    }
    var activitiesArray := [];
    if userInfo.activities.Present? {
      var items := userInfo.activities.value;
      var i := 0;
      while i < |items|
        invariant 0 <= i <= |items|
        invariant |activitiesArray| == i
        invariant forall k :: 0 <= k < i ==> activitiesArray[k] == CopyActivity(items[k])
      {
        activitiesArray := activitiesArray + [CopyActivity(items[i])];
        i := i + 1;
      }
      assert activitiesArray == ActivitiesOf(userInfo).value;
    }
    return Success(activitiesArray);
  }

  // ---------------------------------------------------------------- sort keys

  function SkillId(s: Skill): int { s.id }

  function IntLe(a: int, b: int): bool { a <= b }

  function ActivityDate(a: Activity): Option<string> { a.date }

  /** How two `date` tokens compare: null first, then strings in ordinal order. */
  function DateLe(a: Option<string>, b: Option<string>): (r: bool)
    ensures r <==> a.None? || (b.Some? && Lexicographic(a.value, b.value))
  {
    if a.Some? && b.Some? then
      StrLeIsLexicographic(a.value, b.value);
      StrLe(a.value, b.value)
    else
      a.None?
  }

  lemma IntLeTotalPreorder()
    ensures TotalPreorder(IntLe)
  {
  }

  lemma DateLeTotalPreorder()
    ensures TotalPreorder(DateLe)
  {
    forall a: Option<string>, b: Option<string> ensures DateLe(a, b) || DateLe(b, a) {
      if a.Some? && b.Some? {
        StrLeTotal(a.value, b.value);
      }
    }
    forall a: Option<string>, b: Option<string>, c: Option<string> | DateLe(a, b) && DateLe(b, c)
      ensures DateLe(a, c)
    {
      if a.Some? {
        StrLeTransitive(a.value, b.value, c.value);
      }
    }
  }

  // ---------------------------------------------------------------- the canonical record

  /** `name?.ToString().ToLower()`: null when `name` is missing, "" when it is JSON null. */
  function LowercaseName(name: Field<string>): (r: Option<string>)
    ensures r.None? <==> name.Absent?
    ensures name.JsonNull? ==> r == Some("")
    ensures name.Present? ==> r == Some(ToLower(name.value))
    ensures r.Some? ==> forall i :: 0 <= i < |r.value| ==> !IsAsciiUpper(r.value[i])
  {
    match name
    case Absent => None
    case JsonNull => Some("")
    case Present(s) => Some(ToLower(s))
  }

  /**
   * `GetFilteredUserData`: the skills are built first and never fail; the activities loop fails on
   * a missing `activities` field, and that failure is the only one.
   */
  function GetFilteredUserData(userInfo: RawProfile): (r: Result<Profile, ProfileError>)
    ensures r.Failure? <==> userInfo.activities.Absent?
    ensures r.Failure? ==> r.error == MalformedPayload
  {
    var levelsArray := SkillsOf(userInfo);
    match ActivitiesOf(userInfo)
    case Failure(e) => Failure(e)
    case Success(activitiesArray) =>
      Success(Profile(
        LowercaseName(userInfo.name),
        Copied(userInfo.name),
        Copied(userInfo.rank),
        Copied(userInfo.loggedIn),
        Copied(userInfo.combatlevel),
        Copied(userInfo.totalskill),
        Copied(userInfo.questsstarted),
        Copied(userInfo.questscomplete),
        Copied(userInfo.questsnotstarted),
        Copied(userInfo.totalxp),
        SortBy(levelsArray, SkillId, IntLe),
        SortBy(activitiesArray, ActivityDate, DateLe)))
  }

  /**
   * `GetUserInfo` once the payload is fetched and parsed: the two known error codes fail with their
   * messages before anything is built; otherwise the payload is normalised.
   */
  function GetUserInfo(playerInfo: RawProfile): (r: Result<Profile, ProfileError>)
    ensures playerInfo.error == Present("PROFILE_PRIVATE") <==> r == Failure(ProfilePrivate)
    ensures playerInfo.error == Present("NO_PROFILE") <==> r == Failure(NoProfile)
    ensures r.Failure? ==> (Message(r.error) == "The profile is private." <==> playerInfo.error == Present("PROFILE_PRIVATE"))
    ensures r.Failure? ==> (Message(r.error) == "The profile does not exist." <==> playerInfo.error == Present("NO_PROFILE"))
    ensures r.Failure? && r.error == MalformedPayload <==>
              playerInfo.error != Present("PROFILE_PRIVATE") && playerInfo.error != Present("NO_PROFILE")
              && playerInfo.activities.Absent?
  {
    if playerInfo.error == Present("PROFILE_PRIVATE") then Failure(ProfilePrivate)
    else if playerInfo.error == Present("NO_PROFILE") then Failure(NoProfile)
    else GetFilteredUserData(playerInfo)
  }

  // ---------------------------------------------------------------- properties of the record

  /** `skill_values` is sorted by id and is a stable permutation of the skills built before the first fault. */
  lemma SkillValuesSortedStable(userInfo: RawProfile)
    requires GetFilteredUserData(userInfo).Success?
    ensures var skills := GetFilteredUserData(userInfo).value.skillValues;
            && (forall i, j :: 0 <= i < j < |skills| ==> skills[i].id <= skills[j].id)
            && multiset(skills) == multiset(SkillsOf(userInfo))
            && forall id :: WithKey(skills, SkillId, id) == WithKey(SkillsOf(userInfo), SkillId, id)
  {
    var skills := GetFilteredUserData(userInfo).value.skillValues;
    IntLeTotalPreorder();
    SortBySorted(SkillsOf(userInfo), SkillId, IntLe);
    forall i, j | 0 <= i < j < |skills| ensures skills[i].id <= skills[j].id {
      assert IntLe(SkillId(skills[i]), SkillId(skills[j]));
    }
    forall id {
      SortByStable(SkillsOf(userInfo), SkillId, IntLe, id);
    }
  }

  /** `activities` is sorted by date and is a stable permutation of the copied input triples. */
  lemma ActivitiesSortedStable(userInfo: RawProfile)
    requires GetFilteredUserData(userInfo).Success?
    ensures var acts := GetFilteredUserData(userInfo).value.activities;
            var copied := ActivitiesOf(userInfo).value;
            && (forall i, j :: 0 <= i < j < |acts| ==> DateLe(acts[i].date, acts[j].date))
            && multiset(acts) == multiset(copied)
            && forall date :: WithKey(acts, ActivityDate, date) == WithKey(copied, ActivityDate, date)
  {
    var acts := GetFilteredUserData(userInfo).value.activities;
    var copied := ActivitiesOf(userInfo).value;
    DateLeTotalPreorder();
    SortBySorted(copied, ActivityDate, DateLe);
    forall i, j | 0 <= i < j < |acts| ensures DateLe(acts[i].date, acts[j].date) {
      assert DateLe(ActivityDate(acts[i]), ActivityDate(acts[j]));
    }
    forall date {
      SortByStable(copied, ActivityDate, DateLe, date);
    }
  }

  /**
   * Each output skill is the object of some well-formed input entry: its id, level and rank copied,
   * its name from the table, its xp the raw xp divided by 10 with truncation.
   */
  lemma SkillValuesFromEntries(userInfo: RawProfile, s: Skill)
    requires GetFilteredUserData(userInfo).Success?
    requires s in GetFilteredUserData(userInfo).value.skillValues
    ensures userInfo.skillvalues.Present?
    ensures exists k :: 0 <= k < |userInfo.skillvalues.value| && SkillEntry(userInfo.skillvalues.value[k]) == Some(s)
    ensures s.skillName == SkillName(s.id)
  {
    var skills := GetFilteredUserData(userInfo).value.skillValues;
    SkillValuesSortedStable(userInfo);
    assert s in multiset(skills);
    assert s in SkillsOf(userInfo);
    var k :| 0 <= k < |SkillsOf(userInfo)| && SkillsOf(userInfo)[k] == s;
  }

  /** The entry `{id: 1, level: 99, xp: 1303443, rank: 1}` becomes Defence with xp 130344. */
  lemma DefenceEntryExample()
    ensures SkillEntry(RawSkill(Present(1), Present(99), Present(1303443), Present(1)))
         == Some(Skill(1, Some("Defence"), Some(99), 130344, Some(1)))
  {
  }

  /**
   * `lowercaseName` is derived from `name` (null when missing, "" when JSON null, lower case of a
   * string); `name` and the scalar fields are copied unchanged, a missing or null token giving null.
   */
  lemma NameAndScalarsCopied(userInfo: RawProfile)
    requires GetFilteredUserData(userInfo).Success?
    ensures var p := GetFilteredUserData(userInfo).value;
            && (p.name.Some? ==> p.lowercaseName == Some(ToLower(p.name.value)))
            && p.lowercaseName == LowercaseName(userInfo.name)
            && p.name == Copied(userInfo.name)
            && p.rank == Copied(userInfo.rank)
            && p.loggedIn == Copied(userInfo.loggedIn)
            && p.combatlevel == Copied(userInfo.combatlevel)
            && p.totalskill == Copied(userInfo.totalskill)
            && p.questsstarted == Copied(userInfo.questsstarted)
            && p.questscomplete == Copied(userInfo.questscomplete)
            && p.questsnotstarted == Copied(userInfo.questsnotstarted)
            && p.totalxp == Copied(userInfo.totalxp)
  {
  }
}
