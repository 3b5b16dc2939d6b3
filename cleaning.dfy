/** Ingestion (src/data_models/cleaning.rs): the raw Untis response records
    and their conversion into the cleaned model. Timestamp parsing is not
    modelled: a grid entry carries its already parsed time range. A panic of
    the source (an unrecognised resource type) is an `Err` carrying the
    panic message. */
module Cleaning {
  import opened Wrappers
  import opened Text
  import opened Sorting
  import opened CleanModels

  datatype UntisTeacher = UntisTeacher(id: int, shortName: string, longName: string, displayName: string)

  datatype UntisDepartment = UntisDepartment(id: int, shortName: string, longName: string, displayName: string)

  datatype UntisClassInfo = UntisClassInfo(id: int, shortName: string, longName: string, displayName: string)

  datatype UntisClassEntry = UntisClassEntry(
    classInfo: UntisClassInfo,
    classTeacher1: Option<UntisTeacher>,
    classTeacher2: Option<UntisTeacher>,
    department: UntisDepartment)

  /** A resource of a grid entry; `kind` is the source's `r#type`. */
  datatype UntisResource = UntisResource(
    kind: string,
    status: string,
    shortName: string,
    longName: string,
    displayName: string,
    displayNameLabel: Option<string>,
    text: Option<string>)

  datatype UntisPosition = UntisPosition(current: Option<UntisResource>, removed: Option<UntisResource>)

  /** A grid entry; `duration` is the parsed `UntisDuration`. */
  datatype UntisGridEntry = UntisGridEntry(
    duration: TimeRange,
    kind: string,
    status: string,
    statusDetail: Option<string>,
    name: Option<string>,
    color: string,
    notesAll: string,
    icons: seq<string>,
    position1: Option<seq<UntisPosition>>,
    position2: Option<seq<UntisPosition>>,
    position3: Option<seq<UntisPosition>>,
    position4: Option<seq<UntisPosition>>,
    position5: Option<seq<UntisPosition>>,
    position6: Option<seq<UntisPosition>>,
    position7: Option<seq<UntisPosition>>,
    lessonText: string,
    substitutionText: string,
    userName: Option<string>,
    link: Option<string>)

  // ---------------------------------------------------------------------
  // Plain constructors
  // ---------------------------------------------------------------------

  function DepartmentFrom(d: UntisDepartment): (r: Department)
    ensures r.id == d.id && r.shortName == d.shortName
    ensures r.longName == d.longName && r.displayName == d.displayName
  {
    Department(d.id, d.shortName, d.longName, d.displayName)
  }

  /** A class entry's teacher always knows its id. */
  function TeacherFrom(t: UntisTeacher): (r: Teacher)
    ensures r.id == Some(t.id)
    ensures r.shortName == t.shortName && r.longName == t.longName && r.displayName == t.displayName
  {
    Teacher(Some(t.id), t.shortName, t.longName, t.displayName)
  }

  function ClassFrom(entry: UntisClassEntry): (r: Class)
    ensures r.id == entry.classInfo.id && r.name == entry.classInfo.shortName
    ensures r.department == DepartmentFrom(entry.department)
    ensures r.classTeacher.None? <==> entry.classTeacher1.None?
    ensures entry.classTeacher1.Some? ==> r.classTeacher == Some(TeacherFrom(entry.classTeacher1.value))
  {
    Class(
      entry.classInfo.id,
      entry.classInfo.shortName,
      match entry.classTeacher1 case Some(t) => Some(TeacherFrom(t)) case None => None,
      DepartmentFrom(entry.department))
  }

  /** Only the first class teacher is used; the second and the class's long
      and display names are dropped. */
  lemma ClassIgnoresSecondTeacher(a: UntisClassEntry, b: UntisClassEntry)
    requires a.classInfo.id == b.classInfo.id && a.classInfo.shortName == b.classInfo.shortName
    requires a.classTeacher1 == b.classTeacher1 && a.department == b.department
    ensures ClassFrom(a) == ClassFrom(b)
  {
  }

  // ---------------------------------------------------------------------
  // Resources
  // ---------------------------------------------------------------------

  /** The lower-cased resource types the conversion recognises. */
  predicate KnownKind(lower: string) {
    lower == "teacher" || lower == "subject" || lower == "room" || lower == "klasse"
    || lower == "class" || lower == "lesson_info" || lower == "info"
  }

  /** `From<UntisResource> for Entity`: dispatch on the lower-cased type. */
  function ResourceToEntity(res: UntisResource): (r: Result<Entity, string>)
    ensures r.Ok? <==> KnownKind(ToLower(res.kind))
    ensures r.Err? ==> r.error == "Unrecognized resource type: " + res.kind
    ensures r.Ok? && r.value.OfTeacher? ==>
      ToLower(res.kind) == "teacher" && r.value.teacher == Teacher(None, res.shortName, res.longName, res.displayName)
    ensures r.Ok? && r.value.OfSubject? ==>
      ToLower(res.kind) == "subject" && r.value.subject == Subject(res.shortName, res.longName, res.displayName)
    ensures r.Ok? && r.value.OfRoom? ==> ToLower(res.kind) == "room" && r.value.room.name == res.shortName
    ensures r.Ok? && r.value.OfClass? ==>
      (ToLower(res.kind) == "klasse" || ToLower(res.kind) == "class")
      && r.value.cls == Class(0, res.shortName, None, DefaultDepartment())
    ensures r.Ok? && r.value.OfInfo? ==>
      (ToLower(res.kind) == "lesson_info" || ToLower(res.kind) == "info")
      && r.value.info.text == res.text.GetOr("")
  {
    var lower := ToLower(res.kind);
    if lower == "teacher" then
      Ok(OfTeacher(Teacher(None, res.shortName, res.longName, res.displayName)))
    else if lower == "subject" then
      Ok(OfSubject(Subject(res.shortName, res.longName, res.displayName)))
    else if lower == "room" then
      Ok(OfRoom(Room(res.shortName)))
    else if lower == "klasse" || lower == "class" then
      Ok(OfClass(Class(0, res.shortName, None, DefaultDepartment())))
    else if lower == "lesson_info" || lower == "info" then
      Ok(OfInfo(Info(res.text.GetOr(""))))
    else
      Err("Unrecognized resource type: " + res.kind)
  }

  lemma LowerIdempotent(s: string)
    ensures ToLower(ToLower(s)) == ToLower(s)
  {
  }

  /** Two spellings of a type that differ only in the case of ASCII letters
      give the same entity. */
  lemma ResourceCaseInsensitive(a: UntisResource, b: UntisResource)
    requires ToLower(a.kind) == ToLower(b.kind)
    requires a.shortName == b.shortName && a.longName == b.longName
    requires a.displayName == b.displayName && a.text == b.text
    ensures ResourceToEntity(a).Ok? <==> ResourceToEntity(b).Ok?
    ensures ResourceToEntity(a).Ok? ==> ResourceToEntity(a) == ResourceToEntity(b)
  {
  }

  /** A teacher taken from a grid resource has no id, while one taken from a
      class entry always has one, so the two are never the same value. */
  lemma GridTeacherDiffersFromClassTeacher(res: UntisResource, t: UntisTeacher)
    requires ResourceToEntity(res).Ok?
    ensures ResourceToEntity(res).value != OfTeacher(TeacherFrom(t))
  {
  }

  // ---------------------------------------------------------------------
  // Positions
  // ---------------------------------------------------------------------

  /** The entry for the current resource, if any: Changed when a removed
      resource stands beside it, Regular otherwise. */
  function CurrentPart(pos: UntisPosition): Result<seq<Tracked>, string> {
    match pos.current
    case None => Ok([])
    case Some(c) =>
      match ResourceToEntity(c)
      case Err(m) => Err(m)
      case Ok(e) => Ok([Tracked(e, if pos.removed.Some? then Changed else Regular)])
  }

  /** The entry for the removed resource, if any. */
  function RemovedPart(pos: UntisPosition): Result<seq<Tracked>, string> {
    match pos.removed
    case None => Ok([])
    case Some(c) =>
      match ResourceToEntity(c)
      case Err(m) => Err(m)
      case Ok(e) => Ok([Tracked(e, Removed)])
  }

  /** Sequencing of two conversions: the first failure wins, otherwise the
      results are concatenated. */
  function Then(a: Result<seq<Tracked>, string>, b: Result<seq<Tracked>, string>): (r: Result<seq<Tracked>, string>)
    ensures r.Ok? <==> a.Ok? && b.Ok?
    ensures r.Ok? ==> r.value == a.value + b.value
    ensures a.Err? ==> r == a
    ensures a.Ok? && b.Err? ==> r == b
  {
    if a.Err? then a else if b.Err? then b else Ok(a.value + b.value)
  }

  /** The entities of one position: the current part, then the removed part. */
  function PositionEntities(pos: UntisPosition): Result<seq<Tracked>, string> {
    Then(CurrentPart(pos), RemovedPart(pos))
  }

  /** `From<UntisPosition> for Vec<Tracked<Entity>>`. */
  method PositionToTracked(pos: UntisPosition) returns (r: Result<seq<Tracked>, string>)
    ensures r == PositionEntities(pos)
  {
    var tracked: seq<Tracked> := [];
    if pos.current.Some? {
      var e := ResourceToEntity(pos.current.value);
      if e.Err? {
        return Err(e.error);
      }
      var status := if pos.removed.Some? then Changed else Regular;
      tracked := tracked + [Tracked(e.value, status)];
      assert tracked == [Tracked(e.value, status)];
      assert CurrentPart(pos) == Ok(tracked);
    } else {
      assert CurrentPart(pos) == Ok(tracked);
    }
    if pos.removed.Some? {
      var e := ResourceToEntity(pos.removed.value);
      if e.Err? {
        return Err(e.error);
      }
      assert RemovedPart(pos) == Ok([Tracked(e.value, Removed)]);
      tracked := tracked + [Tracked(e.value, Removed)];
    } else {
      assert RemovedPart(pos) == Ok([]);
      assert tracked + [] == tracked;
    }
    return Ok(tracked);
  }

  /** The four shapes of a position whose resources are all recognised. */
  lemma PositionCases(pos: UntisPosition)
    requires pos.current.Some? ==> ResourceToEntity(pos.current.value).Ok?
    requires pos.removed.Some? ==> ResourceToEntity(pos.removed.value).Ok?
    ensures PositionEntities(pos).Ok?
    ensures pos.current.Some? && pos.removed.Some? ==>
      PositionEntities(pos).value == [Tracked(ResourceToEntity(pos.current.value).value, Changed),
                                      Tracked(ResourceToEntity(pos.removed.value).value, Removed)]
    ensures pos.current.Some? && pos.removed.None? ==>
      PositionEntities(pos).value == [Tracked(ResourceToEntity(pos.current.value).value, Regular)]
    ensures pos.current.None? && pos.removed.Some? ==>
      PositionEntities(pos).value == [Tracked(ResourceToEntity(pos.removed.value).value, Removed)]
    ensures pos.current.None? && pos.removed.None? ==> PositionEntities(pos).value == []
  {
  }

  /** A position fails exactly when one of its resources is unrecognised,
      and then with the message of the first such resource. */
  lemma PositionFailure(pos: UntisPosition)
    ensures PositionEntities(pos).Err? <==>
      (pos.current.Some? && ResourceToEntity(pos.current.value).Err?)
      || (pos.removed.Some? && ResourceToEntity(pos.removed.value).Err?)
    ensures pos.current.Some? && ResourceToEntity(pos.current.value).Err? ==>
      PositionEntities(pos).error == ResourceToEntity(pos.current.value).error
  {
  }

  /** A position yields at most two entities and at most one of them is not
      Removed. */
  lemma PositionShape(pos: UntisPosition)
    requires PositionEntities(pos).Ok?
    ensures |PositionEntities(pos).value| <= 2
    ensures |PositionEntities(pos).value| == (if pos.current.Some? then 1 else 0) + (if pos.removed.Some? then 1 else 0)
    ensures forall j :: 1 <= j < |PositionEntities(pos).value| ==> PositionEntities(pos).value[j].status == Removed
  {
  }

  // ---------------------------------------------------------------------
  // Grid entries
  // ---------------------------------------------------------------------

  function SlotPositions(slot: Option<seq<UntisPosition>>): seq<UntisPosition> {
    slot.GetOr([])
  }

  /** Positions 1 to 7 chained, each list in its own order; an absent
      position list contributes nothing. */
  function AllPositions(entry: UntisGridEntry): seq<UntisPosition> {
    SlotPositions(entry.position1) + SlotPositions(entry.position2) + SlotPositions(entry.position3)
    + SlotPositions(entry.position4) + SlotPositions(entry.position5) + SlotPositions(entry.position6)
    + SlotPositions(entry.position7)
  }

  /** The entities of a list of positions, in order; the first failure wins. */
  function EntitiesOf(ps: seq<UntisPosition>): (r: Result<seq<Tracked>, string>)
    decreases |ps|
  {
    if ps == [] then Ok([]) else Then(EntitiesOf(ps[..|ps| - 1]), PositionEntities(ps[|ps| - 1]))
  }

  /** The entity list is the concatenation of the positions' lists. */
  lemma {:induction false} EntitiesOfAppend(ps: seq<UntisPosition>, qs: seq<UntisPosition>)
    ensures EntitiesOf(ps + qs).Ok? <==> EntitiesOf(ps).Ok? && EntitiesOf(qs).Ok?
    ensures EntitiesOf(ps + qs).Ok? ==> EntitiesOf(ps + qs).value == EntitiesOf(ps).value + EntitiesOf(qs).value
    decreases |qs|
  {
    if qs == [] {
      assert ps + qs == ps;
    } else {
      var n := |qs| - 1;
      assert (ps + qs)[..|ps + qs| - 1] == ps + qs[..n];
      assert (ps + qs)[|ps + qs| - 1] == qs[n];
      EntitiesOfAppend(ps, qs[..n]);
    }
  }

  /** Every position converts successfully exactly when the whole list does. */
  lemma {:induction false} EntitiesOfOk(ps: seq<UntisPosition>)
    ensures EntitiesOf(ps).Ok? <==> forall i :: 0 <= i < |ps| ==> PositionEntities(ps[i]).Ok?
    decreases |ps|
  {
    if ps != [] {
      var n := |ps| - 1;
      var init := ps[..n];
      EntitiesOfOk(init);
      assert EntitiesOf(ps) == Then(EntitiesOf(init), PositionEntities(ps[n]));
      assert forall i :: 0 <= i < n ==> init[i] == ps[i];
    }
  }

  /** A failure in a prefix is the failure of the whole list. */
  lemma {:induction false} EntitiesOfFailFirst(ps: seq<UntisPosition>, qs: seq<UntisPosition>)
    requires EntitiesOf(ps).Err?
    ensures EntitiesOf(ps + qs) == EntitiesOf(ps)
    decreases |qs|
  {
    if qs == [] {
      assert ps + qs == ps;
    } else {
      var n := |qs| - 1;
      assert (ps + qs)[..|ps + qs| - 1] == ps + qs[..n];
      EntitiesOfFailFirst(ps, qs[..n]);
    }
  }

  lemma EntitiesOfStep(ps: seq<UntisPosition>, i: int)
    requires 0 <= i < |ps|
    ensures EntitiesOf(ps[..i + 1]) == Then(EntitiesOf(ps[..i]), PositionEntities(ps[i]))
  {
    assert ps[..i + 1][..i] == ps[..i];
  }

  /** The extension loop of `From<UntisGridEntry>`. */
  method CollectEntities(positions: seq<UntisPosition>) returns (r: Result<seq<Tracked>, string>)
    ensures r == EntitiesOf(positions)
  {
    var entities: seq<Tracked> := [];
    for i := 0 to |positions|
      invariant EntitiesOf(positions[..i]) == Ok(entities)
    {
      var part := PositionToTracked(positions[i]);
      EntitiesOfStep(positions, i);
      if part.Err? {
        EntitiesOfFailFirst(positions[..i + 1], positions[i + 1..]);
        TakeDrop(positions, i + 1);
        return Err(part.error);
      }
      entities := entities + part.value;
    }
    SliceWhole(positions);
    return Ok(entities);
  }

  /** The `texts` map: notesAll, lessonText and substitutionText always,
      statusDetail, name and userName exactly when given, nothing else. */
  predicate TextsMatch(t: map<string, string>, entry: UntisGridEntry) {
    && t.Keys <= {"notesAll", "lessonText", "substitutionText", "statusDetail", "name", "userName"}
    && "notesAll" in t && t["notesAll"] == entry.notesAll
    && "lessonText" in t && t["lessonText"] == entry.lessonText
    && "substitutionText" in t && t["substitutionText"] == entry.substitutionText
    && ("statusDetail" in t <==> entry.statusDetail.Some?)
    && (entry.statusDetail.Some? ==> t["statusDetail"] == entry.statusDetail.value)
    && ("name" in t <==> entry.name.Some?)
    && (entry.name.Some? ==> t["name"] == entry.name.value)
    && ("userName" in t <==> entry.userName.Some?)
    && (entry.userName.Some? ==> t["userName"] == entry.userName.value)
  }

  /** The texts map of a grid entry, built key by key. */
  method TextsOf(entry: UntisGridEntry) returns (texts: map<string, string>)
    ensures TextsMatch(texts, entry)
  {
    texts := map[];
    texts := texts["notesAll" := entry.notesAll];
    texts := texts["lessonText" := entry.lessonText];
    texts := texts["substitutionText" := entry.substitutionText];
    if entry.statusDetail.Some? {
      texts := texts["statusDetail" := entry.statusDetail.value];
    }
    if entry.name.Some? {
      texts := texts["name" := entry.name.value];
    }
    if entry.userName.Some? {
      texts := texts["userName" := entry.userName.value];
    }
  }

  /** `From<UntisGridEntry> for LessonBlock`. */
  method GridEntryToLessonBlock(entry: UntisGridEntry) returns (r: Result<LessonBlock, string>)
    ensures r.Err? <==> EntitiesOf(AllPositions(entry)).Err?
    ensures r.Err? ==> r.error == EntitiesOf(AllPositions(entry)).error
    ensures r.Ok? ==> r.value.entities == EntitiesOf(AllPositions(entry)).value
    ensures r.Ok? ==> r.value.timeRange == entry.duration && r.value.kind == entry.kind && r.value.status == entry.status
    ensures r.Ok? ==> r.value.colorHex == entry.color && r.value.icons == entry.icons
    ensures r.Ok? ==> r.value.link == entry.link.GetOr("")
    ensures r.Ok? ==> |r.value.texts| == 1 && TextsMatch(r.value.texts[0], entry)
  {
    var entities := CollectEntities(AllPositions(entry));
    if entities.Err? {
      return Err(entities.error);
    }
    var texts := TextsOf(entry);
    r := Ok(LessonBlock(entry.duration, entities.value, entry.kind, entry.status, entry.color, entry.icons, [texts], entry.link.GetOr("")));
  }
}
