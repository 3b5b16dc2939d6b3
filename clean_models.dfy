/** The cleaned timetable data model: entities, change tracking, lesson
    blocks, days and weeks (src/data_models/clean_models/clean_models.rs, in
    the shape its consumers use: `Tracked.inner`, `DayTimeTable.date` and the
    `Info` entity). Timestamps are a day number and a minute of that day. */
module CleanModels {
  import opened Wrappers
  import opened Sorting

  /** Minutes since midnight; Untis timestamps carry no seconds. */
  type MinuteOfDay = m: int | 0 <= m < 1440

  /** A naive local timestamp: `date` counts days since 1970-01-01. */
  datatype DateTime = DateTime(date: int, time: MinuteOfDay)

  /** Position of a timestamp on one time line, in minutes; it orders
      timestamps as chrono does (by date, then by time of day). */
  function Instant(t: DateTime): int {
    t.date * 1440 + t.time
  }

  lemma InstantOrder(a: DateTime, b: DateTime)
    ensures Instant(a) < Instant(b) <==> a.date < b.date || (a.date == b.date && a.time < b.time)
  {
  }

  datatype TimeRange = TimeRange(start: DateTime, end: DateTime)

  datatype Department = Department(id: int, shortName: string, longName: string, displayName: string)

  /** `id` is known only for a class's own teacher. */
  datatype Teacher = Teacher(id: Option<int>, shortName: string, longName: string, displayName: string)

  datatype Class = Class(id: int, name: string, classTeacher: Option<Teacher>, department: Department)

  datatype Room = Room(name: string)

  datatype Subject = Subject(shortName: string, longName: string, displayName: string)

  datatype Info = Info(text: string)

  /** Equality is structural, so a teacher without an id and the same teacher
      with an id are different entities. */
  datatype Entity =
    | OfTeacher(teacher: Teacher)
    | OfClass(cls: Class)
    | OfRoom(room: Room)
    | OfSubject(subject: Subject)
    | OfInfo(info: Info)

  datatype ChangeStatus = Regular | Changed | Removed | New

  datatype Tracked = Tracked(inner: Entity, status: ChangeStatus)

  /** One scheduled interval. `kind` is the source's `r#type`. */
  datatype LessonBlock = LessonBlock(
    timeRange: TimeRange,
    entities: seq<Tracked>,
    kind: string,
    status: string,
    colorHex: string,
    icons: seq<string>,
    texts: seq<map<string, string>>,
    link: string)

  datatype DayTimeTable = DayTimeTable(date: int, lessons: seq<LessonBlock>)

  datatype WeekTimeTable = WeekTimeTable(days: seq<DayTimeTable>)

  function DayLessons(d: DayTimeTable): seq<LessonBlock> {
    d.lessons
  }

  /** `days.iter().flat_map(|d| d.lessons)`: the blocks, day after day. */
  function AllLessons(days: seq<DayTimeTable>): seq<LessonBlock> {
    Flatten(Map(days, DayLessons))
  }

  /** One more day appends its blocks. */
  lemma AllLessonsSnoc(days: seq<DayTimeTable>, d: int)
    requires 0 <= d < |days|
    ensures AllLessons(days[..d + 1]) == AllLessons(days[..d]) + days[d].lessons
  {
    var m := Map(days[..d + 1], DayLessons);
    assert m[..d] == Map(days[..d], DayLessons);
  }

  function Start(l: LessonBlock): int {
    Instant(l.timeRange.start)
  }

  function End(l: LessonBlock): int {
    Instant(l.timeRange.end)
  }

  function Duration(l: LessonBlock): int {
    End(l) - Start(l)
  }

  /** `LessonBlock::overlaps`: the half-open intervals intersect. */
  predicate Overlaps(a: LessonBlock, b: LessonBlock) {
    Start(a) < End(b) && Start(b) < End(a)
  }

  lemma OverlapsSymmetric(a: LessonBlock, b: LessonBlock)
    ensures Overlaps(a, b) <==> Overlaps(b, a)
  {
  }

  function DefaultDepartment(): Department {
    Department(0, "", "", "")
  }

  /** `LessonBlock { time_range, r#type: "Break", ..Default::default() }`. */
  function BreakBlock(range: TimeRange): (b: LessonBlock)
    ensures b.timeRange == range && b.kind == "Break"
    ensures b.entities == [] && b.status == "" && b.colorHex == "" && b.icons == [] && b.texts == [] && b.link == ""
  {
    LessonBlock(range, [], "Break", "", "", [], [], "")
  }

  /** A synthetic break: type "Break" and every other field at its default. */
  predicate IsBreak(b: LessonBlock) {
    b == BreakBlock(b.timeRange)
  }
}
