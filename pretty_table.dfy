/** The fixed-width text rendering of a week (`WeekTimeTable::to_string_pretty`
    in src/data_models/clean_models/clean_models.rs): one column of times,
    one 34-character column per day, one row block per time slot between
    consecutive boundary points. Clock times are minutes of the day; the
    source's `(hour, minute)` pairs order the same way. */
module PrettyTable {
  import opened Wrappers
  import opened Text
  import opened Sorting
  import opened CleanModels

  const ColWidth: nat := 34
  const TimeColWidth: nat := 5
  const DayNames: seq<string> := ["Mon", "Tue", "Wed", "Thu", "Fri", "Sat", "Sun"]
  const NoLessonsText: string := "No lessons scheduled."

  /** The five `render_*` switches, in the source's parameter order. */
  datatype Flags = Flags(classes: bool, teacher: bool, subject: bool, room: bool, status: bool)

  /** The entries of `active_types`: "sub", "tea", "cla", "roo", "sta". */
  datatype Field = Sub | Tea | Cla | Roo | Sta

  function Rank(k: Field): nat {
    match k
    case Sub => 0
    case Tea => 1
    case Cla => 2
    case Roo => 3
    case Sta => 4
  }

  predicate Enabled(f: Flags, k: Field) {
    match k
    case Sub => f.subject
    case Tea => f.teacher
    case Cla => f.classes
    case Roo => f.room
    case Sta => f.status
  }

  /** The enabled fields of `ks`, in the order of `ks`. */
  function Pick(f: Flags, ks: seq<Field>): (r: seq<Field>)
    ensures forall k :: k in r <==> k in ks && Enabled(f, k)
  {
    if ks == [] then []
    else (if Enabled(f, ks[0]) then [ks[0]] else []) + Pick(f, ks[1..])
  }

  /** Picking keeps the order of ranks. */
  lemma {:induction false} PickIncreasing(f: Flags, ks: seq<Field>)
    requires forall i, j :: 0 <= i < j < |ks| ==> Rank(ks[i]) < Rank(ks[j])
    ensures forall i, j :: 0 <= i < j < |Pick(f, ks)| ==> Rank(Pick(f, ks)[i]) < Rank(Pick(f, ks)[j])
  {
    if ks != [] {
      PickIncreasing(f, ks[1..]);
      var rest := Pick(f, ks[1..]);
      forall x | x in rest ensures Rank(ks[0]) < Rank(x) {
        var j :| 0 <= j < |ks[1..]| && ks[1..][j] == x;
        assert ks[j + 1] == x;
      }
    }
  }

  const FieldOrder: seq<Field> := [Sub, Tea, Cla, Roo, Sta]

  /** `active_types`: the enabled fields in the order sub, tea, cla, roo, sta. */
  function ActiveFields(f: Flags): seq<Field> {
    Pick(f, FieldOrder)
  }

  /** `active_types` holds exactly the enabled fields, each once, in the
      fixed order. */
  lemma ActiveFieldsSpec(f: Flags)
    ensures forall k :: k in ActiveFields(f) <==> Enabled(f, k)
    ensures forall i, j :: 0 <= i < j < |ActiveFields(f)| ==> Rank(ActiveFields(f)[i]) < Rank(ActiveFields(f)[j])
  {
    PickIncreasing(f, FieldOrder);
    forall k ensures k in FieldOrder {
      match k
      case Sub => assert FieldOrder[0] == k;
      case Tea => assert FieldOrder[1] == k;
      case Cla => assert FieldOrder[2] == k;
      case Roo => assert FieldOrder[3] == k;
      case Sta => assert FieldOrder[4] == k;
    }
  }

  /** `active_types.len().max(1)`. */
  function LineCount(fields: seq<Field>): nat {
    if |fields| == 0 then 1 else |fields|
  }

  // ----------------------------------------------------------------------
  // Boundary points and slots

  function StartMinute(l: LessonBlock): MinuteOfDay {
    l.timeRange.start.time
  }

  function EndMinute(l: LessonBlock): MinuteOfDay {
    l.timeRange.end.time
  }

  /** `BTreeSet::insert`, the set kept as its strictly increasing sequence. */
  function InsertPoint(p: MinuteOfDay, s: seq<MinuteOfDay>): (r: seq<MinuteOfDay>)
    requires StrictlyIncreasing(s)
    ensures StrictlyIncreasing(r)
    ensures forall x :: x in r <==> x == p || x in s
  {
    if s == [] then [p]
    else if p < s[0] then [p] + s
    else if p == s[0] then s
    else
      assert forall x :: x in s[1..] ==> s[0] < x;
      var t := InsertPoint(p, s[1..]);
      assert forall x :: x in t ==> s[0] < x;
      ConsIncreasing(s[0], t);
      [s[0]] + t
  }

  /** The points collected from the blocks `ls`, in iteration order. */
  function PointsOf(ls: seq<LessonBlock>): (r: seq<MinuteOfDay>)
    ensures StrictlyIncreasing(r)
  {
    if ls == [] then []
    else
      var l := ls[|ls| - 1];
      InsertPoint(EndMinute(l), InsertPoint(StartMinute(l), PointsOf(ls[..|ls| - 1])))
  }

  lemma PointsOfSnoc(init: seq<LessonBlock>, l: LessonBlock)
    ensures PointsOf(init + [l]) == InsertPoint(EndMinute(l), InsertPoint(StartMinute(l), PointsOf(init)))
  {
    assert (init + [l])[..|init|] == init;
  }

  /** The boundary points are the distinct start and end clock times of the
      blocks, in increasing order, and there are none exactly when there are
      no blocks. */
  lemma {:induction false} PointsAreEndpoints(ls: seq<LessonBlock>)
    ensures StrictlyIncreasing(PointsOf(ls))
    ensures forall x :: x in PointsOf(ls) <==> exists l :: l in ls && (x == StartMinute(l) || x == EndMinute(l))
    ensures PointsOf(ls) == [] <==> ls == []
  {
    if ls != [] {
      var init := ls[..|ls| - 1];
      var l := ls[|ls| - 1];
      PointsAreEndpoints(init);
      assert ls == init + [l];
      forall x ensures x in PointsOf(ls) <==> exists m :: m in ls && (x == StartMinute(m) || x == EndMinute(m)) {
        if x in PointsOf(init) {
          var m :| m in init && (x == StartMinute(m) || x == EndMinute(m));
          assert m in ls;
        }
        if exists m :: m in ls && (x == StartMinute(m) || x == EndMinute(m)) {
          var m :| m in ls && (x == StartMinute(m) || x == EndMinute(m));
          if m != l {
            assert m in init;
          }
        }
      }
      assert StartMinute(l) in PointsOf(ls);
    }
  }

  /** The candidate slots: each point paired with the next one. */
  function Slots(points: seq<MinuteOfDay>): (r: seq<(MinuteOfDay, MinuteOfDay)>)
    ensures |r| == if |points| == 0 then 0 else |points| - 1
    ensures forall i :: 0 <= i < |r| ==> r[i] == (points[i], points[i + 1])
  {
    if |points| <= 1 then []
    else Slots(points[..|points| - 1]) + [(points[|points| - 2], points[|points| - 1])]
  }

  /** The block overlaps the slot `[a, b)` on the clock. */
  predicate Intersects(l: LessonBlock, a: int, b: int) {
    StartMinute(l) < b && EndMinute(l) > a
  }

  predicate StrictlySpans(l: LessonBlock, a: int, b: int) {
    StartMinute(l) < a && EndMinute(l) > b
  }

  predicate DayHasContent(day: DayTimeTable, a: int, b: int) {
    exists l :: l in day.lessons && Intersects(l, a, b)
  }

  predicate DayHasSignificantContent(day: DayTimeTable, a: int, b: int) {
    exists l :: l in day.lessons && Intersects(l, a, b) && !StrictlySpans(l, a, b)
  }

  predicate HasContent(days: seq<DayTimeTable>, a: int, b: int) {
    exists day :: day in days && DayHasContent(day, a, b)
  }

  predicate HasSignificantContent(days: seq<DayTimeTable>, a: int, b: int) {
    exists day :: day in days && DayHasSignificantContent(day, a, b)
  }

  /** A slot gets rows when some block of the week intersects it and, if it
      is shorter than 35 minutes, some intersecting block does not strictly
      span it. */
  predicate Kept(days: seq<DayTimeTable>, a: int, b: int) {
    HasContent(days, a, b) && (b - a >= 35 || HasSignificantContent(days, a, b))
  }

  // ----------------------------------------------------------------------
  // Cells

  /** `find_map` over the entities: the short name of the first subject. */
  function SubjectName(es: seq<Tracked>): (r: string)
    ensures (forall e :: e in es ==> !e.inner.OfSubject?) ==> r == ""
    ensures forall i :: 0 <= i < |es| && es[i].inner.OfSubject? && (forall k :: 0 <= k < i ==> !es[k].inner.OfSubject?)
              ==> r == es[i].inner.subject.shortName
  {
    if es == [] then ""
    else if es[0].inner.OfSubject? then es[0].inner.subject.shortName
    else
      assert forall i :: 0 < i < |es| ==> es[i] == es[1..][i - 1];
      SubjectName(es[1..])
  }

  /** The name each entity contributes to a field, if it is of that kind. */
  function NameFor(e: Entity, k: Field): Option<string> {
    match (k, e)
    case (Tea, OfTeacher(t)) => Some(t.shortName)
    case (Cla, OfClass(c)) => Some(c.name)
    case (Roo, OfRoom(r)) => Some(r.name)
    case _ => None
  }

  /** `filter_map` over the entities for one field, in entity order. */
  function NamesFor(es: seq<Tracked>, k: Field): (r: seq<string>)
    ensures forall n :: n in r <==> exists e :: e in es && NameFor(e.inner, k) == Some(n)
  {
    if es == [] then []
    else
      var rest := NamesFor(es[..|es| - 1], k);
      assert forall e :: e in es <==> e in es[..|es| - 1] || e == es[|es| - 1];
      match NameFor(es[|es| - 1].inner, k)
      case Some(n) => rest + [n]
      case None => rest
  }

  /** What one block shows on the line of field `k` (nothing past the last
      active field). */
  function FieldValue(l: LessonBlock, k: Option<Field>): string {
    match k
    case Some(Sub) => SubjectName(l.entities)
    case Some(Sta) => l.status
    case Some(f) => Join(NamesFor(l.entities, f), ",")
    case None => ""
  }

  /** `lessons_in_slot`: the day's blocks that intersect the slot, in order. */
  function InSlot(ls: seq<LessonBlock>, a: int, b: int): (r: seq<LessonBlock>)
    ensures forall l :: l in r <==> l in ls && Intersects(l, a, b)
  {
    if ls == [] then []
    else
      var rest := InSlot(ls[..|ls| - 1], a, b);
      var l := ls[|ls| - 1];
      assert forall m :: m in ls <==> m in ls[..|ls| - 1] || m == l;
      if Intersects(l, a, b) then rest + [l] else rest
  }

  /** The non-empty values of the blocks, in order. */
  function NonEmptyValues(ls: seq<LessonBlock>, k: Option<Field>): (r: seq<string>)
    ensures forall v :: v in r <==> v != "" && exists l :: l in ls && FieldValue(l, k) == v
  {
    if ls == [] then []
    else
      var rest := NonEmptyValues(ls[..|ls| - 1], k);
      var l := ls[|ls| - 1];
      assert forall m :: m in ls <==> m in ls[..|ls| - 1] || m == l;
      if FieldValue(l, k) != "" then rest + [FieldValue(l, k)] else rest
  }

  /** Cell text longer than the column keeps its first 33 characters and
      gains an ellipsis; shorter text is left alone. */
  function Truncate(s: string): (r: string)
    ensures |r| <= ColWidth
    ensures |s| <= ColWidth ==> r == s
    ensures |s| > ColWidth ==> |r| == ColWidth && r[..ColWidth - 1] == s[..ColWidth - 1] && r[ColWidth - 1] == '\U{2026}'
  {
    if |s| > ColWidth then s[..ColWidth - 1] + "\U{2026}" else s
  }

  /** `full_text` for one day on one line of the slot `[a, b)`. */
  function CellText(day: DayTimeTable, k: Option<Field>, a: int, b: int): (r: string)
    ensures |r| <= ColWidth
  {
    Truncate(Join(NonEmptyValues(InSlot(day.lessons, a, b), k), " / "))
  }

  /** `format!("| {:^34} ", text)`. */
  function Cell(text: string): string {
    "| " + Center(text, ColWidth) + " "
  }

  lemma CellWidth(text: string)
    requires |text| <= ColWidth
    ensures |Cell(text)| == ColWidth + 3
  {
  }

  // ----------------------------------------------------------------------
  // Lines

  /** `{:02}:{:02}` of the hour and minute of a clock time. */
  function HourMinute(m: MinuteOfDay): string {
    ZeroPad(m / 60, 2) + ":" + ZeroPad(m % 60, 2)
  }

  /** A clock time prints as five characters `HH:MM` that read back as the
      same time. */
  lemma HourMinuteReadsBack(m: MinuteOfDay)
    ensures |HourMinute(m)| == 5 && HourMinute(m)[2] == ':'
    ensures AllDigits(HourMinute(m)[..2]) && AllDigits(HourMinute(m)[3..])
    ensures DigitsValue(HourMinute(m)[..2]) * 60 + DigitsValue(HourMinute(m)[3..]) == m
  {
    var s := HourMinute(m);
    assert m / 60 < 24;
    TwoDigits(m / 60);
    TwoDigits(m % 60);
    assert |ZeroPad(m / 60, 2)| == 2 && |ZeroPad(m % 60, 2)| == 2;
    ZeroPadValue(m / 60, 2);
    ZeroPadValue(m % 60, 2);
    assert s[..2] == ZeroPad(m / 60, 2);
    assert s[3..] == ZeroPad(m % 60, 2);
  }

  /** The time column: the slot's start on line 0, its end on line 1,
      nothing after that. */
  function TimeLabel(idx: nat, a: MinuteOfDay, b: MinuteOfDay): (r: string)
    ensures |r| <= TimeColWidth
  {
    HourMinuteReadsBack(a);
    HourMinuteReadsBack(b);
    if idx == 0 then HourMinute(a) else if idx == 1 then HourMinute(b) else ""
  }

  /** `active_types.get(line_idx)`. */
  function FieldAt(fields: seq<Field>, idx: nat): (r: Option<Field>)
    ensures idx < |fields| ==> r == Some(fields[idx])
    ensures idx >= |fields| ==> r == None
  {
    if idx < |fields| then Some(fields[idx]) else None
  }

  function CellOf(k: Option<Field>, a: int, b: int): DayTimeTable -> string {
    day => Cell(CellText(day, k, a, b))
  }

  /** One data line of the slot `[a, b)`. */
  function DataLine(days: seq<DayTimeTable>, fields: seq<Field>, idx: nat, a: MinuteOfDay, b: MinuteOfDay): string {
    TableLine(TimeLabel(idx, a, b), Flatten(Map(days, CellOf(FieldAt(fields, idx), a, b))))
  }

  /** A table line: the time column `| {:<5} `, the day cells, `|` and a
      newline. */
  function TableLine(timeText: string, cells: string): string {
    "| " + PadRight(timeText, TimeColWidth) + " " + cells + "|\n"
  }

  /** A line whose time column fits is 10 characters wider than its cells,
      which start at column 8. */
  lemma TableLineLayout(timeText: string, cells: string)
    requires |timeText| <= TimeColWidth
    ensures var r := TableLine(timeText, cells);
            && |r| == TimeColWidth + 3 + |cells| + 2
            && r[..TimeColWidth + 3] == "| " + PadRight(timeText, TimeColWidth) + " "
            && r[TimeColWidth + 3..TimeColWidth + 3 + |cells|] == cells
            && r[|r| - 2..] == "|\n"
  {
    var lead := "| " + PadRight(timeText, TimeColWidth) + " ";
    assert |lead| == TimeColWidth + 3;
    assert TableLine(timeText, cells) == lead + cells + "|\n";
  }

  /** `format!("{:-<width$}\n", "")` with the full table width. */
  function DashLine(n: nat): string {
    Repeat('-', TimeColWidth + 3 + n * (ColWidth + 3)) + "\n"
  }

  /** Data lines `0 .. count - 1` of a slot. */
  function DataLines(days: seq<DayTimeTable>, fields: seq<Field>, count: nat, a: MinuteOfDay, b: MinuteOfDay): (r: seq<string>)
    ensures |r| == count
    ensures forall i :: 0 <= i < count ==> r[i] == DataLine(days, fields, i, a, b)
  {
    if count == 0 then [] else DataLines(days, fields, count - 1, a, b) + [DataLine(days, fields, count - 1, a, b)]
  }

  /** The lines of one slot: none when it is dropped, otherwise one data
      line per active field (at least one) and a dash line. */
  function SlotLines(days: seq<DayTimeTable>, fields: seq<Field>, a: MinuteOfDay, b: MinuteOfDay): seq<string> {
    if Kept(days, a, b) then DataLines(days, fields, LineCount(fields), a, b) + [DashLine(|days|)]
    else []
  }

  /** The lines of the first `i` slots. */
  function BodyLines(days: seq<DayTimeTable>, fields: seq<Field>, slots: seq<(MinuteOfDay, MinuteOfDay)>, i: nat): seq<string>
    requires i <= |slots|
  {
    if i == 0 then [] else BodyLines(days, fields, slots, i - 1) + SlotLines(days, fields, slots[i - 1].0, slots[i - 1].1)
  }

  lemma BodyLinesStep(days: seq<DayTimeTable>, fields: seq<Field>, slots: seq<(MinuteOfDay, MinuteOfDay)>, i: nat)
    requires i < |slots|
    ensures Flatten(BodyLines(days, fields, slots, i + 1))
              == Flatten(BodyLines(days, fields, slots, i)) + Flatten(SlotLines(days, fields, slots[i].0, slots[i].1))
    ensures !Kept(days, slots[i].0, slots[i].1) ==> BodyLines(days, fields, slots, i + 1) == BodyLines(days, fields, slots, i)
  {
    FlattenAppend(BodyLines(days, fields, slots, i), SlotLines(days, fields, slots[i].0, slots[i].1));
  }

  /** `day_names.get(i).unwrap_or(&"??")`. */
  function DayName(i: nat): string {
    if i < |DayNames| then DayNames[i] else "??"
  }

  function DayHeaders(n: nat): (r: seq<string>)
    ensures |r| == n
    ensures forall i :: 0 <= i < n ==> r[i] == Cell(DayName(i))
  {
    if n == 0 then [] else DayHeaders(n - 1) + [Cell(DayName(n - 1))]
  }

  function HeaderLine(n: nat): string {
    TableLine("Time", Flatten(DayHeaders(n)))
  }

  /** The slots of a week. */
  function WeekSlots(week: WeekTimeTable): seq<(MinuteOfDay, MinuteOfDay)> {
    Slots(PointsOf(AllLessons(week.days)))
  }

  /** What `to_string_pretty` returns: the header line, a dash line and
      the lines of every slot, or a fixed message when no block exists. */
  function Pretty(week: WeekTimeTable, flags: Flags): string {
    var n := |week.days|;
    var slots := WeekSlots(week);
    if PointsOf(AllLessons(week.days)) == [] then NoLessonsText
    else HeaderLine(n) + DashLine(n) + Flatten(BodyLines(week.days, ActiveFields(flags), slots, |slots|))
  }

  // ----------------------------------------------------------------------
  // The method

  /** `WeekTimeTable::to_string_pretty`. */
  method ToStringPretty(week: WeekTimeTable, renderClasses: bool, renderTeacher: bool, renderSubject: bool,
                        renderRoom: bool, renderStatus: bool) returns (output: string)
    ensures output == Pretty(week, Flags(renderClasses, renderTeacher, renderSubject, renderRoom, renderStatus))
  {
    var flags := Flags(renderClasses, renderTeacher, renderSubject, renderRoom, renderStatus);
    var timePoints := CollectPoints(week.days);
    if timePoints == [] {
      return NoLessonsText;
    }
    var slots := Slots(timePoints);
    var header := RenderHeader(|week.days|);
    var body := RenderSlots(week.days, flags, slots);
    output := header + body;
  }

  /** The `for (i, &(start, end)) in time_slots` loop: the lines of every
      slot that is kept. */
  method RenderSlots(days: seq<DayTimeTable>, flags: Flags, slots: seq<(MinuteOfDay, MinuteOfDay)>) returns (body: string)
    ensures body == Flatten(BodyLines(days, ActiveFields(flags), slots, |slots|))
  {
    ghost var fields := ActiveFields(flags);
    body := "";
    for s := 0 to |slots|
      invariant body == Flatten(BodyLines(days, fields, slots, s))
    {
      var (a, b) := slots[s];
      BodyLinesStep(days, fields, slots, s);
      if !HasContent(days, a, b) {
        continue;
      }
      if b as int - a as int < 35 {
        if !HasSignificantContent(days, a, b) {
          continue;
        }
      }
      var activeTypes := ActiveFields(flags);
      var block := RenderSlot(days, activeTypes, a, b);
      body := body + block;
    }
  }

  /** The `BTreeSet` loop over every block of every day. */
  method CollectPoints(days: seq<DayTimeTable>) returns (points: seq<MinuteOfDay>)
    ensures points == PointsOf(AllLessons(days))
  {
    points := [];
    for d := 0 to |days|
      invariant points == PointsOf(AllLessons(days[..d]))
    {
      var day := days[d];
      ghost var before := AllLessons(days[..d]);
      AppendSliceEmpty(before, day.lessons);
      for j := 0 to |day.lessons|
        invariant points == PointsOf(before + day.lessons[..j])
      {
        var lesson := day.lessons[j];
        PointsOfSnoc(before + day.lessons[..j], lesson);
        AppendSliceSnoc(before, day.lessons, j);
        points := InsertPoint(lesson.timeRange.start.time, points);
        points := InsertPoint(lesson.timeRange.end.time, points);
      }
      AppendSliceWhole(before, day.lessons);
      AllLessonsSnoc(days, d);
    }
    assert days[..|days|] == days;
  }

  /** The header line and the dash line under it. */
  method RenderHeader(numDays: nat) returns (output: string)
    ensures output == HeaderLine(numDays) + DashLine(numDays)
  {
    var totalWidth := TimeColWidth + 3 + numDays * (ColWidth + 3);
    var cells := "";
    for i := 0 to numDays
      invariant cells == Flatten(DayHeaders(i))
    {
      FlattenSnoc(DayHeaders(i), Cell(DayName(i)));
      cells := cells + Cell(DayName(i));
    }
    output := TableLine("Time", cells);
    output := output + Repeat('-', totalWidth) + "\n";
  }

  /** The `for line_idx in 0..lines_to_render` loop and the dash line of a
      slot that is kept. */
  method RenderSlot(days: seq<DayTimeTable>, activeTypes: seq<Field>, a: MinuteOfDay, b: MinuteOfDay) returns (output: string)
    requires Kept(days, a, b)
    ensures output == Flatten(SlotLines(days, activeTypes, a, b))
  {
    var linesToRender := if |activeTypes| > 1 then |activeTypes| else 1;
    output := "";
    for lineIdx := 0 to linesToRender
      invariant output == Flatten(DataLines(days, activeTypes, lineIdx, a, b))
    {
      var line := RenderLine(days, activeTypes, lineIdx, a, b);
      FlattenSnoc(DataLines(days, activeTypes, lineIdx, a, b), line);
      output := output + line;
    }
    FlattenSnoc(DataLines(days, activeTypes, linesToRender, a, b), DashLine(|days|));
    output := output + DashLine(|days|);
  }

  /** One data line: the time column, then one cell per day. */
  method RenderLine(days: seq<DayTimeTable>, activeTypes: seq<Field>, lineIdx: nat, a: MinuteOfDay, b: MinuteOfDay) returns (line: string)
    ensures line == DataLine(days, activeTypes, lineIdx, a, b)
  {
    var timeStr := TimeLabel(lineIdx, a, b);
    var kind := FieldAt(activeTypes, lineIdx);
    var cells := "";
    for d := 0 to |days|
      invariant cells == Flatten(Map(days[..d], CellOf(kind, a, b)))
    {
      var fullText := CellText(days[d], kind, a, b);
      MapSnoc(days, d, CellOf(kind, a, b));
      FlattenSnoc(Map(days[..d], CellOf(kind, a, b)), Cell(fullText));
      cells := cells + Cell(fullText);
    }
    assert days[..|days|] == days;
    line := TableLine(timeStr, cells);
  }

  // ----------------------------------------------------------------------
  // Properties of the rendering

  /** A week renders as "No lessons scheduled." exactly when it has no
      lessons; otherwise the output starts with the header line. */
  lemma PrettyEmptyIff(week: WeekTimeTable, flags: Flags)
    ensures Pretty(week, flags) == NoLessonsText <==> AllLessons(week.days) == []
    ensures AllLessons(week.days) != [] ==>
              Pretty(week, flags)[..|HeaderLine(|week.days|)|] == HeaderLine(|week.days|)
  {
    PointsAreEndpoints(AllLessons(week.days));
    if AllLessons(week.days) != [] {
      var n := |week.days|;
      HeaderStart(n);
      StartsWith(HeaderLine(n), DashLine(n), Flatten(BodyLines(week.days, ActiveFields(flags), WeekSlots(week), |WeekSlots(week)|)));
    }
  }

  lemma StartsWith<T>(a: seq<T>, b: seq<T>, c: seq<T>)
    ensures (a + b + c)[..|a|] == a
    ensures |a| > 0 ==> (a + b + c)[0] == a[0]
  {
  }

  lemma HeaderStart(n: nat)
    ensures |HeaderLine(n)| > 0 && HeaderLine(n)[0] == '|' != NoLessonsText[0]
  {
    TableLineLayout("Time", Flatten(DayHeaders(n)));
    assert HeaderLine(n)[..TimeColWidth + 3][0] == '|';
  }

  /** Every cell is `| ` + 34 characters + ` `, so a day column is 37 wide;
      the day cells of a data line are the days' cells side by side. */
  lemma CellsLayout(days: seq<DayTimeTable>, k: Option<Field>, a: int, b: int)
    ensures |Flatten(Map(days, CellOf(k, a, b)))| == (ColWidth + 3) * |days|
    ensures forall i :: 0 <= i < |days| ==>
              Flatten(Map(days, CellOf(k, a, b)))[(ColWidth + 3) * i..(ColWidth + 3) * i + (ColWidth + 3)]
                == Cell(CellText(days[i], k, a, b))
  {
    var cells := Map(days, CellOf(k, a, b));
    forall i | 0 <= i < |cells| ensures |cells[i]| == ColWidth + 3 {
      CellWidth(CellText(days[i], k, a, b));
    }
    FlattenUniform(cells, ColWidth + 3);
  }

  /** Day names are short enough for their cells. */
  lemma DayNameFits(i: nat)
    ensures |DayName(i)| <= ColWidth
  {
    if i < |DayNames| {
      assert DayNames[i] in DayNames;
    }
  }

  lemma {:induction false} DayHeaderWidths(n: nat)
    ensures forall i :: 0 <= i < n ==> |DayHeaders(n)[i]| == ColWidth + 3
  {
    forall i | 0 <= i < n ensures |DayHeaders(n)[i]| == ColWidth + 3 {
      DayNameFits(i);
      CellWidth(DayName(i));
    }
  }

  /** The header names the days in order, "??" beyond the seventh. */
  lemma HeaderLayout(n: nat)
    ensures |HeaderLine(n)| == TimeColWidth + 3 + (ColWidth + 3) * n + 2
    ensures forall i :: 0 <= i < n ==>
              HeaderLine(n)[TimeColWidth + 3 + (ColWidth + 3) * i..TimeColWidth + 3 + (ColWidth + 3) * i + (ColWidth + 3)]
                == Cell(DayName(i))
  {
    var cells := DayHeaders(n);
    DayHeaderWidths(n);
    FlattenUniform(cells, ColWidth + 3);
    TableLineLayout("Time", Flatten(cells));
    OffsetSlices(HeaderLine(n), TimeColWidth + 3, Flatten(cells), ColWidth + 3, n);
  }

  /** Slices of a part that sits at offset `o` in `x` are slices of `x`. */
  lemma OffsetSlices<T>(x: seq<T>, o: nat, y: seq<T>, w: nat, n: nat)
    requires o + |y| <= |x| && x[o..o + |y|] == y
    requires forall i :: 0 <= i < n ==> w * i + w <= |y|
    ensures forall i :: 0 <= i < n ==> o + w * i + w <= |x| && x[o + w * i..o + w * i + w] == y[w * i..w * i + w]
  {
    forall i | 0 <= i < n ensures o + w * i + w <= |x| && x[o + w * i..o + w * i + w] == y[w * i..w * i + w] {
      var lo := w * i;
      assert lo + w <= |y|;
      var xs, ys := x[o + lo..o + lo + w], y[lo..lo + w];
      forall j | 0 <= j < w ensures xs[j] == ys[j] {
        var k := lo + j;
        assert x[o..o + |y|][k] == y[k];
      }
    }
  }

  /** Every data line is the same width: the dash line's width plus the
      closing `|`; it starts with the time column and ends with `|`. */
  lemma DataLineLayout(days: seq<DayTimeTable>, fields: seq<Field>, idx: nat, a: MinuteOfDay, b: MinuteOfDay)
    ensures var line := DataLine(days, fields, idx, a, b);
            && |line| == |DashLine(|days|)| + 1
            && line[..TimeColWidth + 3] == "| " + PadRight(TimeLabel(idx, a, b), TimeColWidth) + " "
            && line[|line| - 2..] == "|\n"
  {
    CellsLayout(days, FieldAt(fields, idx), a, b);
    TableLineLayout(TimeLabel(idx, a, b), Flatten(Map(days, CellOf(FieldAt(fields, idx), a, b))));
  }

  /** A kept slot has max(1, number of active fields) data lines and then a
      dash line; line 0 shows the start, line 1 the end, later lines no time;
      line `i` shows field `i`. A dropped slot has no lines. */
  lemma SlotLayout(days: seq<DayTimeTable>, fields: seq<Field>, a: MinuteOfDay, b: MinuteOfDay)
    ensures var lines := SlotLines(days, fields, a, b);
            && (Kept(days, a, b) ==> |lines| == LineCount(fields) + 1 && lines[|lines| - 1] == DashLine(|days|))
            && (!Kept(days, a, b) ==> lines == [])
            && (forall i :: 0 <= i < |lines| - 1 ==> lines[i] == DataLine(days, fields, i, a, b))
    ensures TimeLabel(0, a, b) == HourMinute(a) && TimeLabel(1, a, b) == HourMinute(b)
    ensures forall i :: i >= 2 ==> TimeLabel(i, a, b) == ""
  {
  }

  /** The lines of one slot are the dash line or one character wider. */
  lemma SlotLinesWidths(days: seq<DayTimeTable>, fields: seq<Field>, a: MinuteOfDay, b: MinuteOfDay)
    ensures forall line :: line in SlotLines(days, fields, a, b) ==>
              line == DashLine(|days|) || |line| == |DashLine(|days|)| + 1
  {
    if Kept(days, a, b) {
      var data := DataLines(days, fields, LineCount(fields), a, b);
      forall j | 0 <= j < |data| ensures |data[j]| == |DashLine(|days|)| + 1 {
        DataLineLayout(days, fields, j, a, b);
      }
      assert SlotLines(days, fields, a, b) == data + [DashLine(|days|)];
    }
  }

  /** The lines of the slots: each is the dash line or a data line one
      character wider. */
  lemma {:induction false} BodyLinesLayout(days: seq<DayTimeTable>, fields: seq<Field>, slots: seq<(MinuteOfDay, MinuteOfDay)>, i: nat)
    requires i <= |slots|
    ensures forall line :: line in BodyLines(days, fields, slots, i) ==>
              line == DashLine(|days|) || |line| == |DashLine(|days|)| + 1
  {
    if i > 0 {
      BodyLinesLayout(days, fields, slots, i - 1);
      SlotLinesWidths(days, fields, slots[i - 1].0, slots[i - 1].1);
    }
  }

  /** Every line of a rendered week is its dash line or one character
      wider, and the dash line spans the time column and every day column. */
  lemma PrettyLayout(week: WeekTimeTable, flags: Flags)
    requires AllLessons(week.days) != []
    ensures |HeaderLine(|week.days|)| == |DashLine(|week.days|)| + 1
    ensures |DashLine(|week.days|)| == TimeColWidth + 3 + (ColWidth + 3) * |week.days| + 1
    ensures forall line :: line in BodyLines(week.days, ActiveFields(flags), WeekSlots(week), |WeekSlots(week)|) ==>
              line == DashLine(|week.days|) || |line| == |DashLine(|week.days|)| + 1
  {
    HeaderLayout(|week.days|);
    BodyLinesLayout(week.days, ActiveFields(flags), WeekSlots(week), |WeekSlots(week)|);
  }
}
