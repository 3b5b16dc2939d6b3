/** Derivation of teacher and room timetables from class timetables
    (`gen_all_timetables` in src/untis/teacher_table_generator.rs).

    The source walks `HashMap`s, whose iteration order is unspecified. The
    model walks them with `:|` and reports the order it took over the
    classes as a ghost out-parameter; every property is stated so that it
    holds for whichever order was taken. */
module TeacherTables {
  import opened Wrappers
  import opened Errors
  import opened Sorting
  import opened CleanModels

  /** `entity_lesson_map`: entity, then date, then the blocks pushed there. */
  type LessonIndex = map<Entity, map<int, seq<LessonBlock>>>

  /** One `push(lesson.clone())`: block `lesson` filed under `key` and `date`. */
  datatype Filing = Filing(key: Entity, date: int, lesson: LessonBlock)

  // ----------------------------------------------------------------------
  // What the four nested loops file, in loop order

  /** Only tracked teachers and rooms that are not removed are filed. */
  predicate Files(w: Tracked) {
    w.status != Removed && (w.inner.OfTeacher? || w.inner.OfRoom?)
  }

  function EntryFilings(date: int, lesson: LessonBlock): Tracked -> seq<Filing> {
    w => if Files(w) then [Filing(w.inner, date, lesson)] else []
  }

  /** The innermost loop, over the entities of one block. */
  function LessonFilings(date: int, lesson: LessonBlock): seq<Filing> {
    Flatten(Map(lesson.entities, EntryFilings(date, lesson)))
  }

  function LessonFilingsOf(date: int): LessonBlock -> seq<Filing> {
    l => LessonFilings(date, l)
  }

  /** The loop over the blocks of one day. */
  function DayFilings(day: DayTimeTable): seq<Filing> {
    Flatten(Map(day.lessons, LessonFilingsOf(day.date)))
  }

  /** The loop over the days of one table. */
  function TableFilings(table: WeekTimeTable): seq<Filing> {
    Flatten(Map(table.days, DayFilings))
  }

  /** The outer loop, over the tables in the order visited. */
  function AllFilings(tables: seq<WeekTimeTable>): seq<Filing> {
    Flatten(Map(tables, TableFilings))
  }

  function TableOf(classResults: map<Class, WeekTimeTable>): Class -> WeekTimeTable {
    c => if c in classResults then classResults[c] else WeekTimeTable([])
  }

  /** The class tables in the order `order` visits them. */
  function TablesIn(classResults: map<Class, WeekTimeTable>, order: seq<Class>): seq<WeekTimeTable> {
    Map(order, TableOf(classResults))
  }

  // ----------------------------------------------------------------------
  // The index built by the pushes

  /** `entry(key).or_default().entry(date).or_default().push(lesson)`. */
  function Push(m: LessonIndex, f: Filing): (r: LessonIndex)
    ensures r.Keys == m.Keys + {f.key}
  {
    var dates := if f.key in m then m[f.key] else map[];
    var lessons := if f.date in dates then dates[f.date] else [];
    m[f.key := dates[f.date := lessons + [f.lesson]]]
  }

  /** The index after filing `fs` in order, starting from `m`. */
  function Fold(m: LessonIndex, fs: seq<Filing>): LessonIndex {
    if fs == [] then m else Push(Fold(m, fs[..|fs| - 1]), fs[|fs| - 1])
  }

  /** The blocks filed under `key` and `date`, in filing order. */
  function Select(fs: seq<Filing>, key: Entity, date: int): seq<LessonBlock> {
    if fs == [] then []
    else
      var f := fs[|fs| - 1];
      Select(fs[..|fs| - 1], key, date) + (if f.key == key && f.date == date then [f.lesson] else [])
  }

  /** What the index holds under `key` and `date`, nothing when absent. */
  function Lookup(m: LessonIndex, key: Entity, date: int): seq<LessonBlock> {
    if key in m && date in m[key] then m[key][date] else []
  }

  /** No entity without dates and no date without blocks. */
  predicate NoEmptyEntries(m: LessonIndex) {
    forall e :: e in m ==> (exists d :: d in m[e]) && forall d :: d in m[e] ==> m[e][d] != []
  }

  lemma {:induction false} FoldAppend(m: LessonIndex, a: seq<Filing>, b: seq<Filing>)
    ensures Fold(m, a + b) == Fold(Fold(m, a), b)
    decreases |b|
  {
    if b != [] {
      assert (a + b)[..|a + b| - 1] == a + b[..|b| - 1];
      FoldAppend(m, a, b[..|b| - 1]);
    } else {
      assert a + b == a;
    }
  }

  lemma SelectAppend(a: seq<Filing>, b: seq<Filing>, key: Entity, date: int)
    ensures Select(a + b, key, date) == Select(a, key, date) + Select(b, key, date)
    decreases |b|
  {
    if b == [] {
      assert a + b == a;
    } else {
      assert (a + b)[..|a + b| - 1] == a + b[..|b| - 1];
    }
  }

  lemma PushLookup(m: LessonIndex, f: Filing, e: Entity, d: int)
    ensures Lookup(Push(m, f), e, d) == Lookup(m, e, d) + (if f.key == e && f.date == d then [f.lesson] else [])
  {
  }

  /** Filing appends each block to its own key and date and to none other. */
  lemma {:induction false} FoldLookup(m: LessonIndex, fs: seq<Filing>, e: Entity, d: int)
    ensures Lookup(Fold(m, fs), e, d) == Lookup(m, e, d) + Select(fs, e, d)
  {
    if fs != [] {
      var init, f := fs[..|fs| - 1], fs[|fs| - 1];
      FoldLookup(m, init, e, d);
      PushLookup(Fold(m, init), f, e, d);
      AppendAssoc(Lookup(m, e, d), Select(init, e, d), if f.key == e && f.date == d then [f.lesson] else []);
    }
  }

  /** The keys after filing are the old keys and the filed entities. */
  lemma {:induction false} FoldKeys(m: LessonIndex, fs: seq<Filing>)
    ensures Fold(m, fs).Keys == m.Keys + set f | f in fs :: f.key
  {
    if fs != [] {
      var init := fs[..|fs| - 1];
      FoldKeys(m, init);
      assert fs == init + [fs[|fs| - 1]];
      assert (set f | f in fs :: f.key) == (set f | f in init :: f.key) + {fs[|fs| - 1].key};
    }
  }

  /** Filing never leaves an entity without dates or a date without blocks. */
  lemma {:induction false} FoldNoEmpty(m: LessonIndex, fs: seq<Filing>)
    requires NoEmptyEntries(m)
    ensures NoEmptyEntries(Fold(m, fs))
  {
    if fs != [] {
      FoldNoEmpty(m, fs[..|fs| - 1]);
      var before := Fold(m, fs[..|fs| - 1]);
      var f := fs[|fs| - 1];
      var after := Push(before, f);
      assert f.date in after[f.key];
    }
  }

  /** The index the loops build. */
  function IndexOf(fs: seq<Filing>): LessonIndex {
    Fold(map[], fs)
  }

  /** Key `e` and date `d` hold exactly the blocks filed there, in order;
      the keys are exactly the filed entities; no entry is empty. */
  lemma IndexSpec(fs: seq<Filing>)
    ensures forall e, d :: Lookup(IndexOf(fs), e, d) == Select(fs, e, d)
    ensures IndexOf(fs).Keys == set f | f in fs :: f.key
    ensures NoEmptyEntries(IndexOf(fs))
  {
    forall e, d ensures Lookup(IndexOf(fs), e, d) == Select(fs, e, d) {
      FoldLookup(map[], fs, e, d);
    }
    FoldKeys(map[], fs);
    FoldNoEmpty(map[], fs);
  }

  // ----------------------------------------------------------------------
  // Which entities get derived tables

  lemma {:induction false} FlattenMember<T>(ss: seq<seq<T>>, x: T)
    ensures x in Flatten(ss) <==> exists i :: 0 <= i < |ss| && x in ss[i]
  {
    if ss != [] {
      FlattenMember(ss[..|ss| - 1], x);
      var init := ss[..|ss| - 1];
      if exists i :: 0 <= i < |init| && x in init[i] {
        var i :| 0 <= i < |init| && x in init[i];
        assert ss[i] == init[i];
      }
      if exists i :: 0 <= i < |ss| && x in ss[i] {
        var i :| 0 <= i < |ss| && x in ss[i];
        if i < |ss| - 1 {
          assert ss[..|ss| - 1][i] == ss[i];
        }
      }
    }
  }

  /** Every filed key is a non-removed teacher or room entry of a block. */
  lemma LessonFilingsKeys(date: int, lesson: LessonBlock)
    ensures forall f :: f in LessonFilings(date, lesson) ==>
              f.date == date && f.lesson == lesson && exists w :: w in lesson.entities && Files(w) && w.inner == f.key
  {
    var parts := Map(lesson.entities, EntryFilings(date, lesson));
    forall f | f in LessonFilings(date, lesson)
      ensures f.date == date && f.lesson == lesson && exists w :: w in lesson.entities && Files(w) && w.inner == f.key
    {
      FlattenMember(parts, f);
      var i :| 0 <= i < |parts| && f in parts[i];
      assert lesson.entities[i] in lesson.entities;
    }
  }

  lemma DayFilingsKeys(day: DayTimeTable)
    ensures forall f :: f in DayFilings(day) ==> f.key.OfTeacher? || f.key.OfRoom?
  {
    var parts := Map(day.lessons, LessonFilingsOf(day.date));
    forall f | f in DayFilings(day) ensures f.key.OfTeacher? || f.key.OfRoom? {
      FlattenMember(parts, f);
      var i :| 0 <= i < |parts| && f in parts[i];
      LessonFilingsKeys(day.date, day.lessons[i]);
    }
  }

  lemma TableFilingsKeys(table: WeekTimeTable)
    ensures forall f :: f in TableFilings(table) ==> f.key.OfTeacher? || f.key.OfRoom?
  {
    var parts := Map(table.days, DayFilings);
    forall f | f in TableFilings(table) ensures f.key.OfTeacher? || f.key.OfRoom? {
      FlattenMember(parts, f);
      var i :| 0 <= i < |parts| && f in parts[i];
      DayFilingsKeys(table.days[i]);
    }
  }

  /** Only teachers and rooms are ever keys of the index, so inserting the
      derived tables never replaces a class's table. */
  lemma IndexKeysAreTeachersOrRooms(tables: seq<WeekTimeTable>)
    ensures forall e :: e in IndexOf(AllFilings(tables)) ==> e.OfTeacher? || e.OfRoom?
  {
    IndexSpec(AllFilings(tables));
    var parts := Map(tables, TableFilings);
    forall e | e in IndexOf(AllFilings(tables)) ensures e.OfTeacher? || e.OfRoom? {
      assert e in set f | f in AllFilings(tables) :: f.key;
      var f :| f in AllFilings(tables) && f.key == e;
      FlattenMember(parts, f);
      var i :| 0 <= i < |parts| && f in parts[i];
      TableFilingsKeys(tables[i]);
    }
  }

  // ----------------------------------------------------------------------
  // How often one block is filed under one key

  /** The non-removed entries equal to `key`. */
  function CountEntries(ws: seq<Tracked>, key: Entity): nat {
    if ws == [] then 0
    else CountEntries(ws[..|ws| - 1], key) + (if ws[|ws| - 1].inner == key && ws[|ws| - 1].status != Removed then 1 else 0)
  }

  /** A block is filed under a teacher or room once per non-removed entry
      for it, duplicates included, and only under its day's date; it is
      never filed under a class, subject or info, nor for a removed entry. */
  lemma {:induction false} LessonFilingCount(ws: seq<Tracked>, date: int, lesson: LessonBlock, key: Entity, d: int)
    ensures var sel := Select(Flatten(Map(ws, EntryFilings(date, lesson))), key, d);
            && (forall x :: x in sel ==> x == lesson)
            && |sel| == (if d == date && (key.OfTeacher? || key.OfRoom?) then CountEntries(ws, key) else 0)
  {
    if ws != [] {
      var init := ws[..|ws| - 1];
      var w := ws[|ws| - 1];
      var f := EntryFilings(date, lesson);
      LessonFilingCount(init, date, lesson, key, d);
      MapSnoc(ws, |ws| - 1, f);
      SliceWhole(ws);
      FlattenSnoc(Map(init, f), f(w));
      SelectAppend(Flatten(Map(init, f)), f(w), key, d);
      EntrySelect(w, date, lesson, key, d);
    }
  }

  lemma EntrySelect(w: Tracked, date: int, lesson: LessonBlock, key: Entity, d: int)
    ensures var sel := Select(EntryFilings(date, lesson)(w), key, d);
            && (forall x :: x in sel ==> x == lesson)
            && |sel| == (if d == date && (key.OfTeacher? || key.OfRoom?) && w.inner == key && w.status != Removed then 1 else 0)
  {
    var fs := EntryFilings(date, lesson)(w);
    if Files(w) {
      assert fs == [Filing(w.inner, date, lesson)];
      assert Select(fs, key, d) == Select([], key, d) + (if w.inner == key && date == d then [lesson] else []);
    }
  }

  /** Keys compare structurally: an entry for a teacher with an id does not
      file the block under the same teacher without an id. */
  lemma IdsSeparateKeys(t: Teacher, id: int, date: int, lesson: LessonBlock)
    requires t.id == None
    requires lesson.entities == [Tracked(OfTeacher(t.(id := Some(id))), Regular)]
    ensures Select(LessonFilings(date, lesson), OfTeacher(t), date) == []
    ensures |Select(LessonFilings(date, lesson), OfTeacher(t.(id := Some(id))), date)| == 1
  {
    var ws := lesson.entities;
    LessonFilingCount(ws, date, lesson, OfTeacher(t), date);
    LessonFilingCount(ws, date, lesson, OfTeacher(t.(id := Some(id))), date);
    assert ws[..0] == [];
  }

  // ----------------------------------------------------------------------
  // Order independence

  function SelectOf(key: Entity, date: int): seq<Filing> -> seq<LessonBlock> {
    fs => Select(fs, key, date)
  }

  lemma {:induction false} SelectFlatten(ss: seq<seq<Filing>>, key: Entity, date: int)
    ensures Select(Flatten(ss), key, date) == Flatten(Map(ss, SelectOf(key, date)))
  {
    if ss != [] {
      var init := ss[..|ss| - 1];
      SelectFlatten(init, key, date);
      SelectAppend(Flatten(init), ss[|ss| - 1], key, date);
      MapSnoc(ss, |ss| - 1, SelectOf(key, date));
      assert ss[..|ss| - 1 + 1] == ss;
    }
  }

  /** The blocks filed under a key and date are, as a multiset, the same
      whatever order the class tables are visited in. */
  lemma OrderIndependent(classResults: map<Class, WeekTimeTable>, o1: seq<Class>, o2: seq<Class>, key: Entity, date: int)
    requires multiset(o1) == multiset(o2)
    ensures multiset(Lookup(IndexOf(AllFilings(TablesIn(classResults, o1))), key, date))
         == multiset(Lookup(IndexOf(AllFilings(TablesIn(classResults, o2))), key, date))
  {
    var t1, t2 := TablesIn(classResults, o1), TablesIn(classResults, o2);
    MapPermuted(o1, o2, TableOf(classResults));
    IndexSpec(AllFilings(t1));
    IndexSpec(AllFilings(t2));
    var p1, p2 := Map(t1, TableFilings), Map(t2, TableFilings);
    MapPermuted(t1, t2, TableFilings);
    SelectFlatten(p1, key, date);
    SelectFlatten(p2, key, date);
    MapPermuted(p1, p2, SelectOf(key, date));
    FlattenPermuted(Map(p1, SelectOf(key, date)), Map(p2, SelectOf(key, date)));
  }

  // ----------------------------------------------------------------------
  // The derived tables

  /** `days` holds one day per date of `dates`, each date once, with the
      blocks filed for it. */
  predicate DaysMatch(days: seq<DayTimeTable>, dates: map<int, seq<LessonBlock>>) {
    |days| == |dates.Keys| && DaysSoFar(days, dates) && DatesOf(days) == dates.Keys
  }

  /** The dates that have a day. */
  function DatesOf(days: seq<DayTimeTable>): set<int> {
    set i | 0 <= i < |days| :: days[i].date
  }

  /** A derived table has no day without blocks, and has a day for a date
      exactly when some block was filed under that date. */
  lemma DerivedDaysNonEmpty(fs: seq<Filing>, e: Entity, days: seq<DayTimeTable>)
    requires e in IndexOf(fs) && DaysMatch(days, IndexOf(fs)[e])
    ensures |days| > 0
    ensures forall i :: 0 <= i < |days| ==> days[i].lessons != [] && days[i].lessons == Select(fs, e, days[i].date)
    ensures forall d :: d in DatesOf(days) <==> Select(fs, e, d) != []
  {
    IndexSpec(fs);
    var dates := IndexOf(fs)[e];
    var d0 :| d0 in dates;
    assert d0 in DatesOf(days);
    forall d ensures d in DatesOf(days) <==> Select(fs, e, d) != [] {
      assert Lookup(IndexOf(fs), e, d) == Select(fs, e, d);
    }
  }

  lemma DatesOfSnoc(days: seq<DayTimeTable>, day: DayTimeTable)
    ensures DatesOf(days + [day]) == DatesOf(days) + {day.date}
  {
    var after := days + [day];
    forall x | x in DatesOf(after) ensures x in DatesOf(days) + {day.date} {
      var i :| 0 <= i < |after| && after[i].date == x;
      if i < |days| {
        assert days[i].date == x;
      }
    }
    forall x | x in DatesOf(days) ensures x in DatesOf(after) {
      var i :| 0 <= i < |days| && days[i].date == x;
      assert after[i].date == x;
    }
    assert after[|days|].date == day.date;
  }

  /** A non-empty set of dates has a member to pick. */
  lemma HasMember(s: set<int>)
    requires s != {}
    ensures exists x :: x in s
  {
    if forall x :: x !in s {
      assert false;
    }
  }

  /** The days built so far: distinct dates of `dates`, each with its
      blocks. */
  predicate DaysSoFar(days: seq<DayTimeTable>, dates: map<int, seq<LessonBlock>>) {
    && (forall i, j :: 0 <= i < j < |days| ==> days[i].date != days[j].date)
    && (forall i :: 0 <= i < |days| ==> days[i].date in dates && days[i].lessons == dates[days[i].date])
  }

  lemma DaysSoFarStep(days: seq<DayTimeTable>, dates: map<int, seq<LessonBlock>>, date: int)
    requires DaysSoFar(days, dates) && date in dates && date !in DatesOf(days)
    ensures DaysSoFar(days + [DayTimeTable(date, dates[date])], dates)
    ensures DatesOf(days + [DayTimeTable(date, dates[date])]) == DatesOf(days) + {date}
  {
    var after := days + [DayTimeTable(date, dates[date])];
    DatesOfSnoc(days, DayTimeTable(date, dates[date]));
    forall i, j | 0 <= i < j < |after| ensures after[i].date != after[j].date {
      if j == |days| {
        assert days[i].date in DatesOf(days);
      }
    }
  }

  /** The inner `for (date, lessons) in lessons` loop. */
  method DaysOf(dates: map<int, seq<LessonBlock>>) returns (days: seq<DayTimeTable>)
    ensures DaysMatch(days, dates)
  {
    days := [];
    var remaining := dates.Keys;
    while remaining != {}
      invariant remaining <= dates.Keys
      invariant |days| + |remaining| == |dates.Keys|
      invariant DaysSoFar(days, dates)
      invariant DatesOf(days) == dates.Keys - remaining
      decreases |remaining|
    {
      HasMember(remaining);
      var date :| date in remaining;
      DaysSoFarStep(days, dates, date);
      days := days + [DayTimeTable(date, dates[date])];
      remaining := remaining - {date};
    }
  }

  /** One more round of a filing loop over `xs` files the filings of `xs[j]`. */
  lemma FoldStep<T>(m: LessonIndex, xs: seq<T>, j: int, f: T -> seq<Filing>)
    requires 0 <= j < |xs|
    ensures Fold(m, Flatten(Map(xs[..j + 1], f))) == Fold(Fold(m, Flatten(Map(xs[..j], f))), f(xs[j]))
  {
    MapSnoc(xs, j, f);
    FlattenSnoc(Map(xs[..j], f), f(xs[j]));
    FoldAppend(m, Flatten(Map(xs[..j], f)), f(xs[j]));
  }

  lemma FoldOne(m: LessonIndex, f: Filing)
    ensures Fold(m, [f]) == Push(m, f)
  {
    assert [f][..0] == [];
  }

  /** The innermost loop, over the entities of one block. */
  method FileLesson(index: LessonIndex, date: int, lesson: LessonBlock) returns (index': LessonIndex)
    ensures index' == Fold(index, LessonFilings(date, lesson))
  {
    index' := index;
    for k := 0 to |lesson.entities|
      invariant index' == Fold(index, Flatten(Map(lesson.entities[..k], EntryFilings(date, lesson))))
    {
      var entityWrapper := lesson.entities[k];
      FoldStep(index, lesson.entities, k, EntryFilings(date, lesson));
      if entityWrapper.status == Removed {
        continue;
      }
      match entityWrapper.inner {
        case OfTeacher(_) =>
          FoldOne(index', Filing(entityWrapper.inner, date, lesson));
          index' := Push(index', Filing(entityWrapper.inner, date, lesson));
        case OfRoom(_) =>
          FoldOne(index', Filing(entityWrapper.inner, date, lesson));
          index' := Push(index', Filing(entityWrapper.inner, date, lesson));
        case _ =>
      }
    }
    SliceWhole(lesson.entities);
  }

  /** The loop over the blocks of one day. */
  method FileDay(index: LessonIndex, day: DayTimeTable) returns (index': LessonIndex)
    ensures index' == Fold(index, DayFilings(day))
  {
    index' := index;
    for j := 0 to |day.lessons|
      invariant index' == Fold(index, Flatten(Map(day.lessons[..j], LessonFilingsOf(day.date))))
    {
      FoldStep(index, day.lessons, j, LessonFilingsOf(day.date));
      index' := FileLesson(index', day.date, day.lessons[j]);
    }
    SliceWhole(day.lessons);
  }

  /** The loop over the days of one class table. */
  method FileTable(index: LessonIndex, table: WeekTimeTable) returns (index': LessonIndex)
    ensures index' == Fold(index, TableFilings(table))
  {
    index' := index;
    for d := 0 to |table.days|
      invariant index' == Fold(index, Flatten(Map(table.days[..d], DayFilings)))
    {
      FoldStep(index, table.days, d, DayFilings);
      index' := FileDay(index', table.days[d]);
    }
    SliceWhole(table.days);
  }

  /** The four nested loops over every class table. */
  method BuildIndex(classResults: map<Class, WeekTimeTable>) returns (index: LessonIndex, ghost order: seq<Class>)
    ensures forall c :: c in order <==> c in classResults
    ensures |order| == |classResults.Keys|
    ensures index == IndexOf(AllFilings(TablesIn(classResults, order)))
  {
    index := map[];
    order := [];
    var remaining := classResults.Keys;
    while remaining != {}
      invariant remaining <= classResults.Keys
      invariant forall c :: c in order <==> c in classResults && c !in remaining
      invariant |order| + |remaining| == |classResults.Keys|
      invariant index == IndexOf(AllFilings(TablesIn(classResults, order)))
      decreases |remaining|
    {
      var c :| c in remaining;
      ghost var before := AllFilings(TablesIn(classResults, order));
      MapAppendOne(order, c, TableOf(classResults));
      MapAppendOne(TablesIn(classResults, order), classResults[c], TableFilings);
      FlattenSnoc(Map(TablesIn(classResults, order), TableFilings), TableFilings(classResults[c]));
      FoldAppend(map[], before, TableFilings(classResults[c]));
      index := FileTable(index, classResults[c]);
      order := order + [c];
      remaining := remaining - {c};
    }
  }

  /** The class tables under their class entities. */
  function ClassTables(classResults: map<Class, WeekTimeTable>): (r: map<Entity, WeekTimeTable>)
    ensures forall e :: e in r <==> e.OfClass? && e.cls in classResults
    ensures forall c :: c in classResults ==> r[OfClass(c)] == classResults[c]
  {
    map e | e in (set c | c in classResults :: OfClass(c)) :: classResults[e.cls]
  }

  /** The `for (entity, lessons) in entity_lesson_map` loop: one derived
      table per indexed entity, inserted over whatever the map held. */
  method InsertDerived(tables: map<Entity, WeekTimeTable>, index: LessonIndex) returns (all: map<Entity, WeekTimeTable>)
    ensures forall e :: e in all <==> e in tables || e in index
    ensures forall e :: e in tables && e !in index ==> all[e] == tables[e]
    ensures forall e :: e in index ==> DaysMatch(all[e].days, index[e])
  {
    all := tables;
    var remaining := index.Keys;
    while remaining != {}
      invariant remaining <= index.Keys
      invariant forall e :: e in all <==> e in tables || (e in index && e !in remaining)
      invariant forall e :: e in tables && e !in index ==> all[e] == tables[e]
      invariant forall e :: e in index && e !in remaining ==> DaysMatch(all[e].days, index[e])
      decreases |remaining|
    {
      var entity :| entity in remaining;
      var newTable := DaysOf(index[entity]);
      all := all[entity := WeekTimeTable(newTable)];
      remaining := remaining - {entity};
    }
  }

  /** `gen_all_timetables`. */
  method GenAllTimetables(classResults: map<Class, WeekTimeTable>, preSelected: Option<int>)
    returns (r: Result<(map<Entity, WeekTimeTable>, Option<int>), ApiError>, ghost order: seq<Class>)
    ensures r.Ok? && r.value.1 == preSelected
    ensures forall c :: c in order <==> c in classResults
    ensures |order| == |classResults.Keys|
    ensures var index := IndexOf(AllFilings(TablesIn(classResults, order)));
            var all := r.value.0;
            && (forall e :: e in all <==> (e.OfClass? && e.cls in classResults) || e in index)
            && (forall c :: c in classResults ==> all[OfClass(c)] == classResults[c])
            && (forall e :: e in index ==> DaysMatch(all[e].days, index[e]))
  {
    var allTimetables := ClassTables(classResults);
    var index;
    index, order := BuildIndex(classResults);
    IndexKeysAreTeachersOrRooms(TablesIn(classResults, order));
    assert forall c :: c in classResults ==> OfClass(c) in allTimetables && OfClass(c) !in index;
    allTimetables := InsertDerived(allTimetables, index);
    return Ok((allTimetables, preSelected)), order;
  }
}
