/** The data behind the lesson cards of the timetable
    (src/components/timetable/lessons_render_helper.rs): which entities a
    card lists and in what order, how each is marked, the border a card
    gets, and the time extent of a group of cards. The Html itself and the
    floating-point heights and widths are not modelled. */
module LessonsRender {
  import opened Wrappers
  import opened Sorting
  import opened CleanModels

  // ---------------------------------------------------------------------
  // Entity lists
  // ---------------------------------------------------------------------

  /** The three entity kinds a card lists, one line each. */
  datatype Variant = SubjectVariant | TeacherVariant | RoomVariant

  predicate Matches(v: Variant, e: Entity) {
    match v
    case SubjectVariant => e.OfSubject?
    case TeacherVariant => e.OfTeacher?
    case RoomVariant => e.OfRoom?
  }

  /** The tracked entities whose inner value is of kind `v`, in order. */
  function Filter(ts: seq<Tracked>, v: Variant): (r: seq<Tracked>)
    ensures |r| <= |ts|
    ensures forall t :: t in r <==> t in ts && Matches(v, t.inner)
  {
    if ts == [] then []
    else (if Matches(v, ts[0].inner) then [ts[0]] else []) + (assert ts == [ts[0]] + ts[1..]; Filter(ts[1..], v))
  }

  /** The sort key of `render_entities`: 0 for Removed, 1 otherwise. */
  function RemovedKey(t: Tracked): int {
    if t.status == Removed then 0 else 1
  }

  function RemovedFirst(): (Tracked, Tracked) -> bool {
    (a: Tracked, b: Tracked) => RemovedKey(a) <= RemovedKey(b)
  }

  lemma RemovedFirstIsPreorder()
    ensures TotalPreorder(RemovedFirst())
  {
  }

  /** The Removed entries of `ts`, in order. */
  function RemovedOnes(ts: seq<Tracked>): seq<Tracked> {
    if ts == [] then []
    else (if ts[0].status == Removed then [ts[0]] else []) + RemovedOnes(ts[1..])
  }

  /** The entries of `ts` that are not Removed, in order. */
  function Others(ts: seq<Tracked>): seq<Tracked> {
    if ts == [] then []
    else (if ts[0].status != Removed then [ts[0]] else []) + Others(ts[1..])
  }

  /** The two parts hold exactly the entries of their status. */
  lemma {:induction false} PartsMembers(ts: seq<Tracked>)
    ensures forall t :: t in RemovedOnes(ts) <==> t in ts && t.status == Removed
    ensures forall t :: t in Others(ts) <==> t in ts && t.status != Removed
  {
    if ts != [] {
      PartsMembers(ts[1..]);
      assert ts == [ts[0]] + ts[1..];
    }
  }

  /** A Removed entry is inserted in front. */
  lemma InsertRemoved(x: Tracked, s: seq<Tracked>)
    requires x.status == Removed
    ensures Insert(x, s, RemovedFirst()) == [x] + s
  {
    if s != [] {
      assert RemovedFirst()(x, s[0]);
    }
  }

  lemma {:induction false} PartsStatus(ts: seq<Tracked>)
    ensures forall i :: 0 <= i < |RemovedOnes(ts)| ==> RemovedOnes(ts)[i].status == Removed
    ensures forall i :: 0 <= i < |Others(ts)| ==> Others(ts)[i].status != Removed
  {
    if ts != [] {
      PartsStatus(ts[1..]);
    }
  }

  /** Inserting an entry that is not Removed places it after every Removed
      entry and before the other ones. */
  lemma {:induction false} InsertOther(x: Tracked, rs: seq<Tracked>, os: seq<Tracked>)
    requires x.status != Removed
    requires forall i :: 0 <= i < |rs| ==> rs[i].status == Removed
    requires os != [] ==> os[0].status != Removed
    ensures Insert(x, rs + os, RemovedFirst()) == rs + [x] + os
  {
    var le := RemovedFirst();
    if rs == [] {
      assert rs + os == os;
      assert rs + [x] + os == [x] + os;
    } else {
      var s := rs + os;
      HeadOfAppend(rs, os);
      assert !le(x, s[0]);
      assert Insert(x, s, le) == [rs[0]] + Insert(x, rs[1..] + os, le);
      InsertOther(x, rs[1..], os);
      HeadOfAppend(rs, [x] + os);
      ghost var whole := rs + ([x] + os);
      assert whole == [whole[0]] + whole[1..];
      assert rs + [x] + os == whole;
    }
  }

  /** One step of `RemovedOnes` and `Others`. */
  lemma PartsStep(ts: seq<Tracked>)
    requires ts != []
    ensures ts[0].status == Removed ==> RemovedOnes(ts) == [ts[0]] + RemovedOnes(ts[1..]) && Others(ts) == Others(ts[1..])
    ensures ts[0].status != Removed ==> RemovedOnes(ts) == RemovedOnes(ts[1..]) && Others(ts) == [ts[0]] + Others(ts[1..])
  {
  }

  /** The sorting step for a Removed head. */
  lemma SortStepRemoved(ts: seq<Tracked>)
    requires ts != [] && ts[0].status == Removed
    requires SortBy(ts[1..], RemovedFirst()) == RemovedOnes(ts[1..]) + Others(ts[1..])
    ensures SortBy(ts, RemovedFirst()) == RemovedOnes(ts) + Others(ts)
  {
    var x, rs, os := ts[0], RemovedOnes(ts[1..]), Others(ts[1..]);
    PartsStep(ts);
    InsertRemoved(x, rs + os);
    AppendAssoc([x], rs, os);
  }

  /** The sorting step for a head that is not Removed. */
  lemma SortStepOther(ts: seq<Tracked>)
    requires ts != [] && ts[0].status != Removed
    requires SortBy(ts[1..], RemovedFirst()) == RemovedOnes(ts[1..]) + Others(ts[1..])
    ensures SortBy(ts, RemovedFirst()) == RemovedOnes(ts) + Others(ts)
  {
    var x, rs, os := ts[0], RemovedOnes(ts[1..]), Others(ts[1..]);
    PartsStep(ts);
    PartsStatus(ts[1..]);
    InsertOther(x, rs, os);
    AppendAssoc(rs, [x], os);
  }

  /** The stable sort by the Removed key is the stable partition: the
      Removed entries first, then the others, each part in input order. */
  lemma {:induction false} SortRemovedFirst(ts: seq<Tracked>)
    ensures SortBy(ts, RemovedFirst()) == RemovedOnes(ts) + Others(ts)
  {
    if ts != [] {
      SortRemovedFirst(ts[1..]);
      if ts[0].status == Removed {
        SortStepRemoved(ts);
      } else {
        SortStepOther(ts);
      }
    }
  }

  /** One listed entity: the removed ones are struck through; `style` is
      the inline style and `separator` what follows it. */
  datatype ShownEntity = ShownEntity(entity: Entity, status: ChangeStatus, struck: bool, style: string, separator: string)

  /** Background and text colour of a non-regular status. */
  function StatusColours(s: ChangeStatus): (string, string) {
    match s
    case Removed => ("ffcccc", "b30000")
    case New => ("ccffcc", "006600")
    case Changed => ("ffffcc", "8a6d3b")
    case Regular => ("", "")
  }

  function StatusStyle(s: ChangeStatus): string {
    if s == Regular then ""
    else "background-color: #" + StatusColours(s).0 + "; color: #" + StatusColours(s).1 + "; padding: 0 2px;"
  }

  /** Regular is unstyled and the other three statuses each look
      different. */
  lemma StylesDistinct(a: ChangeStatus, b: ChangeStatus)
    requires a != b
    ensures StatusStyle(a) != StatusStyle(b)
    ensures StatusStyle(a) == "" <==> a == Regular
  {
    if a != Regular && b != Regular {
      var x, y := StatusColours(a).0, StatusColours(b).0;
      var p := "background-color: #";
      assert StatusStyle(a)[..|p| + 6] == p + x;
      assert StatusStyle(b)[..|p| + 6] == p + y;
      assert x != y;
      assert (p + x)[|p|..] == x && (p + y)[|p|..] == y;
    }
  }

  /** Struck through exactly when Removed, and styled by the status. */
  predicate Marked(s: ShownEntity) {
    (s.struck <==> s.status == Removed) && s.style == StatusStyle(s.status)
  }

  function Show(t: Tracked, last: bool): (s: ShownEntity)
    ensures Marked(s) && Tracked(s.entity, s.status) == t
    ensures s.separator == if last then "" else ", "
  {
    ShownEntity(t.inner, t.status, t.status == Removed, StatusStyle(t.status), if last then "" else ", ")
  }

  /** `render_entities(lesson, variant)`: filter, move the removed entries
      to the front, and mark each. */
  function RenderEntities(lesson: LessonBlock, v: Variant): (r: seq<ShownEntity>)
    ensures |r| == |Filter(lesson.entities, v)|
    ensures forall i :: 0 <= i < |r| ==> r[i].separator == (if i < |r| - 1 then ", " else "")
  {
    var sorted := SortBy(Filter(lesson.entities, v), RemovedFirst());
    seq(|sorted|, i requires 0 <= i < |sorted| => Show(sorted[i], i == |sorted| - 1))
  }

  /** Every listed entity is struck through exactly when it was removed,
      and carries its status's style. */
  lemma RenderEntitiesMarked(lesson: LessonBlock, v: Variant)
    ensures forall i :: 0 <= i < |RenderEntities(lesson, v)| ==> Marked(RenderEntities(lesson, v)[i])
  {
    var sorted := SortBy(Filter(lesson.entities, v), RemovedFirst());
    var r := RenderEntities(lesson, v);
    forall i | 0 <= i < |r|
      ensures Marked(r[i])
    {
      assert r[i] == Show(sorted[i], i == |sorted| - 1);
    }
  }

  function Unshown(s: ShownEntity): Tracked {
    Tracked(s.entity, s.status)
  }

  /** The listed entries are exactly the matching ones, the Removed ones
      first, each part in the order of the lesson's entity list. */
  lemma RenderEntitiesOrder(lesson: LessonBlock, v: Variant)
    ensures Map(RenderEntities(lesson, v), Unshown)
         == RemovedOnes(Filter(lesson.entities, v)) + Others(Filter(lesson.entities, v))
  {
    var f := Filter(lesson.entities, v);
    SortRemovedFirst(f);
    var sorted := SortBy(f, RemovedFirst());
    var r := RenderEntities(lesson, v);
    assert forall i :: 0 <= i < |r| ==> Unshown(r[i]) == sorted[i];
    assert Map(r, Unshown) == sorted;
  }

  /** The number of `", "` separators shown. */
  function SeparatorCount(r: seq<ShownEntity>): nat {
    if r == [] then 0 else (if r[|r| - 1].separator == ", " then 1 else 0) + SeparatorCount(r[..|r| - 1])
  }

  lemma {:induction false} SeparatorPrefix(r: seq<ShownEntity>, n: nat)
    requires n <= |r|
    requires forall i :: 0 <= i < n ==> r[i].separator == ", "
    ensures SeparatorCount(r[..n]) == n
  {
    if n > 0 {
      assert r[..n][..n - 1] == r[..n - 1];
      SeparatorPrefix(r, n - 1);
    }
  }

  /** A list of `n` entities carries `n - 1` separators: after every entity
      but the last. */
  lemma Separators(lesson: LessonBlock, v: Variant)
    ensures |RenderEntities(lesson, v)| > 0 ==> SeparatorCount(RenderEntities(lesson, v)) == |RenderEntities(lesson, v)| - 1
  {
    var r := RenderEntities(lesson, v);
    if |r| > 0 {
      SeparatorPrefix(r, |r| - 1);
      assert r[..|r|] == r;
    }
  }

  // ---------------------------------------------------------------------
  // Borders
  // ---------------------------------------------------------------------

  datatype Border = DangerBorder | InfoBorder | SuccessBorder | WarningBorder | NoBorder

  /** The border of a card: the status decides first, then the type. */
  function BorderOf(lesson: LessonBlock): (b: Border)
    ensures b == DangerBorder <==> lesson.status == "CANCELLED"
    ensures b == InfoBorder <==> lesson.status == "CHANGED"
    ensures b == SuccessBorder <==> lesson.status == "ADDITIONAL"
    ensures b == WarningBorder <==>
      lesson.status != "CANCELLED" && lesson.status != "CHANGED" && lesson.status != "ADDITIONAL" && lesson.kind == "EXAM"
  {
    if lesson.status == "CANCELLED" then DangerBorder
    else if lesson.status == "CHANGED" then InfoBorder
    else if lesson.status == "ADDITIONAL" then SuccessBorder
    else if lesson.kind == "EXAM" then WarningBorder
    else NoBorder
  }

  const BaseClasses := "rounded text-black text-center h-100 w-100 d-flex flex-column align-items-center justify-content-center position-relative"

  const CancelledHatch := "background-image: repeating-linear-gradient(45deg, transparent, transparent 10px, rgba(255,0,0,0.1) 10px, rgba(255,0,0,0.1) 20px);"

  function BorderSuffix(b: Border): string {
    match b
    case DangerBorder => " border border-4 border-danger opacity-50"
    case InfoBorder => " border border-4 border-info"
    case SuccessBorder => " border border-4 border-success"
    case WarningBorder => " border border-4 border-warning"
    case NoBorder => ""
  }

  /** The card's classes and inner style, appended to step by step as in
      `generate_lesson_html`. */
  method CardStyle(lesson: LessonBlock) returns (classes: string, innerStyle: string)
    ensures classes == BaseClasses + BorderSuffix(BorderOf(lesson))
    ensures innerStyle == "background-color: #" + lesson.colorHex + ";" + (if BorderOf(lesson) == DangerBorder then CancelledHatch else "")
  {
    innerStyle := "background-color: #" + lesson.colorHex + ";";
    classes := BaseClasses;
    if lesson.status == "CANCELLED" {
      classes := classes + BorderSuffix(DangerBorder);
      innerStyle := innerStyle + CancelledHatch;
    } else if lesson.status == "CHANGED" {
      classes := classes + BorderSuffix(InfoBorder);
    } else if lesson.status == "ADDITIONAL" {
      classes := classes + BorderSuffix(SuccessBorder);
    } else if lesson.kind == "EXAM" {
      classes := classes + BorderSuffix(WarningBorder);
    } else {
      assert BaseClasses + "" == BaseClasses;
    }
  }

  /** The five border kinds are told apart by their classes, so one card
      shows at most one of them. */
  lemma BorderSuffixesDistinct(a: Border, b: Border)
    requires a != b
    ensures BorderSuffix(a) != BorderSuffix(b)
  {
  }

  // ---------------------------------------------------------------------
  // Group extent
  // ---------------------------------------------------------------------

  /** `(min start, max end)` over a group, as instants; the source unwraps
      these, so an empty group is `None`. */
  function Extent(lessons: seq<LessonBlock>): (r: Option<(int, int)>)
    ensures r.None? <==> lessons == []
    ensures r.Some? ==> (exists i :: 0 <= i < |lessons| && Start(lessons[i]) == r.value.0)
    ensures r.Some? ==> (exists i :: 0 <= i < |lessons| && End(lessons[i]) == r.value.1)
    ensures r.Some? ==> forall i :: 0 <= i < |lessons| ==> r.value.0 <= Start(lessons[i]) && End(lessons[i]) <= r.value.1
    decreases |lessons|
  {
    if lessons == [] then None
    else
      var n := |lessons| - 1;
      var last := lessons[n];
      match Extent(lessons[..n])
      case None => Some((Start(last), End(last)))
      case Some(p) =>
        assert forall i :: 0 <= i < n ==> lessons[..n][i] == lessons[i];
        Some((if Start(last) < p.0 then Start(last) else p.0, if End(last) > p.1 then End(last) else p.1))
  }

  /** A group whose members end no earlier than they start has an extent
      that covers each member. */
  lemma ExtentCovers(lessons: seq<LessonBlock>, i: int)
    requires 0 <= i < |lessons|
    requires Start(lessons[i]) <= End(lessons[i])
    ensures Extent(lessons).Some? && Extent(lessons).value.0 <= Extent(lessons).value.1
  {
  }
}
