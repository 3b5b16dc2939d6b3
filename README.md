# altis timetable core in Dafny

This project models the core logic of altis, a WebUntis client (the
school timetable service), and proves properties of that model. The
client fetches a school's class timetables week by week and caches them.
From the class tables it derives a table for every teacher and every room.
It lays a day out on a time axis with synthetic breaks and groups of
overlapping lessons, and it can print a week as a fixed-width text table.
The model also covers the login step that collects the session cookies
and the canteen page's meal list.

Modules, in dependency order:

- `Wrappers`, `Errors`: `Option`, `Result` and the client's `ApiError`.
- `Text`: decimal digits, zero padding, padding and centring, trimming,
  lower-casing (the ASCII capitals and the Kelvin sign, see "## Left
  out") and character search, on `seq<char>`.
- `Sorting`: the library's stable sort (`sort_by_key`, `sort_by`) as a
  stable insertion sort. It is proved sorted, a permutation and stable.
  The module also has lemmas about `Flatten` and `Map`.
- `Calendar`: the proleptic Gregorian calendar on day numbers counted from
  1970-01-01, the weekday, and `%Y-%m-%d` formatting and its parser.
- `CleanModels`: the records of the newer data model (`Tracked.inner`,
  `DayTimeTable.date`, `Entity::Info`). Timestamps are a day number plus a
  minute of the day.
- `Cleaning`: the `From` conversions that map the Untis response records
  onto the clean model.
- `LessonsRender`: the entity list of a lesson card (filter, removed
  first, separators, styles), the border precedence and a group's extent.
- `TimetableRender`: the rows of the time axis, `fill_breaks` and
  `group_by_time`.
- `PrettyTable`: `WeekTimeTable::to_string_pretty`.
- `TeacherTables`: `gen_all_timetables`.
- `UntisWeek`: `Week` and its arithmetic.
- `CachedClient`: the week cache in front of the network client.
- `Authorization`: the credential check and the Set-Cookie scan of
  `get_session_into_cookies`.
- `Book2Eat`: today's meals and `sort_meals`.

The source changes state in several places, and the model does so in the
same places:

- `to_string_pretty`, the axis rows, `fill_breaks`, `group_by_time`, the
  filing loops of `gen_all_timetables`, the loop over a grid entry's
  positions and the cookie scan are methods with loops.
- `sort_meals` and the conversion of one position are methods without a
  loop, because their source is library calls or straight-line code.
- The persisted timetable cache is a class with `modifies` clauses, and
  so is the cookie store.
- Each method is proved equal to, or to satisfy, a specification
  function. The properties are then proved as lemmas about that function.

The `clean_models.rs` in the repository is an older version of the record types than
the code that uses them (`cleaning.rs:77-79`, `teacher_table_generator.rs:29-34`).
The model follows the newer shape the callers use.

`LessonBlock::overlaps` is not part of this model. `Overlaps`
assumes a half-open intersection, `a.start < b.end && b.start < a.end`.
That is the same comparison `to_string_pretty` uses for slots.

## Model

| member | source | states |
|---|---|---|
| `CleanModels.InstantOrder` | src/untis/cached_untis_client.rs:29 | The absolute minute of a timestamp orders timestamps by date, then by time of day, as `NaiveDateTime` comparison does |
| `CleanModels.AllLessonsSnoc` | src/components/timetable/timetable_render.rs:44 | The flat lesson list of one more day is the earlier list followed by that day's lessons |
| `CleanModels.OverlapsSymmetric` | src/data_models/clean_models/clean_models.rs:158 | Overlap of two blocks does not depend on their order |
| `CleanModels.BreakBlock` | src/components/timetable/timetable_render.rs:188-192 | A synthetic break has the given range, type "Break" and every other field at its default |
| `Sorting.Insert` | src/components/timetable/timetable_render.rs:140 | Inserting adds exactly that element to the multiset |
| `Sorting.InsertSorted` | src/components/timetable/timetable_render.rs:140 | Inserting into a sorted list under a total preorder keeps it sorted |
| `Sorting.SortBy` | src/components/timetable/timetable_render.rs:140 | The stable sort returns a permutation of its input |
| `Sorting.SortBySorted` | src/components/timetable/timetable_render.rs:140 | Under a total preorder the stable sort's output is sorted |
| `Sorting.InsertStable` | src/components/timetable/timetable_render.rs:140 | Insertion puts a new element before every element equivalent to it, so the elements equivalent to any key gain at most the inserted one, at their front |
| `Sorting.SortByStable` | src/components/timetable/timetable_render.rs:140 | The elements equivalent to any given key keep their input order in the sorted output |
| `Sorting.FlattenAppend` | src/components/timetable/timetable_render.rs:44 | Flattening distributes over concatenation |
| `Sorting.FlattenUniform` | src/data_models/clean_models/clean_models.rs:221 | Flattening `n` pieces of width `w` gives `w * n` elements, with piece `i` at offset `w * i` |
| `Sorting.FlattenPermuted` | src/components/timetable/timetable_render.rs:177 | Permuting the pieces permutes the flattened elements |
| `Sorting.PairwisePermuted` | src/components/timetable/timetable_render.rs:177 | A symmetric relation that holds between every pair of a list holds between every pair of any permutation of it |
| `Sorting.MapPermuted` | src/components/timetable/timetable_render.rs:177 | Permuting the input of a map permutes its output |
| `Text.DigitChar` | src/untis/untis_week.rs:64 | A digit value 0-9 is written as a decimal digit character |
| `Text.NatToString` | src/untis/untis_week.rs:64 | The decimal text of a natural number is non-empty, all digits, and one character long exactly below 10 |
| `Text.DigitsValueOfNat` | src/untis/untis_week.rs:64 | Reading back the decimal text of `n` gives `n` |
| `Text.ZeroPad` | src/untis/untis_week.rs:24-25 | Zero padding gives digits only and is at least as wide as requested |
| `Text.ZeroPadValue` | src/untis/untis_week.rs:24-25 | Zero padding does not change the value the digits denote |
| `Text.PadRight` | src/data_models/clean_models/clean_models.rs:138 | Left alignment keeps the text as a prefix and widens it to the width |
| `Text.Center` | src/data_models/clean_models/clean_models.rs:140-144 | Centring puts half the spare width before the text and the rest, one more when odd, after it; wider text is unchanged |
| `Text.TrimStart` | src/untis/authorization_untis_client.rs:61 | The kept suffix starts with a non-whitespace character and everything dropped is whitespace |
| `Text.TrimEnd` | src/untis/authorization_untis_client.rs:61 | The kept prefix ends with a non-whitespace character and everything dropped is whitespace |
| `Text.TrimNoop` | src/untis/authorization_untis_client.rs:61-62 | Text without whitespace at either end is left unchanged by trimming |
| `Text.LowerChar` | src/data_models/cleaning.rs:56 | A lowered character is never an ASCII capital; it is ASCII exactly when the input is ASCII or the Kelvin sign, and an ASCII small letter exactly when the input is an ASCII letter or the Kelvin sign, as `to_lowercase` gives |
| `Text.ToLower` | src/data_models/cleaning.rs:56 | Lower-casing keeps the length and lowers every character on its own |
| `Text.IndexOf` | src/untis/authorization_untis_client.rs:60 | The index returned is that of the first occurrence of the character, or the length when it does not occur |
| `Calendar.DaysBeforeClosed` | src/untis/untis_week.rs:24-25 | The day number of 1 January of a year equals the closed form with 365 days a year plus the leap days under the Gregorian rule |
| `Calendar.LeapsStep` | src/untis/untis_week.rs:24-25 | The leap-day count grows by one exactly at a leap year |
| `Calendar.MonthsFillYear` | src/untis/untis_week.rs:64 | The twelve months add up to the year's length |
| `Calendar.YearOf` | src/untis/untis_week.rs:64 | Every day number lies within the year found for it |
| `Calendar.MonthOf` | src/untis/untis_week.rs:64 | Every day of a year lies within the month found for it |
| `Calendar.CivilFromDays` | src/untis/untis_week.rs:64 | A day number converts to a valid year, month and day |
| `Calendar.CivilFromDaysInverse` | src/untis/untis_week.rs:64 | Converting a day number to a date and back gives the same number |
| `Calendar.CivilRoundTrip` | src/untis/untis_week.rs:49 | Converting a valid date to its day number and back gives the same date |
| `Calendar.MondayOf` | src/untis/untis_week.rs:30-31 | The Monday of a date is a Monday and lies zero to six days before that date |
| `Calendar.WeekdayPeriodic` | src/untis/untis_week.rs:20 | Moving by whole weeks keeps the weekday |
| `Calendar.FormatLayout` | src/untis/untis_week.rs:24-25 | `%Y-%m-%d` is the four-digit year, two-digit month and two-digit day, joined by dashes |
| `Calendar.ParseFormat` | src/untis/untis_week.rs:49 | Parsing a formatted date with a four-digit year gives back its day number |
| `Calendar.Parse` | src/untis/untis_week.rs:49 | A text that parses as a date is ten characters long |
| `Cleaning.ClassFrom` | src/data_models/cleaning.rs:7-16 | A class from a class entry has its id, its short name as name, its converted department, and a class teacher exactly when `class_teacher1` is given, converted from it |
| `Cleaning.ClassIgnoresSecondTeacher` | src/data_models/cleaning.rs:12 | Two entries that differ only outside `class_teacher1`, the class info and the department give the same class |
| `Cleaning.DepartmentFrom` | src/data_models/cleaning.rs:18-27 | A department keeps its id and all three names |
| `Cleaning.TeacherFrom` | src/data_models/cleaning.rs:29-38 | A teacher from a class entry has `Some(id)` and keeps all three names |
| `Cleaning.ResourceToEntity` | src/data_models/cleaning.rs:54-83 | A resource converts exactly when its lower-cased type is a known kind. Teachers get no id, rooms are named by their short name, classes get id 0, no class teacher and the default department, and info defaults to "". Any other type fails with "Unrecognized resource type: " and the type |
| `Cleaning.LowerIdempotent` | src/data_models/cleaning.rs:56 | Lower-casing twice is lower-casing once |
| `Cleaning.ResourceCaseInsensitive` | src/data_models/cleaning.rs:56 | Two resources whose types differ only in case convert alike |
| `Cleaning.GridTeacherDiffersFromClassTeacher` | src/data_models/cleaning.rs:57-62 | No grid resource converts to the teacher of a class entry, because grid teachers have no id |
| `Cleaning.Then` | src/data_models/cleaning.rs:126-127 | Concatenating two partial results succeeds exactly when both succeed, and otherwise keeps the first failure |
| `Cleaning.PositionToTracked` | src/data_models/cleaning.rs:85-109 | The imperative conversion of a position returns the entities of its specification function |
| `Cleaning.PositionCases` | src/data_models/cleaning.rs:89-105 | A position with current and removed parts gives [current as Changed, removed as Removed]; current only gives [current as Regular]; removed only gives [removed as Removed]; neither gives [] |
| `Cleaning.PositionFailure` | src/data_models/cleaning.rs:96-102 | A position fails exactly when one of its parts has an unknown type, with the current part's error first |
| `Cleaning.PositionShape` | src/data_models/cleaning.rs:85-109 | A position gives one entity per present part, at most two, and only the second can be Removed |
| `Cleaning.EntitiesOfAppend` | src/data_models/cleaning.rs:126-128 | The entities of two position lists in a row are the entities of each, concatenated, and exist exactly when both exist |
| `Cleaning.EntitiesOfOk` | src/data_models/cleaning.rs:126-128 | The entity list exists exactly when every position converts |
| `Cleaning.EntitiesOfFailFirst` | src/data_models/cleaning.rs:126-128 | After a failing position, later positions do not change the failure |
| `Cleaning.EntitiesOfStep` | src/data_models/cleaning.rs:126-127 | One more position extends the entity list by that position's entities |
| `Cleaning.CollectEntities` | src/data_models/cleaning.rs:113-128 | The loop over the positions returns the flattened entities of positions 1 to 7 in order |
| `Cleaning.TextsOf` | src/data_models/cleaning.rs:130-143 | The text map has notesAll, lessonText and substitutionText, and has statusDetail, name and userName exactly when they are given |
| `Cleaning.GridEntryToLessonBlock` | src/data_models/cleaning.rs:111-156 | A grid entry converts exactly when all its positions do. The block has those entities and the entry's range, type, status, colour and icons, one text map, and the link or "" |
| `LessonsRender.Filter` | src/components/timetable/lessons_render_helper.rs:67-69 | The filtered entities are exactly those whose inner value matches the variant |
| `LessonsRender.RemovedFirstIsPreorder` | src/components/timetable/lessons_render_helper.rs:71-73 | The removed-first key is a total preorder |
| `LessonsRender.PartsMembers` | src/components/timetable/lessons_render_helper.rs:71-73 | The removed part holds exactly the Removed entries and the other part the rest |
| `LessonsRender.PartsStatus` | src/components/timetable/lessons_render_helper.rs:71-73 | Every entry of the removed part is Removed and no entry of the other part is |
| `LessonsRender.SortRemovedFirst` | src/components/timetable/lessons_render_helper.rs:71-73 | Stable sorting by the removed key gives the Removed entries, then the others, each in input order |
| `LessonsRender.Show` | src/components/timetable/lessons_render_helper.rs:79-96 | A shown entity keeps its entity and status, is marked by its status, and is followed by ", " unless it is last |
| `LessonsRender.RenderEntities` | src/components/timetable/lessons_render_helper.rs:75-79 | One entry is shown per matching entity, and ", " follows every entry except the last |
| `LessonsRender.RenderEntitiesMarked` | src/components/timetable/lessons_render_helper.rs:81-96 | Every shown entity is struck through exactly when Removed and has its status's style |
| `LessonsRender.RenderEntitiesOrder` | src/components/timetable/lessons_render_helper.rs:66-97 | The shown entities are the matching Removed ones, then the other matching ones, each part in lesson order |
| `LessonsRender.Separators` | src/components/timetable/lessons_render_helper.rs:75-79 | A list of `n` entities has `n - 1` separators |
| `LessonsRender.StylesDistinct` | src/components/timetable/lessons_render_helper.rs:81-86 | Different statuses have different styles, and only Regular has none |
| `LessonsRender.BorderOf` | src/components/timetable/lessons_render_helper.rs:32-41 | Cancelled gives danger, else Changed gives info, else Additional gives success, else type EXAM gives warning; each holds exactly in its case |
| `LessonsRender.CardStyle` | src/components/timetable/lessons_render_helper.rs:28-41 | The card's classes are the base classes and the border's suffix; the hatch is added to the style only for a cancelled lesson |
| `LessonsRender.BorderSuffixesDistinct` | src/components/timetable/lessons_render_helper.rs:32-41 | The border kinds add different class suffixes, so at most one kind shows |
| `LessonsRender.Extent` | src/components/timetable/lessons_render_helper.rs:6-7 | A group's extent is from its earliest start to its latest end: both are attained and bound every member; there is none for an empty group |
| `LessonsRender.ExtentCovers` | src/components/timetable/lessons_render_helper.rs:6-8 | A group with a well-formed member has an extent that does not end before it starts |
| `TimetableRender.OrdersArePreorders` | src/components/timetable/timetable_render.rs:165-177 | The start order, the longest-first order, the group order, the date order and the integer order are total preorders |
| `TimetableRender.LeadingBreak` | src/components/timetable/timetable_render.rs:186-193 | A break from `earliest` on the first block's date to the first block's start opens the day exactly when that start's time is not `earliest` |
| `TimetableRender.GapAfter` | src/components/timetable/timetable_render.rs:196-205 | After block `k` a break `[end, next start)` is inserted exactly when a next block exists and starts after block `k` ends |
| `TimetableRender.FillBreaks` | src/components/timetable/timetable_render.rs:181-208 | The loop over the peekable iterator returns the filled day of the lessons sorted by start |
| `TimetableRender.PushWithGap` | src/components/timetable/timetable_render.rs:196-205 | One iteration pushes the current block and then the break after it, if any |
| `TimetableRender.WalkStep` | src/components/timetable/timetable_render.rs:195-206 | One more step of the walk appends the block and its gap break |
| `TimetableRender.WalkPrefix` | src/components/timetable/timetable_render.rs:195-206 | What the walk has emitted is never changed by later steps |
| `TimetableRender.WalkLayout` | src/components/timetable/timetable_render.rs:195-206 | Every sorted block appears in the output at its own position, in order. A break directly after it spans the gap, and nothing follows the last block |
| `TimetableRender.WalkOnlyAddsBreaks` | src/components/timetable/timetable_render.rs:195-206 | Every output element is an input block at its position or a Break |
| `TimetableRender.WalkHasNoGaps` | src/components/timetable/timetable_render.rs:195-206 | In the output every element starts no later than the previous one ends |
| `TimetableRender.FilledDayHasNoGaps` | src/components/timetable/timetable_render.rs:181-208 | The filled day, leading break included, has no gap between consecutive elements |
| `TimetableRender.FilledDayOfNothing` | src/components/timetable/timetable_render.rs:186-207 | An empty day stays empty |
| `TimetableRender.ApartSymmetric` | src/components/timetable/timetable_render.rs:151 | Two groups with no overlapping pair are apart in either order |
| `TimetableRender.GroupByTime` | src/components/timetable/timetable_render.rs:139-179 | The groups hold every block exactly once. Each is non-empty, connected by overlaps and sorted longest first, then by start. No two groups overlap, the groups are ordered by their first member's start, and there are none exactly for an empty day |
| `TimetableRender.GrowCluster` | src/components/timetable/timetable_render.rs:145-163 | The inner loop moves into the group the first block and exactly the blocks chained to it by overlaps; what remains overlaps no member |
| `TimetableRender.OverlapsAnyMember` | src/components/timetable/timetable_render.rs:149-155 | The flag is set exactly when the block overlaps some group member |
| `TimetableRender.SortingKeepsPartition` | src/components/timetable/timetable_render.rs:177 | Sorting the groups by their first start keeps the partition and orders the groups |
| `TimetableRender.ClusterStep` | src/components/timetable/timetable_render.rs:144-174 | One outer iteration keeps the partition invariant |
| `TimetableRender.ClusterIsApart` | src/components/timetable/timetable_render.rs:165-171 | The sorted, grown group is a cluster and is apart from what remains |
| `TimetableRender.AbsorbKeepsChain` | src/components/timetable/timetable_render.rs:157-159 | Absorbing a block that overlaps a member keeps the group chained |
| `TimetableRender.StepKeepsApart` | src/components/timetable/timetable_render.rs:144-174 | A new group apart from the rest keeps all groups pairwise apart |
| `TimetableRender.NonEmptyParts` | src/components/timetable/timetable_render.rs:144-174 | A list of clusters is empty exactly when it holds no block |
| `TimetableRender.RemoveAt` | src/components/timetable/timetable_render.rs:158 | Removing one element keeps the rest of the multiset |
| `TimetableRender.StartTimes` | src/components/timetable/timetable_render.rs:53 | The start times are each lesson's start time, in lesson order |
| `TimetableRender.EndTimes` | src/components/timetable/timetable_render.rs:54 | The end times are each lesson's end time, in lesson order |
| `TimetableRender.SortedDistinct` | src/components/timetable/timetable_render.rs:55-58 | Sorting and deduplicating gives a strictly increasing list of the same values |
| `TimetableRender.DedupSorted` | src/components/timetable/timetable_render.rs:57-58 | `dedup` on a sorted list keeps one copy of each value and the first element |
| `TimetableRender.FirstAbove` | src/components/timetable/timetable_render.rs:68 | The cursor stops at the first end time above the start, or at the end of the list |
| `TimetableRender.TimeAxisOf` | src/components/timetable/timetable_render.rs:42-72 | "No lessons!" exactly when the week has none. Otherwise the minimum is the earliest start time and the maximum the latest end time of some lesson, and the rows are those of the sorted, deduplicated times |
| `TimetableRender.LowestStart` | src/components/timetable/timetable_render.rs:60 | The first distinct start time is the earliest start time of some lesson |
| `TimetableRender.HighestEnd` | src/components/timetable/timetable_render.rs:61 | The last distinct end time is the latest end time of some lesson |
| `TimetableRender.ExtremesOfTimes` | src/components/timetable/timetable_render.rs:60-61 | The same holds for every permutation of the week's lessons |
| `TimetableRender.AllLessonsPermuted` | src/components/timetable/timetable_render.rs:43-44 | Sorting the days by date permutes the flat lesson list |
| `TimetableRender.RowsOf` | src/components/timetable/timetable_render.rs:64-72 | The loop with the cursor `ei` emits exactly the rows of the row function |
| `TimetableRender.RowsStep` | src/components/timetable/timetable_render.rs:67-71 | One more start time adds the row it opens, if any |
| `TimetableRender.AdvanceCursor` | src/components/timetable/timetable_render.rs:68 | The inner loop moves the cursor to the first end time above the start |
| `TimetableRender.CursorStillBelow` | src/components/timetable/timetable_render.rs:68 | The cursor carried over from the previous start never passes an end time above the next start |
| `TimetableRender.CursorIsFirstAbove` | src/components/timetable/timetable_render.rs:68 | A position after all end times at or below the start, and before every one above it, is the first index above |
| `TimetableRender.FirstAboveIs` | src/components/timetable/timetable_render.rs:68 | The first index above is unique |
| `TimetableRender.FirstAboveMonotonic` | src/components/timetable/timetable_render.rs:68 | A later start never moves the first index above backwards |
| `TimetableRender.NoRowsAfter` | src/components/timetable/timetable_render.rs:69 | Once no end time is above a start, no later start opens a row, which justifies the `break` |
| `TimetableRender.NoRowsBetween` | src/components/timetable/timetable_render.rs:69 | The same, for any number of the later starts |
| `TimetableRender.RowAtIsSlot` | src/components/timetable/timetable_render.rs:67-71 | A row opened by a start runs to the first end time after it, and no start lies strictly inside it |
| `TimetableRender.RowsAreSlots` | src/components/timetable/timetable_render.rs:64-72 | Every row `(s, e)` has `s < e`, ends at the smallest end above `s` and no later than the next start, and row starts strictly increase |
| `TimetableRender.RowIff` | src/components/timetable/timetable_render.rs:67-71 | A start opens a row exactly when some end time lies above it and, unless it is the last start, the first such end is not beyond the next start |
| `TimetableRender.RowsSplit` | src/components/timetable/timetable_render.rs:71 | Every row a start opens is in the final rows |
| `TimetableRender.RowsGrow` | src/components/timetable/timetable_render.rs:71 | Rows once emitted stay emitted |
| `TimetableRender.RowOwner` | src/components/timetable/timetable_render.rs:71 | Every row was opened by exactly its own start time |
| `PrettyTable.Pick` | src/data_models/clean_models/clean_models.rs:177-182 | The active fields are exactly the enabled ones |
| `PrettyTable.PickIncreasing` | src/data_models/clean_models/clean_models.rs:177-182 | Picking keeps the fixed field order |
| `PrettyTable.ActiveFieldsSpec` | src/data_models/clean_models/clean_models.rs:177-182 | The active fields are exactly the enabled ones, in the order sub, tea, cla, roo, sta |
| `PrettyTable.InsertPoint` | src/data_models/clean_models/clean_models.rs:119-120 | Inserting into the ordered set keeps it strictly increasing and adds exactly that point |
| `PrettyTable.PointsOfSnoc` | src/data_models/clean_models/clean_models.rs:117-121 | One more lesson inserts its start and its end |
| `PrettyTable.PointsAreEndpoints` | src/data_models/clean_models/clean_models.rs:116-128 | The boundary points are the sorted distinct start and end times of all lessons, and there are none exactly when there are no lessons |
| `PrettyTable.Slots` | src/data_models/clean_models/clean_models.rs:129-132 | The candidate slots are the consecutive pairs of points, one fewer than the points |
| `PrettyTable.SubjectName` | src/data_models/clean_models/clean_models.rs:205 | The subject line shows the short name of the first Subject entity, or "" when there is none |
| `PrettyTable.NamesFor` | src/data_models/clean_models/clean_models.rs:206-208 | The teacher, class or room line lists the names of exactly the entities of that kind |
| `PrettyTable.InSlot` | src/data_models/clean_models/clean_models.rs:196-200 | A day's lessons in a slot are exactly those that intersect it |
| `PrettyTable.NonEmptyValues` | src/data_models/clean_models/clean_models.rs:202-214 | The cell's values are exactly the non-empty values of the lessons in the slot |
| `PrettyTable.Truncate` | src/data_models/clean_models/clean_models.rs:217-219 | Text of at most 34 characters is kept. Longer text becomes its first 33 characters and "…", so a cell never exceeds 34 |
| `PrettyTable.CellText` | src/data_models/clean_models/clean_models.rs:216-219 | A cell's text is at most 34 characters |
| `PrettyTable.CellWidth` | src/data_models/clean_models/clean_models.rs:221 | A cell is 37 characters wide |
| `PrettyTable.HourMinuteReadsBack` | src/data_models/clean_models/clean_models.rs:188-189 | `HH:MM` is five characters with a colon in the middle, and its digits give back the minute of the day |
| `PrettyTable.TimeLabel` | src/data_models/clean_models/clean_models.rs:187-191 | The time column's text fits its five characters |
| `PrettyTable.FieldAt` | src/data_models/clean_models/clean_models.rs:203 | Line `i` shows field `i` when there is one and nothing after the last |
| `PrettyTable.TableLineLayout` | src/data_models/clean_models/clean_models.rs:193-223 | A table line is the padded time column, the cells, and "|\n" |
| `PrettyTable.DataLines` | src/data_models/clean_models/clean_models.rs:186 | A slot has one data line for each line index |
| `PrettyTable.BodyLinesStep` | src/data_models/clean_models/clean_models.rs:149-175 | One more slot appends its lines, and a slot that is not kept appends none |
| `PrettyTable.DayHeaders` | src/data_models/clean_models/clean_models.rs:139-145 | The header has one centred cell per day, named from the fixed list or "??" beyond the seventh |
| `PrettyTable.ToStringPretty` | src/data_models/clean_models/clean_models.rs:104-229 | The method appends exactly the text of the specification function |
| `PrettyTable.RenderSlots` | src/data_models/clean_models/clean_models.rs:149-226 | The slot loop appends the lines of exactly the kept slots; a slot is only kept when some lesson intersects it and, if it is under 35 minutes, some intersecting lesson does not strictly span it |
| `PrettyTable.CollectPoints` | src/data_models/clean_models/clean_models.rs:116-122 | The nested loops into the ordered set collect the boundary points of all lessons |
| `PrettyTable.RenderHeader` | src/data_models/clean_models/clean_models.rs:138-147 | The header loop writes the header line and the dash line |
| `PrettyTable.RenderSlot` | src/data_models/clean_models/clean_models.rs:184-225 | A kept slot writes its data lines and a dash line |
| `PrettyTable.RenderLine` | src/data_models/clean_models/clean_models.rs:187-223 | The day loop writes one data line |
| `PrettyTable.PrettyEmptyIff` | src/data_models/clean_models/clean_models.rs:124-126 | The output is "No lessons scheduled." exactly when the week has no lessons, and otherwise starts with the header |
| `PrettyTable.HeaderStart` | src/data_models/clean_models/clean_models.rs:138 | The header starts with a character that "No lessons scheduled." does not start with |
| `PrettyTable.CellsLayout` | src/data_models/clean_models/clean_models.rs:195-222 | The cells of a line are 37 characters per day, with day `i`'s cell at offset `37 * i` |
| `PrettyTable.DayNameFits` | src/data_models/clean_models/clean_models.rs:142 | Every day name fits the column |
| `PrettyTable.DayHeaderWidths` | src/data_models/clean_models/clean_models.rs:140-144 | Every day header cell is 37 characters wide |
| `PrettyTable.HeaderLayout` | src/data_models/clean_models/clean_models.rs:138-146 | The header is 8 + 37 · days + 2 characters, with day `i`'s centred name at its offset |
| `PrettyTable.DataLineLayout` | src/data_models/clean_models/clean_models.rs:193-223 | A data line is one longer than the dash line and starts with the padded time label |
| `PrettyTable.SlotLayout` | src/data_models/clean_models/clean_models.rs:184-225 | A kept slot gives max(1, active fields) data lines and a dash line, and one that is not kept gives nothing. Line 0 shows the start, line 1 the end and later lines nothing |
| `PrettyTable.SlotLinesWidths` | src/data_models/clean_models/clean_models.rs:184-225 | Every line of a slot is the dash line or one character longer |
| `PrettyTable.BodyLinesLayout` | src/data_models/clean_models/clean_models.rs:149-226 | Every line of the body is the dash line or one character longer |
| `PrettyTable.PrettyLayout` | src/data_models/clean_models/clean_models.rs:136-147 | The dash line is 8 + 37 · days characters and a newline. The header and every data line are as long as the dash line plus one |
| `TeacherTables.Push` | src/untis/teacher_table_generator.rs:29-34 | Filing a lesson adds its key to the index |
| `TeacherTables.FoldAppend` | src/untis/teacher_table_generator.rs:19-41 | Filing two lists in a row is filing their concatenation |
| `TeacherTables.SelectAppend` | src/untis/teacher_table_generator.rs:19-41 | The lessons selected from two lists are those of each, concatenated |
| `TeacherTables.PushLookup` | src/untis/teacher_table_generator.rs:29-34 | Filing a lesson appends it to its own key and date and changes nothing else |
| `TeacherTables.FoldLookup` | src/untis/teacher_table_generator.rs:19-41 | Filing a list appends, for every key and date, exactly the lessons filed under them, in order |
| `TeacherTables.FoldKeys` | src/untis/teacher_table_generator.rs:29-31 | Filing adds exactly the keys of the filings |
| `TeacherTables.FoldNoEmpty` | src/untis/teacher_table_generator.rs:29-34 | Filing never creates a key or date without lessons |
| `TeacherTables.IndexSpec` | src/untis/teacher_table_generator.rs:16-41 | The index holds for every key and date exactly the lessons filed for them, its keys are those filed, and no entry is empty |
| `TeacherTables.FlattenMember` | src/untis/teacher_table_generator.rs:19-22 | An element is in the flattened list exactly when it is in one of the pieces |
| `TeacherTables.LessonFilingsKeys` | src/untis/teacher_table_generator.rs:22-35 | Each filing of a lesson is under the day's date for a non-removed entity of that lesson |
| `TeacherTables.DayFilingsKeys` | src/untis/teacher_table_generator.rs:27-36 | A day files lessons only under Teacher and Room keys |
| `TeacherTables.TableFilingsKeys` | src/untis/teacher_table_generator.rs:27-36 | A table files lessons only under Teacher and Room keys |
| `TeacherTables.IndexKeysAreTeachersOrRooms` | src/untis/teacher_table_generator.rs:27-38 | Only Teacher and Room entities get derived tables; Class, Subject and Info are ignored |
| `TeacherTables.LessonFilingCount` | src/untis/teacher_table_generator.rs:20-36 | A lesson is selected for a key and date once per non-removed entry equal to a Teacher or Room key, on its own date only; duplicates are kept |
| `TeacherTables.EntrySelect` | src/untis/teacher_table_generator.rs:23-34 | A Removed entry, or one that is not a Teacher or Room, files nothing |
| `TeacherTables.IdsSeparateKeys` | src/untis/teacher_table_generator.rs:30-32 | A teacher without an id and the same teacher with an id are different keys |
| `TeacherTables.SelectFlatten` | src/untis/teacher_table_generator.rs:19-41 | Selecting from the flattened filings flattens the selections |
| `TeacherTables.OrderIndependent` | src/untis/teacher_table_generator.rs:19 | The derived lessons of a key and date, as a multiset, do not depend on the order in which the class tables are visited |
| `TeacherTables.DerivedDaysNonEmpty` | src/untis/teacher_table_generator.rs:43-48 | A derived table has exactly one day per date with lessons for its key, with those lessons, and no empty day |
| `TeacherTables.DatesOfSnoc` | src/untis/teacher_table_generator.rs:46-47 | One more day adds its date |
| `TeacherTables.DaysSoFarStep` | src/untis/teacher_table_generator.rs:46-47 | Pushing the day of a new date keeps the days matching the index |
| `TeacherTables.DaysOf` | src/untis/teacher_table_generator.rs:44-48 | The loop over the dates builds one day per date of the index, with its lessons |
| `TeacherTables.FoldStep` | src/untis/teacher_table_generator.rs:19-22 | One more element of an outer loop files its own filings |
| `TeacherTables.FileLesson` | src/untis/teacher_table_generator.rs:22-38 | The loop over a lesson's entities files exactly its filings |
| `TeacherTables.FileDay` | src/untis/teacher_table_generator.rs:21-39 | The loop over a day's lessons files exactly the day's filings |
| `TeacherTables.FileTable` | src/untis/teacher_table_generator.rs:20-40 | The loop over a table's days files exactly the table's filings |
| `TeacherTables.BuildIndex` | src/untis/teacher_table_generator.rs:16-41 | The four-deep loop builds the index of all class tables, visited in some order of the classes |
| `TeacherTables.ClassTables` | src/untis/teacher_table_generator.rs:11-14 | Every input class appears as a Class entity with its table, and nothing else does |
| `TeacherTables.InsertDerived` | src/untis/teacher_table_generator.rs:43-51 | Inserting the derived tables adds exactly the index's keys, keeps every other table, and gives each key its days |
| `TeacherTables.GenAllTimetables` | src/untis/teacher_table_generator.rs:7-54 | The result is `Ok` and passes `pre_selected` through. Every class keeps its table under its Class entity, never overwritten. Every other key is a filed Teacher or Room with one day per date |
| `UntisWeek.WeeksLaterLaws` | src/untis/untis_week.rs:52 | Moving by no weeks stays put, and one week on and back, or back and on, returns |
| `UntisWeek.WeeksLaterWeekday` | src/untis/untis_week.rs:52 | Moving by weeks keeps the weekday |
| `UntisWeek.SpanningParses` | src/untis/untis_week.rs:23-25 | A written week's start and end parse back to its Monday and its Friday |
| `UntisWeek.ShiftStartCases` | src/untis/untis_week.rs:49-50 | The shift counts from the parsed start, or from today when the start does not parse |
| `UntisWeek.ShiftMovesStart` | src/untis/untis_week.rs:48-59 | Shifting a written week moves its Monday by whole weeks and its end to four days later |
| `UntisWeek.ShiftFallback` | src/untis/untis_week.rs:49-58 | A start that does not parse makes the shift count from today |
| `UntisWeek.NextPrevious` | src/untis/untis_week.rs:40-59 | `previous(next(w)) == w` and `next(previous(w)) == w` for a week the model wrote |
| `UntisWeek.CurrentIsFromDate` | src/untis/untis_week.rs:11-13 | `current()` is the week of today |
| `UntisWeek.CurrentPlusIsShift` | src/untis/untis_week.rs:15-27 | `current_plus(k)` is the current week shifted by `k` weeks and starts on a Monday |
| `UntisWeek.ToString` | src/untis/untis_week.rs:61-65 | The label exists exactly when start and end parse |
| `UntisWeek.ToStringOfSpanning` | src/untis/untis_week.rs:61-65 | A written week's label is "d.m - d.m" of its Monday and Friday without padding |
| `UntisWeek.FromDateSpec` | src/untis/untis_week.rs:29-38 | `from_date`'s start parses to the Monday on or before the date, and its end to four days later |
| `CachedClient.TimetableStore.constructor` | src/untis/cached_untis_client.rs:22 | A store starts with the given content and read outcome |
| `CachedClient.TimetableStore.Read` | src/untis/cached_untis_client.rs:22 | Reading succeeds exactly when the storage is readable, with the stored cache |
| `CachedClient.TimetableStore.Save` | src/untis/cached_untis_client.rs:43-45 | A successful write replaces the cache; a failed one reports the error and changes nothing |
| `CachedClient.GetClassTimetables` | src/untis/cached_untis_client.rs:21-47 | The method returns, fetches and stores exactly what the policy says |
| `CachedClient.ClearCache` | src/untis/cached_untis_client.rs:57-62 | Clearing stores an empty table, or reports the write error and changes nothing |
| `CachedClient.FreshEntryIsReturned` | src/untis/cached_untis_client.rs:25-30 | A cached week with no expiry, or with an expiry after now, is returned without fetching or storing |
| `CachedClient.FetchesUnlessFresh` | src/untis/cached_untis_client.rs:24-36 | The call fetches exactly when the week is not cached fresh; a stale entry is removed before the fetch |
| `CachedClient.FetchFailureStoresNothing` | src/untis/cached_untis_client.rs:38-41 | A fetch error is returned as it is and nothing is stored |
| `CachedClient.ReadFailureFetchesNothing` | src/untis/cached_untis_client.rs:22 | A failed read is reported without fetching |
| `CachedClient.RefillKeepsOtherWeeks` | src/untis/cached_untis_client.rs:35-46 | After a fetch the stored cache maps the week to the fetched tables without expiry and keeps every other week; the tables are returned |
| `CachedClient.RefillThenHit` | src/untis/cached_untis_client.rs:25-46 | Asking again for a refilled week returns the stored tables without fetching, at any later time |
| `CachedClient.ClearedCacheMisses` | src/untis/cached_untis_client.rs:57-62 | After `clear_cache` every week misses |
| `Authorization.FirstPart` | src/untis/authorization_untis_client.rs:59 | The first part is the longest prefix without ';' and ends at the first ';' |
| `Authorization.SplitAtEqualsJoins` | src/untis/authorization_untis_client.rs:60 | Splitting at the first '=' loses nothing, and the name has no '=' while the value may |
| `Authorization.NoEqualsGivesEmptyValue` | src/untis/authorization_untis_client.rs:60-62 | A first part without '=' is the trimmed name with an empty value |
| `Authorization.AttributesIgnored` | src/untis/authorization_untis_client.rs:59 | Everything after the first ';' is ignored |
| `Authorization.SameFirstPart` | src/untis/authorization_untis_client.rs:59-62 | Values with the same first part parse alike |
| `Authorization.IndexOfPrefix` | src/untis/authorization_untis_client.rs:60 | The first '=' is found after a prefix without one |
| `Authorization.IndexOfWhole` | src/untis/authorization_untis_client.rs:60 | A text without the character searches to its end |
| `Authorization.PairsOfSnoc` | src/untis/authorization_untis_client.rs:58-62 | One more value of a header adds its parsed pair |
| `Authorization.CookiePairsSnoc` | src/untis/authorization_untis_client.rs:57-62 | One more header adds its values' pairs exactly when it is a Set-Cookie header |
| `Authorization.OtherHeadersIgnored` | src/untis/authorization_untis_client.rs:57 | A header that is not Set-Cookie changes nothing |
| `Authorization.SetCookieNames` | src/untis/authorization_untis_client.rs:57 | A header is scanned exactly when its name lower-cases to "set-cookie" |
| `Authorization.ScanFromSnoc` | src/untis/authorization_untis_client.rs:64-69 | One more pair is recorded after the earlier ones |
| `Authorization.ScanFromAppend` | src/untis/authorization_untis_client.rs:57-71 | Scanning two lists in a row is scanning their concatenation |
| `Authorization.LastValueNone` | src/untis/authorization_untis_client.rs:64-69 | A name has no value exactly when no pair has that name |
| `Authorization.LastValueSome` | src/untis/authorization_untis_client.rs:64-69 | A name's value is that of its last pair |
| `Authorization.ScanKeepsLast` | src/untis/authorization_untis_client.rs:53-71 | The scan keeps for JSESSIONID, Tenant-Id and schoolname the value of the last pair with that exact name |
| `Authorization.ScanValues` | src/untis/authorization_untis_client.rs:58-70 | The loop over one header's values leaves the three locals as the scan of its cookie pairs, started from their earlier values |
| `Authorization.ExtractSession` | src/untis/authorization_untis_client.rs:53-71 | The nested loops over headers and values leave the three locals as the scan says |
| `Authorization.CookieStore.constructor` | src/untis/authorization_untis_client.rs:75 | A store starts with the given cookies |
| `Authorization.GetSessionIntoCookies` | src/untis/authorization_untis_client.rs:13-79 | The method returns and stores exactly what the login function says, and otherwise leaves the cookies as they were |
| `Authorization.MissingCredentialsRefused` | src/untis/authorization_untis_client.rs:19-21 | An empty school, user or secret is refused with "Credentials not set. " before any request, and nothing is stored |
| `Authorization.ApiErrorReported` | src/untis/authorization_untis_client.rs:47-51 | An `error` member is an Authentication error "API Error {code}: {message}", and nothing is stored |
| `Authorization.StoredOnlyWhenComplete` | src/untis/authorization_untis_client.rs:73-78 | A login that passes the checks returns `Ok`. It stores cookies exactly when all three names were found, each with its last value |
| `Book2Eat.ByFirstCharIsPreorder` | src/components/book2eat.rs:70 | The key `typ_name.chars().next()` is a total preorder with `None` lowest |
| `Book2Eat.Reversed` | src/components/book2eat.rs:71 | Reversing keeps the length |
| `Book2Eat.ReversedAt` | src/components/book2eat.rs:71 | Element `i` of the reversal is element `n - 1 - i` of the input |
| `Book2Eat.ReversedMultiset` | src/components/book2eat.rs:71 | Reversing is a permutation |
| `Book2Eat.ReversedAppend` | src/components/book2eat.rs:71 | Reversing a concatenation reverses and swaps the parts |
| `Book2Eat.EquivalentToAppend` | src/components/book2eat.rs:70-71 | The elements with a given key in a concatenation are those of each part, concatenated |
| `Book2Eat.EquivalentToReversed` | src/components/book2eat.rs:70-71 | Reversing reverses each run of equal keys |
| `Book2Eat.SortMeals` | src/components/book2eat.rs:68-73 | The result is a permutation of the input, non-increasing by the first character of `typ_name`, with empty type names last, and meals with equal keys in reverse input order |
| `Book2Eat.MealsOn` | src/components/book2eat.rs:27-29 | Filtering keeps at most the meals there are |
| `Book2Eat.MealsOnCounts` | src/components/book2eat.rs:27-29 | Every meal of the day is kept as often as it occurs, and no other |
| `Book2Eat.MealsOnOnlyThatDay` | src/components/book2eat.rs:27-29 | Every kept meal is of that day, and nothing is kept exactly when no meal is |
| `Book2Eat.TodaysMealsAreToday` | src/components/book2eat.rs:25-29 | A meal is in today's list exactly when it is on the menu and its date is today's `%Y-%m-%d` |

## Left out

- Rendering to Html (yew components, class strings other than the lesson
  card's, the `<del>`/`<span>` markup) is not modelled. The entity list
  is kept as data: entity, status, strike-through, style and separator.
- `Entity::name()` is not part of this model. A shown entity carries the
  tracked entity itself in place of its name.
- Floating-point geometry is not modelled: the percentage heights and
  widths of `time_table_render` and `generate_lesson(s)_html`.
- HashMap iteration order is not modelled. A map the source iterates
  (class tables, the entity-lesson map, the date map, the menu, and the
  response's header map `HashMap<String, Vec<String>>`) is
  visited in some order the model does not fix: the class order is a
  ghost out-parameter, and the dates are chosen nondeterministically.
  The derived lessons of a key and date are stated as a multiset where
  the order matters. The menu values are a sequence in iteration order.
  The headers are a `seq<Header>` in iteration order: when two
  `Set-Cookie` headers set the same cookie name, `ExtractSession` keeps
  the value of the later one in that sequence, so which value the source
  keeps depends on the map's iteration order.
- `render_entities` and `sort_meals` sort in place with `sort_by_key`.
  The model sorts values (`seq`) with a functional stable insertion sort,
  so in-place update and aliasing are not captured.
- `group_by_time` drains a `Vec` with `remove`; the model reassigns a
  `seq`, with the same order of visits and removals.
- The `break` of the axis-row loop is a `return` from `RowsOf`. Nothing
  follows the loop in the source.
- `ToLower` lowers the ASCII capitals and U+212A KELVIN SIGN (to 'k')
  and keeps every other character, while Rust's `to_lowercase` lowers
  all of Unicode. Every other character that `to_lowercase` changes
  lowers to text holding a non-ASCII character, so comparisons with the
  ASCII names the source uses (`Cleaning.ResourceToEntity`,
  `Authorization.IsSetCookie`) come out the same. The lowered text
  itself differs from Rust's for such characters. Trimming uses the
  Unicode White_Space characters.
- Integer widths are not modelled (`i32` ids, `u32` clock values).
  Every value involved is far from overflow.
- Timestamps are a day number plus a minute of the day. Seconds and
  time zones are not modelled, and so the cache expiry has minute
  precision.
- chrono's date and timestamp parsing in `cleaning.rs` (`TimeRange::from`,
  `DayTimeTable::from`) is not modelled: blocks carry already-parsed
  timestamps and days carry their date.
- Calendar.Parse accepts exactly the texts that `Format` writes for years
  0 to 9999, a round trip through the day count. chrono also accepts
  other spellings, such as a year without leading zeros or with a sign.
  The week lemmas require four-digit years for this reason.
- The clock (`Local::now`, `Date::now`) becomes parameters: `today` and
  `now`.
- TOTP generation, decoding the secret, the HTTP request and JSON
  decoding become parameters, given as their outcomes. So does the
  storage's read and write outcome.
- A write of `save_cookies` or `save_timetables` is all-or-nothing: a
  failed write changes nothing.
- `get_all_timetables`, `get_token`, `authorized_request` and
  `is_authenticated` only chain network calls and storage reads, so they
  are not modelled.
- `Week::to_string` panics on an unparsable start or end; the model
  returns `None`.
- `From<UntisResource>` panics on an unknown type; the model returns
  `Err` with the panic's message, and the failure propagates through the
  position and grid-entry conversions.
- `Extent` returns `None` for an empty group, where the source
  `unwrap`s; the source never calls it on an empty group.
- `LessonsRender.CardStyle`: only the border classes and the cancelled
  hatch are modelled. The outer style, computed from floating-point
  sizes, is not.
- The book2eat component's `is_last` flag and the QR code are Html only
  and are not modelled.
- The duplicates `src/teacher_table_generator.rs`,
  `src/authorization_untis_client.rs` and `src/untis_week.rs` are not
  part of this model. They repeat the modelled code around network calls,
  or are a subset of it.
