/** Properties of the task renderer: the status partition, the shape of a
    rendered due date and of the two entry layouts, what `display` and
    `display_all` put together, and the list names `display_all` collects. */
module DatabaseProperties {
  import opened Results
  import opened Text
  import opened Styled
  import opened ConfigParser
  import opened Database

  // ---------------------------------------------------------------------
  // Status of a due date

  /** The statuses in the order of time. */
  function Rank(s: Status): nat
  {
    match s
    case Late => 0
    case Yesterday => 1
    case Today => 2
    case Tomorrow => 3
    case Future => 4
  }

  /** A later date never gets an earlier status. */
  lemma StatusMonotone(d1: I32, d2: I32, warn: I32)
    requires d1 <= d2
    ensures Rank(CheckDate(d1, warn)) <= Rank(CheckDate(d2, warn))
  {
  }

  /** Without a positive warning horizon no date is due soon: every date
      after today is in the future. */
  lemma NoWarningHorizon(diff: I32, warn: I32)
    requires warn <= 0
    ensures CheckDate(diff, warn) != Tomorrow
    ensures diff > 0 ==> CheckDate(diff, warn) == Future
  {
  }

  /** A wider warning horizon keeps every date that was due soon. */
  lemma WiderHorizon(diff: I32, w1: I32, w2: I32)
    requires w1 <= w2 && CheckDate(diff, w1) == Tomorrow
    ensures CheckDate(diff, w2) == Tomorrow
  {
  }

  /** Distinct statuses are shown in distinct colours. */
  lemma ColorsTellStatusesApart(s1: Status, s2: Status)
    requires s1 != s2
    ensures ColorFor(s1) != ColorFor(s2)
  {
  }

  // ---------------------------------------------------------------------
  // format_date

  /** The text a rendered due date shows: the prefix, then the date as the
      calendar prints it. */
  lemma DueDateText(cfg: Config, calendar: Calendar, date: string)
    requires calendar(cfg.date.format, date).Some?
    ensures FormatDate(cfg, calendar, date).Ok?
    ensures PlainText(FormatDate(cfg, calendar, date).value) ==
              DuePrefix + calendar(cfg.date.format, date).value.text
  {
    var r := FormatDate(cfg, calendar, date).value;
    PlainTextPair(r[0], r[1]);
  }

  /** With colours off, a due date carries no styling whatever its status. */
  lemma DueDateUncolored(cfg: Config, calendar: Calendar, date: string)
    requires !cfg.ui.colors && FormatDate(cfg, calendar, date).Ok?
    ensures Unstyled(FormatDate(cfg, calendar, date).value)
  {
  }

  /** With colours on, a due date is unstyled exactly when it lies beyond
      the warning horizon. */
  lemma DueDateColoredUnlessFuture(cfg: Config, calendar: Calendar, date: string)
    requires cfg.ui.colors && calendar(cfg.date.format, date).Some?
    ensures FormatDate(cfg, calendar, date).Ok?
    ensures Unstyled(FormatDate(cfg, calendar, date).value) <==>
              StatusOf(cfg, calendar(cfg.date.format, date).value) == Future
  {
    var r := FormatDate(cfg, calendar, date).value;
    if Unstyled(r) {
      assert r[1].style == Plain;
    }
  }

  /** With colours on, two dates of different statuses are shown
      differently. */
  lemma DueDatesColoredApart(cfg: Config, calendar: Calendar, d1: string, d2: string)
    requires cfg.ui.colors
    requires calendar(cfg.date.format, d1).Some? && calendar(cfg.date.format, d2).Some?
    requires StatusOf(cfg, calendar(cfg.date.format, d1).value) !=
             StatusOf(cfg, calendar(cfg.date.format, d2).value)
    ensures FormatDate(cfg, calendar, d1).Ok? && FormatDate(cfg, calendar, d2).Ok?
    ensures FormatDate(cfg, calendar, d1).value[1].style != FormatDate(cfg, calendar, d2).value[1].style
  {
    ColorsTellStatusesApart(StatusOf(cfg, calendar(cfg.date.format, d1).value),
                            StatusOf(cfg, calendar(cfg.date.format, d2).value));
  }

  /** The due-date text of a task whose date the calendar accepts; empty
      when the task has no date. */
  function DueText(cfg: Config, calendar: Calendar, t: Task): string
    requires !DateRejected(cfg, calendar, t)
  {
    if t.date.None? then "" else DuePrefix + calendar(cfg.date.format, t.date.value).value.text
  }

  lemma DateDocText(cfg: Config, calendar: Calendar, t: Task)
    requires !DateRejected(cfg, calendar, t)
    ensures PlainText(DateDoc(cfg, calendar, t).value) == DueText(cfg, calendar, t)
  {
    if t.date.Some? {
      DueDateText(cfg, calendar, t.date.value);
    }
  }

  // ---------------------------------------------------------------------
  // format_task

  /** The text of a verbose entry: its number and done glyph, the name, the
      store id and the due date, then the closing line of the list when it
      is the last one and a bare rule otherwise. */
  lemma TaskText(cfg: Config, calendar: Calendar, t: Task, localId: nat, tasksLen: nat)
    requires !DateRejected(cfg, calendar, t)
    ensures FormatTask(cfg, calendar, t, localId, tasksLen).Ok?
    ensures PlainText(FormatTask(cfg, calendar, t, localId, tasksLen).value) ==
              TaskLead(localId) + Glyph(t.done) + "] " + t.name +
              " \n  │         └─[id: " + ShowInt(t.id) + "] " + DueText(cfg, calendar, t) +
              " \n" + (if localId == tasksLen then Closing else "  │") + "\n"
  {
    DateDocText(cfg, calendar, t);
    PlainTextFramed(TaskLead(localId) + Glyph(t.done) + "] " + t.name +
                      " \n  │         └─[id: " + ShowInt(t.id) + "] ",
                    DateDoc(cfg, calendar, t).value,
                    " \n" + (if localId == tasksLen then Closing else "  │") + "\n");
  }

  /** The number at the head of a verbose entry reads back as its local id. */
  lemma LocalIdReadsBack(localId: nat)
    ensures var lead := TaskLead(localId);
            |lead| >= 8 && AllDigits(lead[4..|lead| - 4]) && DigitsValue(lead[4..|lead| - 4]) == localId
  {
    var lead := TaskLead(localId);
    assert lead[4..|lead| - 4] == ShowNat(localId);
    ShowNatValue(localId);
  }

  /** A document shows its first piece first. */
  lemma FirstPieceFirst(p: Piece, rest: Doc)
    ensures PlainText([p] + rest) == p.text + PlainText(rest)
  {
    PlainTextAppend([p], rest);
    PlainTextPiece(p);
  }

  /** A document shows its last piece last. */
  lemma LastPieceLast(init: Doc, p: Piece)
    ensures PlainText(init + [p]) == PlainText(init) + p.text
  {
    PlainTextAppend(init, [p]);
    PlainTextPiece(p);
  }

  /** A verbose entry opens with its local id, and its done glyph is `x`
      exactly when the task is done. */
  lemma TaskLeadAndGlyph(cfg: Config, calendar: Calendar, t: Task, localId: nat, tasksLen: nat)
    requires !DateRejected(cfg, calendar, t)
    ensures FormatTask(cfg, calendar, t, localId, tasksLen).Ok?
    ensures var text := PlainText(FormatTask(cfg, calendar, t, localId, tasksLen).value);
            StartsWith(text, TaskLead(localId)) && |text| > |TaskLead(localId)| &&
            (text[|TaskLead(localId)|] == 'x' <==> t.done)
  {
    var doc := FormatTask(cfg, calendar, t, localId, tasksLen).value;
    var lead := TaskLead(localId);
    var first := doc[0];
    assert doc == [first] + doc[1..];
    FirstPieceFirst(first, doc[1..]);
    var text := PlainText(doc);
    assert first.text[..|lead|] == lead;
    assert first.text[|lead|] == Glyph(t.done)[0];
    assert text[..|lead|] == first.text[..|lead|];
  }

  /** A verbose entry ends with the closing line of the list exactly when
      it is the last one. */
  lemma TaskClosing(cfg: Config, calendar: Calendar, t: Task, localId: nat, tasksLen: nat)
    requires !DateRejected(cfg, calendar, t)
    ensures FormatTask(cfg, calendar, t, localId, tasksLen).Ok?
    ensures var text := PlainText(FormatTask(cfg, calendar, t, localId, tasksLen).value);
            EndsWith(text, Closing + "\n") <==> localId == tasksLen
  {
    var doc := FormatTask(cfg, calendar, t, localId, tasksLen).value;
    var last := doc[|doc| - 1];
    assert doc == doc[..|doc| - 1] + [last];
    LastPieceLast(doc[..|doc| - 1], last);
    var text := PlainText(doc);
    var head := PlainText(doc[..|doc| - 1]) + " \n";
    if localId == tasksLen {
      assert text == head + (Closing + "\n");
      assert text[|text| - |Closing + "\n"|..] == Closing + "\n";
    } else {
      assert text == (head + "  ") + "│\n";
      assert text[|text| - 2] == '│';
      assert (Closing + "\n")[|Closing + "\n"| - 2] == '\n';
    }
  }

  // ---------------------------------------------------------------------
  // format_compact

  /** The date segment a compact entry shows: nothing, or a space and the
      due date. */
  function CompactDueText(cfg: Config, calendar: Calendar, t: Task): string
    requires !DateRejected(cfg, calendar, t)
  {
    if t.date.None? then "" else " " + DueText(cfg, calendar, t)
  }

  lemma CompactDateText(cfg: Config, calendar: Calendar, t: Task)
    requires !DateRejected(cfg, calendar, t)
    ensures PlainText(CompactDate(cfg, calendar, t).value) == CompactDueText(cfg, calendar, t)
  {
    DateDocText(cfg, calendar, t);
    if t.date.Some? {
      FirstPieceFirst(Piece(Plain, " "), DateDoc(cfg, calendar, t).value);
    }
  }

  /** A compact entry after its corner or rule: the store id and the due
      date in brackets, then the done glyph and the name on the same line. */
  function CompactRest(cfg: Config, calendar: Calendar, t: Task): string
    requires !DateRejected(cfg, calendar, t)
  {
    " [" + ShowInt(t.id) + CompactDueText(cfg, calendar, t) + "] ─ [" + Glyph(t.done) + "] " + t.name + "\n"
  }

  /** The text of a compact entry: a corner on the last entry of the list
      and a rule on the others, the rest of the line, and a blank line
      after the last entry. */
  lemma CompactText(cfg: Config, calendar: Calendar, t: Task, localId: nat, tasksLen: nat)
    requires !DateRejected(cfg, calendar, t)
    ensures FormatCompact(cfg, calendar, t, localId, tasksLen).Ok?
    ensures PlainText(FormatCompact(cfg, calendar, t, localId, tasksLen).value) ==
              "  " + (if localId == tasksLen then "└" else "│") + CompactRest(cfg, calendar, t) +
              (if localId == tasksLen then "\n" else "")
  {
    CompactDateText(cfg, calendar, t);
    var last := localId == tasksLen;
    var corner := if last then "└" else "│";
    var blank := if last then "\n" else "";
    PlainTextFramed("  " + corner + " [" + ShowInt(t.id), CompactDate(cfg, calendar, t).value,
                    "] ─ [" + Glyph(t.done) + "] " + t.name + "\n" + blank);
    CompactRegroup(corner, ShowInt(t.id), CompactDueText(cfg, calendar, t), Glyph(t.done), t.name, blank);
  }

  lemma CompactRegroup(corner: string, id: string, date: string, glyph: string, name: string, blank: string)
    ensures "  " + corner + " [" + id + date + ("] ─ [" + glyph + "] " + name + "\n" + blank) ==
            "  " + corner + (" [" + id + date + "] ─ [" + glyph + "] " + name + "\n") + blank
  {
  }

  /** A compact entry opens with a corner exactly when it is the last one
      of its list, and with a rule otherwise. */
  lemma CompactCorner(cfg: Config, calendar: Calendar, t: Task, localId: nat, tasksLen: nat)
    requires !DateRejected(cfg, calendar, t)
    ensures FormatCompact(cfg, calendar, t, localId, tasksLen).Ok?
    ensures var text := PlainText(FormatCompact(cfg, calendar, t, localId, tasksLen).value);
            |text| > 2 && (text[2] == '└' <==> localId == tasksLen) &&
            (text[2] == '│' <==> localId != tasksLen)
  {
    var doc := FormatCompact(cfg, calendar, t, localId, tasksLen).value;
    var first := doc[0];
    assert doc == [first] + doc[1..];
    FirstPieceFirst(first, doc[1..]);
    assert first.text[2] == if localId == tasksLen then '└' else '│';
  }

  /** The last entry of a list differs from any other rendering of the same
      task only in its corner and in the blank line that follows it. */
  lemma CompactLastAddsBlankLine(cfg: Config, calendar: Calendar, t: Task, localId: nat, tasksLen: nat)
    requires !DateRejected(cfg, calendar, t) && localId != tasksLen
    ensures FormatCompact(cfg, calendar, t, tasksLen, tasksLen).Ok?
    ensures FormatCompact(cfg, calendar, t, localId, tasksLen).Ok?
    ensures var other := PlainText(FormatCompact(cfg, calendar, t, localId, tasksLen).value);
            |other| >= 3 &&
            PlainText(FormatCompact(cfg, calendar, t, tasksLen, tasksLen).value) == "  └" + other[3..] + "\n"
  {
    CompactText(cfg, calendar, t, tasksLen, tasksLen);
    CompactText(cfg, calendar, t, localId, tasksLen);
    CornerAndBlankLine(CompactRest(cfg, calendar, t));
  }

  lemma CornerAndBlankLine(rest: string)
    ensures var other := "  " + "│" + rest + "";
            |other| >= 3 && "  " + "└" + rest + "\n" == "  └" + other[3..] + "\n"
  {
    var other := "  " + "│" + rest + "";
    assert other == "  │" + rest;
    assert other[3..] == rest;
  }

  /** A due date adds a space and the rendered date after the store id of
      a compact entry, and changes nothing else. */
  lemma CompactDateSegment(cfg: Config, calendar: Calendar, t: Task, localId: nat, tasksLen: nat)
    requires t.date.Some? && !DateRejected(cfg, calendar, t)
    ensures FormatCompact(cfg, calendar, t, localId, tasksLen).Ok?
    ensures FormatCompact(cfg, calendar, t.(date := None), localId, tasksLen).Ok?
    ensures var bare := PlainText(FormatCompact(cfg, calendar, t.(date := None), localId, tasksLen).value);
            var p := 5 + |ShowInt(t.id)|;
            p <= |bare| &&
            PlainText(FormatCompact(cfg, calendar, t, localId, tasksLen).value) ==
              bare[..p] + " " + DuePrefix + calendar(cfg.date.format, t.date.value).value.text + bare[p..]
  {
    var last := localId == tasksLen;
    CompactText(cfg, calendar, t, localId, tasksLen);
    CompactText(cfg, calendar, t.(date := None), localId, tasksLen);
    var line := "] ─ [" + Glyph(t.done) + "] " + t.name + "\n";
    RestRegroup(ShowInt(t.id), CompactDueText(cfg, calendar, t), Glyph(t.done), t.name);
    RestRegroup(ShowInt(t.id), "", Glyph(t.done), t.name);
    assert CompactRest(cfg, calendar, t) ==
           " [" + ShowInt(t.id) + (" " + (DuePrefix + calendar(cfg.date.format, t.date.value).value.text)) + line;
    assert CompactRest(cfg, calendar, t.(date := None)) == " [" + ShowInt(t.id) + "" + line;
    DateInserted(if last then "└" else "│", ShowInt(t.id), calendar(cfg.date.format, t.date.value).value.text,
                 "] ─ [" + Glyph(t.done) + "] " + t.name + "\n", if last then "\n" else "");
  }

  lemma RestRegroup(id: string, date: string, glyph: string, name: string)
    ensures " [" + id + date + "] ─ [" + glyph + "] " + name + "\n" ==
            " [" + id + date + ("] ─ [" + glyph + "] " + name + "\n")
  {
  }

  lemma DateInserted(corner: string, id: string, date: string, line: string, blank: string)
    requires |corner| == 1
    ensures var bare := "  " + corner + (" [" + id + "" + line) + blank;
            var p := 5 + |id|;
            p <= |bare| &&
            "  " + corner + (" [" + id + (" " + (DuePrefix + date)) + line) + blank ==
              bare[..p] + " " + DuePrefix + date + bare[p..]
  {
    var head := "  " + corner + " [" + id;
    var bare := "  " + corner + (" [" + id + "" + line) + blank;
    assert bare == head + (line + blank);
    assert bare[..5 + |id|] == head && bare[5 + |id|..] == line + blank;
  }

  /** An entry of a task without a due date carries no styling. */
  lemma EntryWithoutDateUnstyled(cfg: Config, calendar: Calendar, t: Task, localId: nat, tasksLen: nat)
    requires t.date.None?
    ensures Entry(cfg, calendar, t, localId, tasksLen).Ok?
    ensures Unstyled(Entry(cfg, calendar, t, localId, tasksLen).value)
  {
  }

  // ---------------------------------------------------------------------
  // display

  /** The rows of a list are exactly the rows of the store in that list. */
  lemma {:induction false} MatchingMembers(store: seq<Task>, list: string)
    ensures forall t :: t in Matching(store, list) <==> t in store && t.list == list
  {
    if store != [] {
      var init := store[..|store| - 1];
      MatchingMembers(init, list);
      assert store == init + [store[|store| - 1]];
    }
  }

  /** Why rendering the rows of a list failed: the first row, in rendering
      order, whose date the calendar rejects, with the error it reports. */
  lemma EntriesError(cfg: Config, calendar: Calendar, tasks: seq<Task>)
    requires Collect(Entries(cfg, calendar, tasks)).Err?
    ensures exists k :: 0 <= k < |tasks| && DateRejected(cfg, calendar, tasks[k]) &&
                        Collect(Entries(cfg, calendar, tasks)).error == DateError(tasks[k].date.value) &&
                        forall i :: 0 <= i < k ==> !DateRejected(cfg, calendar, tasks[i])
  {
    var es := Entries(cfg, calendar, tasks);
    CollectErr(es);
    var k :| 0 <= k < |es| && es[k] == Err(Collect(es).error) && forall i :: 0 <= i < k ==> es[i].Ok?;
    assert es[k] == Entry(cfg, calendar, tasks[k], k + 1, |tasks|);
    assert forall i :: 0 <= i < k ==> es[i] == Entry(cfg, calendar, tasks[i], i + 1, |tasks|);
  }

  /** `display` fails exactly when the list has no task, or when one of its
      tasks has a date the calendar rejects; the error is the query's or
      that date's. */
  lemma DisplayFailsIff(cfg: Config, calendar: Calendar, store: seq<Task>, list: string)
    ensures DisplaySpec(cfg, calendar, store, list).Err? <==>
              (forall i :: 0 <= i < |store| ==> store[i].list != list) ||
              (exists i :: 0 <= i < |store| && store[i].list == list && DateRejected(cfg, calendar, store[i]))
    ensures DisplaySpec(cfg, calendar, store, list).Err? ==>
              ((forall i :: 0 <= i < |store| ==> store[i].list != list) &&
               DisplaySpec(cfg, calendar, store, list).error == NoSuchTask("list", list)) ||
              exists i :: 0 <= i < |store| && store[i].list == list && DateRejected(cfg, calendar, store[i]) &&
                          DisplaySpec(cfg, calendar, store, list).error == DateError(store[i].date.value)
  {
    if exists i :: 0 <= i < |store| && store[i].list == list {
      if DisplaySpec(cfg, calendar, store, list).Err? {
        DisplayErrorCause(cfg, calendar, store, list);
      }
      if exists i :: 0 <= i < |store| && store[i].list == list && DateRejected(cfg, calendar, store[i]) {
        var i :| 0 <= i < |store| && store[i].list == list && DateRejected(cfg, calendar, store[i]);
        DisplayRejects(cfg, calendar, store, list, i);
      }
    }
  }

  /** A failed `display` of a list that has tasks reports the rejected date
      of one of them: the first one in the order the list is rendered. */
  lemma DisplayErrorCause(cfg: Config, calendar: Calendar, store: seq<Task>, list: string)
    requires exists i :: 0 <= i < |store| && store[i].list == list
    requires DisplaySpec(cfg, calendar, store, list).Err?
    ensures exists i :: 0 <= i < |store| && store[i].list == list && DateRejected(cfg, calendar, store[i]) &&
                        DisplaySpec(cfg, calendar, store, list).error == DateError(store[i].date.value)
    ensures exists k :: 0 <= k < |Matching(store, list)| && DateRejected(cfg, calendar, Matching(store, list)[k]) &&
                        DisplaySpec(cfg, calendar, store, list).error == DateError(Matching(store, list)[k].date.value) &&
                        forall i :: 0 <= i < k ==> !DateRejected(cfg, calendar, Matching(store, list)[i])
  {
    var tasks := Matching(store, list);
    EntriesError(cfg, calendar, tasks);
    var k :| 0 <= k < |tasks| && DateRejected(cfg, calendar, tasks[k]) &&
             Collect(Entries(cfg, calendar, tasks)).error == DateError(tasks[k].date.value) &&
             forall i :: 0 <= i < k ==> !DateRejected(cfg, calendar, tasks[i]);
    MatchingMembers(store, list);
    assert tasks[k] in tasks;
  }

  /** A task of the list whose date the calendar rejects makes `display`
      fail. */
  lemma DisplayRejects(cfg: Config, calendar: Calendar, store: seq<Task>, list: string, i: nat)
    requires i < |store| && store[i].list == list && DateRejected(cfg, calendar, store[i])
    ensures DisplaySpec(cfg, calendar, store, list).Err?
  {
    var tasks := Matching(store, list);
    var es := Entries(cfg, calendar, tasks);
    MatchingMembers(store, list);
    assert store[i] in tasks;
    var k :| 0 <= k < |tasks| && tasks[k] == store[i];
    assert es[k].Err?;
    CollectOk(es);
  }

  /** What a successful `display` shows: the header, then the entries of
      the list's tasks in fetch order. */
  lemma DisplayShape(cfg: Config, calendar: Calendar, list: string, tasks: seq<Task>)
    requires DisplayTasks(cfg, calendar, list, tasks).Ok?
    ensures forall i :: 0 <= i < |tasks| ==> Entries(cfg, calendar, tasks)[i].Ok?
    ensures DisplayTasks(cfg, calendar, list, tasks).value ==
              Header(cfg, list) + Flatten(Values(Entries(cfg, calendar, tasks)))
  {
    CollectOk(Entries(cfg, calendar, tasks));
  }

  /** In the verbose layout the entries are numbered 1 to n in fetch order,
      and only the last one carries the closing line of the list. */
  lemma VerboseEntriesNumbered(cfg: Config, calendar: Calendar, list: string, tasks: seq<Task>)
    requires !cfg.ui.compact && DisplayTasks(cfg, calendar, list, tasks).Ok?
    ensures forall i :: 0 <= i < |tasks| ==>
              Entries(cfg, calendar, tasks)[i].Ok? &&
              StartsWith(PlainText(Entries(cfg, calendar, tasks)[i].value), TaskLead(i + 1)) &&
              (EndsWith(PlainText(Entries(cfg, calendar, tasks)[i].value), Closing + "\n") <==> i == |tasks| - 1)
  {
    var es := Entries(cfg, calendar, tasks);
    CollectOk(es);
    forall i | 0 <= i < |tasks|
      ensures es[i].Ok? && StartsWith(PlainText(es[i].value), TaskLead(i + 1)) &&
              (EndsWith(PlainText(es[i].value), Closing + "\n") <==> i == |tasks| - 1)
    {
      assert es[i].Ok?;
      VerboseEntry(cfg, calendar, tasks, i);
    }
  }

  lemma VerboseEntry(cfg: Config, calendar: Calendar, tasks: seq<Task>, i: nat)
    requires !cfg.ui.compact && i < |tasks| && !DateRejected(cfg, calendar, tasks[i])
    ensures Entries(cfg, calendar, tasks)[i].Ok?
    ensures var text := PlainText(Entries(cfg, calendar, tasks)[i].value);
            StartsWith(text, TaskLead(i + 1)) && (EndsWith(text, Closing + "\n") <==> i == |tasks| - 1)
  {
    assert Entries(cfg, calendar, tasks)[i] == FormatTask(cfg, calendar, tasks[i], i + 1, |tasks|);
    TaskLeadAndGlyph(cfg, calendar, tasks[i], i + 1, |tasks|);
    TaskClosing(cfg, calendar, tasks[i], i + 1, |tasks|);
  }

  /** In the compact layout only the last entry opens with a corner. */
  lemma CompactEntriesCornered(cfg: Config, calendar: Calendar, list: string, tasks: seq<Task>)
    requires cfg.ui.compact && DisplayTasks(cfg, calendar, list, tasks).Ok?
    ensures forall i :: 0 <= i < |tasks| ==>
              Entries(cfg, calendar, tasks)[i].Ok? &&
              |PlainText(Entries(cfg, calendar, tasks)[i].value)| > 2 &&
              (PlainText(Entries(cfg, calendar, tasks)[i].value)[2] == '└' <==> i == |tasks| - 1)
  {
    var es := Entries(cfg, calendar, tasks);
    CollectOk(es);
    forall i | 0 <= i < |tasks|
      ensures es[i].Ok? && |PlainText(es[i].value)| > 2 &&
              (PlainText(es[i].value)[2] == '└' <==> i == |tasks| - 1)
    {
      assert es[i].Ok?;
      CompactEntry(cfg, calendar, tasks, i);
    }
  }

  lemma CompactEntry(cfg: Config, calendar: Calendar, tasks: seq<Task>, i: nat)
    requires cfg.ui.compact && i < |tasks| && !DateRejected(cfg, calendar, tasks[i])
    ensures Entries(cfg, calendar, tasks)[i].Ok?
    ensures var text := PlainText(Entries(cfg, calendar, tasks)[i].value);
            |text| > 2 && (text[2] == '└' <==> i == |tasks| - 1)
  {
    assert Entries(cfg, calendar, tasks)[i] == FormatCompact(cfg, calendar, tasks[i], i + 1, |tasks|);
    CompactCorner(cfg, calendar, tasks[i], i + 1, |tasks|);
  }

  /** The header shows the list name in bold within its frame, whatever
      the colour setting. */
  lemma HeaderText(cfg: Config, list: string)
    ensures PlainText(Header(cfg, list)) ==
              (if cfg.ui.compact then "  ┌─[" else "  ┌──────────●[") + list + "]\n"
    ensures Piece(Bold, list) in Header(cfg, list)
  {
    var h := Header(cfg, list);
    assert h == [h[0]] + [h[1]] + [h[2]];
    PlainTextFramed(h[0].text, [h[1]], h[2].text);
    PlainTextPiece(h[1]);
  }

  // ---------------------------------------------------------------------
  // display_all

  /** Some task belongs to the list. */
  predicate Occurs(tasks: seq<Task>, list: string)
  {
    exists i :: 0 <= i < |tasks| && tasks[i].list == list
  }

  /** The position of the first task of a list. */
  function FirstIndex(tasks: seq<Task>, list: string): (k: nat)
    requires Occurs(tasks, list)
    ensures k < |tasks| && tasks[k].list == list
    ensures forall i :: 0 <= i < k ==> tasks[i].list != list
  {
    var init := tasks[..|tasks| - 1];
    if Occurs(init, list) then FirstIndex(init, list)
    else
      assert forall i :: 0 <= i < |init| ==> init[i] == tasks[i];
      |tasks| - 1
  }

  /** No list name is collected twice. */
  lemma {:induction false} UniqueListsDistinct(tasks: seq<Task>)
    ensures forall a, b :: 0 <= a < b < |UniqueLists(tasks)| ==> UniqueLists(tasks)[a] != UniqueLists(tasks)[b]
  {
    if tasks != [] {
      var seen := UniqueLists(tasks[..|tasks| - 1]);
      var l := tasks[|tasks| - 1].list;
      UniqueListsDistinct(tasks[..|tasks| - 1]);
      var u := UniqueLists(tasks);
      if l !in seen {
        assert u == seen + [l];
        forall a, b | 0 <= a < b < |u|
          ensures u[a] != u[b]
        {
          assert u[a] == seen[a];
          if b < |seen| {
            assert u[b] == seen[b];
          } else {
            assert u[b] == l;
          }
        }
      }
    }
  }

  /** Exactly the lists of the tasks are collected. */
  lemma {:induction false} UniqueListsCover(tasks: seq<Task>)
    ensures forall l :: l in UniqueLists(tasks) <==> Occurs(tasks, l)
  {
    if tasks != [] {
      var init := tasks[..|tasks| - 1];
      UniqueListsCover(init);
      assert forall i :: 0 <= i < |init| ==> init[i] == tasks[i];
      forall l | Occurs(tasks, l)
        ensures l in UniqueLists(tasks)
      {
        var i :| 0 <= i < |tasks| && tasks[i].list == l;
        if i < |init| {
          assert Occurs(init, l);
        }
      }
    }
  }

  /** A list already present before the last task keeps its first index. */
  lemma FirstIndexKept(tasks: seq<Task>, list: string)
    requires tasks != [] && Occurs(tasks[..|tasks| - 1], list)
    ensures Occurs(tasks, list) && FirstIndex(tasks, list) == FirstIndex(tasks[..|tasks| - 1], list)
  {
    var init := tasks[..|tasks| - 1];
    var i :| 0 <= i < |init| && init[i].list == list;
    assert tasks[i] == init[i];
  }

  /** The lists are collected in the order of their first task. */
  lemma {:induction false} UniqueListsFirstSeen(tasks: seq<Task>)
    ensures forall a, b :: 0 <= a < b < |UniqueLists(tasks)| ==>
              Occurs(tasks, UniqueLists(tasks)[a]) && Occurs(tasks, UniqueLists(tasks)[b]) &&
              FirstIndex(tasks, UniqueLists(tasks)[a]) < FirstIndex(tasks, UniqueLists(tasks)[b])
  {
    if tasks == [] {
      assert UniqueLists(tasks) == [];
    } else {
      var init := tasks[..|tasks| - 1];
      var seen := UniqueLists(init);
      var l := tasks[|tasks| - 1].list;
      var u := UniqueLists(tasks);
      UniqueListsFirstSeen(init);
      UniqueListsCover(init);
      UniqueListsCover(tasks);
      assert forall j :: 0 <= j < |u| ==> u[j] in u && Occurs(tasks, u[j]);
      forall a, b | 0 <= a < b < |u|
        ensures Occurs(tasks, u[a]) && Occurs(tasks, u[b]) && FirstIndex(tasks, u[a]) < FirstIndex(tasks, u[b])
      {
        assert u[a] == seen[a] && seen[a] in seen;
        FirstIndexKept(tasks, u[a]);
        if b < |seen| {
          assert u[b] == seen[b] && seen[b] in seen;
          FirstIndexKept(tasks, u[b]);
        } else {
          assert u == seen + [l] && u[b] == l;
          assert Occurs(tasks, l);
        }
      }
    }
  }

  /** `display_all` on an empty store fails. */
  lemma DisplayAllEmpty(cfg: Config, calendar: Calendar)
    ensures DisplayAllSpec(cfg, calendar, []) == Err(NoTaskAvailable)
  {
  }

  /** What a successful `display_all` shows: the display of each list in
      first-seen order. */
  lemma DisplayAllConcat(cfg: Config, calendar: Calendar, store: seq<Task>)
    requires DisplayAllSpec(cfg, calendar, store).Ok?
    ensures forall j :: 0 <= j < |ListDisplays(cfg, calendar, store)| ==> ListDisplays(cfg, calendar, store)[j].Ok?
    ensures DisplayAllSpec(cfg, calendar, store).value == Flatten(Values(ListDisplays(cfg, calendar, store)))
  {
    CollectOk(ListDisplays(cfg, calendar, store));
  }

  /** A failed `display_all` on a non-empty store reports the rejected
      date of one of its tasks, from the first list, in first-seen order,
      that has one: the lists before it hold no rejected date, and the
      error is that list's own `display` error. */
  lemma DisplayAllErrorCause(cfg: Config, calendar: Calendar, store: seq<Task>)
    requires store != [] && DisplayAllSpec(cfg, calendar, store).Err?
    ensures exists i :: 0 <= i < |store| && DateRejected(cfg, calendar, store[i]) &&
                        DisplayAllSpec(cfg, calendar, store).error == DateError(store[i].date.value)
    ensures exists j :: 0 <= j < |UniqueLists(store)| &&
                        DisplayAllSpec(cfg, calendar, store) == DisplaySpec(cfg, calendar, store, UniqueLists(store)[j]) &&
                        forall i, m :: 0 <= i < j && 0 <= m < |store| && store[m].list == UniqueLists(store)[i] ==>
                                       !DateRejected(cfg, calendar, store[m])
  {
    var ds := ListDisplays(cfg, calendar, store);
    var u := UniqueLists(store);
    CollectErr(ds);
    var j :| 0 <= j < |ds| && ds[j] == Err(Collect(ds).error) && forall i :: 0 <= i < j ==> ds[i].Ok?;
    forall i | 0 <= i < j
      ensures forall m :: 0 <= m < |store| && store[m].list == u[i] ==> !DateRejected(cfg, calendar, store[m])
    {
      DisplayFailsIff(cfg, calendar, store, u[i]);
    }
    UniqueListsCover(store);
    assert u[j] in u;
    var k :| 0 <= k < |store| && store[k].list == u[j];
    DisplayFailsIff(cfg, calendar, store, u[j]);
    assert DisplayAllSpec(cfg, calendar, store).error == DisplaySpec(cfg, calendar, store, u[j]).error;
  }

  /** A task whose date the calendar rejects makes `display_all` fail. */
  lemma DisplayAllRejects(cfg: Config, calendar: Calendar, store: seq<Task>, i: nat)
    requires i < |store| && DateRejected(cfg, calendar, store[i])
    ensures DisplayAllSpec(cfg, calendar, store).Err?
  {
    var ds := ListDisplays(cfg, calendar, store);
    var u := UniqueLists(store);
    var l := store[i].list;
    UniqueListsCover(store);
    assert Occurs(store, l);
    var j :| 0 <= j < |u| && u[j] == l;
    DisplayFailsIff(cfg, calendar, store, l);
    assert ds[j].Err?;
    CollectOk(ds);
  }

  /** `display_all` fails exactly when the store is empty or a task has a
      date the calendar rejects, and then reports that. Its lists all come
      from the store, so the query inside `display` never comes back empty. */
  lemma DisplayAllFailsIff(cfg: Config, calendar: Calendar, store: seq<Task>)
    ensures DisplayAllSpec(cfg, calendar, store).Err? <==>
              store == [] || exists i :: 0 <= i < |store| && DateRejected(cfg, calendar, store[i])
    ensures DisplayAllSpec(cfg, calendar, store).Err? ==>
              (store == [] && DisplayAllSpec(cfg, calendar, store).error == NoTaskAvailable) ||
              exists i :: 0 <= i < |store| && DateRejected(cfg, calendar, store[i]) &&
                          DisplayAllSpec(cfg, calendar, store).error == DateError(store[i].date.value)
  {
    if store != [] {
      if DisplayAllSpec(cfg, calendar, store).Err? {
        DisplayAllErrorCause(cfg, calendar, store);
      }
      if exists i :: 0 <= i < |store| && DateRejected(cfg, calendar, store[i]) {
        var i :| 0 <= i < |store| && DateRejected(cfg, calendar, store[i]);
        DisplayAllRejects(cfg, calendar, store, i);
      }
    }
  }
}
