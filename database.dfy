/** The task renderer of the task manager (src/database.rs): the status a
    due date gets against today, and the text `display` and `display_all`
    build from the tasks of the store. The store is the sequence of its
    rows in the order the database returns them; the calendar (parsing and
    printing dates, and today's date) is a parameter. */
module Database {
  import opened Results
  import opened Text
  import opened Styled
  import opened ConfigParser

  /** A row of the `Todo` table. `date` is the due date as stored
      (`dd/mm/yyyy`), if the task has one. */
  datatype Task = Task(id: int, name: string, done: bool, list: string, date: Option<string>)

  /** Where a due date lies relative to today. */
  datatype Status = Late | Yesterday | Today | Tomorrow | Future

  /** What the calendar makes of a stored date under a format: the date
      printed in that format, and the number of days from today to it. */
  datatype Due = Due(text: string, days: int)

  /** The date library together with the clock: given the configured format
      and a stored date, either the printed date and its distance from
      today, or `None` when the date does not parse or does not print back
      in that format. */
  type Calendar = (string, string) -> Option<Due>

  /** What can go wrong while rendering; each variant keeps the data its
      message shows. */
  datatype DbError =
    | NoSuchTask(column: string, elem: string)// a query that selected no row
    | NoTaskAvailable                        // `display_all` on an empty store
    | DateError(date: string)                // a stored date the calendar rejects

  // ---------------------------------------------------------------------
  // check_date

  const TwoTo32: int := 0x1_0000_0000

  /** The `as i32` cast of a day count: the low 32 bits, read as a two's
      complement number. */
  function AsI32(n: int): (r: I32)
    ensures (r - n) % TwoTo32 == 0
    ensures I32Min <= n <= I32Max ==> r == n
  {
    (n - I32Min) % TwoTo32 + I32Min
  }

  /** `check_date` once the distance to today is known: the five statuses
      split the integers at -1, 0 and the warning horizon. */
  function CheckDate(diff: I32, warn: I32): (s: Status)
    ensures s == Late <==> diff < -1
    ensures s == Yesterday <==> diff == -1
    ensures s == Today <==> diff == 0
    ensures s == Tomorrow <==> 0 < diff <= warn
    ensures s == Future <==> 0 < diff && warn < diff
  {
    if diff < -1 then Late
    else if diff == -1 then Yesterday
    else if diff == 0 then Today
    else if diff <= warn then Tomorrow
    else Future
  }

  /** The colour a due date is shown in when colours are on. */
  function ColorFor(s: Status): (st: Style)
    ensures st == Plain <==> s == Future
    ensures st != Plain ==> st.Fg?
  {
    match s
    case Late => Fg(Red)
    case Yesterday => Fg(Yellow)
    case Today => Fg(Green)
    case Tomorrow => Fg(Cyan)
    case Future => Plain
  }

  // ---------------------------------------------------------------------
  // format_date, format_task, format_compact

  const DuePrefix: string := "| due: "

  /** The status of a date the calendar accepted, under the configured
      warning horizon. */
  function StatusOf(cfg: Config, due: Due): Status
  {
    CheckDate(AsI32(due.days), cfg.date.warnDaysBefore)
  }

  /** `format_date`: the due date behind a fixed prefix, coloured by its
      status when colours are on. */
  function FormatDate(cfg: Config, calendar: Calendar, date: string): (r: Result<Doc, DbError>)
    ensures r.Err? <==> calendar(cfg.date.format, date).None?
    ensures r.Err? ==> r.error == DateError(date)
    ensures r.Ok? ==> |r.value| == 2
  {
    match calendar(cfg.date.format, date)
    case None => Err(DateError(date))
    case Some(due) =>
      var style := if cfg.ui.colors then ColorFor(StatusOf(cfg, due)) else Plain;
      Ok([Piece(Plain, DuePrefix), Piece(style, due.text)])
  }

  /** A task whose due date the calendar cannot handle: rendering it fails. */
  predicate DateRejected(cfg: Config, calendar: Calendar, t: Task)
  {
    t.date.Some? && calendar(cfg.date.format, t.date.value).None?
  }

  /** The rendered due date of a task, empty when it has none. */
  function DateDoc(cfg: Config, calendar: Calendar, t: Task): (r: Result<Doc, DbError>)
    ensures r.Err? <==> DateRejected(cfg, calendar, t)
    ensures r.Err? ==> r.error == DateError(t.date.value)
    ensures t.date.None? ==> r == Ok([])
  {
    match t.date
    case None => Ok([])
    case Some(d) => FormatDate(cfg, calendar, d)
  }

  /** The mark between the brackets of an entry: a cross for a done task. */
  function Glyph(done: bool): (g: string)
    ensures |g| == 1
    ensures g == "x" <==> done
  {
    if done then "x" else " "
  }

  /** The line that ends the last task of a list in the verbose layout. */
  const Closing: string := "  └──────────●\n"

  /** The text of a verbose entry up to its done glyph. */
  function TaskLead(localId: nat): string
  {
    "  │ " + ShowNat(localId) + " ─ ["
  }

  /** `format_task`: the verbose two-line entry of a task, numbered by its
      position in the list, followed by the closing line of the list when it
      is the last one and by a bare rule otherwise. */
  function FormatTask(cfg: Config, calendar: Calendar, t: Task, localId: nat, tasksLen: nat): (r: Result<Doc, DbError>)
    ensures r.Err? <==> DateRejected(cfg, calendar, t)
    ensures r.Err? ==> r.error == DateError(t.date.value)
  {
    match DateDoc(cfg, calendar, t)
    case Err(e) => Err(e)
    case Ok(date) =>
      Ok([Piece(Plain, TaskLead(localId) + Glyph(t.done) + "] " + t.name +
                       " \n  │         └─[id: " + ShowInt(t.id) + "] ")]
         + date
         + [Piece(Plain, " \n" + (if localId == tasksLen then Closing else "  │") + "\n")])
  }

  /** The date segment of a compact entry: a space and the due date, or
      nothing. */
  function CompactDate(cfg: Config, calendar: Calendar, t: Task): (r: Result<Doc, DbError>)
    ensures r.Err? <==> DateRejected(cfg, calendar, t)
    ensures r.Err? ==> r.error == DateError(t.date.value)
    ensures t.date.None? ==> r == Ok([])
  {
    match DateDoc(cfg, calendar, t)
    case Err(e) => Err(e)
    case Ok(date) => if t.date.None? then Ok([]) else Ok([Piece(Plain, " ")] + date)
  }

  /** `format_compact`: the one-line entry of a task, opened by a corner on
      the last task of the list (which is also followed by a blank line)
      and by a rule otherwise. */
  function FormatCompact(cfg: Config, calendar: Calendar, t: Task, localId: nat, tasksLen: nat): (r: Result<Doc, DbError>)
    ensures r.Err? <==> DateRejected(cfg, calendar, t)
    ensures r.Err? ==> r.error == DateError(t.date.value)
  {
    match CompactDate(cfg, calendar, t)
    case Err(e) => Err(e)
    case Ok(date) =>
      var last := localId == tasksLen;
      Ok([Piece(Plain, "  " + (if last then "└" else "│") + " [" + ShowInt(t.id))]
         + date
         + [Piece(Plain, "] ─ [" + Glyph(t.done) + "] " + t.name + "\n" + (if last then "\n" else ""))])
  }

  // ---------------------------------------------------------------------
  // display

  /** The rows of one list, in the order the store returns them. */
  function Matching(store: seq<Task>, list: string): (r: seq<Task>)
    ensures forall i :: 0 <= i < |r| ==> r[i].list == list
    ensures r == [] <==> forall i :: 0 <= i < |store| ==> store[i].list != list
  {
    if store == [] then []
    else
      var init := Matching(store[..|store| - 1], list);
      var last := store[|store| - 1];
      if last.list == list then init + [last] else init
  }

  /** `select_query("list", list)`: the rows of the list, or an error when
      there are none. */
  function SelectList(store: seq<Task>, list: string): (r: Result<seq<Task>, DbError>)
    ensures r.Err? <==> forall i :: 0 <= i < |store| ==> store[i].list != list
    ensures r.Err? ==> r.error == NoSuchTask("list", list)
    ensures r.Ok? ==> r.value == Matching(store, list)
  {
    var ts := Matching(store, list);
    if ts == [] then Err(NoSuchTask("list", list)) else Ok(ts)
  }

  /** The first line of a list: its name in bold, whatever the colour
      setting, inside the verbose or the compact frame. */
  function Header(cfg: Config, list: string): (d: Doc)
    ensures |d| == 3 && d[1] == Piece(Bold, list)
  {
    var open := if cfg.ui.compact then "  ┌─[" else "  ┌──────────●[";
    [Piece(Plain, open), Piece(Bold, list), Piece(Plain, "]\n")]
  }

  /** The entry of the task numbered `localId` out of `tasksLen`, in the
      configured layout. */
  function Entry(cfg: Config, calendar: Calendar, t: Task, localId: nat, tasksLen: nat): (r: Result<Doc, DbError>)
    ensures r.Err? <==> DateRejected(cfg, calendar, t)
    ensures r.Err? ==> r.error == DateError(t.date.value)
  {
    if cfg.ui.compact then FormatCompact(cfg, calendar, t, localId, tasksLen)
    else FormatTask(cfg, calendar, t, localId, tasksLen)
  }

  /** The entries of a list's tasks, numbered 1 to n in order. */
  function Entries(cfg: Config, calendar: Calendar, tasks: seq<Task>): (es: seq<Result<Doc, DbError>>)
    ensures |es| == |tasks|
    ensures forall i :: 0 <= i < |tasks| ==> es[i] == Entry(cfg, calendar, tasks[i], i + 1, |tasks|)
  {
    seq(|tasks|, i requires 0 <= i < |tasks| => Entry(cfg, calendar, tasks[i], i + 1, |tasks|))
  }

  /** What `display` produces from the rows of a list. */
  function DisplayTasks(cfg: Config, calendar: Calendar, list: string, tasks: seq<Task>): Result<Doc, DbError>
  {
    match Collect(Entries(cfg, calendar, tasks))
    case Err(e) => Err(e)
    case Ok(body) => Ok(Header(cfg, list) + body)
  }

  /** What `display(list)` produces from the store. */
  function DisplaySpec(cfg: Config, calendar: Calendar, store: seq<Task>, list: string): Result<Doc, DbError>
  {
    match SelectList(store, list)
    case Err(e) => Err(e)
    case Ok(tasks) => DisplayTasks(cfg, calendar, list, tasks)
  }

  /** `display`: the header, then each task's entry in fetch order; the
      first entry that fails ends the call with its error. */
  method Display(cfg: Config, calendar: Calendar, store: seq<Task>, list: string) returns (r: Result<Doc, DbError>)
    ensures r == DisplaySpec(cfg, calendar, store, list)
  {
    var selected := SelectList(store, list);
    if selected.Err? {
      return Err(selected.error);
    }
    var tasks := selected.value;
    ghost var entries := Entries(cfg, calendar, tasks);
    var header := Header(cfg, list);
    var result := header;
    ghost var body: Doc := [];
    var localId := 0;
    while localId < |tasks|
      invariant 0 <= localId <= |tasks|
      invariant result == header + body
      invariant Collect(entries[..localId]) == Ok(body)
    {
      localId := localId + 1;
      var formatted := Entry(cfg, calendar, tasks[localId - 1], localId, |tasks|);
      assert formatted == entries[localId - 1];
      if formatted.Err? {
        CollectStepErr(entries, localId - 1, body, formatted.error);
        return Err(formatted.error);
      }
      CollectStepOk(entries, localId - 1, body, formatted.value);
      AppendAssoc(header, body, formatted.value);
      result := result + formatted.value;
      body := body + formatted.value;
    }
    assert entries[..localId] == entries;
    r := Ok(result);
  }

  // ---------------------------------------------------------------------
  // display_all

  /** The names of the lists the tasks belong to, each once, in the order
      of their first task. */
  function UniqueLists(tasks: seq<Task>): seq<string>
  {
    if tasks == [] then []
    else
      var seen := UniqueLists(tasks[..|tasks| - 1]);
      var l := tasks[|tasks| - 1].list;
      if l in seen then seen else seen + [l]
  }

  /** The display of each list of the store, in first-seen order. */
  function ListDisplays(cfg: Config, calendar: Calendar, store: seq<Task>): (ds: seq<Result<Doc, DbError>>)
    ensures |ds| == |UniqueLists(store)|
    ensures forall j :: 0 <= j < |ds| ==> ds[j] == DisplaySpec(cfg, calendar, store, UniqueLists(store)[j])
  {
    var lists := UniqueLists(store);
    seq(|lists|, j requires 0 <= j < |lists| => DisplaySpec(cfg, calendar, store, lists[j]))
  }

  /** What `display_all` produces from the store. */
  function DisplayAllSpec(cfg: Config, calendar: Calendar, store: seq<Task>): Result<Doc, DbError>
  {
    if store == [] then Err(NoTaskAvailable) else Collect(ListDisplays(cfg, calendar, store))
  }

  /** `display_all`: collect the list names in first-seen order, then show
      each list in turn. */
  method DisplayAll(cfg: Config, calendar: Calendar, store: seq<Task>) returns (r: Result<Doc, DbError>)
    ensures r == DisplayAllSpec(cfg, calendar, store)
  {
    if |store| == 0 {
      return Err(NoTaskAvailable);
    }
    var uniqueLists: seq<string> := [];
    for i := 0 to |store|
      invariant uniqueLists == UniqueLists(store[..i])
    {
      assert store[..i + 1][..i] == store[..i];
      if store[i].list !in uniqueLists {
        uniqueLists := uniqueLists + [store[i].list];
      }
    }
    assert store[..|store|] == store;
    ghost var shown := ListDisplays(cfg, calendar, store);
    var result: Doc := [];
    for j := 0 to |uniqueLists|
      invariant Collect(shown[..j]) == Ok(result)
    {
      var d := Display(cfg, calendar, store, uniqueLists[j]);
      if d.Err? {
        CollectStepErr(shown, j, result, d.error);
        return Err(d.error);
      }
      CollectStepOk(shown, j, result, d.value);
      result := result + d.value;
    }
    assert shown[..|uniqueLists|] == shown;
    r := Ok(result);
  }
}
