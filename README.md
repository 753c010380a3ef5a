# haul core, modelled in Dafny

`haul` is a command-line to-do manager. Tasks live in a SQLite table and each
one belongs to a named list. They are rendered as a tree, verbose or compact,
with an optional due date coloured by how close it is. A small block-structured
configuration file controls the rendering. It is read line by line, and its
blocks are `ui { colors = …  compact = … }` and
`date { format = …  warn_days_before = … }`.

This project models the two core files and proves properties of them:

- **Configuration parser** (`src/config_parser.rs`):
  - `parse_config` is modelled twice. `ConfigParser.ParseConfig` is the
    imperative loop over the lines, with the current block, the line counter
    and the config as mutable state. `ConfigParser.ParseConfigSpec` folds a
    single step function, `Step`, over the normalised lines. The method is
    proved to compute the fold.
  - `parse_date` compiles the `d/m/y` template mini-language into a strftime
    format. `ConfigParser.ParseDate` is the imperative loop that appends and
    then pops. It is proved equal to `CompileTemplate`, and that function is
    characterised by the lemmas in `ConfigProperties`.
  - `parse_bool` is `ConfigParser.ParseBool`.
- **Rendering** (`src/database.rs`):
  - `check_date` becomes `Database.CheckDate`, a function of the day
    difference and `warn_days_before`. The `as i32` cast is written out in
    `Database.AsI32`.
  - `format_date`, `format_task` and `format_compact` are pure functions.
    They produce a `Styled.Doc`, a sequence of pieces of text, each tagged
    with a style: plain, bold or a foreground colour.
  - `display` and `display_all` are imperative methods with loops. They are
    proved equal to the functions `DisplaySpec` and `DisplayAllSpec`, and the
    properties are stated about those functions.

The database is not modelled. In its place the display operations take the
table's rows as a sequence of `Task` values, in the order the queries return
them. `select_query(list)` becomes `Database.SelectList`, which keeps the
rows of that list in order. Like the source, it fails with
`NoSuchTask("list", list)` when no row matches.

The calendar is not modelled. The `chrono` work behind a due date has three
parts:

- reformatting the stored date through the configured format
  (`display_date`);
- re-parsing it (`check_date`);
- subtracting today's date.

All three are a parameter, `calendar: (format, stored date) -> Option<Due>`.
`None` means one of those steps failed. `Due` carries the displayed text and
the signed number of days from today.

Errors are modelled as structured values (`ConfigError`, `DbError`). Where
the source's message shows data, the variant carries that data:

- the number of an invalid line;
- the text of a bad boolean or date template;
- the column and value of a query that found nothing.

`BadInt(value)` and `DateError(date)` carry the offending text as a payload of
the model's own. The source's errors there are the standard library's
`ParseIntError` and chrono's `ParseError`, whose messages do not name the
value.

Two facts fall out of the code and are proved:

- `split('=')` always yields a first field, so only a missing second field
  makes a line invalid (`ConfigProperties.StepInvalidLineIff`).
- No template compiles to the default format `%d/%m/%y`, because `y` always
  becomes `%Y` (`ConfigProperties.CompiledYearHasFourDigits`).

## Model

| member | source | states |
|---|---|---|
| Results.CollectOk | src/database.rs:102-111 | a loop whose steps each use `?` succeeds exactly when every step succeeds, and then yields the steps' outputs concatenated in order |
| Results.CollectErr | src/database.rs:102-111 | a loop whose steps use `?` fails with the error of the first failing step |
| Text.LowerChar | src/config_parser.rs:35 | an upper-case ASCII letter becomes the letter 32 code points above it, any other character is kept, and no upper-case letter results |
| Text.Lower | src/config_parser.rs:35 | lower-casing keeps the length of the line |
| Text.LowerChars | src/config_parser.rs:35 | lower-casing leaves no upper-case letter and changes no other character |
| Text.Trim | src/config_parser.rs:36 | trimming never lengthens the line |
| Text.TrimIsSlice | src/config_parser.rs:36 | trimming yields a slice of the input, with only white space cut off on either side and no white space left at either end |
| Text.Remove | src/config_parser.rs:41 | removing a character leaves none of it, keeps every other character with its multiplicity, shortens the text by the number of occurrences, and changes nothing when the character is absent |
| Text.EndsWith | src/config_parser.rs:40 | the text ends with the suffix: its last characters are the suffix |
| Text.Split | src/config_parser.rs:48 | splitting yields one more piece than there are separators |
| Text.SplitAvoids | src/config_parser.rs:48 | no piece of a split contains the separator |
| Text.JoinSplit | src/config_parser.rs:48 | re-joining the pieces of a split with the separator gives back the input |
| Text.SplitJoin | src/config_parser.rs:75 | splitting a join of separator-free pieces gives back the pieces |
| Text.ParseI32 | src/config_parser.rs:65 | `value.parse::<i32>()` accepts only text holding at least one digit |
| Text.ParseShowI32 | src/config_parser.rs:65 | parsing the decimal form of any 32-bit integer gives that integer back |
| Text.ShowNat | src/database.rs:129-130 | the printed local number is a non-empty run of digits, with no leading zero unless the number is 0 |
| Text.ShowNatValue | src/database.rs:129-130 | the digits printed for a number read back as that number |
| Text.ShowInt | src/database.rs:133 | the printed store id starts with '-' exactly when the id is negative |
| ConfigParser.ParseBool | src/config_parser.rs:91-97 | "true" gives true, "false" gives false, and any other text is an error naming that text |
| ConfigParser.Specifier | src/config_parser.rs:81-85 | each accepted token becomes a two-character specifier starting with '%' and containing neither '/' nor 'y': `y` and only `y` becomes `%Y`, and `d` and `m` keep their letter |
| ConfigParser.Specifiers | src/config_parser.rs:77-86 | the tokens map one to one, in order, to their specifiers |
| ConfigParser.CompileTemplate | src/config_parser.rs:74-89 | the only error is the invalid-format error naming the template exactly as written |
| ConfigParser.CompileRejects | src/config_parser.rs:77-80 | a template with any '/'-separated token other than `d`, `m` or `y` is refused with that error |
| ConfigParser.CompileAccepts | src/config_parser.rs:80-88 | with valid tokens, the result is the specifiers each followed by '/', with the last '/' popped |
| ConfigParser.AppendedSpecifier | src/config_parser.rs:81-85 | each iteration appends the token's specifier followed by '/' |
| ConfigParser.ParseDate | src/config_parser.rs:74-89 | the append-then-pop loop computes `CompileTemplate` |
| ConfigParser.Norm | src/config_parser.rs:35-36 | a line as the parser compares it: lower-cased, then trimmed (its properties are `NormHasNoUpper` and `NormIdempotent`) |
| ConfigParser.BlockName | src/config_parser.rs:41 | the name of a block: the opening line without its braces, trimmed |
| ConfigParser.KnownKey | src/config_parser.rs:57-69 | the schema: `colors` and `compact` in `ui`, `format` and `warn_days_before` in `date` |
| ConfigParser.Classify | src/config_parser.rs:37-56 | the tests of the loop body in their order: blank, opener (outside a block only), "}", then a setting when the '='-split has a second field, otherwise an invalid line |
| ConfigParser.Apply | src/config_parser.rs:37-69 | what each kind of line does: blank keeps the state, an opener sets the block, "}" clears it, an invalid line fails with its number, a setting assigns in the current block |
| ConfigParser.Step | src/config_parser.rs:34-69 | one iteration of the loop on a normalised line and its 1-based number |
| ConfigParser.Run | src/config_parser.rs:33-71 | the loop over the remaining lines: steps in order, stopping at the first error, and yielding the settings at the end |
| ConfigParser.ParseConfigSpec | src/config_parser.rs:21-71 | `parse_config` as a fold: every line normalised, read from no block and the defaults of lines 23-32 |
| ConfigParser.Assign | src/config_parser.rs:57-69 | a block/key pair outside the schema leaves the config unchanged, and a bad value never reports an invalid line |
| ConfigParser.ApplySetting | src/config_parser.rs:57-69 | the dispatch on block and key computes `Assign` |
| ConfigParser.RunCons | src/config_parser.rs:33-70 | the fold over the lines takes one step on the first line with the counter advanced, then continues or stops at the first error |
| ConfigParser.ParseConfig | src/config_parser.rs:19-72 | the line loop with its mutable block, counter and config computes `ParseConfigSpec` |
| ConfigProperties.TokensIff | src/config_parser.rs:75-79 | every '/'-separated token is `d`, `m` or `y` exactly when the template is those letters separated by single slashes |
| ConfigProperties.TemplateAcceptedIff | src/config_parser.rs:74-89 | a template compiles exactly when it is well formed |
| ConfigProperties.TemplateRejectsMalformed | src/config_parser.rs:75-79 | an empty template, one containing white space, or one containing "//" is refused with the invalid-format error |
| ConfigProperties.TemplateShape | src/config_parser.rs:74-89 | a compiled format splits on '/' into exactly the tokens' specifiers, with n-1 slashes and length 3n-1 for n tokens |
| ConfigProperties.TemplateOfTokens | src/config_parser.rs:74-89 | any non-empty sequence of valid tokens joined by '/' compiles to their specifiers joined by '/' |
| ConfigProperties.DayMonthYear | src/config_parser.rs:74-89 | the template `d/m/y` compiles to `%d/%m/%Y` |
| ConfigProperties.CompiledYearHasFourDigits | src/config_parser.rs:81-82 | no compiled format contains a two-digit year, so none equals the default `%d/%m/%y` |
| ConfigProperties.NormHasNoUpper | src/config_parser.rs:35-36 | a normalised line has no upper-case letter |
| ConfigProperties.NormIdempotent | src/config_parser.rs:35-36 | normalising a line twice is the same as once |
| ConfigProperties.BlockNameIsNeverNoBlock | src/config_parser.rs:40-41 | a block opened from a lower-cased line can never be mistaken for the `_NONE_` sentinel |
| ConfigProperties.ClassifyNoEqualsIff | src/config_parser.rs:37-56 | a line is classified as lacking '=' exactly when it is non-empty, neither opens nor closes a block, and has no '=' |
| ConfigProperties.ClassifySetting | src/config_parser.rs:48-56 | a line with '=' that does not open a block is a setting, with the trimmed first two '='-fields as key and value |
| ConfigProperties.StepOpensBlock | src/config_parser.rs:40-43 | outside any block, a line ending in '{' opens the block it names and keeps the config |
| ConfigProperties.StepClosesBlock | src/config_parser.rs:44-47 | a "}" line closes the current block and keeps the config |
| ConfigProperties.StepInvalidLineIff | src/config_parser.rs:37-56 | a step fails with the invalid-line error for the current line exactly when the line is non-empty, neither opens nor closes a block, and has no '=' |
| ConfigProperties.StepInvalidLine | src/config_parser.rs:48-56 | an invalid-line error carries the number of the step's own line, and that line lacks '=' |
| ConfigProperties.StepSetting | src/config_parser.rs:48-69 | a line with '=' that does not open a block assigns its key and value in the current block |
| ConfigProperties.StepIgnoresUnknown | src/config_parser.rs:57-69 | a setting whose block/key pair is outside the schema leaves the whole state unchanged |
| ConfigProperties.StepValueIsSecondField | src/config_parser.rs:48-56 | in `k=v=…` the value used is the trimmed second field and anything after a second '=' is ignored |
| ConfigProperties.SplitFirstTwo | src/config_parser.rs:48-56 | splitting `k=v` followed by '='-led text yields `k` and `v` as its first two fields |
| ConfigProperties.AssignFrame | src/config_parser.rs:57-69 | an assignment changes only the field its block and key name |
| ConfigProperties.AssignOverrides | src/config_parser.rs:57-69 | a second assignment to the same key erases the effect of the first |
| ConfigProperties.AssignColors | src/config_parser.rs:59 | `ui.colors` succeeds exactly when its value is `true` or `false`, then stores that boolean, and otherwise fails with `BadBool(value)` |
| ConfigProperties.AssignCompact | src/config_parser.rs:60 | `ui.compact` succeeds exactly when its value is `true` or `false`, then stores that boolean, and otherwise fails with `BadBool(value)` |
| ConfigProperties.AssignFormat | src/config_parser.rs:64 | `date.format` succeeds exactly when the template is well formed, then stores the compiled format, and otherwise fails with `BadDateFormat(value)` |
| ConfigProperties.AssignWarnDays | src/config_parser.rs:65 | `date.warn_days_before` succeeds exactly when the value parses as an i32, then stores it, and otherwise fails with `BadInt(value)` |
| ConfigProperties.AssignErases | src/config_parser.rs:57-69 | assigning a known key changes at most that key's field |
| ConfigProperties.AssignSameKey | src/config_parser.rs:57-69 | settings that differ only in a key's field give the same result when that key is assigned again |
| ConfigProperties.AssignOtherKey | src/config_parser.rs:57-69 | settings that differ only in a key's field fail alike on another key's assignment, and otherwise still differ only in that field |
| ConfigProperties.AgreeingRuns | src/config_parser.rs:33-69 | two states differing only in a key's field read blank lines and other keys' settings, up to the next setting of that key, to the same end |
| ConfigProperties.BlankLinesKeepState | src/config_parser.rs:37-39 | blank lines are skipped without changing the config |
| ConfigProperties.DefaultsWhenBlank | src/config_parser.rs:23-39 | a file of blank lines yields the defaults: colours on, compact off, `%d/%m/%y`, warn 1 day before |
| ConfigProperties.KeptLines | src/config_parser.rs:33-70 | lines that leave the state unchanged only advance the line counter |
| ConfigProperties.UnknownBlockBody | src/config_parser.rs:37-68 | inside an unknown block, blank lines and setting lines are ignored |
| ConfigProperties.UnknownBlockSkipped | src/config_parser.rs:37-68 | a whole unknown block of blank and setting lines, from its opening line to its "}", is skipped and parsing carries on after it |
| ConfigProperties.CaseInsensitive | src/config_parser.rs:35 | files that differ only in letter case parse to the same result |
| ConfigProperties.InvalidLineIsOffending | src/config_parser.rs:33-56 | an invalid-line error names a line of the range read, and that line lacks '=' |
| ConfigProperties.ConfigInvalidLine | src/config_parser.rs:33-56 | when parsing fails with an invalid-line error, the 1-based line number is within the file and that line, normalised, lacks '=' |
| ConfigProperties.LaterAssignmentWins | src/config_parser.rs:33-69 | inside a block, a successful setting of a known key is overridden by the next setting of that key: with only blank lines and other keys' settings between them, the earlier one has the effect of a blank line, and the line numbers are kept |
| Database.AsI32 | src/database.rs:215 | the `as i32` cast keeps the value modulo 2^32 and is the identity on values in range |
| Database.CheckDate | src/database.rs:216-222 | Late iff diff < -1; Yesterday iff diff = -1; Today iff diff = 0; Tomorrow iff 0 < diff <= warn; Future iff diff > 0 and diff > warn |
| Database.ColorFor | src/database.rs:178-184 | only Future is left uncoloured, and every other status gets a foreground colour |
| Database.StatusOf | src/database.rs:209-222 | the status of an accepted date: `check_date` on the calendar's day difference cast to i32, under the configured warning horizon |
| Database.FormatDate | src/database.rs:172-189 | fails exactly when the date cannot be reformatted or re-parsed, with `DateError` carrying the stored date; otherwise it is the prefix and the date |
| Database.DateDoc | src/database.rs:120-123 | a task without a date gets no annotation; with a date it fails exactly when the date is rejected, with `DateError` carrying that date |
| Database.Glyph | src/database.rs:131 | the mark is one character, and it is 'x' exactly for a done task |
| Database.TaskLead | src/database.rs:129 | the opening of a verbose entry: the rule, the local number and the opening bracket |
| Database.FormatTask | src/database.rs:114-141 | a verbose entry fails exactly when the task's date is rejected, with that date's error |
| Database.CompactDate | src/database.rs:149-152 | a compact entry has no annotation without a date; with one it fails exactly when the date is rejected |
| Database.FormatCompact | src/database.rs:143-170 | a compact entry fails exactly when the task's date is rejected, with that date's error |
| Database.Matching | src/database.rs:230-246 | every row kept belongs to the list, and nothing is kept exactly when no row has the list |
| Database.SelectList | src/database.rs:230-251 | the query fails with `NoSuchTask("list", list)` exactly when no row has the list, and otherwise returns the list's rows in order |
| Database.Header | src/database.rs:98-101 | the header holds the list name in bold between two plain frame pieces |
| Database.Entry | src/database.rs:105-108 | an entry, compact or verbose, fails exactly when the task's date is rejected |
| Database.Entries | src/database.rs:102-108 | the i-th task is rendered with local number i+1 out of the number of tasks |
| Database.DisplayTasks | src/database.rs:98-111 | the header, then the entries of the rows in order, or the first entry's error |
| Database.DisplaySpec | src/database.rs:95-111 | `display(list)`: the query for the list's rows, then `DisplayTasks` on them |
| Database.Display | src/database.rs:95-112 | the loop that appends each entry to the header computes `DisplaySpec` |
| Database.UniqueLists | src/database.rs:198-202 | the list names of the rows, each kept at its first occurrence (its properties are `UniqueListsDistinct`, `UniqueListsCover` and `UniqueListsFirstSeen`) |
| Database.ListDisplays | src/database.rs:203-205 | one display per distinct list, in first-seen order |
| Database.DisplayAllSpec | src/database.rs:191-207 | `display_all`: "no task available" on an empty store, otherwise each list's display in first-seen order, or the first error |
| Database.DisplayAll | src/database.rs:191-207 | the two loops (collect distinct lists, then append each list's display) compute `DisplayAllSpec` |
| DatabaseProperties.StatusMonotone | src/database.rs:216-222 | a later due date never gets a more urgent status |
| DatabaseProperties.NoWarningHorizon | src/database.rs:220-221 | with `warn_days_before <= 0` nothing is Tomorrow, and every positive difference is Future |
| DatabaseProperties.WiderHorizon | src/database.rs:220 | widening the warning horizon keeps every Tomorrow date Tomorrow |
| DatabaseProperties.ColorsTellStatusesApart | src/database.rs:178-184 | distinct statuses get distinct styles |
| DatabaseProperties.DueDateText | src/database.rs:185-187 | the annotation's text is the "due:" prefix followed by the reformatted date |
| DatabaseProperties.DueDateUncolored | src/database.rs:186-187 | with colours off, the annotation is plain whatever the status |
| DatabaseProperties.DueDateColoredUnlessFuture | src/database.rs:177-185 | with colours on, the annotation is plain exactly when the status is Future |
| DatabaseProperties.DueDatesColoredApart | src/database.rs:177-185 | with colours on, dates with different statuses are styled differently |
| DatabaseProperties.DateDocText | src/database.rs:120-123 | the verbose annotation's text is empty without a date, and the due-date text with one |
| DatabaseProperties.TaskText | src/database.rs:128-140 | the verbose entry's text is the two task lines then the closing or continuation line, with local number, glyph, name, id and due date in place |
| DatabaseProperties.LocalIdReadsBack | src/database.rs:129-130 | the digits in the entry's lead read back as the local number |
| DatabaseProperties.TaskLeadAndGlyph | src/database.rs:129-131 | a verbose entry starts with its numbered lead, followed by 'x' exactly when the task is done |
| DatabaseProperties.TaskClosing | src/database.rs:127-139 | a verbose entry ends with the closing line exactly when it is the last task |
| DatabaseProperties.CompactDateText | src/database.rs:149-152 | the compact annotation is empty without a date and a space then the due-date text with one |
| DatabaseProperties.CompactText | src/database.rs:157-169 | the compact entry's text is the corner, the bracketed id and date, the glyph and name, then a blank line only for the last task |
| DatabaseProperties.CompactCorner | src/database.rs:156-163 | a compact entry's corner is '└' exactly for the last task and '│' for every other |
| DatabaseProperties.CompactLastAddsBlankLine | src/database.rs:159-168 | the last compact entry differs from any other only in its corner and one trailing newline |
| DatabaseProperties.CompactDateSegment | src/database.rs:149-158 | a due date is inserted right after the id inside the brackets and nowhere else |
| DatabaseProperties.EntryWithoutDateUnstyled | src/database.rs:120-123 | a task without a due date renders successfully and wholly plain |
| DatabaseProperties.MatchingMembers | src/database.rs:230-246 | the rows selected are exactly the store's rows of that list |
| DatabaseProperties.EntriesError | src/database.rs:103-108 | when rendering the entries fails, the error is that of the first task, in rendering order, whose date was rejected |
| DatabaseProperties.DisplayFailsIff | src/database.rs:95-112 | displaying a list fails exactly when no row has the list (error `NoSuchTask`) or one of its tasks has a rejected date (that date's error) |
| DatabaseProperties.DisplayErrorCause | src/database.rs:103-108 | when the list exists and display fails, the error is that of the first of its tasks, in rendering order, whose date was rejected |
| DatabaseProperties.DisplayRejects | src/database.rs:103-108 | a rejected date on any task of the list makes the whole display fail |
| DatabaseProperties.DisplayShape | src/database.rs:98-111 | a successful display is the header followed by every entry in order |
| DatabaseProperties.VerboseEntriesNumbered | src/database.rs:102-139 | in a verbose display the i-th entry carries local number i+1 and only the last one carries the closing line |
| DatabaseProperties.CompactEntriesCornered | src/database.rs:102-163 | in a compact display only the last entry has the '└' corner |
| DatabaseProperties.HeaderText | src/database.rs:98-101 | the header reads "┌─[list]" when compact and "┌──────────●[list]" otherwise, with the list name in bold |
| DatabaseProperties.FirstIndex | src/database.rs:198-202 | the position where a list is first seen holds that list, and no earlier row does |
| DatabaseProperties.UniqueListsDistinct | src/database.rs:198-202 | the collected list names have no duplicates |
| DatabaseProperties.UniqueListsCover | src/database.rs:198-202 | a name is collected exactly when some row has it |
| DatabaseProperties.UniqueListsFirstSeen | src/database.rs:198-202 | lists are collected in order of their first occurrence |
| DatabaseProperties.DisplayAllEmpty | src/database.rs:195-197 | an empty store fails with "no task available" |
| DatabaseProperties.DisplayAllConcat | src/database.rs:203-206 | a successful display of all lists is the concatenation of each list's display in order |
| DatabaseProperties.DisplayAllErrorCause | src/database.rs:203-206 | when a non-empty store fails to display, the error is a rejected date's, and it is the display error of the first list in first-seen order; no task of an earlier list has a rejected date |
| DatabaseProperties.DisplayAllRejects | src/database.rs:203-206 | a rejected date on any task makes the whole display fail |
| DatabaseProperties.DisplayAllFailsIff | src/database.rs:191-207 | displaying everything fails exactly when the store is empty (`NoTaskAvailable`) or some task's date is rejected (that date's error) |

## Left out

- Text.ParseI32: its own contract states only that accepted text holds a digit. The full rule (an optional sign, ASCII digits, the i32 range) is its definition, and `Text.ParseShowI32` is the round trip proved about it. The kinds of `ParseIntError` collapse into one `BadInt(value)` error.
- Text.Trim: its own contract states only that it never lengthens its input. What trimming removes is stated by `Text.TrimIsSlice`.
- Text.Lower: its own contract states only that the length is kept. `Text.LowerChars` states the rest. Only ASCII letters are lowered, whereas Rust's `to_lowercase` also lowers other Unicode letters, some of them into several characters.
- Text.Remove: its contract states which characters are kept and how many, not that they keep their order; the order is its definition.
- Splitting the file into lines (`str::lines`, including removal of "\r\n"): the parser takes the file as a sequence of lines.
- Reading the file and `config_path`: file I/O. `Database.Display` and `Database.DisplayAll` take the config as a parameter, so a config error raised inside `display` or `check_date` is not modelled.
- The SQLite store (`db_path`, `setup`, `create_todo`, `check_todo`, `clear_todo`, `clear_list`, `standardize_date_format`, `select_all`): these are database I/O. The rows are a sequence parameter. Connection and row-decoding errors are not modelled. Only the empty-result errors of `select_query` and `display_all` are.
- `BadInt` and `DateError` payloads: the value or date they carry is the model's own. The source's `ParseIntError` and chrono `ParseError` messages do not name it, and the kind of those errors (empty input, invalid digit, overflow; bad format, out of range) is not modelled.
- `chrono`: reformatting, re-parsing and the clock are one `Calendar` parameter. The model therefore does not say which of `display_date` or `check_date` rejected a date. Either way it is one `DateError(date)`.
- `check_date` reloading the configuration: the model passes one config throughout.
- The `colored` crate: styles are tags on pieces of text. ANSI escape codes, terminal detection and the crate's own colour overrides are not modelled. The list name is bold whatever `ui.colors` says, as in the source.
- The debug `println!` calls in `format_date`, and `main.rs` (argument handling and printing).
- `Task.id` is an unbounded integer rather than an `i64`; it is only printed. `local_id` and `tasks_len` are unbounded naturals rather than `usize`.
