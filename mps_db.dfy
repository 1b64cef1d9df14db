/** The MillePede job database `mps.db` as the class `jobdatabase` of
    `mpslib/Mpslibclass.py` reads, updates and writes it: seventeen header
    lines, then one colon-separated line of thirteen fields per job. A file is
    the sequence of its lines as Python iterates over them, each with its
    newline. */
module MpsDb {
  import opened Wrappers
  import opened PyText

  // ===========================================================================
  // Records
  // ===========================================================================

  /** One row of the thirteen job-level lists `JOBNUMBER`, `JOBDIR`, `JOBID`,
      `JOBSTATUS`, `JOBNTRY`, `JOBRUNTIME`, `JOBNEVT`, `JOBHOST`, `JOBINCR`,
      `JOBREMARK`, `JOBSP1`, `JOBSP2` and `JOBSP3`. */
  datatype JobRow = JobRow(
    number: int, dir: string, id: string, status: string, ntry: int, runtime: int,
    nevt: int, host: string, incr: int, remark: string, sp1: string, sp2: string, sp3: string)

  /** The seventeen header values, in the order they are stored in the file. */
  datatype Header = Header(
    header: string, batchScript: string, cfgTemplate: string, infiList: string,
    classInf: string, addFiles: string, driver: string, mergeScript: string,
    mssDir: string, updateTime: int, updateTimeHuman: string, elapsedTime: int,
    mssDirPool: string, pedeMem: int, spare1: string, spare2: string, spare3: string)

  const HeaderLineCount: nat := 17
  const FieldSeparator: char := ':'
  const SchemaHeader: string := "mps database schema 4.0"
  const Unused: string := "-- unused --"

  // ===========================================================================
  // read_db (:63-126)
  // ===========================================================================

  /** The `k`-th `readline()`: the line, or "" once the file is exhausted. */
  function ReadLine(lines: seq<string>, k: nat): (r: string)
    ensures k >= |lines| ==> r == ""
  {
    if k < |lines| then lines[k] else ""
  }

  /** `int(s)`, raising `ValueError` on text that is not an integer literal. */
  function Int(s: string): (r: Result<int, PyError>)
    ensures r.Success? <==> ParseInt(s).Some?
    ensures r.Failure? ==> r.error == ValueError
  {
    match ParseInt(s)
    case None => Failure(ValueError)
    case Some(n) => Success(n)
  }

  /** The header lines of :79-95: the schema line stripped, the text lines
      without their newline, and the three integers read with `int()`. */
  function ParseHeader(lines: seq<string>): Result<Header, PyError> {
    var updateTime :- Int(ReadLine(lines, 9));
    var elapsedTime :- Int(ReadLine(lines, 11));
    var pedeMem :- Int(ReadLine(lines, 13));
    Success(Header(
      Strip(ReadLine(lines, 0)), RStripChar(ReadLine(lines, 1), '\n'), RStripChar(ReadLine(lines, 2), '\n'),
      RStripChar(ReadLine(lines, 3), '\n'), RStripChar(ReadLine(lines, 4), '\n'), RStripChar(ReadLine(lines, 5), '\n'),
      RStripChar(ReadLine(lines, 6), '\n'), RStripChar(ReadLine(lines, 7), '\n'), RStripChar(ReadLine(lines, 8), '\n'),
      updateTime, RStripChar(ReadLine(lines, 10), '\n'), elapsedTime,
      RStripChar(ReadLine(lines, 12), '\n'), pedeMem,
      RStripChar(ReadLine(lines, 14), '\n'), RStripChar(ReadLine(lines, 15), '\n'), RStripChar(ReadLine(lines, 16), '\n')))
  }

  /** The header values after :79-95 have run on `h0`: the attributes are
      assigned one at a time, so when an `int()` raises, the values read
      before it are already stored and the rest keep their `h0` values. */
  function HeaderRead(h0: Header, lines: seq<string>): Header {
    var texts := h0.(
      header := Strip(ReadLine(lines, 0)), batchScript := RStripChar(ReadLine(lines, 1), '\n'),
      cfgTemplate := RStripChar(ReadLine(lines, 2), '\n'), infiList := RStripChar(ReadLine(lines, 3), '\n'),
      classInf := RStripChar(ReadLine(lines, 4), '\n'), addFiles := RStripChar(ReadLine(lines, 5), '\n'),
      driver := RStripChar(ReadLine(lines, 6), '\n'), mergeScript := RStripChar(ReadLine(lines, 7), '\n'),
      mssDir := RStripChar(ReadLine(lines, 8), '\n'));
    match Int(ReadLine(lines, 9))
    case Failure(_) => texts
    case Success(updateTime) =>
      var timed := texts.(updateTime := updateTime, updateTimeHuman := RStripChar(ReadLine(lines, 10), '\n'));
      match Int(ReadLine(lines, 11))
      case Failure(_) => timed
      case Success(elapsedTime) =>
        var pooled := timed.(elapsedTime := elapsedTime, mssDirPool := RStripChar(ReadLine(lines, 12), '\n'));
        match Int(ReadLine(lines, 13))
        case Failure(_) => pooled
        case Success(pedeMem) =>
          pooled.(pedeMem := pedeMem, spare1 := RStripChar(ReadLine(lines, 14), '\n'),
                  spare2 := RStripChar(ReadLine(lines, 15), '\n'), spare3 := RStripChar(ReadLine(lines, 16), '\n'))
  }

  /** A header that reads completely replaces every value: the result is the
      parsed header, whatever the values were before. */
  lemma HeaderReadComplete(h0: Header, lines: seq<string>)
    requires ParseHeader(lines).Success?
    ensures HeaderRead(h0, lines) == ParseHeader(lines).value
  {
  }

  /** The nine text lines before the first `int()` are always stored; when the
      header raises, the last four values (read after the last `int()`) are
      never stored, and when it raises at :88 no value from line 10 on is. */
  lemma HeaderReadPartial(h0: Header, lines: seq<string>)
    ensures var h := HeaderRead(h0, lines);
            && h.header == Strip(ReadLine(lines, 0))
            && h.mssDir == RStripChar(ReadLine(lines, 8), '\n')
    ensures ParseHeader(lines).Failure? ==>
              var h := HeaderRead(h0, lines);
              h.pedeMem == h0.pedeMem && h.spare1 == h0.spare1 && h.spare2 == h0.spare2 && h.spare3 == h0.spare3
    ensures Int(ReadLine(lines, 9)).Failure? ==>
              var h := HeaderRead(h0, lines);
              && h.updateTime == h0.updateTime && h.updateTimeHuman == h0.updateTimeHuman
              && h.elapsedTime == h0.elapsedTime && h.mssDirPool == h0.mssDirPool
  {
    var t, e, p := Int(ReadLine(lines, 9)), Int(ReadLine(lines, 11)), Int(ReadLine(lines, 13));
    if t.Success? && e.Success? && p.Success? {
      assert ParseHeader(lines).Success?;
    }
  }

  /** The lines `for line in DBFILE` visits once the header has been read. */
  function JobLinesOf(lines: seq<string>): (r: seq<string>)
    ensures |lines| >= HeaderLineCount ==> lines == lines[..HeaderLineCount] + r
  {
    if |lines| >= HeaderLineCount then lines[HeaderLineCount..] else []
  }

  /** A line that `line.strip() == ""` skips: one made of whitespace only
      (`Strip` is empty exactly then). */
  predicate IsBlank(line: string) {
    AllSpace(line)
  }

  /** The fields of a job line: the line without its newline, split at every ':'. */
  function FieldsOf(line: string): seq<string> {
    Split(RStripChar(line, '\n'), FieldSeparator)
  }

  /** Fields 0, 4, 5, 6 and 8 are the integer ones, read with `int()`. */
  predicate IsIntField(k: nat) {
    k == 0 || k == 4 || k == 5 || k == 6 || k == 8
  }

  /** Field `k` is present but is not an integer literal. */
  predicate BadIntField(parts: seq<string>, k: nat) {
    k < |parts| && ParseInt(parts[k]).None?
  }

  /** Some integer field is present but is not an integer literal. */
  predicate HasBadIntField(parts: seq<string>) {
    BadIntField(parts, 0) || BadIntField(parts, 4) || BadIntField(parts, 5) || BadIntField(parts, 6) || BadIntField(parts, 8)
  }

  /** The exception the appends of :106-118 raise: `ValueError` when some
      present integer field is not a literal, `IndexError` when none is but
      fewer than thirteen fields exist (`FieldErrorInReadingOrder` shows this
      is the exception of the first field that fails). */
  function FieldError(parts: seq<string>): Option<PyError> {
    if HasBadIntField(parts) then Some(ValueError)
    else if |parts| < 13 then Some(IndexError)
    else None
  }

  /** The exception of the first field that fails when fields `k`, `k + 1`,
      ..., 12 are read in turn, as the appends of :106-118 read them. */
  function FirstFailure(parts: seq<string>, k: nat): Option<PyError>
    decreases 13 - k
  {
    if k >= 13 then None
    else if k >= |parts| then Some(IndexError)
    else if IsIntField(k) && BadIntField(parts, k) then Some(ValueError)
    else FirstFailure(parts, k + 1)
  }

  /** Since the missing fields all come after the present ones, the first
      failing field is a bad integer field exactly when there is one. */
  lemma {:induction false} FirstFailureFrom(parts: seq<string>, k: nat)
    requires k <= 13
    ensures FirstFailure(parts, k) ==
              if exists j :: k <= j < 13 && IsIntField(j) && BadIntField(parts, j) then Some(ValueError)
              else if k < 13 && |parts| < 13 then Some(IndexError)
              else None
    decreases 13 - k
  {
    if k < 13 {
      FirstFailureFrom(parts, k + 1);
      if k >= |parts| {
        forall j | k <= j < 13
          ensures !BadIntField(parts, j)
        {
        }
      } else if IsIntField(k) && BadIntField(parts, k) {
      } else {
        if exists j :: k <= j < 13 && IsIntField(j) && BadIntField(parts, j) {
          var j :| k <= j < 13 && IsIntField(j) && BadIntField(parts, j);
          assert j != k;
        }
      }
    }
  }

  lemma FieldErrorInReadingOrder(parts: seq<string>)
    ensures FieldError(parts) == FirstFailure(parts, 0)
  {
    FirstFailureFrom(parts, 0);
    if exists j :: 0 <= j < 13 && IsIntField(j) && BadIntField(parts, j) {
      var j :| 0 <= j < 13 && IsIntField(j) && BadIntField(parts, j);
      assert HasBadIntField(parts);
    }
  }

  /** A line whose thirteen fields can all be read. */
  predicate WellFormed(parts: seq<string>) {
    FieldError(parts).None?
  }

  /** Field k of the line goes to list k: the integer fields read with
      `int()`, the text fields stripped, except JOBID, which is kept as it is;
      fields past the thirteenth are ignored. */
  function RowOf(parts: seq<string>): JobRow
    requires WellFormed(parts)
  {
    JobRow(ParseInt(parts[0]).value, Strip(parts[1]), parts[2], Strip(parts[3]),
           ParseInt(parts[4]).value, ParseInt(parts[5]).value, ParseInt(parts[6]).value,
           Strip(parts[7]), ParseInt(parts[8]).value, Strip(parts[9]),
           Strip(parts[10]), Strip(parts[11]), Strip(parts[12]))
  }

  /** The appends of :104-118 for one non-blank line. */
  function ParseJobLine(line: string): Result<JobRow, PyError> {
    var parts := FieldsOf(line);
    match FieldError(parts)
    case Some(e) => Failure(e)
    case None => Success(RowOf(parts))
  }

  /** The loop of :102-118 with `read` reading one non-blank line: blank
      lines skipped, every other line read into a row, in file order; the
      first line that cannot be read raises. */
  function ReadJobLines(lines: seq<string>, read: string -> Result<JobRow, PyError>): Result<seq<JobRow>, PyError>
    decreases |lines|
  {
    if lines == [] then Success([])
    else
      var rows :- ReadJobLines(lines[..|lines| - 1], read);
      var line := lines[|lines| - 1];
      if IsBlank(line) then Success(rows)
      else
        var row :- read(line);
        Success(rows + [row])
  }

  /** The job lines of a file as `read_db` reads them. */
  function ParseJobLines(lines: seq<string>): Result<seq<JobRow>, PyError> {
    ReadJobLines(lines, ParseJobLine)
  }

  /** The non-blank lines, in order. */
  function NonBlank(lines: seq<string>): seq<string>
    decreases |lines|
  {
    if lines == [] then []
    else
      var kept := NonBlank(lines[..|lines| - 1]);
      if IsBlank(lines[|lines| - 1]) then kept else kept + [lines[|lines| - 1]]
  }

  /** Reading the job lines succeeds when every non-blank line can be read
      (`ReadJobLinesRows` gives the converse). */
  lemma {:induction false} ReadJobLinesSucceeds(lines: seq<string>, read: string -> Result<JobRow, PyError>)
    requires forall i :: 0 <= i < |NonBlank(lines)| ==> read(NonBlank(lines)[i]).Success?
    ensures ReadJobLines(lines, read).Success?
    decreases |lines|
  {
    if lines != [] {
      var init := lines[..|lines| - 1];
      var last := lines[|lines| - 1];
      var kept := NonBlank(init);
      if IsBlank(last) {
        assert NonBlank(lines) == kept;
      } else {
        var all := NonBlank(lines);
        assert all == kept + [last];
        assert forall i :: 0 <= i < |kept| ==> all[i] == kept[i];
        assert read(all[|kept|]).Success?;
      }
      ReadJobLinesSucceeds(init, read);
    }
  }

  /** When it succeeds, reading the job lines gives one row per non-blank
      line, in order. */
  lemma {:induction false} ReadJobLinesRows(lines: seq<string>, read: string -> Result<JobRow, PyError>)
    requires ReadJobLines(lines, read).Success?
    ensures |ReadJobLines(lines, read).value| == |NonBlank(lines)|
    ensures forall i :: 0 <= i < |NonBlank(lines)| ==>
              read(NonBlank(lines)[i]) == Success(ReadJobLines(lines, read).value[i])
    decreases |lines|
  {
    if lines != [] {
      var init := lines[..|lines| - 1];
      var last := lines[|lines| - 1];
      ReadJobLinesRows(init, read);
      if !IsBlank(last) {
        assert NonBlank(lines) == NonBlank(init) + [last];
      }
    }
  }

  /** One more line extends the rows read so far (the step of the loop). */
  lemma ReadJobLinesSnoc(lines: seq<string>, i: nat, read: string -> Result<JobRow, PyError>)
    requires i < |lines|
    ensures ReadJobLines(lines[..i + 1], read) ==
              match ReadJobLines(lines[..i], read)
              case Failure(e) => Failure(e)
              case Success(rows) =>
                if IsBlank(lines[i]) then Success(rows)
                else match read(lines[i])
                     case Failure(e) => Failure(e)
                     case Success(row) => Success(rows + [row])
  {
    assert lines[..i + 1][..i] == lines[..i];
  }

  /** Once a line cannot be read, reading more lines fails with the same error. */
  lemma {:induction false} ReadJobLinesFailureSticks(lines: seq<string>, i: nat, read: string -> Result<JobRow, PyError>)
    requires i <= |lines|
    requires ReadJobLines(lines[..i], read).Failure?
    ensures ReadJobLines(lines, read) == ReadJobLines(lines[..i], read)
    decreases |lines| - i
  {
    if i < |lines| {
      ReadJobLinesSnoc(lines, i, read);
      ReadJobLinesFailureSticks(lines, i + 1, read);
    } else {
      assert lines[..i] == lines;
    }
  }

  /** The rows `read_db` has appended when it stops: those of the longest
      prefix of the lines that reads without error, so all of them when
      every line reads. */
  function RowsRead(lines: seq<string>, read: string -> Result<JobRow, PyError>): seq<JobRow>
    decreases |lines|
  {
    if lines == [] then []
    else if ReadJobLines(lines, read).Success? then ReadJobLines(lines, read).value
    else RowsRead(lines[..|lines| - 1], read)
  }

  /** When line `k` is the first that cannot be read, the rows read are
      exactly those of the lines before it. */
  lemma {:induction false} RowsReadAtFailure(lines: seq<string>, k: nat, read: string -> Result<JobRow, PyError>)
    requires k < |lines|
    requires ReadJobLines(lines[..k], read).Success? && ReadJobLines(lines[..k + 1], read).Failure?
    ensures RowsRead(lines, read) == ReadJobLines(lines[..k], read).value
    decreases |lines|
  {
    ReadJobLinesFailureSticks(lines, k + 1, read);
    var init := lines[..|lines| - 1];
    if |lines| == k + 1 {
      assert init == lines[..k];
    } else {
      assert init[..k] == lines[..k] && init[..k + 1] == lines[..k + 1];
      RowsReadAtFailure(init, k, read);
    }
  }

  /** A mille job: its directory does not start with "jobm" (the merge job does). */
  predicate IsMilleDir(dir: string) {
    !StartsWith(dir, "jobm")
  }

  /** How many of the directories belong to mille jobs (:120-124). */
  function MilleCount(dirs: seq<string>): (r: nat)
    ensures r <= |dirs|
    decreases |dirs|
  {
    if dirs == [] then 0
    else MilleCount(dirs[..|dirs| - 1]) + (if IsMilleDir(dirs[|dirs| - 1]) then 1 else 0)
  }

  /** The mille count is the number of positions holding a mille directory:
      all of them when no directory starts with "jobm", none when all do. */
  lemma {:induction false} MilleCountPositions(dirs: seq<string>)
    ensures MilleCount(dirs) == |set i | 0 <= i < |dirs| && IsMilleDir(dirs[i])|
    decreases |dirs|
  {
    if dirs != [] {
      var n := |dirs| - 1;
      var init := dirs[..n];
      MilleCountPositions(init);
      var before := set i | 0 <= i < n && IsMilleDir(init[i]);
      var after := set i | 0 <= i < |dirs| && IsMilleDir(dirs[i]);
      assert forall i :: 0 <= i < n ==> init[i] == dirs[i];
      if IsMilleDir(dirs[n]) {
        assert after == before + {n};
      } else {
        assert after == before;
      }
    }
  }

  /** Counting one more position of a JOBDIR list that was just appended to. */
  lemma MilleCountAppend(dirs: seq<string>, dir: string, n: nat)
    requires n <= |dirs|
    ensures MilleCount((dirs + [dir])[..n + 1])
            == MilleCount(dirs[..n]) + (if IsMilleDir((dirs + [dir])[n]) then 1 else 0)
  {
    assert (dirs + [dir])[..n + 1][..n] == dirs[..n];
  }

  /** The JOBDIR column of some rows. */
  function Dirs(rows: seq<JobRow>): (r: seq<string>)
    ensures |r| == |rows| && forall i :: 0 <= i < |rows| ==> r[i] == rows[i].dir
  {
    seq(|rows|, i requires 0 <= i < |rows| => rows[i].dir)
  }

  // ===========================================================================
  // write_db (:213-254)
  // ===========================================================================

  /** The header fields :214-223 set before writing: the schema line, the
      seconds elapsed since the previous update (0 when there was none), the
      update time, its human-readable form, and the spare lines. */
  function UpdatedHeader(h: Header, currentTime: int, now: string): (r: Header)
    ensures r.updateTime == currentTime
    ensures h.updateTime != 0 ==> r.elapsedTime == currentTime - h.updateTime
    ensures h.updateTime == 0 ==> r.elapsedTime == 0
    ensures r.header == SchemaHeader && r.updateTimeHuman == now
    ensures r.spare1 == Unused && r.spare2 == Unused && r.spare3 == Unused
    ensures r.batchScript == h.batchScript && r.cfgTemplate == h.cfgTemplate && r.infiList == h.infiList
    ensures r.classInf == h.classInf && r.addFiles == h.addFiles && r.driver == h.driver
    ensures r.mergeScript == h.mergeScript && r.mssDir == h.mssDir && r.mssDirPool == h.mssDirPool
    ensures r.pedeMem == h.pedeMem
  {
    h.(header := SchemaHeader,
       elapsedTime := if h.updateTime != 0 then currentTime - h.updateTime else 0,
       updateTime := currentTime,
       updateTimeHuman := now,
       spare1 := Unused, spare2 := Unused, spare3 := Unused)
  }

  /** `"%s\n" % item` for each item of `headData` (:230-236). */
  function FormatHeader(h: Header): (r: seq<string>)
    ensures |r| == HeaderLineCount
  {
    [h.header + "\n", h.batchScript + "\n", h.cfgTemplate + "\n", h.infiList + "\n",
     h.classInf + "\n", h.addFiles + "\n", h.driver + "\n", h.mergeScript + "\n",
     h.mssDir + "\n", DecimalString(h.updateTime) + "\n", h.updateTimeHuman + "\n",
     DecimalString(h.elapsedTime) + "\n", h.mssDirPool + "\n", DecimalString(h.pedeMem) + "\n",
     h.spare1 + "\n", h.spare2 + "\n", h.spare3 + "\n"]
  }

  /** The thirteen fields written for a row numbered `number`. */
  function JobFields(number: int, row: JobRow): (r: seq<string>)
    ensures |r| == 13
  {
    [DecimalString(number), row.dir, row.id, row.status, DecimalString(row.ntry),
     DecimalString(row.runtime), DecimalString(row.nevt), row.host, DecimalString(row.incr),
     row.remark, row.sp1, row.sp2, row.sp3]
  }

  /** The line `'%d:%s:...:%s\n'` of :240-253 for a row numbered `number`. */
  function FormatJobLine(number: int, row: JobRow): string {
    Join(JobFields(number, row), FieldSeparator) + "\n"
  }

  /** The job lines of :239-253: row i is written with number i + 1, whatever
      its stored JOBNUMBER. */
  function FormatJobLines(rows: seq<JobRow>): (r: seq<string>)
    ensures |r| == |rows|
    decreases |rows|
  {
    if rows == [] then []
    else FormatJobLines(rows[..|rows| - 1]) + [FormatJobLine(|rows|, rows[|rows| - 1])]
  }

  lemma {:induction false} FormatJobLinesAt(rows: seq<JobRow>, i: nat)
    requires i < |rows|
    ensures FormatJobLines(rows)[i] == FormatJobLine(i + 1, rows[i])
    decreases |rows|
  {
    if i < |rows| - 1 {
      FormatJobLinesAt(rows[..|rows| - 1], i);
    }
  }

  /** The rows as they come back from the file: numbered 1, 2, 3, ... */
  function Renumbered(rows: seq<JobRow>): (r: seq<JobRow>)
    ensures |r| == |rows|
    ensures forall i :: 0 <= i < |rows| ==> r[i] == rows[i].(number := i + 1)
  {
    seq(|rows|, i requires 0 <= i < |rows| => rows[i].(number := i + 1))
  }

  // ===========================================================================
  // Reading back what was written
  // ===========================================================================

  /** Text that stays one line when `open(...,'r')` reads it back: universal
      newline mode ends a line at '\r' as well as at '\n'. */
  predicate OneLine(s: string) {
    '\n' !in s && '\r' !in s
  }

  /** Text that survives a round trip through the file: no separator and no line break. */
  predicate Plain(s: string) {
    FieldSeparator !in s && OneLine(s)
  }

  /** A row the file stores faithfully: its text fields plain, and those that
      `read_db` strips already stripped (JOBID is read as it is). */
  predicate Storable(row: JobRow) {
    && Plain(row.dir) && Plain(row.id) && Plain(row.status) && Plain(row.host)
    && Plain(row.remark) && Plain(row.sp1) && Plain(row.sp2) && Plain(row.sp3)
    && Trimmed(row.dir) && Trimmed(row.status) && Trimmed(row.host) && Trimmed(row.remark)
    && Trimmed(row.sp1) && Trimmed(row.sp2) && Trimmed(row.sp3)
  }

  /** A header the file stores faithfully: no text field holds a line break, and
      the schema line is already stripped. */
  predicate StorableHeader(h: Header) {
    && OneLine(h.header) && OneLine(h.batchScript) && OneLine(h.cfgTemplate) && OneLine(h.infiList)
    && OneLine(h.classInf) && OneLine(h.addFiles) && OneLine(h.driver) && OneLine(h.mergeScript)
    && OneLine(h.mssDir) && OneLine(h.updateTimeHuman) && OneLine(h.mssDirPool)
    && OneLine(h.spare1) && OneLine(h.spare2) && OneLine(h.spare3)
    && Trimmed(h.header)
  }

  /** The header values `write_db` keeps are storable; the others it
      replaces with the schema line, the clock and the spares' marker. */
  predicate StorableKept(h: Header) {
    && OneLine(h.batchScript) && OneLine(h.cfgTemplate) && OneLine(h.infiList) && OneLine(h.classInf)
    && OneLine(h.addFiles) && OneLine(h.driver) && OneLine(h.mergeScript) && OneLine(h.mssDir)
    && OneLine(h.mssDirPool)
  }

  lemma StripTrimmed(s: string)
    requires Trimmed(s)
    ensures Strip(s) == s
  {
    StripPadded([], s, []);
    assert [] + s + [] == s;
  }

  lemma ParseIntDecimal(n: int)
    ensures ParseInt(DecimalString(n)) == Some(n)
  {
    ParseDecimal(n, [], []);
    assert [] + DecimalString(n) + [] == DecimalString(n);
  }

  /** The fields of a written line: no field holds the separator or a newline. */
  lemma JobFieldsPlain(number: int, row: JobRow)
    requires Storable(row)
    ensures forall k :: 0 <= k < 13 ==> Plain(JobFields(number, row)[k])
  {
    DecimalIsPlain(number); DecimalIsPlain(row.ntry); DecimalIsPlain(row.runtime);
    DecimalIsPlain(row.nevt); DecimalIsPlain(row.incr);
    var fields := JobFields(number, row);
    forall k | 0 <= k < 13
      ensures Plain(fields[k])
    {
      if k < 7 {
        assert fields[k] in fields[..7];
      } else {
        assert fields[k] in fields[7..];
      }
    }
  }

  lemma DecimalIsPlain(n: int)
    ensures Plain(DecimalString(n))
  {
    DecimalPlain(n, FieldSeparator);
    DecimalPlain(n, '\n');
    DecimalPlain(n, '\r');
  }

  /** A written line splits back into the fields it was joined from. */
  lemma FormatJobLineFields(number: int, row: JobRow)
    requires Storable(row)
    ensures FieldsOf(FormatJobLine(number, row)) == JobFields(number, row)
  {
    var fields := JobFields(number, row);
    JobFieldsPlain(number, row);
    JoinWithout(fields, FieldSeparator, '\n');
    RStripNewline(Join(fields, FieldSeparator));
    SplitJoin(fields, FieldSeparator);
  }

  /** The written integer fields are read back as the values written. */
  lemma JobFieldInts(number: int, row: JobRow)
    ensures ParseInt(JobFields(number, row)[0]) == Some(number)
    ensures ParseInt(JobFields(number, row)[4]) == Some(row.ntry)
    ensures ParseInt(JobFields(number, row)[5]) == Some(row.runtime)
    ensures ParseInt(JobFields(number, row)[6]) == Some(row.nevt)
    ensures ParseInt(JobFields(number, row)[8]) == Some(row.incr)
  {
    var fields := JobFields(number, row);
    assert fields[0] == DecimalString(number) && fields[4] == DecimalString(row.ntry);
    assert fields[5] == DecimalString(row.runtime) && fields[6] == DecimalString(row.nevt);
    assert fields[8] == DecimalString(row.incr);
    ParseIntDecimal(number); ParseIntDecimal(row.ntry); ParseIntDecimal(row.runtime);
    ParseIntDecimal(row.nevt); ParseIntDecimal(row.incr);
  }

  /** The written text fields are read back as the texts written. */
  lemma JobFieldTexts(number: int, row: JobRow)
    requires Storable(row)
    ensures var fields := JobFields(number, row);
            && Strip(fields[1]) == row.dir && fields[2] == row.id && Strip(fields[3]) == row.status
            && Strip(fields[7]) == row.host && Strip(fields[9]) == row.remark
            && Strip(fields[10]) == row.sp1 && Strip(fields[11]) == row.sp2 && Strip(fields[12]) == row.sp3
  {
    var fields := JobFields(number, row);
    assert fields[1] == row.dir && fields[2] == row.id && fields[3] == row.status;
    assert fields[7] == row.host && fields[9] == row.remark;
    assert fields[10] == row.sp1 && fields[11] == row.sp2 && fields[12] == row.sp3;
    StripTrimmed(row.dir); StripTrimmed(row.status); StripTrimmed(row.host); StripTrimmed(row.remark);
    StripTrimmed(row.sp1); StripTrimmed(row.sp2); StripTrimmed(row.sp3);
  }

  /** Thirteen fields whose integer fields are literals can be read. */
  lemma WellFormedByInts(parts: seq<string>)
    requires |parts| == 13
    requires ParseInt(parts[0]).Some? && ParseInt(parts[4]).Some? && ParseInt(parts[5]).Some?
    requires ParseInt(parts[6]).Some? && ParseInt(parts[8]).Some?
    ensures WellFormed(parts)
  {
  }

  /** The written fields are read back as the row with its new number. */
  lemma ReadJobFields(number: int, row: JobRow)
    requires Storable(row)
    ensures WellFormed(JobFields(number, row))
    ensures RowOf(JobFields(number, row)) == row.(number := number)
  {
    JobFieldInts(number, row);
    WellFormedByInts(JobFields(number, row));
    JobFieldTexts(number, row);
  }

  /** A written line is not blank: it holds the separator. */
  lemma FormatJobLineNotBlank(number: int, row: JobRow)
    ensures !IsBlank(FormatJobLine(number, row))
  {
    var line := FormatJobLine(number, row);
    var d := DecimalString(number);
    assert line[|d|] == FieldSeparator by {
      assert Join(JobFields(number, row), FieldSeparator) == d + [FieldSeparator] + Join(JobFields(number, row)[1..], FieldSeparator);
    }
    assert !AllSpace(line) by {
      assert !IsSpace(line[|d|]);
    }
  }

  /** A written job line is read back as the row with its new number. */
  lemma ParseFormatJobLine(number: int, row: JobRow)
    requires Storable(row)
    ensures !IsBlank(FormatJobLine(number, row))
    ensures ParseJobLine(FormatJobLine(number, row)) == Success(row.(number := number))
  {
    FormatJobLineNotBlank(number, row);
    FormatJobLineFields(number, row);
    ReadJobFields(number, row);
  }

  /** Lines that are all non-blank and all read are read as the rows they give. */
  lemma {:induction false} ReadJobLinesAll(lines: seq<string>, read: string -> Result<JobRow, PyError>, rows: seq<JobRow>)
    requires |rows| == |lines|
    requires forall i :: 0 <= i < |lines| ==> !IsBlank(lines[i]) && read(lines[i]) == Success(rows[i])
    ensures ReadJobLines(lines, read) == Success(rows)
    decreases |lines|
  {
    if lines != [] {
      var n := |lines| - 1;
      assert forall i :: 0 <= i < n ==> lines[..n][i] == lines[i] && rows[..n][i] == rows[i];
      ReadJobLinesAll(lines[..n], read, rows[..n]);
      assert rows == rows[..n] + [rows[n]];
    }
  }

  /** The `i`-th written job line is read back as row `i` numbered `i + 1`. */
  lemma ParseFormatJobLineAt(rows: seq<JobRow>, i: nat)
    requires i < |rows| && Storable(rows[i])
    ensures !IsBlank(FormatJobLines(rows)[i])
    ensures ParseJobLine(FormatJobLines(rows)[i]) == Success(Renumbered(rows)[i])
  {
    FormatJobLinesAt(rows, i);
    ParseFormatJobLine(i + 1, rows[i]);
  }

  /** The job lines written for some rows are read back as those rows,
      renumbered 1, 2, 3, ... */
  lemma ParseFormatJobLines(rows: seq<JobRow>)
    requires forall i :: 0 <= i < |rows| ==> Storable(rows[i])
    ensures ParseJobLines(FormatJobLines(rows)) == Success(Renumbered(rows))
  {
    forall i | 0 <= i < |rows|
      ensures !IsBlank(FormatJobLines(rows)[i])
      ensures ParseJobLine(FormatJobLines(rows)[i]) == Success(Renumbered(rows)[i])
    {
      ParseFormatJobLineAt(rows, i);
    }
    ReadJobLinesAll(FormatJobLines(rows), ParseJobLine, Renumbered(rows));
  }

  /** A written line loses exactly its newline when read back. */
  lemma ReadBackText(s: string)
    requires '\n' !in s
    ensures RStripChar(s + "\n", '\n') == s
  {
    RStripNewline(s);
  }

  lemma ReadBackInt(n: int)
    ensures ParseInt(DecimalString(n) + "\n") == Some(n)
  {
    ParseDecimal(n, [], "\n");
    assert [] + DecimalString(n) + "\n" == DecimalString(n) + "\n";
  }

  /** A written header is read back as it was. */
  lemma ParseFormatHeader(h: Header, jobLines: seq<string>)
    requires StorableHeader(h)
    ensures ParseHeader(FormatHeader(h) + jobLines) == Success(h)
  {
    var lines := FormatHeader(h) + jobLines;
    assert ReadLine(lines, 9) == DecimalString(h.updateTime) + "\n";
    assert ReadLine(lines, 11) == DecimalString(h.elapsedTime) + "\n";
    assert ReadLine(lines, 13) == DecimalString(h.pedeMem) + "\n";
    ReadBackInt(h.updateTime); ReadBackInt(h.elapsedTime); ReadBackInt(h.pedeMem);
    ReadHeaderTitle(h, jobLines);
    ReadHeaderTexts(h, jobLines);
    ReadHeaderTrailer(h, jobLines);
  }

  /** The title line of a written header is read back as it was. */
  lemma ReadHeaderTitle(h: Header, jobLines: seq<string>)
    requires StorableHeader(h)
    ensures Strip(ReadLine(FormatHeader(h) + jobLines, 0)) == h.header
  {
    var lines := FormatHeader(h) + jobLines;
    assert ReadLine(lines, 0) == h.header + "\n";
    StripPadded([], h.header, "\n");
    assert [] + h.header + "\n" == h.header + "\n";
  }

  /** Lines 1 to 8 of a written header are read back as they were. */
  lemma ReadHeaderTexts(h: Header, jobLines: seq<string>)
    requires StorableHeader(h)
    ensures var lines := FormatHeader(h) + jobLines;
            && RStripChar(ReadLine(lines, 1), '\n') == h.batchScript
            && RStripChar(ReadLine(lines, 2), '\n') == h.cfgTemplate
            && RStripChar(ReadLine(lines, 3), '\n') == h.infiList
            && RStripChar(ReadLine(lines, 4), '\n') == h.classInf
            && RStripChar(ReadLine(lines, 5), '\n') == h.addFiles
            && RStripChar(ReadLine(lines, 6), '\n') == h.driver
            && RStripChar(ReadLine(lines, 7), '\n') == h.mergeScript
            && RStripChar(ReadLine(lines, 8), '\n') == h.mssDir
  {
    var lines := FormatHeader(h) + jobLines;
    assert ReadLine(lines, 1) == h.batchScript + "\n";
    assert ReadLine(lines, 2) == h.cfgTemplate + "\n" && ReadLine(lines, 3) == h.infiList + "\n";
    assert ReadLine(lines, 4) == h.classInf + "\n" && ReadLine(lines, 5) == h.addFiles + "\n";
    assert ReadLine(lines, 6) == h.driver + "\n" && ReadLine(lines, 7) == h.mergeScript + "\n";
    assert ReadLine(lines, 8) == h.mssDir + "\n";
    ReadBackText(h.batchScript); ReadBackText(h.cfgTemplate); ReadBackText(h.infiList);
    ReadBackText(h.classInf); ReadBackText(h.addFiles); ReadBackText(h.driver);
    ReadBackText(h.mergeScript); ReadBackText(h.mssDir);
  }

  /** The remaining text lines of a written header are read back as they were. */
  lemma ReadHeaderTrailer(h: Header, jobLines: seq<string>)
    requires StorableHeader(h)
    ensures var lines := FormatHeader(h) + jobLines;
            && RStripChar(ReadLine(lines, 10), '\n') == h.updateTimeHuman
            && RStripChar(ReadLine(lines, 12), '\n') == h.mssDirPool
            && RStripChar(ReadLine(lines, 14), '\n') == h.spare1
            && RStripChar(ReadLine(lines, 15), '\n') == h.spare2
            && RStripChar(ReadLine(lines, 16), '\n') == h.spare3
  {
    var lines := FormatHeader(h) + jobLines;
    assert ReadLine(lines, 10) == h.updateTimeHuman + "\n" && ReadLine(lines, 12) == h.mssDirPool + "\n";
    assert ReadLine(lines, 14) == h.spare1 + "\n";
    assert ReadLine(lines, 15) == h.spare2 + "\n" && ReadLine(lines, 16) == h.spare3 + "\n";
    ReadBackText(h.updateTimeHuman); ReadBackText(h.mssDirPool);
    ReadBackText(h.spare1); ReadBackText(h.spare2); ReadBackText(h.spare3);
  }

  /** What `read_db` gets from a file: its header and its job rows. */
  function ParseDb(lines: seq<string>): Result<(Header, seq<JobRow>), PyError> {
    var h :- ParseHeader(lines);
    var rows :- ParseJobLines(JobLinesOf(lines));
    Success((h, rows))
  }

  /** The file `write_db` writes for a header and rows. */
  function FormatDb(h: Header, rows: seq<JobRow>): (r: seq<string>)
    ensures |r| == HeaderLineCount + |rows|
  {
    FormatHeader(h) + FormatJobLines(rows)
  }

  /** Reading the file `write_db` writes gives back the header it wrote and
      the rows, renumbered 1, 2, 3, ... */
  lemma ReadWriteRoundTrip(h: Header, rows: seq<JobRow>)
    requires StorableHeader(h)
    requires forall i :: 0 <= i < |rows| ==> Storable(rows[i])
    ensures ParseDb(FormatDb(h, rows)) == Success((h, Renumbered(rows)))
  {
    ParseFormatHeader(h, FormatJobLines(rows));
    ParseFormatJobLines(rows);
    assert JobLinesOf(FormatDb(h, rows)) == FormatJobLines(rows);
  }

  // ===========================================================================
  // get_class (:259-273)
  // ===========================================================================

  /** `get_class(argument)`: the batch class of mille jobs is the first of the
      ':'-separated classes, that of pede jobs the second when there are two;
      more than two classes, or another argument, ends the script. */
  function GetClass(classInf: string, argument: string): (r: Result<string, PyError>)
    ensures r.Success? <==> multiset(classInf)[FieldSeparator] <= 1 && (argument == "mille" || argument == "pede")
    ensures r.Success? ==> FieldSeparator !in r.value
    ensures r.Failure? ==> r.error == SystemExit
  {
    SplitParts(classInf, FieldSeparator);
    var classes := Split(classInf, FieldSeparator);
    if |classes| < 1 || |classes| > 2 then Failure(SystemExit)
    else if argument == "mille" then Success(classes[0])
    else if argument == "pede" then Success(if |classes| == 1 then classes[0] else classes[1])
    else Failure(SystemExit)
  }

  /** One class serves both kinds of job. */
  lemma GetClassSingle(c: string)
    requires FieldSeparator !in c
    ensures GetClass(c, "mille") == Success(c)
    ensures GetClass(c, "pede") == Success(c)
  {
    SplitJoin([c], FieldSeparator);
  }

  /** "classMille:classPede" gives mille jobs the first class and pede jobs the second. */
  lemma GetClassPair(mille: string, pede: string)
    requires FieldSeparator !in mille && FieldSeparator !in pede
    ensures GetClass(mille + [FieldSeparator] + pede, "mille") == Success(mille)
    ensures GetClass(mille + [FieldSeparator] + pede, "pede") == Success(pede)
  {
    SplitJoin([mille, pede], FieldSeparator);
    assert Join([mille, pede], FieldSeparator) == mille + [FieldSeparator] + pede;
  }

  /** Three or more classes are refused whatever the argument. */
  lemma GetClassTooMany(a: string, b: string, c: string, argument: string)
    ensures GetClass(a + [FieldSeparator] + b + [FieldSeparator] + c, argument) == Failure(SystemExit)
  {
    var s := a + [FieldSeparator] + b + [FieldSeparator] + c;
    assert multiset(s)[FieldSeparator] >= 2 by {
      assert multiset(s) == multiset(a) + multiset{FieldSeparator} + multiset(b) + multiset{FieldSeparator} + multiset(c);
    }
  }

  // ===========================================================================
  // mps_splice: the readFiles.extend blocks (:288-315)
  // ===========================================================================

  const BlockOpening: string := "readFiles.extend([\n    "

  /** The text up to the first newline, or all of it when there is none. */
  function FirstLine(s: string): (r: string)
    ensures '\n' !in r
    decreases |s|
  {
    if s == [] || s[0] == '\n' then [] else [s[0]] + FirstLine(s[1..])
  }

  /** The first part `split('\n')` gives is the first line. */
  lemma {:induction false} SplitFirstLine(s: string)
    ensures Split(s, '\n')[0] == FirstLine(s)
    decreases |s|
  {
    if s != [] {
      SplitFirst(s, '\n');
      if s[0] != '\n' {
        SplitFirstLine(s[1..]);
      }
    }
  }

  /** The file names of the modifier text (:286-291): no name spans a line,
      and the names joined by newlines give the stripped text back, after
      its first line when that line names the Castor pool. */
  function FileNamesOf(mods: string): (r: seq<string>)
    ensures forall i :: 0 <= i < |r| ==> '\n' !in r[i]
    ensures Contains(FirstLine(Strip(mods)), "CastorPool=") ==> Join([FirstLine(Strip(mods))] + r, '\n') == Strip(mods)
    ensures !Contains(FirstLine(Strip(mods)), "CastorPool=") ==> Join(r, '\n') == Strip(mods)
    ensures Contains(FirstLine(Strip(mods)), "CastorPool=") ==> |r| == multiset(Strip(mods))['\n']
    ensures !Contains(FirstLine(Strip(mods)), "CastorPool=") ==> |r| == multiset(Strip(mods))['\n'] + 1
  {
    var names := Split(Strip(mods), '\n');
    SplitParts(Strip(mods), '\n');
    JoinSplit(Strip(mods), '\n');
    SplitFirstLine(Strip(mods));
    if Contains(names[0], "CastorPool=") then
      assert [names[0]] + names[1..] == names;
      names[1..]
    else names
  }

  /** Blank modifier text still gives one name, the empty one, so
      `mps_splice` writes one block quoting ''. */
  lemma BlankModifierOneName(mods: string)
    requires AllSpace(mods)
    ensures FileNamesOf(mods) == [""]
  {
    assert Strip(mods) == [];
    assert FirstLine(Strip(mods)) == [];
    assert !Contains([], "CastorPool=");
    assert Split([], '\n') == [[]];
  }

  /** :286-291 and the loops of :300-315 on the modifier text: the blocks
      that quote its file names, 255 to a block. */
  method SpliceBlocks(mods: string) returns (blocks: seq<string>)
    ensures |blocks| == BlockCount(|FileNamesOf(mods)|)
    ensures forall j :: 0 <= j < |blocks| ==> blocks[j] == InsertBlock(FileNamesOf(mods), j)
  {
    var fileNames := Split(Strip(mods), '\n');
    if Contains(fileNames[0], "CastorPool=") {
      fileNames := fileNames[1..];
    }
    blocks := InsertBlocks(fileNames);
  }

  /** `int(math.ceil(n / 255.))`. */
  function BlockCount(n: nat): nat {
    (n + 254) / 255
  }

  /** The positions block `j` covers: from `j * 255` up to 255 further, at most `n`. */
  function BlockEnd(n: nat, j: nat): (e: nat)
    ensures e <= n
  {
    if (j + 1) * 255 < n then (j + 1) * 255 else n
  }

  /** The file names as they are quoted: each stripped. */
  function Entries(names: seq<string>): (r: seq<string>)
    ensures |r| == |names|
    decreases |names|
  {
    if names == [] then [] else Entries(names[..|names| - 1]) + [Strip(names[|names| - 1])]
  }

  lemma {:induction false} EntriesAt(names: seq<string>, k: nat)
    requires k < |names|
    ensures Entries(names)[k] == Strip(names[k])
    decreases |names|
  {
    if k < |names| - 1 {
      EntriesAt(names[..|names| - 1], k);
    }
  }

  /** One entry of a block: the quoted name, followed by the separator to the
      next entry, or by the closing "'])" when it is the block's last. */
  function EntryText(entry: string, closes: bool): string {
    "'" + entry + (if closes then "'])\n" else "',\n    ")
  }

  /** The entries `entries[start..stop]`, the one at `last` closing the block. */
  function EntriesText(entries: seq<string>, start: nat, stop: nat, last: nat): string
    requires start <= stop <= |entries|
    decreases stop - start
  {
    if start == stop then []
    else EntriesText(entries, start, stop - 1, last) + EntryText(entries[stop - 1], stop - 1 == last)
  }

  /** The text block `j` inserts: the opening, then its entries. */
  function InsertBlock(names: seq<string>, j: nat): string
    requires j < BlockCount(|names|)
  {
    var start := j * 255;
    var stop := BlockEnd(|names|, j);
    BlockOpening + EntriesText(Entries(names), start, stop, stop - 1)
  }

  /** The blocks cover the names in order: block j starts where block j - 1
      ended, holds between 1 and 255 names, and the last block ends at the
      last name. */
  lemma BlocksPartition(n: nat, j: nat)
    requires j < BlockCount(n)
    ensures j * 255 < BlockEnd(n, j) <= j * 255 + 255
    ensures j + 1 < BlockCount(n) ==> BlockEnd(n, j) == (j + 1) * 255
    ensures j + 1 == BlockCount(n) ==> BlockEnd(n, j) == n
    ensures BlockCount(n) * 255 - 255 < n <= BlockCount(n) * 255
  {
  }

  /** Every block ends with the closing "'])" after its last name, and every
      name of the block before it is followed by "',". */
  lemma {:induction false} EntriesTextShape(entries: seq<string>, start: nat, stop: nat, last: nat)
    requires start < stop <= |entries| && last == stop - 1
    ensures var t := EntriesText(entries, start, stop, last);
            var closing := EntryText(entries[last], true);
            |closing| <= |t| && t[|t| - |closing|..] == closing
  {
    var t := EntriesText(entries, start, stop, last);
    var closing := EntryText(entries[last], true);
    var front := EntriesText(entries, start, stop - 1, last);
    assert t == front + closing;
    SuffixOfConcat(front, closing);
  }

  lemma SuffixOfConcat(a: string, b: string)
    ensures (a + b)[|a + b| - |b|..] == b
  {
  }

  lemma ConcatAssociates(a: string, b: string, c: string)
    ensures (a + b) + c == a + (b + c)
  {
  }

  /** The entries of a range are those of its first part followed by those
      of the rest. */
  lemma {:induction false} EntriesTextSplit(entries: seq<string>, start: nat, mid: nat, stop: nat, last: nat)
    requires start <= mid <= stop <= |entries|
    ensures EntriesText(entries, start, stop, last) ==
              EntriesText(entries, start, mid, last) + EntriesText(entries, mid, stop, last)
    decreases stop - mid
  {
    if mid < stop {
      EntriesTextSplit(entries, start, mid, stop - 1, last);
      var a := EntriesText(entries, start, mid, last);
      var b := EntriesText(entries, mid, stop - 1, last);
      var e := EntryText(entries[stop - 1], stop - 1 == last);
      assert EntriesText(entries, start, stop, last) == (a + b) + e;
      assert EntriesText(entries, mid, stop, last) == b + e;
      ConcatAssociates(a, b, e);
    }
  }

  /** The name at `currentStart + i` closes block `j` exactly when it is the
      255th of the block or the last of all. */
  lemma ClosesBlock(n: nat, j: nat, i: nat)
    requires j < BlockCount(n) && i < 255 && j * 255 + i < n
    ensures (i == 254 || j * 255 + i + 1 == n) <==> j * 255 + i == BlockEnd(n, j) - 1
    ensures j * 255 + i < BlockEnd(n, j)
  {
  }

  /** Appending the next entry extends the block's text by that entry. */
  lemma EntriesTextStep(entries: seq<string>, start: nat, k: nat, last: nat)
    requires start <= k < |entries|
    ensures BlockOpening + EntriesText(entries, start, k + 1, last)
         == (BlockOpening + EntriesText(entries, start, k, last)) + EntryText(entries[k], k == last)
  {
    ConcatAssociates(BlockOpening, EntriesText(entries, start, k, last), EntryText(entries[k], k == last));
  }

  /** One turn of the while loop: the name at position `k` of block `j`,
      stripped, is appended with the separator the loop's condition picks. */
  lemma AppendEntry(names: seq<string>, j: nat, i: nat, k: nat, block: string, entry: string, closes: bool)
    requires j < BlockCount(|names|) && i < 255 && k == j * 255 + i < |names|
    requires block == BlockOpening + EntriesText(Entries(names), j * 255, k, BlockEnd(|names|, j) - 1)
    requires entry == Entries(names)[k] && closes == (i == 254 || k + 1 == |names|)
    ensures block + EntryText(entry, closes)
            == BlockOpening + EntriesText(Entries(names), j * 255, k + 1, BlockEnd(|names|, j) - 1)
    ensures k + 1 <= BlockEnd(|names|, j)
  {
    var last := BlockEnd(|names|, j) - 1;
    var entries := Entries(names);
    ClosesBlock(|names|, j, i);
    assert closes == (k == last);
    EntriesTextStep(entries, j * 255, k, last);
    assert EntryText(entries[k], k == last) == EntryText(entry, closes);
  }

  /** The while loop of :307-315 for block `j`: the counter `i` runs over the
      names of the block, each appended to `insertBlock` with its separator. */
  method InsertBlockOf(names: seq<string>, j: nat) returns (insertBlock: string)
    requires j < BlockCount(|names|)
    ensures insertBlock == InsertBlock(names, j)
  {
    var numberOfFiles := |names|;
    BlockBounds(numberOfFiles, j);
    insertBlock := BlockOpening;
    var i := 0;
    var currentStart := j * 255;
    ghost var k := currentStart;
    while i < 255 && currentStart + i < numberOfFiles
      invariant 0 <= i <= 255 && k == currentStart + i <= BlockEnd(numberOfFiles, j)
      invariant insertBlock == BlockOpening + EntriesText(Entries(names), currentStart, k, BlockEnd(numberOfFiles, j) - 1)
      decreases 255 - i
    {
      var entry := StrippedName(names, currentStart + i);
      var closes := i == 254 || currentStart + i + 1 == numberOfFiles;
      AppendEntry(names, j, i, k, insertBlock, entry, closes);
      insertBlock := insertBlock + EntryText(entry, closes);
      i := i + 1;
      k := k + 1;
    }
    LoopEnd(numberOfFiles, j, i);
    SameEnd(names, j, k);
  }

  /** The `.strip()` of the name at `k`, the entry the block quotes. */
  method StrippedName(names: seq<string>, k: nat) returns (entry: string)
    requires k < |names|
    ensures entry == Entries(names)[k]
  {
    entry := Strip(names[k]);
    EntriesAt(names, k);
  }

  /** The loop stops exactly at the end of the block. */
  lemma LoopEnd(n: nat, j: nat, i: nat)
    requires j < BlockCount(n) && i <= 255 && j * 255 + i <= BlockEnd(n, j)
    requires !(i < 255 && j * 255 + i < n)
    ensures j * 255 + i == BlockEnd(n, j)
  {
  }

  /** When the loop stops, `k` is the end of the block. */
  lemma SameEnd(names: seq<string>, j: nat, k: nat)
    requires j < BlockCount(|names|) && k == BlockEnd(|names|, j)
    ensures InsertBlock(names, j) == BlockOpening + EntriesText(Entries(names), j * 255, k, BlockEnd(|names|, j) - 1)
  {
  }

  /** The bounds of block `j` the loop relies on, in linear form. */
  lemma BlockBounds(n: nat, j: nat)
    requires j < BlockCount(n)
    ensures j * 255 < BlockEnd(n, j) <= n && BlockEnd(n, j) <= j * 255 + 255
    ensures BlockEnd(n, j) == j * 255 + 255 || BlockEnd(n, j) == n
  {
    BlocksPartition(n, j);
  }

  /** The loops of :305-315: the blocks in order, block `j` covering the names
      from `j * 255` on. */
  method InsertBlocks(names: seq<string>) returns (blocks: seq<string>)
    ensures |blocks| == BlockCount(|names|)
    ensures forall j :: 0 <= j < |blocks| ==> blocks[j] == InsertBlock(names, j)
  {
    var numberOfExtends := BlockCount(|names|);
    blocks := [];
    for j := 0 to numberOfExtends
      invariant |blocks| == j
      invariant forall k :: 0 <= k < j ==> blocks[k] == InsertBlock(names, k)
    {
      var insertBlock := InsertBlockOf(names, j);
      blocks := blocks + [insertBlock];
    }
  }

  // ===========================================================================
  // The database object
  // ===========================================================================

  /** The thirteen job-level lists of :52-53, `JOBNUMBER` to `JOBSP3`. */
  datatype JobLists = JobLists(
    number: seq<int>, dir: seq<string>, id: seq<string>, status: seq<string>, ntry: seq<int>,
    runtime: seq<int>, nevt: seq<int>, host: seq<string>, incr: seq<int>, remark: seq<string>,
    sp1: seq<string>, sp2: seq<string>, sp3: seq<string>)
  {
    /** The lists are appended to together and stay equally long. */
    predicate Aligned() {
      && |dir| == |id| == |status| == |ntry| == |runtime| == |nevt| == |number|
      && |host| == |incr| == |remark| == |sp1| == |sp2| == |sp3| == |number|
    }

    /** The job rows, one per position of the lists. */
    function Rows(): (r: seq<JobRow>)
      requires Aligned()
      ensures |r| == |number|
      ensures forall i :: 0 <= i < |r| ==>
                r[i] == JobRow(number[i], dir[i], id[i], status[i], ntry[i], runtime[i], nevt[i],
                               host[i], incr[i], remark[i], sp1[i], sp2[i], sp3[i])
    {
      seq(|number|, i requires 0 <= i < |number| && Aligned() =>
        JobRow(number[i], dir[i], id[i], status[i], ntry[i], runtime[i], nevt[i],
               host[i], incr[i], remark[i], sp1[i], sp2[i], sp3[i]))
    }

    /** The thirteen `append` calls of :106-118 for one row. */
    function Append(row: JobRow): (r: JobLists)
      requires Aligned()
      ensures r.Aligned() && r.Rows() == Rows() + [row]
      ensures r.dir == dir + [row.dir]
    {
      JobLists(number + [row.number], dir + [row.dir], id + [row.id], status + [row.status],
               ntry + [row.ntry], runtime + [row.runtime], nevt + [row.nevt], host + [row.host],
               incr + [row.incr], remark + [row.remark], sp1 + [row.sp1], sp2 + [row.sp2], sp3 + [row.sp3])
    }
  }

  /** The JOBDIR column of the rows is the JOBDIR list. */
  lemma DirsOfRows(jobs: JobLists)
    requires jobs.Aligned()
    ensures Dirs(jobs.Rows()) == jobs.dir
  {
  }

  lemma AppendRowAssociates(before: seq<JobRow>, rows: seq<JobRow>, row: JobRow)
    ensures (before + rows) + [row] == before + (rows + [row])
  {
  }

  const NoJobs: JobLists := JobLists([], [], [], [], [], [], [], [], [], [], [], [], [])

  /** `jobdatabase`: the header values, the job lists, the job count and the
      time of the last write. */
  class JobDatabase {
    var head: Header
    var jobs: JobLists
    var nJobs: int
    var currentTime: int

    predicate Valid()
      reads this
    {
      jobs.Aligned()
    }

    function Rows(): (r: seq<JobRow>)
      reads this
      requires Valid()
    {
      jobs.Rows()
    }

    /** The class attributes of :52-58: empty lists and texts, -1 for the numbers. */
    constructor ()
      ensures Valid() && Rows() == []
      ensures head == Header("", "", "", "", "", "", "", "", "", -1, "", -1, "", -1, "", "", "")
      ensures nJobs == -1
    {
      jobs := NoJobs;
      head := Header("", "", "", "", "", "", "", "", "", -1, "", -1, "", -1, "", "", "");
      nJobs := -1;
      // The source has no `currentTime` until `write_db` sets it (:215); 0
      // stands for that absence here and nothing reads it before a write.
      currentTime := 0;
    }

    /** `read_db` on the lines of a file: the header lines are stored one
        value at a time up to the first `int()` that raises (`HeaderRead`), and
        once the header has read, every non-blank job line is appended as a row, up to the
        first line that raises. When all of them read, `nJobs` becomes the
        number of mille jobs among the first rows of `JOBDIR`, as many as
        were read (those just read, when the lists started empty); otherwise
        it is left counting the rows appended. */
    method ReadDb(lines: seq<string>) returns (r: Outcome<PyError>)
      requires Valid()
      modifies this`head, this`jobs, this`nJobs
      ensures Valid()
      ensures r.Pass? <==> ParseDb(lines).Success?
      ensures head == HeaderRead(old(head), lines)
      ensures ParseHeader(lines).Failure? ==>
                r == Fail(ParseHeader(lines).error) && jobs == old(jobs) && nJobs == old(nJobs)
      ensures ParseHeader(lines).Success? ==>
                var read := RowsRead(JobLinesOf(lines), ParseJobLine);
                && head == ParseHeader(lines).value
                && Rows() == old(Rows()) + read
                && (r.Pass? ==> read == ParseJobLines(JobLinesOf(lines)).value && nJobs == MilleCount(jobs.dir[..|read|]))
                && (r.Pass? && old(Rows()) == [] ==> nJobs == MilleCount(Dirs(read)))
                && (r.Fail? ==> r == Fail(ParseJobLines(JobLinesOf(lines)).error) && nJobs == |read|)
    {
      head := head.(
        header := Strip(ReadLine(lines, 0)), batchScript := RStripChar(ReadLine(lines, 1), '\n'),
        cfgTemplate := RStripChar(ReadLine(lines, 2), '\n'), infiList := RStripChar(ReadLine(lines, 3), '\n'),
        classInf := RStripChar(ReadLine(lines, 4), '\n'), addFiles := RStripChar(ReadLine(lines, 5), '\n'),
        driver := RStripChar(ReadLine(lines, 6), '\n'), mergeScript := RStripChar(ReadLine(lines, 7), '\n'),
        mssDir := RStripChar(ReadLine(lines, 8), '\n'));
      var updateTime := Int(ReadLine(lines, 9));
      if updateTime.Failure? {
        return Fail(updateTime.error);
      }
      head := head.(updateTime := updateTime.value, updateTimeHuman := RStripChar(ReadLine(lines, 10), '\n'));
      var elapsedTime := Int(ReadLine(lines, 11));
      if elapsedTime.Failure? {
        return Fail(elapsedTime.error);
      }
      head := head.(elapsedTime := elapsedTime.value, mssDirPool := RStripChar(ReadLine(lines, 12), '\n'));
      var pedeMem := Int(ReadLine(lines, 13));
      if pedeMem.Failure? {
        return Fail(pedeMem.error);
      }
      head := head.(pedeMem := pedeMem.value, spare1 := RStripChar(ReadLine(lines, 14), '\n'),
                    spare2 := RStripChar(ReadLine(lines, 15), '\n'), spare3 := RStripChar(ReadLine(lines, 16), '\n'));
      HeaderReadComplete(old(head), lines);
      r := ReadJobs(JobLinesOf(lines), ParseJobLine);
    }

    /** The loop of :99-122 over the lines after the header, `read` parsing
        one non-blank line into a row (`ParseJobLine` for `read_db`). */
    method ReadJobs(jobLines: seq<string>, read: string -> Result<JobRow, PyError>) returns (r: Outcome<PyError>)
      requires Valid()
      modifies this`jobs, this`nJobs
      ensures Valid()
      ensures r.Pass? <==> ReadJobLines(jobLines, read).Success?
      ensures var rows := RowsRead(jobLines, read);
              && Rows() == old(Rows()) + rows
              && (r.Pass? ==> rows == ReadJobLines(jobLines, read).value && nJobs == MilleCount(jobs.dir[..|rows|]))
              && (r.Pass? && old(Rows()) == [] ==> nJobs == MilleCount(Dirs(rows)))
              && (r.Fail? ==> r == Fail(ReadJobLines(jobLines, read).error) && nJobs == |rows|)
    {
      ghost var before := jobs.Rows();
      nJobs := 0;
      var milleJobs := 0;
      for k := 0 to |jobLines|
        invariant jobs.Aligned()
        invariant ReadJobLines(jobLines[..k], read).Success?
        invariant jobs.Rows() == before + ReadJobLines(jobLines[..k], read).value
        invariant nJobs == |ReadJobLines(jobLines[..k], read).value|
        invariant milleJobs == MilleCount(jobs.dir[..nJobs])
      {
        ReadJobLinesSnoc(jobLines, k, read);
        var line := jobLines[k];
        if IsBlank(line) {
          continue;
        }
        var row := read(line);
        if row.Failure? {
          ReadJobLinesFailureSticks(jobLines, k + 1, read);
          RowsReadAtFailure(jobLines, k, read);
          return Fail(row.error);
        }
        MilleCountAppend(jobs.dir, row.value.dir, nJobs);
        AppendRowAssociates(before, ReadJobLines(jobLines[..k], read).value, row.value);
        jobs := jobs.Append(row.value);
        if !StartsWith(jobs.dir[nJobs], "jobm") {
          milleJobs := milleJobs + 1;
        }
        nJobs := nJobs + 1;
      }
      assert jobLines[..|jobLines|] == jobLines;
      ghost var rows := ReadJobLines(jobLines, read).value;
      assert RowsRead(jobLines, read) == rows;
      assert milleJobs == MilleCount(jobs.dir[..|rows|]);
      nJobs := milleJobs;
      if before == [] {
        assert jobs.Rows() == rows;
        DirsOfRows(jobs);
        assert jobs.dir[..|rows|] == jobs.dir;
      }
      r := Pass;
    }

    /** `write_db` at `currentTime` (seconds since 1970), `now` being
        `str(datetime.datetime.today())`: the header values of :214-223 are
        updated, and the lines of the new file are the header lines followed
        by one line per job, numbered from 1. */
    method WriteDb(currentTime: int, now: string) returns (file: seq<string>)
      requires Valid()
      modifies this`head, this`currentTime
      ensures Valid()
      ensures head == UpdatedHeader(old(head), currentTime, now)
      ensures head.elapsedTime == (if old(head.updateTime) != 0 then currentTime - old(head.updateTime) else 0)
      ensures head.updateTime == currentTime && this.currentTime == currentTime
      ensures file == FormatDb(head, Rows())
    {
      this.currentTime := currentTime;
      var elapsed := 0;
      if head.updateTime != 0 {
        elapsed := currentTime - head.updateTime;
      }
      head := head.(header := SchemaHeader, elapsedTime := elapsed, updateTime := currentTime,
                    updateTimeHuman := now, spare1 := Unused, spare2 := Unused, spare3 := Unused);
      var jobLines := WriteJobLines(Rows());
      file := FormatHeader(head) + jobLines;
    }
  }

  /** The loop of :239-253: one line per row, row i numbered i + 1. */
  method WriteJobLines(rows: seq<JobRow>) returns (lines: seq<string>)
    ensures lines == FormatJobLines(rows)
  {
    lines := [];
    for i := 0 to |rows|
      invariant lines == FormatJobLines(rows[..i])
    {
      assert rows[..i + 1][..i] == rows[..i];
      var line := FormatJobLine(i + 1, rows[i]);
      lines := lines + [line];
    }
    assert rows[..|rows|] == rows;
  }

  /** Writing and then reading a database gives back the updated header and
      the rows, renumbered: the elapsed time and update time `write_db` set
      are what a later `read_db` sees. */
  lemma WriteThenRead(h: Header, rows: seq<JobRow>, currentTime: int, now: string)
    requires StorableKept(h) && OneLine(now)
    requires forall i :: 0 <= i < |rows| ==> Storable(rows[i])
    ensures var written := UpdatedHeader(h, currentTime, now);
            ParseDb(FormatDb(written, rows)) == Success((written, Renumbered(rows)))
  {
    var written := UpdatedHeader(h, currentTime, now);
    assert Trimmed(SchemaHeader);
    assert OneLine(SchemaHeader) && OneLine(Unused);
    ReadWriteRoundTrip(written, rows);
  }
}
