// What a finished job's output becomes: stored log lines, a status change and a live broadcast
// (the JobCompleted branch of crates/decentgpu-master/src/p2p/handler.rs), and what reading the
// stored lines back returns.
module LogReplay {
  import opened Types
  import opened JobStore
  import JobProtocol

  /** Terminal and SSE replays ask for the lines after time 0, ten thousand at most. */
  const REPLAY_LIMIT := 10_000

  // ── Lines of text ──────────────────────────────────────────────────────────────────────

  function IndexOf(s: string, c: char): (i: nat)
    ensures i <= |s| && c !in s[..i] && (i < |s| ==> s[i] == c)
  {
    if s == [] || s[0] == c then 0
    else
      var i := 1 + IndexOf(s[1..], c);
      assert s[..i] == [s[0]] + s[1..][..i - 1];
      i
  }

  function StripCr(s: string): string {
    if s != [] && s[|s| - 1] == '\r' then s[..|s| - 1] else s
  }

  /** Rust's `str::lines`: the text between line feeds, without a carriage return before one;
      nothing stands after a final line feed. */
  function Lines(s: string): seq<string> {
    if s == [] then []
    else
      var i := IndexOf(s, '\n');
      if i == |s| then [s] else [StripCr(s[..i])] + Lines(s[i + 1..])
  }

  /** The worker's `log_lines.join("\n")`. */
  function Join(lines: seq<string>): string {
    if lines == [] then ""
    else if |lines| == 1 then lines[0]
    else lines[0] + "\n" + Join(lines[1..])
  }

  function NonEmpty(lines: seq<string>): seq<string> {
    if lines == [] then []
    else if lines[0] == "" then NonEmpty(lines[1..])
    else [lines[0]] + NonEmpty(lines[1..])
  }

  lemma FirstFeed(s: string, i: nat)
    requires i < |s| && s[i] == '\n' && '\n' !in s[..i]
    ensures IndexOf(s, '\n') == i
  {
    var k := IndexOf(s, '\n');
    assert forall j :: 0 <= j < k ==> s[..k][j] == s[j] != '\n';
    assert forall j :: 0 <= j < i ==> s[..i][j] == s[j] != '\n';
  }

  lemma LinesAt(s: string, i: nat)
    requires i < |s| && s[i] == '\n' && '\n' !in s[..i]
    ensures Lines(s) == [StripCr(s[..i])] + Lines(s[i + 1..])
  {
    FirstFeed(s, i);
  }

  lemma ConcatSlices(text: string, rest: string, i: nat)
    requires i < |text|
    ensures (text + rest)[i] == text[i]
    ensures (text + rest)[..i] == text[..i] && (text + rest)[i + 1..] == text[i + 1..] + rest
  {
  }

  lemma Glue(first: string, both: seq<string>, lines: seq<string>, rest: seq<string>)
    requires both == lines + rest
    ensures [first] + both == [first] + lines + rest
  {
  }

  lemma ConcatStep(text: string, rest: string, i: nat)
    requires i < |text| && text[i] == '\n' && '\n' !in text[..i]
    requires Lines(text[i + 1..] + rest) == Lines(text[i + 1..]) + Lines(rest)
    ensures Lines(text + rest) == Lines(text) + Lines(rest)
  {
    ConcatSlices(text, rest, i);
    LinesAt(text, i);
    LinesAt(text + rest, i);
    Glue(StripCr(text[..i]), Lines(text[i + 1..] + rest), Lines(text[i + 1..]), Lines(rest));
  }

  /** A text that ends in a line feed splits on its own, whatever follows. */
  lemma {:induction false} LinesConcat(text: string, rest: string)
    requires text != [] && text[|text| - 1] == '\n'
    ensures Lines(text + rest) == Lines(text) + Lines(rest)
    decreases |text|
  {
    var i := IndexOf(text, '\n');
    assert forall j :: 0 <= j < i ==> text[..i][j] == text[j] != '\n';
    if i + 1 < |text| {
      LinesConcat(text[i + 1..], rest);
    } else {
      assert text[i + 1..] == [] && [] + rest == rest;
    }
    ConcatStep(text, rest, i);
  }

  /** The texts, each followed by a line feed. */
  function Closed(texts: seq<string>): string {
    if texts == [] then "" else texts[0] + "\n" + Closed(texts[1..])
  }

  /** The lines of such texts; a text may have line feeds inside. */
  function Split(texts: seq<string>): seq<string> {
    if texts == [] then [] else Lines(texts[0] + "\n") + Split(texts[1..])
  }

  lemma {:induction false} ClosedTextsSplit(texts: seq<string>, rest: string)
    ensures Lines(Closed(texts) + rest) == Split(texts) + Lines(rest)
  {
    if texts == [] {
      assert Closed(texts) + rest == rest;
    } else {
      var first, more := texts[0] + "\n", Closed(texts[1..]);
      assert Closed(texts) + rest == first + (more + rest);
      LinesConcat(first, more + rest);
      ClosedTextsSplit(texts[1..], rest);
    }
  }

  lemma {:induction false} JoinIsClosed(texts: seq<string>, last: string)
    ensures Join(texts + [last]) == Closed(texts) + last
  {
    if texts == [] {
      assert texts + [last] == [last] && "" + last == last;
    } else {
      assert (texts + [last])[1..] == texts[1..] + [last];
      JoinIsClosed(texts[1..], last);
      assert texts[0] + "\n" + (Closed(texts[1..]) + last) == texts[0] + "\n" + Closed(texts[1..]) + last;
    }
  }

  /** The texts a worker collects, joined with line feeds, split into exactly their own lines. */
  lemma JoinedLinesComeBack(texts: seq<string>, last: string)
    ensures Lines(Join(texts + [last])) == Split(texts) + Lines(last)
  {
    JoinIsClosed(texts, last);
    ClosedTextsSplit(texts, last);
  }

  /** One line feed ends one line, and a carriage return before it goes too. */
  lemma OneLineText(text: string)
    requires '\n' !in text
    ensures Lines(text + "\n")
         == [if text != "" && text[|text| - 1] == '\r' then text[..|text| - 1] else text]
    ensures Lines(text) == if text == "" then [] else [text]
  {
    var closed := text + "\n";
    assert closed[..|text|] == text && closed[|text| + 1..] == "";
    LinesAt(closed, |text|);
    assert IndexOf(text, '\n') == |text|;
  }

  lemma NonEmptyOne(line: string)
    ensures NonEmpty([line]) == if line == "" then [] else [line]
  {
  }

  function Stripped(texts: seq<string>): seq<string> {
    seq(|texts|, i requires 0 <= i < |texts| => StripCr(texts[i]))
  }

  /** A text without line feeds is one line, but for a carriage return at its end. */
  lemma {:induction false} PlainTextsAreLines(texts: seq<string>)
    requires forall i :: 0 <= i < |texts| ==> '\n' !in texts[i]
    ensures Split(texts) == Stripped(texts)
  {
    if texts != [] {
      var first := texts[0] + "\n";
      assert first[..|texts[0]|] == texts[0] && first[|texts[0]| + 1..] == "";
      LinesAt(first, |texts[0]|);
      PlainTextsAreLines(texts[1..]);
      assert Stripped(texts) == [StripCr(texts[0])] + Stripped(texts[1..]);
    }
  }

  lemma {:induction false} NonEmptyConcat(a: seq<string>, b: seq<string>)
    ensures NonEmpty(a + b) == NonEmpty(a) + NonEmpty(b)
  {
    if a == [] {
      assert a + b == b;
    } else {
      assert (a + b)[1..] == a[1..] + b;
      NonEmptyConcat(a[1..], b);
    }
  }

  // ── Storing and broadcasting ───────────────────────────────────────────────────────────

  /** The rows that the first `n` lines leave: a line's index in the output is its offset in time. */
  function StoredRows(job: Uuid, level: string, lines: seq<string>, now: int, n: nat): seq<LogLine>
    requires n <= |lines|
  {
    if n == 0 then []
    else
      StoredRows(job, level, lines, now, n - 1)
      + if lines[n - 1] == "" then [] else [LogLine(job, now + n - 1, level, lines[n - 1])]
  }

  datatype Live = Log(timestampMs: int, level: string, data: string) | Done(status: JobStatus)

  /** The live messages number the non-empty lines only. */
  function LiveLogs(level: string, texts: seq<string>, now: int): seq<Live> {
    seq(|texts|, i requires 0 <= i < |texts| => Log(now + i, level, texts[i] + "\r\n"))
  }

  function LevelOf(success: bool): string {
    if success then "INFO" else "ERROR"
  }

  function StatusOf(success: bool): JobStatus {
    if success then Completed else Failed
  }

  /** The lines with those blanked whose append fails: they leave no row either. */
  function Kept(lines: seq<string>, lost: set<nat>): (r: seq<string>)
    ensures |r| == |lines|
  {
    seq(|lines|, i requires 0 <= i < |lines| => if i in lost then "" else lines[i])
  }

  function LogWrites(rows: seq<LogLine>): seq<Write> {
    seq(|rows|, i requires 0 <= i < |rows| => Logged(rows[i]))
  }

  method StoreOutput(db: JobRepository, job: Uuid, level: string, lines: seq<string>, now: int, lost: set<nat>)
    modifies db`logs, db`writes
    ensures var rows := StoredRows(job, level, Kept(lines, lost), now, |lines|);
            db.logs == old(db.logs) + rows && db.writes == old(db.writes) + LogWrites(rows)
  {
    for i := 0 to |lines|
      invariant db.logs == old(db.logs) + StoredRows(job, level, Kept(lines, lost), now, i)
      invariant db.writes == old(db.writes) + LogWrites(StoredRows(job, level, Kept(lines, lost), now, i))
    {
      if lines[i] != "" && i !in lost {
        db.AppendLog(job, now + i, level, lines[i]);
      }
    }
  }

  method Broadcast(level: string, lines: seq<string>, now: int, newStatus: JobStatus) returns (live: seq<Live>)
    ensures live == LiveLogs(level, NonEmpty(lines), now) + [Done(newStatus)]
    ensures |live| == |NonEmpty(lines)| + 1 && live[|live| - 1] == Done(newStatus)
    ensures forall i :: 0 <= i < |live| - 1 ==> live[i] == Log(now + i, level, NonEmpty(lines)[i] + "\r\n")
  {
    live := [];
    var lineIdx := 0;
    for i := 0 to |lines|
      invariant lineIdx == |NonEmpty(lines[..i])|
      invariant live == LiveLogs(level, NonEmpty(lines[..i]), now)
    {
      NonEmptyConcat(lines[..i], [lines[i]]);
      assert lines[..i + 1] == lines[..i] + [lines[i]];
      if lines[i] != "" {
        live := live + [Log(now + lineIdx, level, lines[i] + "\r\n")];
        lineIdx := lineIdx + 1;
      }
    }
    assert lines[..|lines|] == lines;
    live := live + [Done(newStatus)];
  }

  /** Stores the output first, then changes the status, and then tells live subscribers, whatever
      became of the appends in `lost` and of the status change. */
  method HandleJobCompleted(db: JobRepository, job: Uuid, success: bool, errorMessage: string, output: string,
                            now: nat, lost: set<nat>, fate: JobProtocol.Fate, nowDb: int)
    returns (live: seq<Live>)
    modifies db
    ensures var rows := StoredRows(job, LevelOf(success), Kept(Lines(output), lost), now, |Lines(output)|);
            var change := JobProtocol.ResultChange(success, errorMessage);
            && db.logs == old(db.logs) + rows
            && db.jobs == JobProtocol.Attempt(old(db.jobs), job, Assigned, change, fate, nowDb)
            && db.writes == old(db.writes) + LogWrites(rows)
                 + if JobProtocol.Wins(old(db.jobs), job, Assigned, fate) then [Moved(job, Assigned, change)] else []
    ensures live == LiveLogs(LevelOf(success), NonEmpty(Lines(output)), now) + [Done(StatusOf(success))]
    ensures live[|live| - 1] == Done(if success then Completed else Failed)
    ensures forall i :: 0 <= i < |live| - 1 ==> live[i].Log? && live[i].level == if success then "INFO" else "ERROR"
    ensures forall x :: x in db.logs[|old(db.logs)|..] ==> x.level == if success then "INFO" else "ERROR"
    ensures if fate != JobProtocol.Refused && job in old(db.jobs) && old(db.jobs)[job].status == Assigned then
              && job in db.jobs && db.jobs == old(db.jobs)[job := db.jobs[job]]
              && IsMoved(old(db.jobs)[job], db.jobs[job],
                         Change(if success then Completed else Failed, None,
                                if success then None else Some(errorMessage), None), nowDb)
            else db.jobs == old(db.jobs)
  {
    var level := LevelOf(success);
    StoreOutput(db, job, level, Lines(output), now, lost);
    StoredRowsMeaning(job, level, Kept(Lines(output), lost), now, |Lines(output)|);
    var newStatus := StatusOf(success);
    if fate != JobProtocol.Refused {
      var change := Change(newStatus, None, if success then None else Some(errorMessage), None);
      var row := db.TransitionStatus(job, Assigned, change, nowDb);
    }
    live := Broadcast(level, Lines(output), now, newStatus);
  }

  // ── Reading back ───────────────────────────────────────────────────────────────────────

  function Messages(rows: seq<LogLine>): seq<string> {
    seq(|rows|, i requires 0 <= i < |rows| => rows[i].message)
  }

  predicate StrictlyOldestFirst(rows: seq<LogLine>) {
    forall i, j :: 0 <= i < j < |rows| ==> rows[i].timestampMs < rows[j].timestampMs
  }

  /** The stored rows carry the non-empty lines at ever later times. */
  lemma {:induction false} StoredRowsMeaning(job: Uuid, level: string, lines: seq<string>, now: int, n: nat)
    requires n <= |lines|
    ensures var rows := StoredRows(job, level, lines, now, n);
            && StrictlyOldestFirst(rows)
            && Messages(rows) == NonEmpty(lines[..n])
            && (forall x :: x in rows ==> x.job == job && x.level == level && now <= x.timestampMs < now + n)
            && (lines != [] && lines[0] == "" ==> forall x :: x in rows ==> now < x.timestampMs)
  {
    if n > 0 {
      var before := StoredRows(job, level, lines, now, n - 1);
      StoredRowsMeaning(job, level, lines, now, n - 1);
      NonEmptyConcat(lines[..n - 1], [lines[n - 1]]);
      assert lines[..n] == lines[..n - 1] + [lines[n - 1]];
      var rows := StoredRows(job, level, lines, now, n);
      forall i | 0 <= i < |before|
        ensures rows[i] == before[i] && before[i].timestampMs < now + n - 1
      {
        assert before[i] in before;
      }
    }
  }

  /** The rows are exactly those of the non-empty lines that were kept, each at its own index. */
  lemma {:induction false} RowsInNumbers(job: Uuid, level: string, lines: seq<string>, lost: set<nat>, now: int, n: nat)
    requires n <= |lines|
    ensures forall x :: x in StoredRows(job, level, Kept(lines, lost), now, n) <==>
              exists i :: 0 <= i < n && i !in lost && lines[i] != "" && x == LogLine(job, now + i, level, lines[i])
  {
    if n > 0 {
      RowsInNumbers(job, level, lines, lost, now, n - 1);
      var before, rows := StoredRows(job, level, Kept(lines, lost), now, n - 1), StoredRows(job, level,
                                                                                            Kept(lines, lost), now, n);
      forall x
        ensures x in rows <==>
                  exists i :: 0 <= i < n && i !in lost && lines[i] != "" && x == LogLine(job, now + i, level, lines[i])
      {
        assert x in rows <==> x in before || (Kept(lines, lost)[n - 1] != "" && x == LogLine(job, now + n - 1,
                                                                                             level, lines[n - 1]));
      }
    }
  }

  lemma SameEarliest(a: seq<LogLine>, b: seq<LogLine>)
    requires StrictlyOldestFirst(a) && OldestFirst(b) && multiset(a) == multiset(b) && a != []
    ensures b != [] && a[0] == b[0]
  {
    assert a[0] in multiset(a);
    assert a[0] in b && b[0] in multiset(b);
    assert b[0] in a;
    var i :| 0 <= i < |a| && a[i] == b[0];
    var j :| 0 <= j < |b| && b[j] == a[0];
  }

  lemma DropSame(a: seq<LogLine>, b: seq<LogLine>)
    requires a != [] && b != [] && a[0] == b[0] && multiset(a) == multiset(b)
    ensures multiset(a[1..]) == multiset(b[1..])
  {
    assert a == [a[0]] + a[1..] && b == [a[0]] + b[1..];
    assert multiset(a[1..]) == multiset(a) - multiset{a[0]};
    assert multiset(b[1..]) == multiset(b) - multiset{a[0]};
  }

  /** Rows with different times have only one order in time. */
  lemma {:induction false} TimeDecidesOrder(a: seq<LogLine>, b: seq<LogLine>)
    requires StrictlyOldestFirst(a) && OldestFirst(b) && multiset(a) == multiset(b)
    ensures a == b
  {
    if a == [] {
      assert |multiset(b)| == 0;
    } else {
      SameEarliest(a, b);
      DropSame(a, b);
      TimeDecidesOrder(a[1..], b[1..]);
    }
  }

  /** The job's rows in the log table are those of one report, in any order and among any rows
      of other jobs. */
  ghost predicate HoldsReport(logs: seq<LogLine>, job: Uuid, report: seq<LogLine>) {
    forall x: LogLine :: x.job == job ==> multiset(logs)[x] == multiset(report)[x]
  }

  /** A replay of a report made at a positive time is the report itself, whatever the order in
      which its rows reached the table. */
  lemma ReplayIsReport(replay: seq<LogLine>, logs: seq<LogLine>, job: Uuid, report: seq<LogLine>)
    requires IsReplay(replay, logs, job, 0) && HoldsReport(logs, job, report)
    requires StrictlyOldestFirst(report) && forall x :: x in report ==> Wanted(x, job, 0)
    ensures replay == report
  {
    forall x: LogLine
      ensures multiset(replay)[x] == multiset(report)[x]
    {
      if !Wanted(x, job, 0) {
        assert x !in report;
      }
    }
    assert multiset(replay) == multiset(report);
    TimeDecidesOrder(report, replay);
  }

  lemma WithoutFirst(replay: seq<LogLine>, logs: seq<LogLine>, job: Uuid, report: seq<LogLine>)
    requires IsReplay(replay, logs, job, 0) && HoldsReport(logs, job, report)
    requires StrictlyOldestFirst(report) && report != []
    requires !Wanted(report[0], job, 0) && forall x :: x in report[1..] ==> Wanted(x, job, 0)
    ensures replay == report[1..]
  {
    assert report == [report[0]] + report[1..];
    forall x: LogLine
      ensures multiset(replay)[x] == multiset(report[1..])[x]
    {
      if !Wanted(x, job, 0) {
        assert x !in report[1..];
      } else {
        assert x != report[0];
      }
    }
    assert multiset(replay) == multiset(report[1..]);
    TimeDecidesOrder(report[1..], replay);
  }

  lemma MessagesOfPage(rows: seq<LogLine>, limit: nat)
    ensures Messages(Page(rows, limit, 0)) == Page(Messages(rows), limit, 0)
  {
  }

  lemma PageOfReport(page: seq<LogLine>, logs: seq<LogLine>, job: Uuid, report: seq<LogLine>)
    requires IsReplayPage(page, logs, job, 0, REPLAY_LIMIT) && HoldsReport(logs, job, report)
    requires StrictlyOldestFirst(report) && forall x :: x in report ==> Wanted(x, job, 0)
    ensures page == Page(report, REPLAY_LIMIT, 0)
  {
    var replay :| IsReplay(replay, logs, job, 0) && page == Page(replay, REPLAY_LIMIT, 0);
    ReplayIsReport(replay, logs, job, report);
  }

  lemma PageWithoutFirst(page: seq<LogLine>, logs: seq<LogLine>, job: Uuid, report: seq<LogLine>)
    requires IsReplayPage(page, logs, job, 0, REPLAY_LIMIT) && HoldsReport(logs, job, report)
    requires StrictlyOldestFirst(report) && report != []
    requires !Wanted(report[0], job, 0) && forall x :: x in report[1..] ==> Wanted(x, job, 0)
    ensures page == Page(report[1..], REPLAY_LIMIT, 0)
  {
    var replay :| IsReplay(replay, logs, job, 0) && page == Page(replay, REPLAY_LIMIT, 0);
    WithoutFirst(replay, logs, job, report);
  }

  lemma PageIsPrefix(page: seq<LogLine>, report: seq<LogLine>)
    requires page == Page(report, REPLAY_LIMIT, 0)
    ensures forall i :: 0 <= i < |page| ==> i < |Messages(report)| && page[i].message == Messages(report)[i]
    ensures forall x :: x in page ==> x in report
  {
  }

  lemma NothingLost(lines: seq<string>)
    ensures Kept(lines, {}) == lines
  {
  }

  /** The page shows the first ten thousand of these texts, or all if there are no more. */
  predicate ShowsFirst(page: seq<LogLine>, texts: seq<string>) {
    && |page| == (if |texts| < 10_000 then |texts| else 10_000)
    && forall i :: 0 <= i < |page| ==> page[i].message == texts[i]
  }

  lemma OldestIsReplayPage(page: seq<LogLine>, logs: seq<LogLine>, job: Uuid)
    requires IsOldestOf(page, logs, job, 0, 10_000)
    ensures IsReplayPage(page, logs, job, 0, REPLAY_LIMIT)
  {
    var lines :|
      && IsAllOf(lines, logs, job, 0)
      && |page| == (if |lines| < 10_000 then |lines| else 10_000)
      && (forall i :: 0 <= i < |page| ==> page[i] == lines[i]);
    assert IsReplay(lines, logs, job, 0);
    PageInNumbers(lines, REPLAY_LIMIT, 0);
    assert page == Page(lines, REPLAY_LIMIT, 0);
  }

  lemma PageShowsFirst(page: seq<LogLine>, texts: seq<string>)
    requires Messages(page) == Page(texts, REPLAY_LIMIT, 0)
    ensures ShowsFirst(page, texts)
  {
    PageInNumbers(texts, REPLAY_LIMIT, 0);
    assert |Messages(page)| == |page| && forall i :: 0 <= i < |page| ==> Messages(page)[i] == page[i].message;
  }

  lemma PageOfOutput(page: seq<LogLine>, logs: seq<LogLine>, job: Uuid, level: string, lines: seq<string>, now: int)
    requires now > 0 && IsReplayPage(page, logs, job, 0, REPLAY_LIMIT)
    requires HoldsReport(logs, job, StoredRows(job, level, lines, now, |lines|))
    ensures Messages(page) == Page(NonEmpty(lines), REPLAY_LIMIT, 0)
    ensures forall i :: 0 <= i < |page| ==> page[i].level == level
  {
    var report := StoredRows(job, level, lines, now, |lines|);
    StoredRowsMeaning(job, level, lines, now, |lines|);
    assert lines[..|lines|] == lines;
    PageOfReport(page, logs, job, report);
    MessagesOfPage(report, REPLAY_LIMIT);
    PageIsPrefix(page, report);
  }

  /** Reading back the log of one finished job gives exactly the non-empty lines of its output whose
      append succeeded, in order, up to ten thousand. */
  lemma ReplayGivesOutput(page: seq<LogLine>, logs: seq<LogLine>, job: Uuid, level: string, output: string, now: int,
                          lost: set<nat>)
    requires now > 0
    requires HoldsReport(logs, job, StoredRows(job, level, Kept(Lines(output), lost), now, |Lines(output)|))
    requires IsOldestOf(page, logs, job, 0, 10_000)
    ensures ShowsFirst(page, NonEmpty(Kept(Lines(output), lost)))
    ensures lost == {} ==> ShowsFirst(page, NonEmpty(Lines(output)))
    ensures forall i :: 0 <= i < |page| ==> page[i].level == level
  {
    OldestIsReplayPage(page, logs, job);
    PageOfOutput(page, logs, job, level, Kept(Lines(output), lost), now);
    PageShowsFirst(page, NonEmpty(Kept(Lines(output), lost)));
    NothingLost(Lines(output));
  }

  lemma ReplayWithEmptyFirst(page: seq<LogLine>, logs: seq<LogLine>, job: Uuid, level: string, lines: seq<string>)
    requires lines != [] && lines[0] == ""
    requires HoldsReport(logs, job, StoredRows(job, level, lines, 0, |lines|))
    requires IsReplayPage(page, logs, job, 0, REPLAY_LIMIT)
    ensures Messages(page) == Page(NonEmpty(lines[1..]), REPLAY_LIMIT, 0)
  {
    var report := StoredRows(job, level, lines, 0, |lines|);
    StoredRowsMeaning(job, level, lines, 0, |lines|);
    assert lines[..|lines|] == lines;
    PageOfReport(page, logs, job, report);
    MessagesOfPage(report, REPLAY_LIMIT);
  }

  lemma ReportWithoutFirst(job: Uuid, level: string, lines: seq<string>, report: seq<LogLine>)
    requires lines != [] && lines[0] != "" && report == StoredRows(job, level, lines, 0, |lines|)
    ensures report != [] && !Wanted(report[0], job, 0) && StrictlyOldestFirst(report)
    ensures forall x :: x in report[1..] ==> Wanted(x, job, 0)
    ensures Messages(report[1..]) == NonEmpty(lines[1..])
  {
    StoredRowsMeaning(job, level, lines, 0, |lines|);
    assert lines[..|lines|] == lines;
    FirstIsAtZero(job, level, lines, report);
    assert Messages(report[1..]) == Messages(report)[1..];
  }

  lemma ReplayWithoutFirst(page: seq<LogLine>, logs: seq<LogLine>, job: Uuid, level: string, lines: seq<string>)
    requires lines != [] && lines[0] != ""
    requires HoldsReport(logs, job, StoredRows(job, level, lines, 0, |lines|))
    requires IsReplayPage(page, logs, job, 0, REPLAY_LIMIT)
    ensures Messages(page) == Page(NonEmpty(lines[1..]), REPLAY_LIMIT, 0)
  {
    var report := StoredRows(job, level, lines, 0, |lines|);
    ReportWithoutFirst(job, level, lines, report);
    PageWithoutFirst(page, logs, job, report);
    MessagesOfPage(report[1..], REPLAY_LIMIT);
  }

  /** At time zero the query's strict bound drops the first line, unless it is empty or lost. */
  lemma ReplayAtTimeZero(page: seq<LogLine>, logs: seq<LogLine>, job: Uuid, level: string, output: string,
                         lost: set<nat>)
    requires output != ""
    requires HoldsReport(logs, job, StoredRows(job, level, Kept(Lines(output), lost), 0, |Lines(output)|))
    requires IsOldestOf(page, logs, job, 0, 10_000)
    ensures ShowsFirst(page, NonEmpty(Kept(Lines(output), lost)[1..]))
  {
    var lines := Kept(Lines(output), lost);
    OldestIsReplayPage(page, logs, job);
    if lines[0] == "" {
      ReplayWithEmptyFirst(page, logs, job, level, lines);
    } else {
      ReplayWithoutFirst(page, logs, job, level, lines);
    }
    PageShowsFirst(page, NonEmpty(lines[1..]));
  }

  /** Of a report made at time zero that begins with a line, only that line stands at time zero. */
  lemma FirstIsAtZero(job: Uuid, level: string, lines: seq<string>, report: seq<LogLine>)
    requires lines != [] && lines[0] != "" && report == StoredRows(job, level, lines, 0, |lines|)
    ensures report != [] && report[0].timestampMs == 0
    ensures forall x :: x in report[1..] ==> Wanted(x, job, 0)
  {
    StoredRowsMeaning(job, level, lines, 0, |lines|);
    FirstRow(job, level, lines, 0, |lines|);
    forall x | x in report[1..]
      ensures Wanted(x, job, 0)
    {
      var i :| 0 <= i < |report[1..]| && report[1..][i] == x;
      assert report[0].timestampMs < report[i + 1].timestampMs && report[i + 1] in report;
    }
  }

  lemma {:induction false} FirstRow(job: Uuid, level: string, lines: seq<string>, now: int, n: nat)
    requires 0 < n <= |lines| && lines[0] != ""
    ensures StoredRows(job, level, lines, now, n) != []
    ensures StoredRows(job, level, lines, now, n)[0] == LogLine(job, now, level, lines[0])
  {
    if n > 1 {
      FirstRow(job, level, lines, now, n - 1);
    } else {
      assert StoredRows(job, level, lines, now, 0) == [];
    }
  }
}
