/** The query loop: each input line is filtered, split into a command, a
    resource id and a date, and dispatched; the replies are collected in input
    order. An unsupported command aborts the whole run. */
module Queries {
  import opened Results
  import opened Resources
  import opened Bookings
  import opened Booker
  import opened Lines

  // ---------------------------------------------------------------------------
  // Splitting a line into whitespace-separated tokens

  /** The characters `std::isspace` accepts in the "C" locale. */
  predicate IsSpace(c: char)
  {
    c == ' ' || c == '\t' || c == '\n' || c == '\U{000B}' || c == '\U{000C}' || c == '\r'
  }

  predicate AllSpace(s: string)
  {
    forall i :: 0 <= i < |s| ==> IsSpace(s[i])
  }

  predicate NoSpace(s: string)
  {
    forall i :: 0 <= i < |s| ==> !IsSpace(s[i])
  }

  /** The end of the run of whitespace starting at `i`. */
  function SpaceRun(s: string, i: nat): (j: nat)
    requires i <= |s|
    ensures i <= j <= |s|
    ensures forall k :: i <= k < j ==> IsSpace(s[k])
    ensures j == |s| || !IsSpace(s[j])
    decreases |s| - i
  {
    if i < |s| && IsSpace(s[i]) then SpaceRun(s, i + 1) else i
  }

  /** The end of the run of non-whitespace starting at `i`. */
  function WordRun(s: string, i: nat): (j: nat)
    requires i <= |s|
    ensures i <= j <= |s|
    ensures forall k :: i <= k < j ==> !IsSpace(s[k])
    ensures j == |s| || IsSpace(s[j])
    decreases |s| - i
  {
    if i < |s| && !IsSpace(s[i]) then WordRun(s, i + 1) else i
  }

  /** One `>>` extraction into a string from read position `pos`: skip
      whitespace, then read up to the next whitespace. Gives the token (empty
      when only whitespace was left) and the new read position. */
  function Extract(s: string, pos: nat): (r: (string, nat))
    requires pos <= |s|
    ensures pos <= r.1 <= |s| && |r.0| <= r.1 - pos
    ensures r.0 == s[r.1 - |r.0|..r.1]
    ensures forall k :: pos <= k < r.1 - |r.0| ==> IsSpace(s[k])
    ensures NoSpace(r.0)
    ensures r.1 == |s| || IsSpace(s[r.1])
    ensures r.0 == [] ==> r.1 == |s|
  {
    var start := SpaceRun(s, pos);
    var end := WordRun(s, start);
    (s[start..end], end)
  }

  lemma {:induction false} SpaceRunEnds(s: string, pos: nat, a: nat)
    requires pos <= a <= |s|
    requires forall k :: pos <= k < a ==> IsSpace(s[k])
    requires a == |s| || !IsSpace(s[a])
    ensures SpaceRun(s, pos) == a
    decreases a - pos
  {
    if pos < a {
      SpaceRunEnds(s, pos + 1, a);
    }
  }

  lemma {:induction false} WordRunEnds(s: string, pos: nat, b: nat)
    requires pos <= b <= |s|
    requires forall k :: pos <= k < b ==> !IsSpace(s[k])
    requires b == |s| || IsSpace(s[b])
    ensures WordRun(s, pos) == b
    decreases b - pos
  {
    if pos < b {
      WordRunEnds(s, pos + 1, b);
    }
  }

  /** Extraction finds the token that follows a run of whitespace. */
  lemma ExtractToken(s: string, pos: nat, a: nat, b: nat)
    requires pos <= a < b <= |s|
    requires forall k :: pos <= k < a ==> IsSpace(s[k])
    requires forall k :: a <= k < b ==> !IsSpace(s[k])
    requires b == |s| || IsSpace(s[b])
    ensures Extract(s, pos) == (s[a..b], b)
  {
    SpaceRunEnds(s, pos, a);
    WordRunEnds(s, a, b);
  }

  /** Extraction from a position followed only by whitespace finds nothing. */
  lemma ExtractBlank(s: string, pos: nat)
    requires pos <= |s|
    requires forall k :: pos <= k < |s| ==> IsSpace(s[k])
    ensures Extract(s, pos) == ([], |s|)
  {
  }

  /** A query line split into its first three tokens; missing ones are empty. */
  datatype Query = Query(command: string, id: string, date: string)

  function Parse(line: string): (q: Query)
    ensures NoSpace(q.command) && NoSpace(q.id) && NoSpace(q.date)
    ensures q.command == [] ==> q.id == []
    ensures q.id == [] ==> q.date == []
  {
    var (command, p1) := Extract(line, 0);
    var (id, p2) := Extract(line, p1);
    var (date, _) := Extract(line, p2);
    Query(command, id, date)
  }

  lemma {:induction false} RunsShift(u: string, v: string, i: nat)
    requires i <= |v|
    ensures SpaceRun(u + v, |u| + i) == |u| + SpaceRun(v, i)
    ensures WordRun(u + v, |u| + i) == |u| + WordRun(v, i)
    decreases |v| - i
  {
    if i < |v| {
      assert (u + v)[|u| + i] == v[i];
      RunsShift(u, v, i + 1);
    }
  }

  /** A slice behind a prefix is the same slice of what follows it. */
  lemma SliceShift(u: string, v: string, a: nat, b: nat)
    requires a <= b <= |v|
    ensures (u + v)[|u| + a..|u| + b] == v[a..b]
  {
    forall k | 0 <= k < b - a
      ensures (u + v)[|u| + a..|u| + b][k] == v[a..b][k]
    {
      assert (u + v)[|u| + a + k] == v[a + k];
    }
  }

  /** Reading after a prefix is reading the rest on its own. */
  lemma ExtractShift(u: string, v: string, i: nat)
    requires i <= |v|
    ensures Extract(u + v, |u| + i) == (Extract(v, i).0, |u| + Extract(v, i).1)
  {
    RunsShift(u, v, i);
    var start := SpaceRun(v, i);
    RunsShift(u, v, start);
    var end := WordRun(v, start);
    SliceShift(u, v, start, end);
  }

  /** Whitespace, a token, then nothing or whitespace: the token is read and
      extraction stops right after it. */
  lemma ExtractAfterSpace(ws: string, w: string, rest: string)
    requires AllSpace(ws) && NoSpace(w) && w != []
    requires rest == [] || IsSpace(rest[0])
    ensures Extract(ws + w + rest, 0) == (w, |ws| + |w|)
  {
    var s := ws + w + rest;
    var a, b := |ws|, |ws| + |w|;
    forall k | 0 <= k < a
      ensures IsSpace(s[k])
    {
      assert s[k] == ws[k];
    }
    forall k | a <= k < b
      ensures !IsSpace(s[k])
    {
      assert s[k] == w[k - a];
    }
    assert b < |s| ==> s[b] == rest[0];
    assert s[a..b] == w;
    ExtractToken(s, 0, a, b);
  }

  /** After a prefix, whitespace, a token, then nothing or whitespace: the
      token is read next. */
  lemma ExtractNext(u: string, ws: string, w: string, rest: string)
    requires AllSpace(ws) && NoSpace(w) && w != []
    requires rest == [] || IsSpace(rest[0])
    ensures Extract(u + (ws + w + rest), |u|) == (w, |u| + |ws| + |w|)
  {
    var v := ws + w + rest;
    var s := u + v;
    var a, b := |u| + |ws|, |u| + |ws| + |w|;
    forall k | |u| <= k < a
      ensures IsSpace(s[k])
    {
      assert s[k] == v[k - |u|] == ws[k - |u|];
    }
    forall k | a <= k < b
      ensures !IsSpace(s[k])
    {
      assert s[k] == v[k - |u|] == w[k - a];
    }
    assert b < |s| ==> s[b] == rest[0];
    assert s[a..b] == w;
    ExtractToken(s, |u|, a, b);
  }

  /** Only whitespace after a prefix: extraction there reads nothing. */
  lemma ExtractBlankAfter(u: string, t: string)
    requires AllSpace(t)
    ensures Extract(u + t, |u|) == ([], |u| + |t|)
  {
    ExtractBlank(t, 0);
    ExtractShift(u, t, 0);
  }

  /** Regrouping a concatenation of four pieces after a prefix. */
  lemma Regroup3(x: string, a: string, b: string, c: string)
    ensures ((x + a) + b) + c == x + ((a + b) + c)
  {
  }

  /** Regrouping a concatenation of six pieces after a prefix. */
  lemma Regroup5(x: string, a: string, b: string, c: string, d: string, e: string)
    ensures ((((x + a) + b) + c) + d) + e == x + ((((a + b) + c) + d) + e)
  {
    Regroup3(x, a, b, c);
    Regroup3(x, (a + b) + c, d, e);
    Regroup3(a, b, c, d + e);
    Regroup3(a + b, c, d, e);
  }

  /** Three tokens, each preceded by a run of whitespace (the first run may be
      empty) and followed by nothing or whitespace, parse back to those three
      tokens: `>>` reads the first three whitespace-separated words. */
  lemma ParseRoundTrip(w0: string, command: string, s1: string, id: string, s2: string, date: string, tail: string)
    requires AllSpace(w0) && AllSpace(s1) && AllSpace(s2) && s1 != [] && s2 != []
    requires NoSpace(command) && NoSpace(id) && NoSpace(date)
    requires command != [] && id != [] && date != []
    requires tail == [] || IsSpace(tail[0])
    ensures Parse(w0 + command + s1 + id + s2 + date + tail) == Query(command, id, date)
  {
    var line := w0 + command + s1 + id + s2 + date + tail;
    var p1 := w0 + command;
    var p2 := p1 + s1 + id;
    var r2 := s2 + date + tail;
    var r1 := s1 + id + s2 + date + tail;
    assert line == p1 + r1 by {
      Regroup5(p1, s1, id, s2, date, tail);
    }
    assert line == p2 + r2 by {
      Regroup3(p2, s2, date, tail);
    }
    assert r1 == s1 + id + r2 by {
      Regroup3(s1 + id, s2, date, tail);
    }
    assert Extract(line, 0) == (command, |p1|) by {
      ExtractAfterSpace(w0, command, r1);
    }
    assert Extract(line, |p1|) == (id, |p2|) by {
      ExtractNext(p1, s1, id, r2);
    }
    assert Extract(line, |p2|).0 == date by {
      ExtractNext(p2, s2, date, tail);
    }
  }

  /** A line of one token, with any whitespace around it, leaves the id and
      the date empty. */
  lemma ParseOne(w0: string, command: string, tail: string)
    requires AllSpace(w0) && AllSpace(tail) && NoSpace(command) && command != []
    ensures Parse(w0 + command + tail) == Query(command, [], [])
  {
    var p1 := w0 + command;
    assert tail == [] || IsSpace(tail[0]);
    ExtractAfterSpace(w0, command, tail);
    ExtractBlankAfter(p1, tail);
  }

  /** A line of two tokens, with any whitespace around and between them,
      leaves the date empty. */
  lemma ParseTwo(w0: string, command: string, s1: string, id: string, tail: string)
    requires AllSpace(w0) && AllSpace(s1) && AllSpace(tail) && s1 != []
    requires NoSpace(command) && NoSpace(id) && command != [] && id != []
    ensures Parse(w0 + command + s1 + id + tail) == Query(command, id, [])
  {
    var r1 := s1 + id + tail;
    var p1 := w0 + command;
    var p2 := p1 + s1 + id;
    var line := w0 + command + s1 + id + tail;
    assert line == p1 + r1 by { Regroup3(p1, s1, id, tail); }
    assert tail == [] || IsSpace(tail[0]);
    ExtractAfterSpace(w0, command, r1);
    ExtractNext(p1, s1, id, tail);
    ExtractBlankAfter(p2, tail);
  }

  /** A whitespace-only line has an empty command. */
  lemma ParseBlank(line: string)
    requires AllSpace(line)
    ensures Parse(line) == Query([], [], [])
  {
    ExtractBlank(line, 0);
  }

  // ---------------------------------------------------------------------------
  // Dispatch

  datatype QueryError = UnsupportedCommand(command: string)

  predicate IsCommand(command: string)
  {
    command == "book" || command == "is_booked" || command == "is_all_booked" || command == "is_available"
  }

  /** Runs one parsed query against the ledger. */
  function Execute(h: Hierarchy, l: Ledger, q: Query): (r: Result<Step, QueryError>)
    requires WellFormed(h)
    ensures r.Success? <==> IsCommand(q.command)
    ensures r.Failure? ==> r.error == UnsupportedCommand(q.command)
    ensures r.Success? ==> Grows(l, r.value.ledger)
    ensures r.Success? && q.command != "book" ==> r.value.ledger == l
    ensures r.Success? && q.command == "book" ==> r.value == Book(h, l, q.id, q.date)
    ensures r.Success? && q.command == "is_booked" ==> r.value == Step(l, IsBooked(l, q.id, q.date))
    ensures r.Success? && q.command == "is_all_booked" ==> r.value == Step(l, IsAllBooked(h, l, q.id, q.date))
    ensures r.Success? && q.command == "is_available" ==> r.value == Step(l, IsAvailable(h, l, q.id, q.date))
  {
    if q.command == "book" then
      BookGrows(h, l, q.id, q.date);
      Success(Book(h, l, q.id, q.date))
    else if q.command == "is_booked" then Success(Step(l, IsBooked(l, q.id, q.date)))
    else if q.command == "is_all_booked" then Success(Step(l, IsAllBooked(h, l, q.id, q.date)))
    else if q.command == "is_available" then Success(Step(l, IsAvailable(h, l, q.id, q.date)))
    else Failure(UnsupportedCommand(q.command))
  }

  // ---------------------------------------------------------------------------
  // The line loop

  /** Empty lines and lines whose first character is `#` are skipped. */
  predicate Ignored(line: string)
  {
    |line| == 0 || line[0] == '#'
  }

  /** The positions of the lines that are not skipped. */
  ghost function KeptAt(lines: seq<string>): set<int>
  {
    set i | 0 <= i < |lines| && !Ignored(lines[i])
  }

  /** The lines that produce a reply, in order. */
  function Kept(lines: seq<string>): (kept: seq<string>)
    ensures |kept| <= |lines|
    ensures forall line :: line in kept <==> line in lines && !Ignored(line)
  {
    if lines == [] then []
    else (if Ignored(lines[0]) then [] else [lines[0]]) + Kept(lines[1..])
  }

  /** Filtering a concatenation filters each part. */
  lemma {:induction false} KeptAppend(a: seq<string>, b: seq<string>)
    ensures Kept(a + b) == Kept(a) + Kept(b)
    decreases |a|
  {
    if a == [] {
      assert a + b == b;
    } else {
      assert (a + b)[0] == a[0];
      assert (a + b)[1..] == a[1..] + b;
      KeptAppend(a[1..], b);
    }
  }

  /** One reply per line that is not skipped: as many kept lines as
      positions of unskipped lines. */
  lemma {:induction false} KeptCount(lines: seq<string>)
    ensures |Kept(lines)| == |KeptAt(lines)|
    decreases |lines|
  {
    if lines != [] {
      var n := |lines| - 1;
      var init := lines[..n];
      assert Kept(lines) == Kept(init) + Kept([lines[n]]) by {
        assert lines == init + [lines[n]];
        KeptAppend(init, [lines[n]]);
      }
      KeptCount(init);
      KeptAtLast(lines);
    }
  }

  /** The kept positions of a batch are those of all but its last line,
      plus the last position when that line is kept. */
  lemma KeptAtLast(lines: seq<string>)
    requires lines != []
    ensures var n := |lines| - 1;
      |KeptAt(lines)| == |KeptAt(lines[..n])| + (if Ignored(lines[n]) then 0 else 1)
  {
    var n := |lines| - 1;
    var init := lines[..n];
    var last: set<int> := if Ignored(lines[n]) then {} else {n};
    forall i | i in KeptAt(lines)
      ensures i in KeptAt(init) + last
    {
      if i < n {
        assert init[i] == lines[i];
      }
    }
    assert KeptAt(lines) == KeptAt(init) + last;
    assert n !in KeptAt(init);
  }

  /** A line that is skipped or carries a supported command. */
  predicate LineSupported(line: string)
  {
    !Ignored(line) ==> IsCommand(Parse(line).command)
  }

  /** A line that is skipped or does not ask to book. */
  predicate LineReadOnly(line: string)
  {
    !Ignored(line) ==> Parse(line).command != "book"
  }

  /** Every line that is not skipped carries a supported command. */
  ghost predicate AllSupported(lines: seq<string>)
  {
    All(lines, LineSupported)
  }

  /** No line that is kept asks to book. */
  ghost predicate ReadOnly(lines: seq<string>)
  {
    All(lines, LineReadOnly)
  }

  /** The index of the first line that is kept and has an unsupported command. */
  ghost function FirstBad(lines: seq<string>): (i: nat)
    requires !AllSupported(lines)
    ensures FirstFailing(lines, LineSupported, i)
    ensures i < |lines| && !Ignored(lines[i]) && !IsCommand(Parse(lines[i]).command)
  {
    FirstFailure(lines, LineSupported)
  }

  /** Replies so far and the ledger they leave. */
  datatype Run = Run(results: seq<Reply>, ledger: Ledger)

  /** One line: skipped, answered, or the error that ends the run. */
  function ProcessLine(h: Hierarchy, l: Ledger, line: string): (r: Result<Run, QueryError>)
    requires WellFormed(h)
    ensures Ignored(line) ==> r == Success(Run([], l))
    ensures !Ignored(line) ==> (r.Success? <==> IsCommand(Parse(line).command))
    ensures r.Success? && !Ignored(line) ==> |r.value.results| == 1
    ensures r.Failure? ==> r.error == UnsupportedCommand(Parse(line).command)
    ensures r.Success? ==> Grows(l, r.value.ledger)
    ensures r.Success? && !Ignored(line) && Parse(line).command != "book" ==> r.value.ledger == l
    ensures r.Success? && !Ignored(line) ==>
      Execute(h, l, Parse(line)) == Success(Step(r.value.ledger, r.value.results[0]))
  {
    if Ignored(line) then Success(Run([], l))
    else
      match Execute(h, l, Parse(line))
      case Success(s) => Success(Run([s.reply], s.ledger))
      case Failure(e) => Failure(e)
  }

  lemma GrowsTransitive(l1: Ledger, l2: Ledger, l3: Ledger)
    requires Grows(l1, l2) && Grows(l2, l3)
    ensures Grows(l1, l3)
  {
  }

  /** Processes the lines in order, threading the ledger from one to the next. */
  function ProcessLines(h: Hierarchy, l: Ledger, lines: seq<string>): (r: Result<Run, QueryError>)
    requires WellFormed(h)
    ensures r.Success? <==> AllSupported(lines)
    ensures r.Success? ==> Grows(l, r.value.ledger)
    decreases |lines|
  {
    if lines == [] then Success(Run([], l))
    else
      var first := ProcessLine(h, l, lines[0]);
      ProcessStep(lines);
      match first
      case Failure(e) =>
        Failure(e)
      case Success(run1) =>
        var rest := ProcessLines(h, run1.ledger, lines[1..]);
        match rest
        case Failure(e) =>
          Failure(e)
        case Success(run2) =>
          GrowsTransitive(l, run1.ledger, run2.ledger);
          Success(Run(run1.results + run2.results, run2.ledger))
  }

  /** A run that fails names the command of the first offending line. */
  lemma {:induction false} ProcessLinesError(h: Hierarchy, l: Ledger, lines: seq<string>, i: nat)
    requires WellFormed(h)
    requires FirstFailing(lines, LineSupported, i)
    ensures ProcessLines(h, l, lines) == Failure(UnsupportedCommand(Parse(lines[i]).command))
    decreases |lines|
  {
    if i > 0 {
      FirstFailingShift(lines, LineSupported, i);
      var first := ProcessLine(h, l, lines[0]);
      ProcessLinesError(h, first.value.ledger, lines[1..], i - 1);
    }
  }

  /** A run that succeeds gives exactly one reply per kept line. */
  lemma {:induction false} ProcessLinesCount(h: Hierarchy, l: Ledger, lines: seq<string>)
    requires WellFormed(h)
    requires AllSupported(lines)
    ensures |ProcessLines(h, l, lines).value.results| == |Kept(lines)|
    decreases |lines|
  {
    if lines != [] {
      ProcessStep(lines);
      ProcessLinesUnfold(h, l, lines);
      var first := ProcessLine(h, l, lines[0]);
      ProcessLinesCount(h, first.value.ledger, lines[1..]);
    }
  }

  /** Lines without a `book` command leave the ledger as it was. */
  lemma {:induction false} ProcessLinesReadOnly(h: Hierarchy, l: Ledger, lines: seq<string>)
    requires WellFormed(h)
    requires AllSupported(lines) && ReadOnly(lines)
    ensures ProcessLines(h, l, lines).value.ledger == l
    decreases |lines|
  {
    if lines != [] {
      ProcessStep(lines);
      ProcessLinesUnfold(h, l, lines);
      var first := ProcessLine(h, l, lines[0]);
      ProcessLinesReadOnly(h, first.value.ledger, lines[1..]);
    }
  }

  /** Continuing a run with further lines, from the ledger it left. */
  function Then(h: Hierarchy, first: Result<Run, QueryError>, lines: seq<string>): Result<Run, QueryError>
    requires WellFormed(h)
  {
    match first
    case Failure(e) => Failure(e)
    case Success(run1) => Join(run1, ProcessLines(h, run1.ledger, lines))
  }

  /** The replies of a finished run put in front of the outcome of the next one. */
  function Join(run1: Run, next: Result<Run, QueryError>): Result<Run, QueryError>
  {
    match next
    case Failure(e) => Failure(e)
    case Success(run2) => Success(Run(run1.results + run2.results, run2.ledger))
  }

  /** Joining runs one by one is joining them all at once. */
  lemma JoinJoin(run1: Run, run2: Run, next: Result<Run, QueryError>)
    ensures Join(run1, Join(run2, next)) == Join(Run(run1.results + run2.results, run2.ledger), next)
  {
    if next.Success? {
      assert run1.results + (run2.results + next.value.results)
        == (run1.results + run2.results) + next.value.results;
    }
  }

  /** Putting a run's replies in front commutes with continuing the run. */
  lemma JoinThen(h: Hierarchy, run1: Run, rest: Result<Run, QueryError>, b: seq<string>)
    requires WellFormed(h)
    ensures Join(run1, Then(h, rest, b)) == Then(h, Join(run1, rest), b)
  {
    if rest.Success? {
      JoinJoin(run1, rest.value, ProcessLines(h, rest.value.ledger, b));
    }
  }

  /** One step of a run: the first line, then the rest from the ledger it left. */
  lemma ProcessLinesUnfold(h: Hierarchy, l: Ledger, lines: seq<string>)
    requires WellFormed(h) && lines != []
    ensures ProcessLines(h, l, lines) == Then(h, ProcessLine(h, l, lines[0]), lines[1..])
  {
  }

  /** Lines are processed strictly in input order: running `a + b` is running
      `a`, then running `b` against the ledger `a` left. */
  lemma {:induction false} ProcessLinesAppend(h: Hierarchy, l: Ledger, a: seq<string>, b: seq<string>)
    requires WellFormed(h)
    ensures ProcessLines(h, l, a + b) == Then(h, ProcessLines(h, l, a), b)
    decreases |a|
  {
    if a == [] {
      assert a + b == b;
      var tail := ProcessLines(h, l, b);
      if tail.Success? {
        assert [] + tail.value.results == tail.value.results;
      }
    } else {
      assert (a + b)[0] == a[0];
      assert (a + b)[1..] == a[1..] + b;
      var first := ProcessLine(h, l, a[0]);
      if first.Success? {
        ProcessLinesAppend(h, first.value.ledger, a[1..], b);
        AppendAfterFirst(h, l, a, b, first.value);
      }
    }
  }

  /** The step case: once the first line of `a` has run, the rest of `a`
      and then `b` run from the ledger it left. */
  lemma AppendAfterFirst(h: Hierarchy, l: Ledger, a: seq<string>, b: seq<string>, run1: Run)
    requires WellFormed(h) && a != []
    requires (a + b)[0] == a[0] && (a + b)[1..] == a[1..] + b
    requires ProcessLine(h, l, a[0]) == Success(run1)
    requires ProcessLines(h, run1.ledger, a[1..] + b) == Then(h, ProcessLines(h, run1.ledger, a[1..]), b)
    ensures ProcessLines(h, l, a + b) == Then(h, ProcessLines(h, l, a), b)
  {
    var rest := ProcessLines(h, run1.ledger, a[1..]);
    assert ProcessLines(h, l, a + b) == Join(run1, Then(h, rest, b)) by {
      ProcessLinesUnfold(h, l, a + b);
    }
    assert ProcessLines(h, l, a) == Join(run1, rest) by {
      ProcessLinesUnfold(h, l, a);
    }
    JoinThen(h, run1, rest, b);
  }

  /** A single line runs as that line. */
  lemma ProcessLinesSingle(h: Hierarchy, l: Ledger, line: string)
    requires WellFormed(h)
    ensures ProcessLines(h, l, [line]) == ProcessLine(h, l, line)
  {
    assert [line][1..] == [];
    ProcessLinesUnfold(h, l, [line]);
    var first := ProcessLine(h, l, line);
    if first.Success? {
      assert first.value.results + [] == first.value.results;
    }
  }

  /** Asking the same read-only question twice in a row gets the same answer
      twice and changes nothing. */
  lemma RepeatReadOnly(h: Hierarchy, l: Ledger, line: string)
    requires WellFormed(h)
    requires !Ignored(line) && IsCommand(Parse(line).command) && Parse(line).command != "book"
    ensures ProcessLines(h, l, [line, line]).Success?
    ensures ProcessLines(h, l, [line, line]).value.ledger == l
    ensures var rs := ProcessLines(h, l, [line, line]).value.results;
      |rs| == 2 && rs[0] == rs[1]
  {
    ProcessLinesAppend(h, l, [line], [line]);
    assert [line] + [line] == [line, line];
    ProcessLinesSingle(h, l, line);
  }

  /** The text of each reply, one per output line. */
  function Render(replies: seq<Reply>): (out: seq<string>)
    ensures |out| == |replies|
    ensures forall j :: 0 <= j < |replies| ==> out[j] == Text(replies[j])
  {
    seq(|replies|, j requires 0 <= j < |replies| => Text(replies[j]))
  }

  /** The written replies determine the replies. */
  lemma RenderInjective(a: seq<Reply>, b: seq<Reply>)
    requires Render(a) == Render(b)
    ensures a == b
  {
    forall j | 0 <= j < |a|
      ensures a[j] == b[j]
    {
      assert Render(a)[j] == Render(b)[j];
      TextInjective(a[j], b[j]);
    }
  }

  /** The whole run over a query file's lines, starting from an empty ledger:
      one output token per kept line, or the error of the first unsupported
      command. */
  function ProcessQueries(h: Hierarchy, lines: seq<string>): (r: Result<seq<string>, QueryError>)
    requires WellFormed(h)
    ensures r.Success? <==> AllSupported(lines)
    ensures r.Success? ==> |r.value| == |Kept(lines)|
    ensures r.Failure? ==> r.error == UnsupportedCommand(Parse(lines[FirstBad(lines)]).command)
    ensures r.Success? ==> r.value == Render(ProcessLines(h, map[], lines).value.results)
  {
    match ProcessLines(h, map[], lines)
    case Success(run) =>
      ProcessLinesCount(h, map[], lines);
      Success(Render(run.results))
    case Failure(e) =>
      ProcessLinesError(h, map[], lines, FirstBad(lines));
      Failure(e)
  }

  /** How the predicates over lines split into the first line and the rest. */
  lemma ProcessStep(lines: seq<string>)
    requires lines != []
    ensures AllSupported(lines) <==> LineSupported(lines[0]) && AllSupported(lines[1..])
    ensures ReadOnly(lines) <==> LineReadOnly(lines[0]) && ReadOnly(lines[1..])
    ensures Kept(lines) == (if Ignored(lines[0]) then [] else [lines[0]]) + Kept(lines[1..])
  {
    AllShift(lines, LineSupported);
    AllShift(lines, LineReadOnly);
  }
}
