/**
 Size-bounded task listings with resumable offsets
 (crates/vibemux_a2a/src/task_runtime.rs, `list_tasks`).
 */
module Pagination {
  import opened Text
  import opened Contract
  import opened Options
  import opened Selections

  /** One stored task as a listing sees it: its owner and its current snapshot. */
  datatype Row = Row(subject: string, snapshot: TaskSnapshot)

  predicate Matches(row: Row, subject: string, request: TaskListRequest)
  {
    && row.subject == subject
    && (request.contextId.Some? ==> request.contextId.value == row.snapshot.contextId)
    && (request.state.Some? ==> request.state.value == row.snapshot.state)
  }

  function View(snapshot: TaskSnapshot, request: TaskListRequest): TaskSnapshot
  {
    if request.includeArtifacts then snapshot else snapshot.(artifacts := [])
  }

  /** The listed form of every matching task, in map order. */
  function Views(rows: seq<Row>, subject: string, request: TaskListRequest): (views: seq<TaskSnapshot>)
    ensures |views| <= |rows|
  {
    if rows == [] then []
    else
      var last := |rows| - 1;
      var before := Views(rows[..last], subject, request);
      if Matches(rows[last], subject, request) then before + [View(rows[last].snapshot, request)]
      else before
  }

  // -- Which tasks a listing holds -------------------------------------------------------------

  /** The positions of the caller's tasks, in the context and the state that were asked for. */
  ghost function Chosen(rows: seq<Row>, subject: string, request: TaskListRequest): set<nat>
  {
    set i: nat | && i < |rows| && rows[i].subject == subject
                 && (request.contextId == None || request.contextId == Some(rows[i].snapshot.contextId))
                 && (request.state == None || request.state == Some(rows[i].snapshot.state))
  }

  /** A stored snapshot as it is listed: without its artifacts unless they were asked for. */
  predicate Shows(stored: TaskSnapshot, request: TaskListRequest, listed: TaskSnapshot)
  {
    && listed.taskId == stored.taskId && listed.contextId == stored.contextId
    && listed.state == stored.state && listed.errorCode == stored.errorCode
    && listed.artifacts == if request.includeArtifacts then stored.artifacts else []
  }

  /** These are the tasks to list, in the order of the rows: exactly the chosen ones, as they are
      stored. */
  ghost predicate Lists(rows: seq<Row>, subject: string, request: TaskListRequest, tasks: seq<TaskSnapshot>)
  {
    exists picked: seq<nat> :: Selects(picked, Chosen(rows, subject, request)) && ShowsAll(rows, request, picked, tasks)
  }

  ghost predicate ShowsAll(rows: seq<Row>, request: TaskListRequest, picked: seq<nat>, tasks: seq<TaskSnapshot>)
  {
    && |tasks| == |picked|
    && forall i :: 0 <= i < |picked| ==> picked[i] < |rows| && Shows(rows[picked[i]].snapshot, request, tasks[i])
  }

  lemma {:induction false} ViewsAreChosen(rows: seq<Row>, subject: string, request: TaskListRequest)
    returns (picked: seq<nat>)
    ensures Selects(picked, Chosen(rows, subject, request))
    ensures ShowsAll(rows, request, picked, Views(rows, subject, request))
  {
    hide Selects, Shows;
    var chosen := Chosen(rows, subject, request);
    if rows == [] {
      SelectsNothing();
      assert chosen == {};
      picked := [];
    } else {
      var last := |rows| - 1;
      var front := rows[..last];
      var earlier := ViewsAreChosen(front, subject, request);
      if Matches(rows[last], subject, request) {
        SelectsOneMore(earlier, Chosen(front, subject, request), last);
        assert chosen == Chosen(front, subject, request) + {last};
        ViewShows(rows[last].snapshot, request);
        picked := earlier + [last];
      } else {
        assert chosen == Chosen(front, subject, request);
        picked := earlier;
      }
    }
  }

  lemma ViewShows(s: TaskSnapshot, request: TaskListRequest)
    ensures Shows(s, request, View(s, request))
  {
  }

  /** There is only one such list, and it is the one the listing is cut from. */
  lemma ListedIsViews(rows: seq<Row>, subject: string, request: TaskListRequest, tasks: seq<TaskSnapshot>)
    ensures Lists(rows, subject, request, tasks) <==> tasks == Views(rows, subject, request)
  {
    hide Selects, Views;
    var picked := ViewsAreChosen(rows, subject, request);
    var views := Views(rows, subject, request);
    if Lists(rows, subject, request, tasks) {
      var other: seq<nat> :| Selects(other, Chosen(rows, subject, request)) && ShowsAll(rows, request, other, tasks);
      SelectionIsUnique(picked, other, Chosen(rows, subject, request));
      assert forall i :: 0 <= i < |views| ==> tasks[i] == views[i];
    }
  }

  // -- Pages ----------------------------------------------------------------------------------

  /** The listing that holds views `from` to `to`. */
  function PageOf(views: seq<TaskSnapshot>, from: nat, to: nat): TaskList
    requires from <= to <= |views|
  {
    TaskList(views[from..to], TokenFor(to, |views|), |views|)
  }

  function TokenFor(next: nat, total: nat): Option<string>
  {
    if next < total then Some(Decimal(next)) else None
  }

  predicate Fits(codec: Codec, views: seq<TaskSnapshot>, from: nat, to: nat)
    requires from <= to <= |views|
  {
    ValidList(codec, PageOf(views, from, to))
  }

  predicate FitsAlone(codec: Codec, views: seq<TaskSnapshot>, i: nat)
    requires i < |views|
  {
    Fits(codec, views, i, i + 1)
  }

  function Offset(request: TaskListRequest): ParsedNumber
  {
    if request.pageToken.None? then Number(0) else ParseUsize(request.pageToken.value)
  }

  function Limit(views: seq<TaskSnapshot>, from: nat, request: TaskListRequest): (limit: nat)
    requires from <= |views|
    ensures from <= limit <= |views|
  {
    if from + request.pageSize <= |views| then from + request.pageSize else |views|
  }

  /** The end of the longest run of fitting pages that continues the page from `from` to `to`. */
  function PageEnd(codec: Codec, views: seq<TaskSnapshot>, from: nat, to: nat, limit: nat): (end: nat)
    requires from <= to <= limit <= |views|
    ensures to <= end <= limit
    decreases limit - to
  {
    if to < limit && Fits(codec, views, from, to + 1) then PageEnd(codec, views, from, to + 1, limit) else to
  }

  /** Every page up to that end fits, and the next one does not. */
  lemma {:induction false} PageEndFits(codec: Codec, views: seq<TaskSnapshot>, from: nat, to: nat, limit: nat)
    requires from <= to <= limit <= |views|
    ensures var end := PageEnd(codec, views, from, to, limit);
            && (forall k :: to < k <= end ==> Fits(codec, views, from, k))
            && (end < limit ==> !Fits(codec, views, from, end + 1))
    decreases limit - to
  {
    hide Fits;
    if to < limit && Fits(codec, views, from, to + 1) {
      PageEndFits(codec, views, from, to + 1, limit);
    }
  }

  /** What a page request is answered with. */
  function Listing(codec: Codec, views: seq<TaskSnapshot>, request: TaskListRequest): Result<TaskList>
  {
    match Offset(request)
    case NotANumber => Err(InvalidRequest)
    case Number(from) =>
      if from > |views| then Err(InvalidRequest)
      else
        var limit := Limit(views, from, request);
        var end := PageEnd(codec, views, from, from, limit);
        if end == from && from < limit then Err(Busy)
        else Ok(PageOf(views, from, end))
  }

  /** Stored snapshots are valid and a listing's total fits its field. The runtime keeps both. */
  ghost predicate Listable(codec: Codec, rows: seq<Row>)
  {
    |rows| <= MAX_I32 && forall i :: 0 <= i < |rows| ==> ValidSnapshot(codec, rows[i].snapshot)
  }

  ghost predicate AllValid(codec: Codec, views: seq<TaskSnapshot>)
  {
    forall i :: 0 <= i < |views| ==> ValidSnapshot(codec, views[i])
  }

  // -- Sizes ----------------------------------------------------------------------

  lemma {:induction false} ViewsAreValid(codec: Codec, rows: seq<Row>, subject: string, request: TaskListRequest)
    requires Listable(codec, rows)
    ensures AllValid(codec, Views(rows, subject, request))
  {
    if rows != [] {
      ViewsAreValid(codec, rows[..|rows| - 1], subject, request);
      var s := rows[|rows| - 1].snapshot;
      assert ValidSnapshot(codec, s);
      BareSnapshotIsValid(codec, s.(artifacts := []));
    }
  }

  lemma SnapshotHasSize(codec: Codec, s: TaskSnapshot)
    ensures SnapshotSize(codec, s) >= 70
  {
  }

  lemma {:induction false} LongerListIsLarger(codec: Codec, tasks: seq<TaskSnapshot>, k: nat)
    requires k < |tasks|
    ensures TasksSize(codec, tasks) >= TasksSize(codec, tasks[..k]) + 70
  {
    hide SnapshotSize;
    var last := |tasks| - 1;
    SnapshotHasSize(codec, tasks[last]);
    if k < last {
      LongerListIsLarger(codec, tasks[..last], k);
      assert tasks[..last][..k] == tasks[..k];
    }
  }

  lemma {:induction false} SuffixIsSmaller(codec: Codec, tasks: seq<TaskSnapshot>, k: nat)
    requires k <= |tasks|
    ensures TasksSize(codec, tasks[k..]) <= TasksSize(codec, tasks)
  {
    hide SnapshotSize;
    if k < |tasks| {
      var front, last := tasks[..|tasks| - 1], tasks[|tasks| - 1];
      SuffixIsSmaller(codec, front, k);
      var suffix := tasks[k..];
      assert suffix[..|suffix| - 1] == front[k..];
      assert suffix[|suffix| - 1] == last;
    }
  }

  lemma TokenIsShort(next: nat, total: nat)
    requires total <= MAX_I32
    ensures TokenFor(next, total).Some? ==> ValidToken(TokenFor(next, total).value)
    ensures 3 <= OptionalTextSize(TokenFor(next, total)) <= 12
  {
    if next < total {
      assert PowerOfTen(10) == 10_000_000_000;
      DecimalLength(next, 10, PowerOfTen(10));
      DigitsAreAscii(Decimal(next));
    }
  }

  lemma {:induction false} DigitsAreAscii(s: string)
    requires forall i :: 0 <= i < |s| ==> IsDigit(s[i])
    ensures Utf8Length(s) == |s| && '\0' !in s
  {
    if s != "" {
      DigitsAreAscii(s[..|s| - 1]);
    }
  }

  /** A page of valid tasks is valid exactly when it is short enough and small enough. */
  lemma FitsBySize(codec: Codec, views: seq<TaskSnapshot>, from: nat, to: nat)
    requires from <= to <= |views| <= MAX_I32 && AllValid(codec, views)
    ensures Fits(codec, views, from, to) <==>
            && to - from <= MAX_LISTED_TASKS
            && ListSize(codec, PageOf(views, from, to)) <= MAX_TASK_WIRE_BYTES / 2
  {
    TokenIsShort(to, |views|);
    var page := PageOf(views, from, to);
    forall i | 0 <= i < |page.tasks| ensures ValidSnapshot(codec, page.tasks[i]) {
      assert page.tasks[i] == views[from + i];
    }
  }

  /** The empty page past the last task is always valid. */
  lemma EmptyPageFits(codec: Codec, views: seq<TaskSnapshot>)
    requires |views| <= MAX_I32
    ensures Fits(codec, views, |views|, |views|)
  {
    assert PowerOfTen(10) == 10_000_000_000;
    DecimalLength(|views|, 10, PowerOfTen(10));
  }

  /** No longer page fits once one does not. */
  lemma LongerPageDoesNotFit(codec: Codec, views: seq<TaskSnapshot>, from: nat, short: nat, long: nat)
    requires from <= short <= long <= |views| <= MAX_I32 && AllValid(codec, views)
    requires !Fits(codec, views, from, short)
    ensures !Fits(codec, views, from, long)
  {
    hide Fits, AllValid, TasksSize, Decimal;
    if short < long {
      FitsBySize(codec, views, from, short);
      FitsBySize(codec, views, from, long);
      TokenIsShort(short, |views|);
      TokenIsShort(long, |views|);
      assert views[from..long][..short - from] == views[from..short];
      LongerListIsLarger(codec, views[from..long], short - from);
    }
  }

  /** A task that does not fit alone fits no page that ends with it. */
  lemma UnfitAloneIsUnfit(codec: Codec, views: seq<TaskSnapshot>, from: nat, at: nat)
    requires from <= at < |views| <= MAX_I32 && AllValid(codec, views)
    requires !FitsAlone(codec, views, at)
    ensures !Fits(codec, views, from, at + 1)
  {
    FitsBySize(codec, views, from, at + 1);
    FitsBySize(codec, views, at, at + 1);
    assert views[from..at + 1][at - from..] == views[at..at + 1];
    SuffixIsSmaller(codec, views[from..at + 1], at - from);
  }

  lemma SliceGrows<T>(s: seq<T>, from: nat, end: nat)
    requires from <= end < |s|
    ensures s[from..end] + [s[end]] == s[from..end + 1]
    ensures s[from..end + 1][..end - from] == s[from..end]
  {
  }

  // -- The page builder --------------------------------------------------------------

  method Collect(rows: seq<Row>, subject: string, request: TaskListRequest) returns (matching: seq<TaskSnapshot>)
    ensures matching == Views(rows, subject, request)
    ensures Lists(rows, subject, request, matching)
  {
    matching := [];
    for i := 0 to |rows|
      invariant matching == Views(rows[..i], subject, request)
    {
      assert rows[..i + 1][..i] == rows[..i];
      if Matches(rows[i], subject, request) {
        matching := matching + [View(rows[i].snapshot, request)];
      }
    }
    assert rows[..|rows|] == rows;
    ListedIsViews(rows, subject, request, matching);
  }

  /** `list_tasks`. Its last check never fails: a page it returns is valid, and Busy is its only
      refusal of a request whose token is an offset within the listing. */
  method ListTasks(codec: Codec, rows: seq<Row>, subject: string, request: TaskListRequest)
    returns (answer: Result<TaskList>)
    requires ValidListRequest(request) && Listable(codec, rows)
    ensures answer == Listing(codec, Views(rows, subject, request), request)
    ensures answer.Ok? ==> ValidList(codec, answer.value)
  {
    hide ValidList, Decimal;
    var matching := Collect(rows, subject, request);
    var parsed := Offset(request);
    if parsed.NotANumber? || parsed.value > |matching| {
      return Err(InvalidRequest);
    }
    var offset := parsed.value;
    var limit := Limit(matching, offset, request);
    var page, end := FillPage(codec, matching, offset, limit);
    if offset < limit && page.tasks == [] {
      return Err(Busy);
    }
    page := page.(nextPageToken := TokenFor(end, |matching|));
    assert page == PageOf(matching, offset, end);
    if offset == limit {
      EmptyPageFits(codec, matching);
    }
    if !ValidList(codec, page) {
      return Err(InvalidRequest);
    }
    answer := Ok(page);
  }

  /** The loop of `list_tasks`: it pushes one task at a time and takes back the first that makes
      the page invalid. */
  method FillPage(codec: Codec, matching: seq<TaskSnapshot>, offset: nat, limit: nat)
    returns (page: TaskList, end: nat)
    requires offset <= limit <= |matching|
    ensures end == PageEnd(codec, matching, offset, offset, limit)
    ensures page.tasks == matching[offset..end] && page.totalSize == |matching|
    ensures offset < end ==> Fits(codec, matching, offset, end)
  {
    hide ValidList, Decimal;
    page := TaskList([], None, |matching|);
    end := offset;
    while end < limit
      invariant offset <= end <= limit
      invariant page.tasks == matching[offset..end] && page.totalSize == |matching|
      invariant offset < end ==> Fits(codec, matching, offset, end)
      invariant PageEnd(codec, matching, offset, offset, limit) == PageEnd(codec, matching, offset, end, limit)
    {
      SliceGrows(matching, offset, end);
      page := page.(tasks := page.tasks + [matching[end]]);
      var next := end + 1;
      page := page.(nextPageToken := TokenFor(next, |matching|));
      if !ValidList(codec, page) {
        page := page.(tasks := page.tasks[..|page.tasks| - 1]);
        return;
      }
      end := next;
    }
  }

  /** Each page is the longest run of what is left that fits the request and the bound. */
  lemma PageIsLongest(codec: Codec, views: seq<TaskSnapshot>, request: TaskListRequest, from: nat, to: nat)
    requires |views| <= MAX_I32 && AllValid(codec, views)
    requires Offset(request) == Number(from) && from <= to <= |views| && to - from <= request.pageSize
    requires Fits(codec, views, from, to) && Listing(codec, views, request).Ok?
    ensures to - from <= |Listing(codec, views, request).value.tasks|
  {
    hide Fits, AllValid;
    var limit := Limit(views, from, request);
    var end := PageEnd(codec, views, from, from, limit);
    PageEndFits(codec, views, from, from, limit);
    if end < to {
      LongerPageDoesNotFit(codec, views, from, end + 1, to);
    }
  }

  // -- Following the tokens --------------------------------------------------------------

  /** What a caller has collected when the tokens end or an error is answered. */
  datatype Walk =
    | Complete(seen: seq<TaskSnapshot>)
    | Halted(error: TaskError, seen: seq<TaskSnapshot>)

  /** The caller sends `request`, then sends every next-page token back. */
  function Follow(codec: Codec, views: seq<TaskSnapshot>, request: TaskListRequest): Walk
    requires request.pageSize >= 1 && |views| <= MAX_I32
    decreases if Offset(request).Number? && Offset(request).value <= |views| then |views| - Offset(request).value else 0
  {
    match Listing(codec, views, request)
    case Err(error) => Halted(error, [])
    case Ok(page) =>
      if page.nextPageToken.None? then Complete(page.tasks)
      else
        TokenAdvances(codec, views, request);
        var rest := Follow(codec, views, request.(pageToken := page.nextPageToken));
        rest.(seen := page.tasks + rest.seen)
  }

  /** A page with a next token holds a task, and the token is the offset just past the page. */
  lemma TokenAdvances(codec: Codec, views: seq<TaskSnapshot>, request: TaskListRequest)
    requires request.pageSize >= 1 && |views| <= MAX_I32
    requires Listing(codec, views, request).Ok? && Listing(codec, views, request).value.nextPageToken.Some?
    ensures var page := Listing(codec, views, request).value;
            && |page.tasks| > 0
            && Offset(request.(pageToken := page.nextPageToken)) == Number(Offset(request).value + |page.tasks|)
            && Offset(request).value + |page.tasks| < |views|
  {
    var from := Offset(request).value;
    var end := PageEnd(codec, views, from, from, Limit(views, from, request));
    ParseDecimal(end);
  }

  /** Following the tokens one task at a time. */
  ghost function WalkFrom(codec: Codec, views: seq<TaskSnapshot>, from: nat): Walk
    requires from <= |views|
    decreases |views| - from
  {
    if from == |views| then Complete([])
    else if !FitsAlone(codec, views, from) then Halted(Busy, [])
    else
      var rest := WalkFrom(codec, views, from + 1);
      rest.(seen := [views[from]] + rest.seen)
  }

  lemma {:induction false} WalkSkips(codec: Codec, views: seq<TaskSnapshot>, from: nat, to: nat)
    requires from <= to <= |views|
    requires forall i :: from <= i < to ==> FitsAlone(codec, views, i)
    ensures WalkFrom(codec, views, from) ==
            WalkFrom(codec, views, to).(seen := views[from..to] + WalkFrom(codec, views, to).seen)
    decreases |views| - from
  {
    hide FitsAlone;
    if from < to {
      WalkSkips(codec, views, from + 1, to);
      assert views[from..to] == [views[from]] + views[from + 1..to];
    } else {
      assert views[from..to] == [];
    }
  }

  lemma {:induction false} FollowIsWalk(codec: Codec, views: seq<TaskSnapshot>, request: TaskListRequest, from: nat)
    requires request.pageSize >= 1 && |views| <= MAX_I32 && AllValid(codec, views)
    requires Offset(request) == Number(from) && from <= |views|
    ensures Follow(codec, views, request) == WalkFrom(codec, views, from)
    decreases |views| - from
  {
    hide ValidList, AllValid;
    var limit := Limit(views, from, request);
    var end := PageEnd(codec, views, from, from, limit);
    PageEndFits(codec, views, from, from, limit);
    forall i | from <= i < end ensures FitsAlone(codec, views, i) {
      if !FitsAlone(codec, views, i) {
        UnfitAloneIsUnfit(codec, views, from, i);
      }
    }
    WalkSkips(codec, views, from, end);
    if from < end < |views| {
      TokenAdvances(codec, views, request);
      FollowIsWalk(codec, views, request.(pageToken := TokenFor(end, |views|)), end);
    } else if end == |views| {
      assert views[from..end] + [] == views[from..end];
    }
  }

  lemma {:induction false} WalkOutcome(codec: Codec, views: seq<TaskSnapshot>, from: nat, stop: nat)
    requires from <= stop <= |views|
    requires forall i :: from <= i < stop ==> FitsAlone(codec, views, i)
    requires stop < |views| ==> !FitsAlone(codec, views, stop)
    ensures WalkFrom(codec, views, from) ==
            if stop == |views| then Complete(views[from..]) else Halted(Busy, views[from..stop])
    decreases |views| - from
  {
    hide FitsAlone;
    if from < stop {
      WalkOutcome(codec, views, from + 1, stop);
      assert views[from..stop] == [views[from]] + views[from + 1..stop];
      assert views[from..] == [views[from]] + views[from + 1..];
    }
  }

  /** What a page request is answered with. A token that is no offset within the listing is an
      invalid request. Otherwise the answer is Busy exactly if there is a next task and it does not
      fit alone. A page continues the list at the offset, holds at most as many tasks as were asked
      for, and some if any are left, tells how many there are in all, and has a token exactly if it
      does not reach the end. */
  lemma AnswerExactly(codec: Codec, rows: seq<Row>, subject: string, request: TaskListRequest, tasks: seq<TaskSnapshot>)
    requires ValidListRequest(request) && Listable(codec, rows) && Lists(rows, subject, request, tasks)
    ensures var answer, offset := Listing(codec, tasks, request), Offset(request);
            if offset.NotANumber? || offset.value > |tasks| then answer == Err(InvalidRequest)
            else if offset.value < |tasks| && !FitsAlone(codec, tasks, offset.value) then answer == Err(Busy)
            else && answer.Ok?
                 && (var page, from := answer.value, offset.value;
                     && from + |page.tasks| <= |tasks| && page.tasks == tasks[from..from + |page.tasks|]
                     && |page.tasks| <= request.pageSize && (page.tasks == [] ==> from == |tasks|)
                     && page.totalSize == |tasks|
                     && (page.nextPageToken.Some? <==> from + |page.tasks| < |tasks|)
                     && (page.nextPageToken.Some? ==>
                           ParseUsize(page.nextPageToken.value) == Number(from + |page.tasks|)))
  {
    hide Fits, ParseUsize, Decimal, Lists;
    if Offset(request).Number? && Offset(request).value <= |tasks| {
      var from := Offset(request).value;
      var limit := Limit(tasks, from, request);
      PageEndFits(codec, tasks, from, from, limit);
      var end := PageEnd(codec, tasks, from, from, limit);
      TotalIsSmall(codec, rows, subject, request, tasks);
      ParseDecimal(end);
    }
  }

  lemma TotalIsSmall(codec: Codec, rows: seq<Row>, subject: string, request: TaskListRequest, tasks: seq<TaskSnapshot>)
    requires Listable(codec, rows) && Lists(rows, subject, request, tasks)
    ensures |tasks| <= MAX_I32
  {
    hide Lists;
    ListedIsViews(rows, subject, request, tasks);
  }

  /** Pagination is a partition. With the stored tasks fixed, a caller who sends every token back
      ends up with every task of the listing exactly once and in order, if each of them fits a
      page of its own. Otherwise the caller is told Busy at the first task (`stop`) that does not,
      having seen exactly the tasks before it. */
  lemma PaginationIsAPartition(codec: Codec, rows: seq<Row>, subject: string, request: TaskListRequest,
                               tasks: seq<TaskSnapshot>, stop: nat)
    requires ValidListRequest(request) && request.pageToken.None? && Listable(codec, rows)
    requires Lists(rows, subject, request, tasks) && stop <= |tasks| <= MAX_I32
    requires forall i :: 0 <= i < stop ==> FitsAlone(codec, tasks, i)
    requires stop < |tasks| ==> !FitsAlone(codec, tasks, stop)
    ensures Follow(codec, tasks, request) == if stop == |tasks| then Complete(tasks) else Halted(Busy, tasks[..stop])
  {
    hide Lists;
    ListedIsViews(rows, subject, request, tasks);
    ViewsAreValid(codec, rows, subject, request);
    FollowIsWalk(codec, tasks, request, 0);
    WalkOutcome(codec, tasks, 0, stop);
    assert tasks[0..] == tasks;
  }

  /** How such a walk ends: with the whole list, or with Busy at a task that does not fit alone. */
  lemma WalkEnds(codec: Codec, rows: seq<Row>, subject: string, request: TaskListRequest, tasks: seq<TaskSnapshot>)
    requires ValidListRequest(request) && request.pageToken.None? && Listable(codec, rows)
    requires Lists(rows, subject, request, tasks)
    ensures |tasks| <= MAX_I32
    ensures var walk := Follow(codec, tasks, request);
            && (walk.Complete? ==> walk.seen == tasks)
            && (walk.Halted? ==>
                  && walk.error == Busy && |walk.seen| < |tasks| && walk.seen == tasks[..|walk.seen|]
                  && !FitsAlone(codec, tasks, |walk.seen|))
  {
    hide Lists, FitsAlone;
    TotalIsSmall(codec, rows, subject, request, tasks);
    var stop := FirstUnfit(codec, tasks, 0);
    PaginationIsAPartition(codec, rows, subject, request, tasks, stop);
  }

  lemma {:induction false} FirstUnfit(codec: Codec, tasks: seq<TaskSnapshot>, from: nat) returns (stop: nat)
    requires from <= |tasks|
    ensures from <= stop <= |tasks|
    ensures forall i :: from <= i < stop ==> FitsAlone(codec, tasks, i)
    ensures stop < |tasks| ==> !FitsAlone(codec, tasks, stop)
    decreases |tasks| - from
  {
    hide FitsAlone;
    if from == |tasks| || !FitsAlone(codec, tasks, from) {
      stop := from;
    } else {
      stop := FirstUnfit(codec, tasks, from + 1);
    }
  }
}
