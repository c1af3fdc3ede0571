/** Keyset pagination of the task list: following end cursors is reading one sorted list. */
module Paging {
  import opened Lifecycle
  import opened Cursor

  const MAX_INT32: int := 0x7fff_ffff
  const DEFAULT_PAGE_SIZE: int := 50

  datatype Task = Task(created: Time, id: Id, state: TaskState)

  // ---------------------------------------------------------------- the order

  function Key(t: Time, id: Id): seq<int> {
    [t.year, t.month, t.day, t.hour, t.minute, t.second, t.nanos] + id
  }

  function KeyOf(t: Task): seq<int> {
    Key(t.created, t.id)
  }

  /** Row comparison: field by field, the first difference decides. */
  predicate Less(a: seq<int>, b: seq<int>) {
    if a == [] || b == [] then a == [] && b != []
    else a[0] < b[0] || (a[0] == b[0] && Less(a[1..], b[1..]))
  }

  lemma {:induction false} LessIrreflexive(a: seq<int>)
    ensures !Less(a, a)
  {
    if a != [] {
      LessIrreflexive(a[1..]);
    }
  }

  lemma {:induction false} LessTransitive(a: seq<int>, b: seq<int>, c: seq<int>)
    requires Less(a, b) && Less(b, c)
    ensures Less(a, c)
    decreases |a|
  {
    if a != [] && a[0] == b[0] == c[0] {
      LessTransitive(a[1..], b[1..], c[1..]);
    }
  }

  lemma {:induction false} LessTotal(a: seq<int>, b: seq<int>)
    ensures a == b || Less(a, b) || Less(b, a)
  {
    if a != [] && b != [] && a[0] == b[0] {
      LessTotal(a[1..], b[1..]);
      assert a == [a[0]] + a[1..] && b == [b[0]] + b[1..];
    }
  }

  /** Newer first. */
  ghost predicate Descending(s: seq<Task>) {
    forall i, j :: 0 <= i < j < |s| ==> Less(KeyOf(s[j]), KeyOf(s[i]))
  }

  ghost predicate ValidTable(rows: seq<Task>) {
    && (forall i :: 0 <= i < |rows| ==> ValidTime(rows[i].created) && |rows[i].id| == 16)
    && (forall i, j :: 0 <= i < j < |rows| ==> rows[i].id != rows[j].id)
  }

  lemma DistinctKeys(a: Task, b: Task)
    requires a.id != b.id
    ensures KeyOf(a) != KeyOf(b)
  {
    assert KeyOf(a)[7..] == a.id && KeyOf(b)[7..] == b.id;
  }

  // ---------------------------------------------------------------- the query

  predicate Selected(t: Task, filter: Option<TaskState>, after: Option<seq<int>>) {
    (filter.None? || t.state == filter.value) && (after.None? || Less(KeyOf(t), after.value))
  }

  function Where(rows: seq<Task>, filter: Option<TaskState>, after: Option<seq<int>>): seq<Task> {
    if rows == [] then []
    else (if Selected(rows[0], filter, after) then [rows[0]] else []) + Where(rows[1..], filter, after)
  }

  function Insert(t: Task, s: seq<Task>): seq<Task> {
    if s == [] || Less(KeyOf(s[0]), KeyOf(t)) then [t] + s else [s[0]] + Insert(t, s[1..])
  }

  function OrderDescending(rows: seq<Task>): seq<Task> {
    if rows == [] then [] else Insert(rows[0], OrderDescending(rows[1..]))
  }

  function Limit(s: seq<Task>, n: nat): seq<Task> {
    if |s| <= n then s else s[..n]
  }

  /** The rows of one page query; a negative LIMIT is an error. */
  function ListTasks(rows: seq<Task>, filter: Option<TaskState>, after: Option<seq<int>>, lim: int): Option<seq<Task>> {
    if lim < 0 then None else Some(Limit(OrderDescending(Where(rows, filter, after)), lim))
  }

  lemma {:induction false} WhereExact(rows: seq<Task>, filter: Option<TaskState>, after: Option<seq<int>>)
    ensures forall t :: t in Where(rows, filter, after) <==> t in rows && Selected(t, filter, after)
  {
    if rows != [] {
      WhereExact(rows[1..], filter, after);
      assert rows == [rows[0]] + rows[1..];
    }
  }

  lemma {:induction false} WhereValid(rows: seq<Task>, filter: Option<TaskState>, after: Option<seq<int>>)
    requires ValidTable(rows)
    ensures ValidTable(Where(rows, filter, after))
  {
    if rows != [] {
      WhereValid(rows[1..], filter, after);
      WhereExact(rows[1..], filter, after);
      var rest := Where(rows[1..], filter, after);
      forall i | 0 <= i < |rest|
        ensures rest[i].id != rows[0].id
      {
        assert rest[i] in rows[1..];
      }
    }
  }

  lemma {:induction false} InsertExact(t: Task, s: seq<Task>)
    requires Descending(s) && forall i :: 0 <= i < |s| ==> KeyOf(s[i]) != KeyOf(t)
    ensures Descending(Insert(t, s)) && |Insert(t, s)| == |s| + 1
    ensures forall u :: u in Insert(t, s) <==> u == t || u in s
  {
    if s != [] {
      if Less(KeyOf(s[0]), KeyOf(t)) {
        forall i | 0 < i < |s|
          ensures Less(KeyOf(s[i]), KeyOf(t))
        {
          LessTransitive(KeyOf(s[i]), KeyOf(s[0]), KeyOf(t));
        }
      } else {
        InsertExact(t, s[1..]);
        LessTotal(KeyOf(s[0]), KeyOf(t));
        assert s == [s[0]] + s[1..];
        var rest := Insert(t, s[1..]);
        forall j | 0 <= j < |rest|
          ensures Less(KeyOf(rest[j]), KeyOf(s[0]))
        {
          assert rest[j] in rest;
        }
      }
    }
  }

  lemma {:induction false} OrderExact(rows: seq<Task>)
    requires ValidTable(rows)
    ensures Descending(OrderDescending(rows)) && |OrderDescending(rows)| == |rows|
    ensures forall t :: t in OrderDescending(rows) <==> t in rows
  {
    if rows != [] {
      OrderExact(rows[1..]);
      assert rows == [rows[0]] + rows[1..];
      var rest := OrderDescending(rows[1..]);
      forall i | 0 <= i < |rest|
        ensures KeyOf(rest[i]) != KeyOf(rows[0])
      {
        assert rest[i] in rows[1..];
        DistinctKeys(rest[i], rows[0]);
      }
      InsertExact(rows[0], rest);
    }
  }

  /** There is one way to list a set of tasks in descending order. */
  lemma {:induction false} DescendingUnique(a: seq<Task>, b: seq<Task>)
    requires Descending(a) && Descending(b) && forall t :: t in a <==> t in b
    ensures a == b
  {
    assert a != [] ==> a[0] in b;
    assert b != [] ==> b[0] in a;
    if a != [] {
      HeadIsNewest(a, b[0]);
      HeadIsNewest(b, a[0]);
      if a[0] != b[0] {
        LessTransitive(KeyOf(a[0]), KeyOf(b[0]), KeyOf(a[0]));
        LessIrreflexive(KeyOf(a[0]));
      }
      TailMembers(a);
      TailMembers(b);
      DescendingUnique(a[1..], b[1..]);
    }
  }

  lemma HeadIsNewest(s: seq<Task>, t: Task)
    requires Descending(s) && t in s
    ensures t == s[0] || Less(KeyOf(t), KeyOf(s[0]))
  {
  }

  lemma TailMembers(s: seq<Task>)
    requires Descending(s) && s != []
    ensures Descending(s[1..]) && forall t :: t in s[1..] <==> t in s && t != s[0]
  {
    LessIrreflexive(KeyOf(s[0]));
    assert s == [s[0]] + s[1..];
  }

  // ---------------------------------------------------------------- the plain list

  /** What paging is meant to deliver: every task of the filter, newest first. */
  function Full(rows: seq<Task>, filter: Option<TaskState>): seq<Task> {
    OrderDescending(Where(rows, filter, None))
  }

  lemma FullExact(rows: seq<Task>, filter: Option<TaskState>)
    requires ValidTable(rows)
    ensures Descending(Full(rows, filter))
    ensures forall t :: t in Full(rows, filter) <==> t in rows && (filter.None? || t.state == filter.value)
    ensures forall i :: 0 <= i < |Full(rows, filter)| ==> ValidTime(Full(rows, filter)[i].created) && |Full(rows, filter)[i].id| == 16
  {
    WhereExact(rows, filter, None);
    WhereValid(rows, filter, None);
    OrderExact(Where(rows, filter, None));
    forall i | 0 <= i < |Full(rows, filter)|
      ensures Full(rows, filter)[i] in rows
    {
      assert Full(rows, filter)[i] in Full(rows, filter);
    }
  }

  /** What comes after position k is what lies below its key. */
  lemma SuffixMembers(s: seq<Task>, k: nat)
    requires Descending(s) && k < |s|
    ensures Descending(s[k + 1..])
    ensures forall t :: t in s[k + 1..] <==> t in s && Less(KeyOf(t), KeyOf(s[k]))
  {
    forall t | t in s && Less(KeyOf(t), KeyOf(s[k]))
      ensures t in s[k + 1..]
    {
      var i :| 0 <= i < |s| && s[i] == t;
      LessIrreflexive(KeyOf(t));
      if i < k {
        LessTransitive(KeyOf(t), KeyOf(s[k]), KeyOf(t));
      }
      assert i > k;
      assert s[k + 1..][i - k - 1] == t;
    }
  }

  /** Filtering by the cursor before sorting cuts the sorted list off right behind the cursor's task. */
  lemma QueryIsSuffix(rows: seq<Task>, filter: Option<TaskState>, k: nat)
    requires ValidTable(rows) && k < |Full(rows, filter)|
    ensures OrderDescending(Where(rows, filter, Some(KeyOf(Full(rows, filter)[k])))) == Full(rows, filter)[k + 1..]
  {
    var full := Full(rows, filter);
    var after := Some(KeyOf(full[k]));
    FullExact(rows, filter);
    WhereExact(rows, filter, after);
    WhereValid(rows, filter, after);
    OrderExact(Where(rows, filter, after));
    SuffixMembers(full, k);
    DescendingUnique(OrderDescending(Where(rows, filter, after)), full[k + 1..]);
  }

  // ---------------------------------------------------------------- the resolver

  /** How positions are written into cursors and read back. */
  datatype Codec = Codec(encode: (Time, Id) -> string, decode: string -> Option<(Time, Id)>)

  datatype Reply = Failed | Page(nodes: seq<Task>, cursors: seq<string>, hasNext: bool)

  function EndCursor(page: Reply): Option<string>
    requires page.Page?
  {
    if page.cursors == [] then None else Some(page.cursors[|page.cursors| - 1])
  }

  /** The limit is passed to the database as a 32-bit integer. */
  function ToInt32(n: int): (r: int)
    ensures -0x8000_0000 <= r <= MAX_INT32 && (n - r) % 0x1_0000_0000 == 0
    ensures -0x8000_0000 <= n <= MAX_INT32 ==> r == n
  {
    (n + 0x8000_0000) % 0x1_0000_0000 - 0x8000_0000
  }

  function Cursors(c: Codec, nodes: seq<Task>): seq<string> {
    seq(|nodes|, i requires 0 <= i < |nodes| => c.encode(nodes[i].created, nodes[i].id))
  }

  /** The position a request continues from; None when the cursor cannot be read. */
  function Start(c: Codec, after: Option<string>): Option<Option<seq<int>>> {
    if after.None? || after.value == "" then Some(None)
    else match c.decode(after.value) case None => None case Some(p) => Some(Some(Key(p.0, p.1)))
  }

  function PageOf(c: Codec, rows: seq<Task>, limit: int, after: Option<string>, filter: Option<TaskState>): Reply {
    if limit <= 0 || Start(c, after).None? then Failed
    else
      match ListTasks(rows, filter, Start(c, after).value, ToInt32(limit + 1))
      case None => Failed
      case Some(found) => Page(Limit(found, limit), Cursors(c, Limit(found, limit)), |found| > limit)
  }

  /** Each task of the page with its cursor. */
  method Edges(c: Codec, page: seq<Task>) returns (nodes: seq<Task>, cursors: seq<string>)
    ensures nodes == page && cursors == Cursors(c, page)
  {
    nodes, cursors := [], [];
    for i := 0 to |page|
      invariant nodes == page[..i] && |cursors| == i
      invariant forall k :: 0 <= k < i ==> cursors[k] == c.encode(page[k].created, page[k].id)
    {
      nodes := nodes + [page[i]];
      cursors := cursors + [c.encode(page[i].created, page[i].id)];
    }
  }

  /** One page: one row more than asked for tells whether there is a next page. */
  method Tasks(c: Codec, rows: seq<Task>, first: Option<int>, after: Option<string>, filter: Option<TaskState>) returns (reply: Reply)
    ensures reply == PageOf(c, rows, if first.None? then 50 else first.value, after, filter)
  {
    var limit := DEFAULT_PAGE_SIZE;
    if first.Some? {
      if first.value <= 0 {
        return Failed;
      }
      limit := first.value;
    }
    var start := Start(c, after);
    if start.None? {
      return Failed;
    }
    var found := ListTasks(rows, filter, start.value, ToInt32(limit + 1));
    if found.None? {
      return Failed;
    }
    var page := found.value;
    var hasNext := |page| > limit;
    if hasNext {
      page := page[..limit];
    }
    var nodes, cursors := Edges(c, page);
    reply := Page(nodes, cursors, hasNext);
  }

  /** A page size that is not positive and a cursor that cannot be read fail; an empty cursor is none. */
  lemma RequestExact(c: Codec, rows: seq<Task>, limit: int, after: string, filter: Option<TaskState>)
    ensures limit <= 0 ==> PageOf(c, rows, limit, Some(after), filter) == Failed && PageOf(c, rows, limit, None, filter) == Failed
    ensures after != "" && c.decode(after).None? ==> PageOf(c, rows, limit, Some(after), filter) == Failed
    ensures after == "" ==> PageOf(c, rows, limit, Some(after), filter) == PageOf(c, rows, limit, None, filter)
  {
  }

  /** Days on a calendar with months of 31 days: it orders dates as time does. */
  function Day(t: Time): int {
    (t.year * 12 + t.month) * 31 + t.day
  }

  const DAY: int := 86_400_000_000_000

  /** Nanoseconds since midnight. */
  function Clock(t: Time): int {
    ((t.hour * 60 + t.minute) * 60 + t.second) * 1_000_000_000 + t.nanos
  }

  function Instant(t: Time): int {
    Day(t) * DAY + Clock(t)
  }

  /** The ids as bytes, the first difference decides. */
  ghost predicate IdBelow(a: Id, b: Id)
    requires |a| == |b|
  {
    exists i :: 0 <= i < |a| && a[i] < b[i] && forall j :: 0 <= j < i ==> a[j] == b[j]
  }

  lemma {:induction false} LessAtDifference(a: seq<int>, b: seq<int>, i: nat)
    requires i < |a| && i < |b| && a[i] != b[i] && forall j :: 0 <= j < i ==> a[j] == b[j]
    ensures Less(a, b) <==> a[i] < b[i]
    decreases i
  {
    if i > 0 {
      LessAtDifference(a[1..], b[1..], i - 1);
    }
  }

  lemma {:induction false} FirstDifference(a: seq<int>, b: seq<int>) returns (i: nat)
    requires |a| == |b| && a != b
    ensures i < |a| && a[i] != b[i] && forall j :: 0 <= j < i ==> a[j] == b[j]
    decreases |a|
  {
    i := 0;
    if a[0] == b[0] {
      assert a == [a[0]] + a[1..] && b == [b[0]] + b[1..];
      var k := FirstDifference(a[1..], b[1..]);
      i := k + 1;
    }
  }

  /** The row comparison is by creation time, and by id among tasks created at the same instant. */
  lemma LessExact(a: Task, b: Task)
    requires ValidTime(a.created) && ValidTime(b.created) && |a.id| == 16 && |b.id| == 16
    ensures Less(KeyOf(a), KeyOf(b)) <==>
      Instant(a.created) < Instant(b.created) || (a.created == b.created && IdBelow(a.id, b.id))
    ensures Instant(a.created) == Instant(b.created) ==> a.created == b.created
  {
    if KeyOf(a) == KeyOf(b) {
      SameKey(a, b);
    } else {
      var i := FirstDifference(KeyOf(a), KeyOf(b));
      LessAtDifference(KeyOf(a), KeyOf(b), i);
      if i < 7 {
        InstantDecides(a, b, i);
      } else {
        IdDecides(a, b, i);
      }
    }
  }

  lemma SameKey(a: Task, b: Task)
    requires KeyOf(a) == KeyOf(b) && |a.id| == 16 && |b.id| == 16
    ensures a.created == b.created && a.id == b.id && !Less(KeyOf(a), KeyOf(b)) && !IdBelow(a.id, b.id)
  {
    LessIrreflexive(KeyOf(a));
    var k := KeyOf(a);
    assert k[0] == a.created.year && k[1] == a.created.month && k[2] == a.created.day && k[3] == a.created.hour
      && k[4] == a.created.minute && k[5] == a.created.second && k[6] == a.created.nanos;
    assert k[7..] == a.id && KeyOf(b)[7..] == b.id;
  }

  lemma ClockOrder(t: Time, u: Time)
    requires ValidTime(t) && ValidTime(u)
    ensures 0 <= Clock(t) < DAY
    ensures Clock(t) < Clock(u) <==>
      || t.hour < u.hour
      || (t.hour == u.hour && (t.minute < u.minute
          || (t.minute == u.minute && (t.second < u.second || (t.second == u.second && t.nanos < u.nanos)))))
  {
  }

  lemma DayOrder(t: Time, u: Time)
    requires ValidTime(t) && ValidTime(u)
    ensures Day(t) < Day(u) <==>
      t.year < u.year || (t.year == u.year && (t.month < u.month || (t.month == u.month && t.day < u.day)))
  {
    assert 1 <= t.day <= 31 && 1 <= u.day <= 31;
  }

  lemma InstantOrder(t: Time, u: Time)
    requires ValidTime(t) && ValidTime(u)
    ensures Instant(t) < Instant(u) <==> Day(t) < Day(u) || (Day(t) == Day(u) && Clock(t) < Clock(u))
  {
    hide Day, Clock;
    ClockOrder(t, u);
    ClockOrder(u, t);
  }

  lemma InstantDecides(a: Task, b: Task, i: nat)
    requires ValidTime(a.created) && ValidTime(b.created) && i < 7
    requires KeyOf(a)[i] != KeyOf(b)[i] && forall j :: 0 <= j < i ==> KeyOf(a)[j] == KeyOf(b)[j]
    ensures KeyOf(a)[i] < KeyOf(b)[i] <==> Instant(a.created) < Instant(b.created)
    ensures Instant(a.created) != Instant(b.created)
  {
    hide Day, Clock, Instant, ValidTime;
    var t, u := a.created, b.created;
    var k, l := KeyOf(a), KeyOf(b);
    assert k[0] == t.year && k[1] == t.month && k[2] == t.day && k[3] == t.hour && k[4] == t.minute && k[5] == t.second && k[6] == t.nanos;
    assert l[0] == u.year && l[1] == u.month && l[2] == u.day && l[3] == u.hour && l[4] == u.minute && l[5] == u.second && l[6] == u.nanos;
    DayOrder(t, u);
    DayOrder(u, t);
    ClockOrder(t, u);
    ClockOrder(u, t);
    InstantOrder(t, u);
    InstantOrder(u, t);
  }

  lemma IdDecides(a: Task, b: Task, i: nat)
    requires 7 <= i < 23 && |a.id| == 16 && |b.id| == 16
    requires KeyOf(a)[i] != KeyOf(b)[i] && forall j :: 0 <= j < i ==> KeyOf(a)[j] == KeyOf(b)[j]
    ensures a.created == b.created && (KeyOf(a)[i] < KeyOf(b)[i] <==> IdBelow(a.id, b.id))
  {
    var k, l := KeyOf(a), KeyOf(b);
    assert k[0] == l[0] && k[1] == l[1] && k[2] == l[2] && k[3] == l[3] && k[4] == l[4] && k[5] == l[5] && k[6] == l[6];
    assert forall j :: 0 <= j < 16 ==> k[7 + j] == a.id[j] && l[7 + j] == b.id[j];
    var d := i - 7;
    assert a.id[d] != b.id[d] && forall j :: 0 <= j < d ==> a.id[j] == b.id[j];
  }

  /** A page request at any position, of a task that is still there or not, looks at the tasks of the filter
      below that position, the newest first. */
  lemma QueryBelow(rows: seq<Task>, filter: Option<TaskState>, position: Task)
    requires ValidTable(rows)
    ensures var found := OrderDescending(Where(rows, filter, Some(KeyOf(position))));
      && Descending(found)
      && forall t :: t in found <==> t in rows && (filter.None? || t.state == filter.value) && Less(KeyOf(t), KeyOf(position))
  {
    WhereExact(rows, filter, Some(KeyOf(position)));
    WhereValid(rows, filter, Some(KeyOf(position)));
    OrderExact(Where(rows, filter, Some(KeyOf(position))));
  }

  // ---------------------------------------------------------------- following the cursors

  function Min(a: int, b: int): int {
    if a < b then a else b
  }

  /** Every task's cursor is a text that reads back as its position. */
  ghost predicate Lossless(c: Codec, rows: seq<Task>) {
    forall t :: t in rows ==> c.encode(t.created, t.id) != "" && c.decode(c.encode(t.created, t.id)) == Some((t.created, t.id))
  }

  /** The page behind position k of the full list. */
  ghost predicate PageBehind(rows: seq<Task>, filter: Option<TaskState>, limit: int, k: nat, page: Reply)
    requires k <= |Full(rows, filter)| && limit > 0
  {
    var full := Full(rows, filter);
    && page.Page?
    && page.nodes == full[k..Min(k + limit, |full|)]
    && (page.hasNext <==> |full| > k + limit)
  }

  /** The cursor of the task before position k. */
  function CursorAt(c: Codec, full: seq<Task>, k: nat): Option<string>
    requires k <= |full|
  {
    if k == 0 then None else Some(c.encode(full[k - 1].created, full[k - 1].id))
  }

  lemma StartOfCursor(c: Codec, rows: seq<Task>, filter: Option<TaskState>, k: nat)
    requires ValidTable(rows) && Lossless(c, rows) && k <= |Full(rows, filter)|
    ensures Start(c, CursorAt(c, Full(rows, filter), k)) == Some(if k == 0 then None else Some(KeyOf(Full(rows, filter)[k - 1])))
  {
    FullExact(rows, filter);
    assert k > 0 ==> Full(rows, filter)[k - 1] in rows;
  }

  /** The rows from position k on are what the query finds there. */
  lemma RowsFrom(c: Codec, rows: seq<Task>, filter: Option<TaskState>, k: nat)
    requires ValidTable(rows) && Lossless(c, rows) && k <= |Full(rows, filter)|
    ensures var start := Start(c, CursorAt(c, Full(rows, filter), k));
      start.Some? && OrderDescending(Where(rows, filter, start.value)) == Full(rows, filter)[k..]
  {
    StartOfCursor(c, rows, filter, k);
    if k > 0 {
      QueryIsSuffix(rows, filter, k - 1);
    }
  }

  lemma CutPage(full: seq<Task>, k: nat, limit: int)
    requires k <= |full| && limit > 0
    ensures var found := Limit(full[k..], limit + 1);
      Limit(found, limit) == full[k..Min(k + limit, |full|)] && (|found| > limit <==> |full| > k + limit)
  {
  }

  lemma PageFromCursor(c: Codec, rows: seq<Task>, filter: Option<TaskState>, limit: int, k: nat)
    requires ValidTable(rows) && Lossless(c, rows) && k <= |Full(rows, filter)| && 0 < limit < MAX_INT32
    ensures PageBehind(rows, filter, limit, k, PageOf(c, rows, limit, CursorAt(c, Full(rows, filter), k), filter))
    ensures var page := PageOf(c, rows, limit, CursorAt(c, Full(rows, filter), k), filter);
      page.hasNext ==> k + limit <= |Full(rows, filter)| && EndCursor(page) == CursorAt(c, Full(rows, filter), k + limit)
  {
    RowsFrom(c, rows, filter, k);
    CutPage(Full(rows, filter), k, limit);
  }

  datatype Walk = Walk(nodes: seq<Task>, last: Reply)

  function Begin(c: Codec, rows: seq<Task>, filter: Option<TaskState>, limit: int): Walk {
    var page := PageOf(c, rows, limit, None, filter);
    Walk(if page.Page? then page.nodes else [], page)
  }

  /** One more request, with the end cursor of the page before. */
  function Advance(c: Codec, rows: seq<Task>, filter: Option<TaskState>, limit: int, walk: Walk): Walk {
    if !walk.last.Page? || !walk.last.hasNext then walk
    else
      var page := PageOf(c, rows, limit, EndCursor(walk.last), filter);
      Walk(walk.nodes + if page.Page? then page.nodes else [], page)
  }

  /** Everything read after n further requests. */
  function Follow(c: Codec, rows: seq<Task>, filter: Option<TaskState>, limit: int, n: nat): Walk {
    if n == 0 then Begin(c, rows, filter, limit) else Advance(c, rows, filter, limit, Follow(c, rows, filter, limit, n - 1))
  }

  /** A walk that has read up to position `read`. */
  ghost predicate HasRead(c: Codec, full: seq<Task>, walk: Walk, read: nat) {
    && walk.nodes == full[..Min(read, |full|)]
    && walk.last.Page? && (walk.last.hasNext <==> |full| > read)
    && (walk.last.hasNext ==> EndCursor(walk.last) == CursorAt(c, full, read))
  }

  lemma ReadOn(c: Codec, rows: seq<Task>, filter: Option<TaskState>, limit: int, walk: Walk, k: nat)
    requires ValidTable(rows) && Lossless(c, rows) && 0 < limit < MAX_INT32
    requires HasRead(c, Full(rows, filter), walk, k)
    ensures HasRead(c, Full(rows, filter), Advance(c, rows, filter, limit, walk), k + limit)
  {
    hide Full, PageOf, ValidTable, Lossless;
    var full := Full(rows, filter);
    if walk.last.hasNext {
      PageFromCursor(c, rows, filter, limit, k);
      assert full[..k] + full[k..Min(k + limit, |full|)] == full[..Min(k + limit, |full|)];
    }
  }

  lemma ReadFirst(c: Codec, rows: seq<Task>, filter: Option<TaskState>, limit: int)
    requires ValidTable(rows) && Lossless(c, rows) && 0 < limit < MAX_INT32
    ensures HasRead(c, Full(rows, filter), Begin(c, rows, filter, limit), limit)
  {
    PageFromCursor(c, rows, filter, limit, 0);
  }

  /** How many tasks n further pages reach. */
  function Reach(limit: nat, n: nat): (r: nat)
    requires limit > 0
    ensures r > n
  {
    if n == 0 then limit else Reach(limit, n - 1) + limit
  }

  /** The walk so far is a prefix of the full list, and there is a next page exactly when tasks remain. */
  lemma {:induction false} FollowReadsPrefix(c: Codec, rows: seq<Task>, filter: Option<TaskState>, limit: int, n: nat)
    requires ValidTable(rows) && Lossless(c, rows) && 0 < limit < MAX_INT32
    ensures HasRead(c, Full(rows, filter), Follow(c, rows, filter, limit, n), Reach(limit, n))
  {
    hide HasRead, Full, Begin, Advance, ValidTable, Lossless;
    if n == 0 {
      ReadFirst(c, rows, filter, limit);
    } else {
      FollowReadsPrefix(c, rows, filter, limit, n - 1);
      ReadOn(c, rows, filter, limit, Follow(c, rows, filter, limit, n - 1), Reach(limit, n - 1));
    }
  }

  const CURSORS: Codec := Codec((t, id) => if |id| == 16 then EncodeCursor(t, id) else "", s => DecodeCursor(s))

  ghost predicate FourDigitYears(rows: seq<Task>) {
    forall i :: 0 <= i < |rows| ==> 0 <= rows[i].created.year < 10000
  }

  lemma CursorsAreLossless(rows: seq<Task>)
    requires ValidTable(rows) && FourDigitYears(rows)
    ensures Lossless(CURSORS, rows)
  {
    forall t | t in rows
      ensures CURSORS.encode(t.created, t.id) != "" && CURSORS.decode(CURSORS.encode(t.created, t.id)) == Some((t.created, t.id))
    {
      CursorRoundTrip(t.created, t.id);
    }
  }

  /** Paging refines the plain list: for any table and page size, following the end cursors visits every
      task of the filter exactly once, newest first, and stops. */
  lemma {:induction false} WalkIsTheList(rows: seq<Task>, filter: Option<TaskState>, limit: int, n: nat)
    requires ValidTable(rows) && FourDigitYears(rows) && 0 < limit < MAX_INT32 && n >= |Full(rows, filter)|
    ensures Follow(CURSORS, rows, filter, limit, n).nodes == Full(rows, filter)
    ensures Follow(CURSORS, rows, filter, limit, n).last.Page? && !Follow(CURSORS, rows, filter, limit, n).last.hasNext
    ensures Descending(Full(rows, filter))
    ensures forall t :: t in Full(rows, filter) <==> t in rows && (filter.None? || t.state == filter.value)
  {
    CursorsAreLossless(rows);
    FollowReadsPrefix(CURSORS, rows, filter, limit, n);
    FullExact(rows, filter);
  }

  // ---------------------------------------------------------------- page sizes that do not work

  /** The first page, whatever the cursors look like. */
  ghost predicate FirstPageRight(c: Codec, rows: seq<Task>, limit: int)
    requires limit > 0
  {
    ValidTable(rows) && Lossless(c, rows) ==> PageBehind(rows, None, limit, 0, PageOf(c, rows, limit, None, None))
  }

  function IdOf(n: nat): Id
    requires n < 0x8000_0000
  {
    var high := n / 256;
    var higher := high / 256;
    [higher / 256, higher % 256, high % 256, n % 256, 0, 0, 0, 0, 0, 0, 0, 0, 0, 0, 0, 0]
  }

  function NumberOf(id: Id): nat
    requires |id| == 16
  {
    ((id[0] as int * 256 + id[1] as int) * 256 + id[2] as int) * 256 + id[3] as int
  }

  lemma NumberOfIdOf(n: nat)
    requires n < 0x8000_0000
    ensures NumberOf(IdOf(n)) == n
  {
  }

  lemma IdsDiffer(m: nat, n: nat)
    requires m < n < 0x8000_0000
    ensures IdOf(m) != IdOf(n)
  {
    NumberOfIdOf(m);
    NumberOfIdOf(n);
  }

  function Crowd(n: nat): seq<Task>
    requires n <= 0x8000_0000
  {
    seq(n, i requires 0 <= i < n => Task(Time(2024, 1, 1, 0, 0, 0, 0), IdOf(i), Accepted))
  }

  lemma CrowdIsValid(n: nat)
    requires n <= 0x8000_0000
    ensures ValidTable(Crowd(n)) && FourDigitYears(Crowd(n))
  {
    forall i, j | 0 <= i < j < n
      ensures Crowd(n)[i].id != Crowd(n)[j].id
    {
      IdsDiffer(i, j);
    }
  }

  lemma {:induction false} WhereAll(rows: seq<Task>)
    ensures Where(rows, None, None) == rows
  {
    if rows != [] {
      WhereAll(rows[1..]);
      assert rows == [rows[0]] + rows[1..];
    }
  }

  /** The page size works for every table exactly when one more still fits 32 bits: beyond, the wrapped
      limit is negative and the query fails, or it is too small and tasks are missing with no next page. */
  lemma PageSizeExact(limit: int)
    requires limit > 0
    ensures limit < MAX_INT32 <==> forall rows :: FirstPageRight(CURSORS, rows, limit)
  {
    if limit < MAX_INT32 {
      forall rows | ValidTable(rows) && Lossless(CURSORS, rows)
        ensures FirstPageRight(CURSORS, rows, limit)
      {
        PageFromCursor(CURSORS, rows, None, limit, 0);
      }
    } else {
      var lim := ToInt32(limit + 1);
      var rows := if lim < 0 then [] else Crowd(lim + 1);
      CrowdIsValid(if lim < 0 then 0 else lim + 1);
      CursorsAreLossless(rows);
      WrapFails(CURSORS, rows, limit);
      assert !FirstPageRight(CURSORS, rows, limit);
    }
  }

  /** What a page size that large gets: an error if the wrapped limit is negative, else as many tasks as the
      wrapped limit says and no next page, however many tasks there are. */
  lemma WrapExact(c: Codec, rows: seq<Task>, filter: Option<TaskState>, limit: int)
    requires limit >= MAX_INT32
    ensures var page, lim := PageOf(c, rows, limit, None, filter), ToInt32(limit + 1);
      if lim < 0 then page == Failed
      else page.Page? && !page.hasNext && page.nodes == Full(rows, filter)[..Min(lim, |Full(rows, filter)|)]
  {
  }

  lemma WrapFails(c: Codec, rows: seq<Task>, limit: int)
    requires ValidTable(rows) && Lossless(c, rows) && limit >= MAX_INT32
    requires ToInt32(limit + 1) >= 0 ==> |rows| == ToInt32(limit + 1) + 1
    ensures !FirstPageRight(c, rows, limit)
  {
    WhereAll(rows);
    OrderExact(rows);
  }
}
