/** The `findMany` / `count` queries the resume service issues against the
    resume table: a where-clause, an order-by on one column, and skip/take
    paging. Rows that tie on the sort column keep their storage order. */
module Query {
  import opened Schema
  import Text

  /** A where-clause. Every query is scoped to one owner and excludes soft-deleted rows. */
  datatype Where = Where(
    userId: UserId,
    status: Option<string>,
    template: Option<string>,
    text: Option<string>,
    ids: Option<seq<ResumeId>>)

  /** The search clause: `title` or `description` contains `text`, ignoring case. */
  predicate MatchesText(r: Resume, text: string): (b: bool)
    ensures b <==> || (exists i :: Text.IsInfixAt(Text.Lower(r.title), Text.Lower(text), i))
                   || (r.description.Some? && exists i :: Text.IsInfixAt(Text.Lower(r.description.value), Text.Lower(text), i))
    ensures text == "" ==> b
  {
    assert text == "" ==> Text.IsInfixAt(Text.Lower(r.title), Text.Lower(text), 0);
    || Text.ContainsInsensitive(r.title, text)
    || (r.description.Some? && Text.ContainsInsensitive(r.description.value, text))
  }

  predicate Satisfies(r: Resume, w: Where) {
    && r.userId == w.userId
    && Live(r)
    && (w.status.Some? ==> r.status == w.status.value)
    && (w.template.Some? ==> r.templateId == w.template.value)
    && (w.text.Some? ==> MatchesText(r, w.text.value))
    && (w.ids.Some? ==> r.id in w.ids.value)
  }

  /** The rows that satisfy the where-clause, in storage order. */
  function Filter(rows: seq<Resume>, w: Where): (s: seq<Resume>)
    ensures |s| <= |rows|
    ensures forall r :: r in s <==> r in rows && Satisfies(r, w)
  {
    if rows == [] then []
    else
      var last := rows[|rows| - 1];
      assert rows == rows[..|rows| - 1] + [last];
      Filter(rows[..|rows| - 1], w) + (if Satisfies(last, w) then [last] else [])
  }

  /** Each row that satisfies the clause is kept as often as it occurs in the table, and no other
      row is kept. */
  lemma {:induction false} FilterMultiplicity(rows: seq<Resume>, w: Where)
    ensures forall r :: multiset(Filter(rows, w))[r] == if Satisfies(r, w) then multiset(rows)[r] else 0
  {
    if rows != [] {
      var init := rows[..|rows| - 1];
      FilterMultiplicity(init, w);
      assert rows == init + [rows[|rows| - 1]];
    }
  }

  /** In a table whose ids are the row positions, the kept rows come in storage order, each once. */
  lemma {:induction false} FilterInStorageOrder(rows: seq<Resume>, w: Where)
    requires forall i :: 0 <= i < |rows| ==> rows[i].id == i
    ensures forall i, j :: 0 <= i < j < |Filter(rows, w)| ==> Filter(rows, w)[i].id < Filter(rows, w)[j].id
  {
    if rows != [] {
      var init := rows[..|rows| - 1];
      FilterInStorageOrder(init, w);
      var s := Filter(init, w);
      forall k | 0 <= k < |s| ensures s[k].id < |init| {
        assert s[k] in init;
      }
    }
  }

  /** With no filter beyond owner and liveness, the query counts exactly the user's live resumes. */
  lemma {:induction false} FilterCountsLive(rows: seq<Resume>, userId: UserId)
    ensures |Filter(rows, Where(userId, None, None, None, None))| == LiveCount(rows, userId)
  {
    if rows != [] {
      FilterCountsLive(rows[..|rows| - 1], userId);
    }
  }

  datatype Column = UpdatedAt | CreatedAt | Title
  datatype Direction = Asc | Desc
  datatype OrderBy = OrderBy(column: Column, direction: Direction)

  /** `a`'s sort key is at most `b`'s. */
  predicate KeyLe(a: Resume, b: Resume, c: Column) {
    match c
    case UpdatedAt => a.updatedAt <= b.updatedAt
    case CreatedAt => a.createdAt <= b.createdAt
    case Title => Text.LexLe(a.title, b.title)
  }

  /** `a` may come before `b` under the order. */
  predicate InOrder(a: Resume, b: Resume, o: OrderBy) {
    if o.direction == Asc then KeyLe(a, b, o.column) else KeyLe(b, a, o.column)
  }

  lemma InOrderTotal(a: Resume, b: Resume, o: OrderBy)
    ensures InOrder(a, b, o) || InOrder(b, a, o)
  {
    if o.column == Title {
      Text.LexLeTotal(a.title, b.title);
    }
  }

  lemma InOrderTransitive(a: Resume, b: Resume, c: Resume, o: OrderBy)
    requires InOrder(a, b, o) && InOrder(b, c, o)
    ensures InOrder(a, c, o)
  {
    if o.column == Title {
      if o.direction == Asc {
        Text.LexLeTransitive(a.title, b.title, c.title);
      } else {
        Text.LexLeTransitive(c.title, b.title, a.title);
      }
    }
  }

  ghost predicate Sorted(s: seq<Resume>, o: OrderBy) {
    forall i, j :: 0 <= i < j < |s| ==> InOrder(s[i], s[j], o)
  }

  /** Places `x` after every row it does not strictly precede. */
  function Insert(x: Resume, s: seq<Resume>, o: OrderBy): (r: seq<Resume>)
    ensures |r| == |s| + 1
  {
    if s == [] then [x]
    else if !InOrder(s[0], x, o) then [x] + s
    else [s[0]] + Insert(x, s[1..], o)
  }

  /** Insertion sort by the order, stable with respect to storage order. */
  function Sort(s: seq<Resume>, o: OrderBy): (r: seq<Resume>)
    ensures |r| == |s|
  {
    if s == [] then [] else Insert(s[|s| - 1], Sort(s[..|s| - 1], o), o)
  }

  lemma {:induction false} InsertPermutes(x: Resume, s: seq<Resume>, o: OrderBy)
    ensures multiset(Insert(x, s, o)) == multiset(s) + multiset{x}
  {
    if s != [] && InOrder(s[0], x, o) {
      InsertPermutes(x, s[1..], o);
      assert s == [s[0]] + s[1..];
    }
  }

  lemma {:induction false} InsertSorted(x: Resume, s: seq<Resume>, o: OrderBy)
    requires Sorted(s, o)
    ensures Sorted(Insert(x, s, o), o)
  {
    if s == [] {
    } else if !InOrder(s[0], x, o) {
      InOrderTotal(s[0], x, o);
      forall j | 0 <= j < |s| ensures InOrder(x, s[j], o) {
        if j > 0 { InOrderTransitive(x, s[0], s[j], o); }
      }
    } else {
      var tail := Insert(x, s[1..], o);
      InsertSorted(x, s[1..], o);
      InsertPermutes(x, s[1..], o);
      forall j | 0 <= j < |tail| ensures InOrder(s[0], tail[j], o) {
        assert tail[j] in multiset(tail);
        if tail[j] != x {
          assert tail[j] in multiset(s[1..]);
          var k :| 0 <= k < |s[1..]| && s[1..][k] == tail[j];
          assert s[k + 1] == tail[j];
        }
      }
    }
  }

  lemma {:induction false} SortCorrect(s: seq<Resume>, o: OrderBy)
    ensures Sorted(Sort(s, o), o)
    ensures multiset(Sort(s, o)) == multiset(s)
  {
    if s != [] {
      var init := s[..|s| - 1];
      SortCorrect(init, o);
      InsertSorted(s[|s| - 1], Sort(init, o), o);
      InsertPermutes(s[|s| - 1], Sort(init, o), o);
      assert s == init + [s[|s| - 1]];
    }
  }

  /** How many of `n` rows are left after skipping `skip` and taking at most `take`. */
  function PageLength(n: nat, skip: nat, take: nat): nat {
    if skip >= n then 0 else if n - skip < take then n - skip else take
  }

  /** `skip` then `take`: the rows at positions skip .. skip + take - 1 that exist. */
  function Window(s: seq<Resume>, skip: nat, take: nat): (page: seq<Resume>)
    ensures |page| == PageLength(|s|, skip, take)
    ensures forall k :: 0 <= k < |page| ==> page[k] == s[skip + k]
  {
    if skip >= |s| then [] else if |s| - skip < take then s[skip..] else s[skip..skip + take]
  }

  /** `findMany({where, orderBy, skip, take})`. */
  function FindMany(rows: seq<Resume>, w: Where, o: OrderBy, skip: nat, take: nat): (page: seq<Resume>)
    ensures |page| <= take
    ensures forall r :: r in page ==> r in rows && Satisfies(r, w)
    ensures Sorted(page, o)
    ensures |page| == PageLength(|Filter(rows, w)|, skip, take)
    ensures forall k :: 0 <= k < |page| ==>
      skip + k < |Filter(rows, w)| && page[k] == Sort(Filter(rows, w), o)[skip + k]
  {
    var sorted := Sort(Filter(rows, w), o);
    SortCorrect(Filter(rows, w), o);
    var page := Window(sorted, skip, take);
    forall r | r in page ensures r in rows && Satisfies(r, w) {
      var k :| 0 <= k < |page| && page[k] == r;
      assert sorted[skip + k] in multiset(sorted);
    }
    page
  }

  /** Paging covers the result: the row at sorted position `n` is on page `n / take + 1`. */
  lemma PagesCover(rows: seq<Resume>, w: Where, o: OrderBy, take: nat, n: nat)
    requires take > 0 && n < |Filter(rows, w)|
    ensures Sort(Filter(rows, w), o)[n] in FindMany(rows, w, o, (n / take) * take, take)
  {
    var sorted := Sort(Filter(rows, w), o);
    var skip := (n / take) * take;
    PageStart(n, take);
    var page := Window(sorted, skip, take);
    assert page[n - skip] == sorted[n];
    assert page == FindMany(rows, w, o, skip, take);
  }

  lemma PageStart(n: nat, take: nat)
    requires take > 0
    ensures (n / take) * take <= n < (n / take) * take + take
  {
  }
}
