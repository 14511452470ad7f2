/** The attendee list: the shared filter clause, its count, and its pages. */
module AttendeePage {
  import opened LikeSearch
  import opened Options

  type Id = nat

  const MAX_INT: int := 0x7FFF_FFFF_FFFF_FFFF
  const MIN_INT: int := -0x8000_0000_0000_0000

  datatype Row = Row(
    id: Id,
    event: Id,
    deleted: bool,
    first: string,
    last: string,
    email: string,
    code: string,
    status: bool,
    allowedZones: set<Id>)   // zones with an allowed = true override

  datatype Filter = Filter(code: string, search: string, zone: Option<Id>, status: Option<bool>)

  datatype Arg = IdArg(id: Id) | TextArg(text: string) | BoolArg(flag: bool)

  /** One conjunct of the WHERE clause, or the join, with the placeholder numbers it carries. */
  datatype Cond =
    | EventIs(n: nat)
    | NotDeleted
    | ZoneAllowed(n: nat)
    | CodeIs(n: nat)
    | AnyILike(first: nat, last: nat, email: nat, code: nat)
    | StatusIs(n: nat)

  /** The reference meaning of a filter. */
  ghost predicate Wanted(event: Id, f: Filter, r: Row, fold: char -> char) {
    && r.event == event && !r.deleted
    && (f.zone.Some? ==> f.zone.value in r.allowedZones)
    && (f.code != "" ==> r.code == f.code)
    && (f.search != "" ==>
          Contains(r.first, f.search, fold) || Contains(r.last, f.search, fold)
          || Contains(r.email, f.search, fold) || Contains(r.code, f.search, fold))
    && (f.status.Some? ==> r.status == f.status.value)
  }

  /** `c` carries placeholder $n. */
  predicate Uses(c: Cond, n: int) {
    match c
    case EventIs(m) => n == m
    case NotDeleted => false
    case ZoneAllowed(m) => n == m
    case CodeIs(m) => n == m
    case AnyILike(a, b, c, d) => n == a || n == b || n == c || n == d
    case StatusIs(m) => n == m
  }

  predicate Bound(args: seq<Arg>, n: nat) {
    1 <= n <= |args|
  }

  predicate TextHit(subject: string, args: seq<Arg>, n: nat, fold: char -> char) {
    Bound(args, n) && args[n - 1].TextArg? && ILike(subject, args[n - 1].text, fold) == Some(true)
  }

  /** What the database makes of a conjunct with these bind arguments. */
  predicate Holds(c: Cond, args: seq<Arg>, r: Row, fold: char -> char) {
    match c
    case EventIs(n) => Bound(args, n) && args[n - 1] == IdArg(r.event)
    case NotDeleted => !r.deleted
    case ZoneAllowed(n) => Bound(args, n) && args[n - 1].IdArg? && args[n - 1].id in r.allowedZones
    case CodeIs(n) => Bound(args, n) && args[n - 1] == TextArg(r.code)
    case AnyILike(a, b, c, d) =>
      TextHit(r.first, args, a, fold) || TextHit(r.last, args, b, fold)
      || TextHit(r.email, args, c, fold) || TextHit(r.code, args, d, fold)
    case StatusIs(n) => Bound(args, n) && args[n - 1] == BoolArg(r.status)
  }

  datatype Clause = Clause(conds: seq<Cond>, args: seq<Arg>)

  predicate Selects(cl: Clause, r: Row, fold: char -> char) {
    forall i :: 0 <= i < |cl.conds| ==> Holds(cl.conds[i], cl.args, r, fold)
  }

  ghost predicate Named(cl: Clause, n: int) {
    exists i :: 0 <= i < |cl.conds| && Uses(cl.conds[i], n)
  }

  /** The placeholders are exactly $1..$n for the n bind arguments. */
  ghost predicate WellNumbered(cl: Clause) {
    forall n :: Named(cl, n) <==> 1 <= n <= |cl.args|
  }

  function Add(cl: Clause, c: Cond, arg: Arg): Clause {
    Clause(cl.conds + [c], cl.args + [arg])
  }

  /** A condition on the next number binds the appended argument and narrows the selection. */
  lemma AddMeans(cl: Clause, c: Cond, arg: Arg, r: Row, fold: char -> char)
    requires WellNumbered(cl) && forall n :: Uses(c, n) <==> n == |cl.args| + 1
    ensures WellNumbered(Add(cl, c, arg))
    ensures Selects(Add(cl, c, arg), r, fold) <==> Selects(cl, r, fold) && Holds(c, cl.args + [arg], r, fold)
  {
    var next := Add(cl, c, arg);
    assert next.conds[|cl.conds|] == c;
    forall n ensures Named(next, n) <==> Named(cl, n) || Uses(c, n) {
      if Named(cl, n) {
        var i :| 0 <= i < |cl.conds| && Uses(cl.conds[i], n);
        assert Uses(next.conds[i], n);
      }
    }
    forall i | 0 <= i < |cl.conds|
      ensures Holds(next.conds[i], next.args, r, fold) <==> Holds(cl.conds[i], cl.args, r, fold)
    {
      forall n | Uses(cl.conds[i], n) ensures 1 <= n <= |cl.args| {
        assert Named(cl, n);
      }
      HoldsMoreArgs(cl.conds[i], cl.args, arg, r, fold);
    }
  }

  lemma HoldsMoreArgs(c: Cond, args: seq<Arg>, arg: Arg, r: Row, fold: char -> char)
    requires forall n :: Uses(c, n) ==> 1 <= n <= |args|
    ensures Holds(c, args + [arg], r, fold) <==> Holds(c, args, r, fold)
  {
    match c {
      case AnyILike(x, y, z, w) =>
        assert Uses(c, x) && Uses(c, y) && Uses(c, z) && Uses(c, w);
      case NotDeleted =>
      case _ => assert Uses(c, c.n);
    }
  }

  function Base(event: Id): Clause {
    Clause([EventIs(1), NotDeleted], [IdArg(event)])
  }

  function WithZone(cl: Clause, zone: Option<Id>): Clause {
    if zone.None? then cl else Add(cl, ZoneAllowed(|cl.args| + 1), IdArg(zone.value))
  }

  function WithCode(cl: Clause, code: string): Clause {
    if code == "" then cl else Add(cl, CodeIs(|cl.args| + 1), TextArg(code))
  }

  function WithSearch(cl: Clause, search: string): Clause {
    if search == "" then cl
    else
      var n := |cl.args| + 1;
      Add(cl, AnyILike(n, n, n, n), TextArg("%" + Escape(search) + "%"))
  }

  function WithStatus(cl: Clause, status: Option<bool>): Clause {
    if status.None? then cl else Add(cl, StatusIs(|cl.args| + 1), BoolArg(status.value))
  }

  function FilterClause(event: Id, f: Filter): Clause {
    WithStatus(WithSearch(WithCode(WithZone(Base(event), f.zone), f.code), f.search), f.status)
  }

  lemma BaseMeans(event: Id, r: Row, fold: char -> char)
    ensures WellNumbered(Base(event))
    ensures Selects(Base(event), r, fold) <==> r.event == event && !r.deleted
  {
    var cl := Base(event);
    assert Uses(cl.conds[0], 1);
    assert Holds(cl.conds[0], cl.args, r, fold) <==> r.event == event;
    assert Holds(cl.conds[1], cl.args, r, fold) <==> !r.deleted;
  }

  lemma SearchMeans(cl: Clause, search: string, r: Row, fold: char -> char)
    requires WellNumbered(cl) && search != ""
    ensures WellNumbered(WithSearch(cl, search))
    ensures Selects(WithSearch(cl, search), r, fold) <==>
              Selects(cl, r, fold)
              && (Contains(r.first, search, fold) || Contains(r.last, search, fold)
                  || Contains(r.email, search, fold) || Contains(r.code, search, fold))
  {
    var n := |cl.args| + 1;
    AddMeans(cl, AnyILike(n, n, n, n), TextArg("%" + Escape(search) + "%"), r, fold);
    SearchMatchesSubstrings(r.first, search, fold);
    SearchMatchesSubstrings(r.last, search, fold);
    SearchMatchesSubstrings(r.email, search, fold);
    SearchMatchesSubstrings(r.code, search, fold);
  }

  lemma ZoneMeans(cl: Clause, zone: Option<Id>, r: Row, fold: char -> char)
    requires WellNumbered(cl)
    ensures WellNumbered(WithZone(cl, zone))
    ensures Selects(WithZone(cl, zone), r, fold) <==> Selects(cl, r, fold) && (zone.Some? ==> zone.value in r.allowedZones)
  {
    if zone.Some? {
      AddMeans(cl, ZoneAllowed(|cl.args| + 1), IdArg(zone.value), r, fold);
    }
  }

  lemma CodeMeans(cl: Clause, code: string, r: Row, fold: char -> char)
    requires WellNumbered(cl)
    ensures WellNumbered(WithCode(cl, code))
    ensures Selects(WithCode(cl, code), r, fold) <==> Selects(cl, r, fold) && (code != "" ==> r.code == code)
  {
    if code != "" {
      AddMeans(cl, CodeIs(|cl.args| + 1), TextArg(code), r, fold);
    }
  }

  lemma StatusMeans(cl: Clause, status: Option<bool>, r: Row, fold: char -> char)
    requires WellNumbered(cl)
    ensures WellNumbered(WithStatus(cl, status))
    ensures Selects(WithStatus(cl, status), r, fold) <==> Selects(cl, r, fold) && (status.Some? ==> r.status == status.value)
  {
    if status.Some? {
      AddMeans(cl, StatusIs(|cl.args| + 1), BoolArg(status.value), r, fold);
    }
  }

  /** For every combination of filters: the placeholders are $1..$n, each is bound to its
      intended argument, and the clause selects exactly the rows the filter asks for. */
  lemma ClauseMeans(event: Id, f: Filter, r: Row, fold: char -> char)
    ensures WellNumbered(FilterClause(event, f))
    ensures Selects(FilterClause(event, f), r, fold) <==> Wanted(event, f, r, fold)
  {
    var zoned := WithZone(Base(event), f.zone);
    var coded := WithCode(zoned, f.code);
    BaseMeans(event, r, fold);
    ZoneMeans(Base(event), f.zone, r, fold);
    CodeMeans(zoned, f.code, r, fold);
    if f.search != "" {
      SearchMeans(coded, f.search, r, fold);
    }
    StatusMeans(WithSearch(coded, f.search), f.status, r, fold);
  }

  /** attendeeFilterClause, with its running placeholder counter. */
  method AttendeeFilterClause(event: Id, f: Filter) returns (conds: seq<Cond>, args: seq<Arg>)
    ensures Clause(conds, args) == FilterClause(event, f)
  {
    args := [IdArg(event)];
    var argCount := 2;
    conds := [EventIs(1), NotDeleted];
    if f.zone.Some? {
      conds := conds + [ZoneAllowed(argCount)];
      args := args + [IdArg(f.zone.value)];
      argCount := argCount + 1;
    }
    if f.code != "" {
      conds := conds + [CodeIs(argCount)];
      args := args + [TextArg(f.code)];
      argCount := argCount + 1;
    }
    if f.search != "" {
      var escaped := Escape(f.search);
      conds := conds + [AnyILike(argCount, argCount, argCount, argCount)];
      args := args + [TextArg("%" + escaped + "%")];
      argCount := argCount + 1;
    }
    if f.status.Some? {
      conds := conds + [StatusIs(argCount)];
      args := args + [BoolArg(f.status.value)];
      argCount := argCount + 1;
    }
  }

  /** ORDER BY last_name, first_name, id under a collation key. */
  predicate Before(x: Row, y: Row, key: string -> int) {
    || key(x.last) < key(y.last)
    || (key(x.last) == key(y.last) && key(x.first) < key(y.first))
    || (key(x.last) == key(y.last) && key(x.first) == key(y.first) && x.id < y.id)
  }

  /** `list` is an order in which the database may produce the rows of `table` the clause selects. */
  ghost predicate Listing(list: seq<Row>, table: set<Row>, cl: Clause, fold: char -> char, key: string -> int) {
    && (forall r :: r in list <==> r in table && Selects(cl, r, fold))
    && (forall i, j :: 0 <= i < j < |list| ==> Before(list[i], list[j], key))
  }

  /** The trailing id makes the order total, so separately planned queries agree row by row. */
  lemma {:induction false} ListingsAgree(x: seq<Row>, y: seq<Row>, key: string -> int)
    requires forall r :: r in x <==> r in y
    requires forall i, j :: 0 <= i < j < |x| ==> Before(x[i], x[j], key)
    requires forall i, j :: 0 <= i < j < |y| ==> Before(y[i], y[j], key)
    ensures x == y
    decreases |x|
  {
    assert y != [] ==> y[0] in x;
    if x != [] {
      assert x[0] in y && y[0] in x;
      FirstIsLeast(x, y[0], key);
      FirstIsLeast(y, x[0], key);
      var p, q := x[1..], y[1..];
      forall r ensures r in p <==> r in q {
        RestMembers(x, r, key);
        RestMembers(y, r, key);
      }
      ListingsAgree(p, q, key);
    }
  }

  lemma FirstIsLeast(x: seq<Row>, r: Row, key: string -> int)
    requires forall i, j :: 0 <= i < j < |x| ==> Before(x[i], x[j], key)
    requires r in x
    ensures r == x[0] || Before(x[0], r, key)
  {
    var i :| 0 <= i < |x| && x[i] == r;
  }

  lemma RestMembers(x: seq<Row>, r: Row, key: string -> int)
    requires x != [] && forall i, j :: 0 <= i < j < |x| ==> Before(x[i], x[j], key)
    ensures r in x[1..] <==> r in x && r != x[0]
  {
    if r in x[1..] {
      var i :| 0 <= i < |x[1..]| && x[1..][i] == r;
      assert Before(x[0], x[i + 1], key);
    }
    assert x == [x[0]] + x[1..];
  }

  lemma {:induction false} ListCounts(list: seq<Row>, rows: set<Row>, key: string -> int)
    requires forall r :: r in list <==> r in rows
    requires forall i, j :: 0 <= i < j < |list| ==> Before(list[i], list[j], key)
    ensures |list| == |rows|
    decreases |list|
  {
    if list == [] {
      assert rows == {};
    } else {
      var last := |list| - 1;
      assert list == list[..last] + [list[last]];
      forall r | r in list[..last] ensures r != list[last] {
        var i :| 0 <= i < last && list[i] == r;
        assert Before(list[i], list[last], key);
      }
      ListCounts(list[..last], rows - {list[last]}, key);
      assert list[last] in rows;
    }
  }

  /** LIMIT perPage OFFSET offset. */
  function Slice(list: seq<Row>, offset: nat, perPage: nat): seq<Row> {
    if offset >= |list| then []
    else if offset + perPage >= |list| then list[offset..]
    else list[offset..offset + perPage]
  }

  function Pages(list: seq<Row>, perPage: nat, n: nat): seq<Row> {
    if n == 0 then [] else Pages(list, perPage, n - 1) + Slice(list, (n - 1) * perPage, perPage)
  }

  /** The first n pages in order are the first n * perPage rows of the full list: no gap, no
      repeat. */
  lemma {:induction false} PagesConcatenate(list: seq<Row>, perPage: nat, n: nat)
    ensures Pages(list, perPage, n) == if n * perPage >= |list| then list else list[..n * perPage]
    decreases n
  {
    if n == 0 {
      assert list == [] || list[..0] == [];
    } else {
      PagesConcatenate(list, perPage, n - 1);
      assert n * perPage == (n - 1) * perPage + perPage;
      var offset := (n - 1) * perPage;
      if offset < |list| {
        assert list[..offset] + list[offset..] == list;
        if offset + perPage < |list| {
          assert list[..offset] + list[offset..offset + perPage] == list[..offset + perPage];
        }
      }
    }
  }

  datatype Page = TooLarge | QueryFailed | Page(rows: seq<Row>, total: nat)

  /** Two's-complement wrap-around of a 64-bit int. */
  function Wrap(x: int): int {
    (x - MIN_INT) % 0x1_0000_0000_0000_0000 + MIN_INT
  }

  /** Go's division, truncating towards zero. */
  function Quot(x: int, d: int): int
    requires d > 0
  {
    if x >= 0 then x / d else -((-x) / d)
  }

  lemma WrapFits(x: int)
    ensures MIN_INT <= Wrap(x) <= MAX_INT
    ensures MIN_INT <= x <= MAX_INT ==> Wrap(x) == x
  {
  }

  predicate IsInt(x: int) {
    MIN_INT <= x <= MAX_INT
  }

  /** (f.Page-1)*f.PerPage in 64-bit arithmetic. */
  function Offset(page: int, perPage: int): int {
    Wrap(Wrap(page - 1) * perPage)
  }

  /** The store's overflow guard. */
  predicate Refused(page: int, perPage: int) {
    perPage > 0 && Wrap(page - 1) > Quot(MAX_INT, perPage)
  }

  /** GetAttendeesPage, for any page and size: the count and the page share one clause; `listed`
      is the database's ordered list of the rows that clause selects.  The database refuses a
      negative LIMIT or OFFSET. */
  method GetAttendeesPage(event: Id, f: Filter, page: int, perPage: int, listed: seq<Row>,
                          ghost table: set<Row>, ghost fold: char -> char, ghost key: string -> int)
    returns (r: Page, ghost cl: Clause)
    requires IsInt(page) && IsInt(perPage)
    requires Listing(listed, table, FilterClause(event, f), fold, key)
    ensures cl == FilterClause(event, f)
    ensures r.Page? ==>
              && perPage >= 0 && Offset(page, perPage) >= 0
              && r.rows == Slice(listed, Offset(page, perPage), perPage)
              && (page >= 1 ==> Offset(page, perPage) == (page - 1) * perPage)
              && (forall x :: x in r.rows ==> Wanted(event, f, x, fold))
              && r.total == |set x | x in table && Wanted(event, f, x, fold)|
    ensures page >= 1 && perPage >= 0 ==> !r.QueryFailed? && (r.TooLarge? <==> (page - 1) * perPage > MAX_INT)
    ensures r.TooLarge? <==> Refused(page, perPage)
    ensures r.QueryFailed? <==> !r.TooLarge? && (perPage < 0 || Offset(page, perPage) < 0)
    ensures MIN_INT < page < 1 && 0 < perPage && page - 1 >= Quot(MIN_INT, perPage) ==> r.QueryFailed?
  {
    var conds, args := AttendeeFilterClause(event, f);
    cl := Clause(conds, args);
    OffsetCases(page, perPage);
    if Refused(page, perPage) {
      return TooLarge, cl;
    }
    var offset := Offset(page, perPage);
    if offset < 0 || perPage < 0 {
      return QueryFailed, cl;
    }
    TotalIs(event, f, listed, table, fold, key);
    return Page(Slice(listed, offset, perPage), |listed|), cl;
  }

  /** From page 1 the guard refuses exactly the overflows and the offset is exact; pages below it
      get a negative offset unless the product leaves the 64-bit range. */
  lemma OffsetCases(page: int, perPage: int)
    requires IsInt(page) && IsInt(perPage)
    ensures page >= 1 && perPage >= 0 ==> (Refused(page, perPage) <==> (page - 1) * perPage > MAX_INT)
    ensures page >= 1 && perPage >= 0 && !Refused(page, perPage) ==> Offset(page, perPage) == (page - 1) * perPage >= 0
    ensures MIN_INT < page < 1 && 0 < perPage && page - 1 >= Quot(MIN_INT, perPage) ==>
              !Refused(page, perPage) && Offset(page, perPage) < 0
  {
    if page >= 1 && perPage > 0 {
      OffsetExact(page - 1, perPage);
    } else if MIN_INT < page < 1 && 0 < perPage && page - 1 >= Quot(MIN_INT, perPage) {
      NegativeOffset(page - 1, perPage);
    }
  }

  lemma NegativeOffset(before: int, perPage: nat)
    requires perPage > 0 && IsInt(perPage) && MIN_INT <= before < 0 && before >= Quot(MIN_INT, perPage)
    ensures Wrap(before * perPage) < 0 && before <= Quot(MAX_INT, perPage)
  {
    GuardOneSided(before, perPage);
    MulMonotone(before, -1, perPage);
  }

  lemma OffsetExact(before: nat, perPage: nat)
    requires perPage > 0
    ensures before > Quot(MAX_INT, perPage) <==> before * perPage > MAX_INT
    ensures before * perPage <= MAX_INT ==> Wrap(before * perPage) == before * perPage >= 0
  {
    GuardExact(before, perPage);
    WrapFits(before * perPage);
  }

  /** The count equals the size of the unpaged result, which is what the filter asks for. */
  lemma TotalIs(event: Id, f: Filter, listed: seq<Row>, table: set<Row>, fold: char -> char, key: string -> int)
    requires Listing(listed, table, FilterClause(event, f), fold, key)
    ensures forall x :: x in listed <==> x in table && Wanted(event, f, x, fold)
    ensures |listed| == |set x | x in table && Wanted(event, f, x, fold)|
  {
    forall x ensures Selects(FilterClause(event, f), x, fold) <==> Wanted(event, f, x, fold) {
      ClauseMeans(event, f, x, fold);
    }
    ListCounts(listed, (set x | x in table && Wanted(event, f, x, fold)), key);
  }

  lemma MulMonotone(x: int, y: int, d: int)
    requires d >= 0
    ensures x <= y ==> x * d <= y * d
  {
  }

  /** For page numbers the handler lets through, the guard refuses exactly the overflows. */
  lemma GuardExact(before: nat, perPage: nat)
    requires perPage > 0
    ensures before > Quot(MAX_INT, perPage) <==> before * perPage > MAX_INT
  {
    var q := MAX_INT / perPage;
    assert q * perPage <= MAX_INT < (q + 1) * perPage;
    MulMonotone(before, q, perPage);
    MulMonotone(q + 1, before, perPage);
  }

  /** The store's own guard looks at one side only: for any page, what it lets through
      overflows if and only if the page lies too far below zero. */
  lemma GuardOneSided(before: int, perPage: nat)
    requires 0 < perPage <= MAX_INT && MIN_INT <= before <= MAX_INT
    requires !(before > Quot(MAX_INT, perPage))
    ensures Wrap(before * perPage) == before * perPage <==> before >= Quot(MIN_INT, perPage)
  {
    WrapFits(before * perPage);
    if before >= 0 {
      GuardExact(before, perPage);
      MulMonotone(0, before, perPage);
    } else {
      NegativeSide(-before, perPage);
      assert before * perPage == -(-before * perPage);
    }
  }

  /** Such a page: the guard lets it through and the offset wraps round to zero. */
  lemma NegativeOverflow()
    ensures !(MIN_INT > Quot(MAX_INT, 2)) && Wrap(MIN_INT * 2) == 0 != MIN_INT * 2
    ensures Offset(MIN_INT + 1, 2) == 0
  {
    WrapFits(MIN_INT);
  }

  lemma NegativeSide(m: int, perPage: int)
    requires perPage > 0 && m >= 0
    ensures m * perPage <= -MIN_INT <==> -m >= Quot(MIN_INT, perPage)
  {
    var q := -MIN_INT / perPage;
    assert q * perPage <= -MIN_INT < (q + 1) * perPage;
    MulMonotone(m, q, perPage);
    MulMonotone(q + 1, m, perPage);
  }
}
