/** The CSV import loop: greedy duplicate detection against the stored attendees and the rows
    created before. */
module BulkImport {
  import opened Answers

  datatype Attendee = Attendee(first: string, last: string, email: string, code: string)

  /** One CSV row: the mapped fields, the random codes it would draw, and how its INSERT ends. */
  datatype Row = Row(fields: Attendee, draws: seq<string>, insert: Answer)

  datatype Problem = DuplicateEmail | DuplicateCode | CreateFailed

  datatype RowError = RowError(row: nat, problem: Problem)

  /** The key functions: lower-casing of emails and upper-casing of codes. */
  datatype Keys = Keys(lower: string -> string, upper: string -> string)

  function EmailKeys(xs: seq<Attendee>, keys: Keys): set<string> {
    set a | a in xs && a.email != "" :: keys.lower(a.email)
  }

  function CodeKeys(xs: seq<Attendee>, keys: Keys): set<string> {
    set a | a in xs && a.code != "" :: keys.upper(a.code)
  }

  predicate EmailClash(a: Attendee, xs: seq<Attendee>, keys: Keys) {
    a.email != "" && keys.lower(a.email) in EmailKeys(xs, keys)
  }

  predicate CodeClash(a: Attendee, xs: seq<Attendee>, keys: Keys) {
    keys.upper(a.code) in CodeKeys(xs, keys)
  }

  lemma KeysAppend(xs: seq<Attendee>, a: Attendee, keys: Keys)
    ensures EmailKeys(xs + [a], keys) == EmailKeys(xs, keys) + if a.email != "" then {keys.lower(a.email)} else {}
    ensures CodeKeys(xs + [a], keys) == CodeKeys(xs, keys) + if a.code != "" then {keys.upper(a.code)} else {}
  {
    forall k | k in EmailKeys(xs, keys) ensures k in EmailKeys(xs + [a], keys) {
      var x :| x in xs && x.email != "" && k == keys.lower(x.email);
      assert x in xs + [a];
    }
    forall k | k in CodeKeys(xs, keys) ensures k in CodeKeys(xs + [a], keys) {
      var x :| x in xs && x.code != "" && k == keys.upper(x.code);
      assert x in xs + [a];
    }
    assert a in xs + [a];
  }

  /** A draw the generator accepts: its upper-cased text is not taken. */
  predicate FreshDraw(draws: seq<string>, i: nat, codes: set<string>, keys: Keys)
    requires i < |draws|
  {
    keys.upper(draws[i]) != "" && keys.upper(draws[i]) !in codes
  }

  /** The first draw the generator accepts, or the end of the supply. */
  function FirstDraw(draws: seq<string>, codes: set<string>, keys: Keys, from: nat): (n: nat)
    requires from <= |draws|
    ensures from <= n <= |draws| && forall i :: from <= i < n ==> !FreshDraw(draws, i, codes, keys)
    ensures n < |draws| ==> FreshDraw(draws, n, codes, keys)
    decreases |draws| - from
  {
    if from == |draws| || FreshDraw(draws, from, codes, keys) then from else FirstDraw(draws, codes, keys, from + 1)
  }

  /** The loop drawing a fresh code: the first draw not taken, or still drawing when the
      supply ends. */
  method DrawCode(draws: seq<string>, codes: set<string>, keys: Keys) returns (found: bool, code: string)
    ensures var n := FirstDraw(draws, codes, keys, 0);
            && (found <==> n < |draws|)
            && (found ==> code == keys.upper(draws[n]) && code != "" && code !in codes)
  {
    var i := 0;
    while i < |draws|
      invariant 0 <= i <= |draws| && FirstDraw(draws, codes, keys, i) == FirstDraw(draws, codes, keys, 0)
    {
      code := keys.upper(draws[i]);
      if code != "" && code !in codes {
        return true, code;
      }
      i := i + 1;
    }
    return false, "";
  }

  datatype Fate = Made | Skipped(problem: Problem)

  /** What becomes of a row given the attendees already there: emails are checked before codes,
      and the store is asked last. */
  function Judge(row: Row, a: Attendee, seen: seq<Attendee>, keys: Keys): Fate {
    if EmailClash(a, seen, keys) then Skipped(DuplicateEmail)
    else if CodeClash(a, seen, keys) then Skipped(DuplicateCode)
    else if !row.insert.Answered? then Skipped(CreateFailed)
    else Made
  }

  ghost function Created(done: seq<Attendee>, fates: seq<Fate>): seq<Attendee>
    requires |done| == |fates|
  {
    if done == [] then []
    else
      var n := |done| - 1;
      Created(done[..n], fates[..n]) + if fates[n].Made? then [done[n]] else []
  }

  /** The attendees row `i` is checked against: the old ones and the earlier created rows. */
  ghost function Against(old_: seq<Attendee>, done: seq<Attendee>, fates: seq<Fate>, i: nat): seq<Attendee>
    requires i <= |done| == |fates|
  {
    old_ + Created(done[..i], fates[..i])
  }

  /** The row brings a code of its own. */
  predicate HasCode(row: Row, keys: Keys) {
    row.fields.code != "" && keys.upper(row.fields.code) != ""
  }

  /** `a` is the attendee built from `row`: its fields, with its own code upper-cased, or the
      first draw that is not among the codes taken so far. */
  predicate BuiltFrom(row: Row, a: Attendee, codes: set<string>, keys: Keys) {
    && a == row.fields.(code := a.code) && a.code != ""
    && if HasCode(row, keys) then a.code == keys.upper(row.fields.code)
       else
         var n := FirstDraw(row.draws, codes, keys, 0);
         n < |row.draws| && a.code == keys.upper(row.draws[n]) && a.code !in codes
  }

  ghost predicate JudgedAt(row: Row, a: Attendee, fate: Fate, seen: seq<Attendee>, keys: Keys) {
    BuiltFrom(row, a, CodeKeys(seen, keys), keys) && fate == Judge(row, a, seen, keys)
  }

  /** Row by row, each fate is the judgement against everything before it. */
  ghost predicate Judged(old_: seq<Attendee>, rows: seq<Row>, done: seq<Attendee>, fates: seq<Fate>, keys: Keys) {
    && |done| == |fates| <= |rows|
    && forall i :: 0 <= i < |done| ==> JudgedAt(rows[i], done[i], fates[i], Against(old_, done, fates, i), keys)
  }

  function MadeCount(fates: seq<Fate>): nat {
    if fates == [] then 0 else MadeCount(fates[..|fates| - 1]) + if fates[|fates| - 1].Made? then 1 else 0
  }

  function Errors(fates: seq<Fate>): seq<RowError> {
    if fates == [] then []
    else
      var n := |fates| - 1;
      Errors(fates[..n]) + if fates[n].Skipped? then [RowError(n + 1, fates[n].problem)] else []
  }

  lemma CreatedGrows(done: seq<Attendee>, fates: seq<Fate>, a: Attendee, fate: Fate)
    requires |done| == |fates|
    ensures Created(done + [a], fates + [fate]) == Created(done, fates) + if fate.Made? then [a] else []
  {
    assert (done + [a])[..|done|] == done && (fates + [fate])[..|fates|] == fates;
  }

  lemma JudgedStep(old_: seq<Attendee>, rows: seq<Row>, done: seq<Attendee>, fates: seq<Fate>, keys: Keys,
                   a: Attendee, fate: Fate)
    requires Judged(old_, rows, done, fates, keys) && |done| < |rows|
    requires JudgedAt(rows[|done|], a, fate, old_ + Created(done, fates), keys)
    ensures Judged(old_, rows, done + [a], fates + [fate], keys)
  {
    var d, f, n := done + [a], fates + [fate], |done|;
    AgainstKept(old_, done, fates, a, fate, n);
    assert done[..n] == done && fates[..n] == fates;
    forall i | 0 <= i < n
      ensures JudgedAt(rows[i], d[i], f[i], Against(old_, d, f, i), keys)
    {
      AgainstKept(old_, done, fates, a, fate, i);
      assert JudgedAt(rows[i], done[i], fates[i], Against(old_, done, fates, i), keys);
    }
  }

  /** A later row changes nothing about what the earlier ones were checked against. */
  lemma AgainstKept(old_: seq<Attendee>, done: seq<Attendee>, fates: seq<Fate>, a: Attendee, fate: Fate, i: nat)
    requires i <= |done| == |fates|
    ensures Against(old_, done + [a], fates + [fate], i) == Against(old_, done, fates, i)
  {
    assert (done + [a])[..i] == done[..i] && (fates + [fate])[..i] == fates[..i];
  }

  lemma ErrorsGrow(fates: seq<Fate>, fate: Fate)
    ensures Errors(fates + [fate]) ==
            Errors(fates) + if fate.Skipped? then [RowError(|fates| + 1, fate.problem)] else []
    ensures MadeCount(fates + [fate]) == MadeCount(fates) + if fate.Made? then 1 else 0
  {
    assert (fates + [fate])[..|fates|] == fates;
  }

  lemma {:induction false} MadeCountPositive(fates: seq<Fate>)
    ensures MadeCount(fates) > 0 <==> exists i :: 0 <= i < |fates| && fates[i].Made?
    decreases |fates|
  {
    if fates != [] {
      var init := fates[..|fates| - 1];
      MadeCountPositive(init);
      assert forall i :: 0 <= i < |init| ==> init[i] == fates[i];
    }
  }

  /** The row has no code, and its generator has accepted none of the draws. */
  predicate StillDrawing(row: Row, codes: set<string>, keys: Keys) {
    !HasCode(row, keys) && FirstDraw(row.draws, codes, keys, 0) == |row.draws|
  }

  /** The attendee built from a row, unless the code generator is still drawing. */
  method Build(row: Row, codes: set<string>, keys: Keys) returns (ok: bool, a: Attendee)
    ensures ok ==> BuiltFrom(row, a, codes, keys)
    ensures !ok <==> StillDrawing(row, codes, keys)
  {
    a := row.fields;
    if a.code != "" {
      a := a.(code := keys.upper(a.code));
    }
    if a.code == "" {
      var found, code := DrawCode(row.draws, codes, keys);
      if !found {
        return false, a;
      }
      a := a.(code := code);
    }
    return true, a;
  }

  method Decide(row: Row, a: Attendee, emails: set<string>, codes: set<string>, keys: Keys, ghost seen: seq<Attendee>)
    returns (fate: Fate)
    requires emails == EmailKeys(seen, keys) && codes == CodeKeys(seen, keys)
    ensures fate == Judge(row, a, seen, keys)
  {
    fate := Made;
    if a.email != "" && keys.lower(a.email) in emails {
      fate := Skipped(DuplicateEmail);
    } else if keys.upper(a.code) in codes {
      fate := Skipped(DuplicateCode);
    } else if !row.insert.Answered? {
      fate := Skipped(CreateFailed);
    }
  }

  method Track(a: Attendee, emails: set<string>, codes: set<string>, keys: Keys, ghost seen: seq<Attendee>)
    returns (emails': set<string>, codes': set<string>)
    requires emails == EmailKeys(seen, keys) && codes == CodeKeys(seen, keys) && a.code != ""
    ensures emails' == EmailKeys(seen + [a], keys) && codes' == CodeKeys(seen + [a], keys)
  {
    KeysAppend(seen, a, keys);
    emails' := if a.email != "" then emails + {keys.lower(a.email)} else emails;
    codes' := codes + {keys.upper(a.code)};
  }

  /** The loop's variables after the rows `done`. */
  ghost predicate Progress(old_: seq<Attendee>, rows: seq<Row>, keys: Keys, done: seq<Attendee>, fates: seq<Fate>,
                           emails: set<string>, codes: set<string>, created: nat, errors: seq<RowError>) {
    && Judged(old_, rows, done, fates, keys)
    && emails == EmailKeys(old_ + Created(done, fates), keys)
    && codes == CodeKeys(old_ + Created(done, fates), keys)
    && created == MadeCount(fates) && errors == Errors(fates) && created + |errors| == |done|
  }

  lemma Advance(old_: seq<Attendee>, rows: seq<Row>, keys: Keys, done: seq<Attendee>, fates: seq<Fate>,
                emails: set<string>, codes: set<string>, created: nat, errors: seq<RowError>, a: Attendee, fate: Fate,
                emails': set<string>, codes': set<string>, created': nat, errors': seq<RowError>)
    requires Progress(old_, rows, keys, done, fates, emails, codes, created, errors) && |done| < |rows|
    requires JudgedAt(rows[|done|], a, fate, old_ + Created(done, fates), keys)
    requires fate.Made? ==>
               && emails' == EmailKeys(old_ + Created(done, fates) + [a], keys)
               && codes' == CodeKeys(old_ + Created(done, fates) + [a], keys)
               && created' == created + 1 && errors' == errors
    requires fate.Skipped? ==>
               && emails' == emails && codes' == codes && created' == created
               && errors' == errors + [RowError(|done| + 1, fate.problem)]
    ensures Progress(old_, rows, keys, done + [a], fates + [fate], emails', codes', created', errors')
  {
    JudgedStep(old_, rows, done, fates, keys, a, fate);
    SeenGrows(old_, done, fates, a, fate);
    ErrorsGrow(fates, fate);
  }

  lemma SeenGrows(old_: seq<Attendee>, done: seq<Attendee>, fates: seq<Fate>, a: Attendee, fate: Fate)
    requires |done| == |fates|
    ensures fate.Made? ==> old_ + Created(done + [a], fates + [fate]) == old_ + Created(done, fates) + [a]
    ensures fate.Skipped? ==> Created(done + [a], fates + [fate]) == Created(done, fates)
  {
    CreatedGrows(done, fates, a, fate);
  }

  /** One row whose attendee is built: check, create, track. */
  method ImportRow(old_: seq<Attendee>, rows: seq<Row>, keys: Keys, n: nat, a: Attendee,
                   emails: set<string>, codes: set<string>, created: nat, errors: seq<RowError>,
                   ghost done: seq<Attendee>, ghost fates: seq<Fate>)
    returns (emails': set<string>, codes': set<string>, created': nat, errors': seq<RowError>, skip: nat,
             ghost done': seq<Attendee>, ghost fates': seq<Fate>)
    requires Progress(old_, rows, keys, done, fates, emails, codes, created, errors) && |done| == n < |rows|
    requires BuiltFrom(rows[n], a, codes, keys)
    ensures Progress(old_, rows, keys, done', fates', emails', codes', created', errors')
    ensures |errors'| == |errors| + skip && |done'| == n + 1 && done' == done + [a]
  {
    ghost var seen := old_ + Created(done, fates);
    var fate := Decide(rows[n], a, emails, codes, keys, seen);
    emails', codes', created', errors', skip := emails, codes, created, errors, 0;
    if fate.Made? {
      emails', codes' := Track(a, emails, codes, keys, seen);
      created' := created + 1;
    } else {
      errors' := errors + [RowError(n + 1, fate.problem)];
      skip := 1;
    }
    done', fates' := done + [a], fates + [fate];
    Advance(old_, rows, keys, done, fates, emails, codes, created, errors, a, fate, emails', codes', created', errors');
  }

  lemma Start(old_: seq<Attendee>, rows: seq<Row>, keys: Keys)
    ensures Progress(old_, rows, keys, [], [], EmailKeys(old_, keys), CodeKeys(old_, keys), 0, [])
  {
    assert old_ + Created([], []) == old_;
  }

  /** The attendees the duplicate check starts from: none when the listing fails. */
  function Base(stored: seq<Attendee>, listed: bool): seq<Attendee> {
    if listed then stored else []
  }

  /** BulkCreateAttendees.  `stored` are the event's attendees and `listed` says whether they could
      be read; `done` lists the attendee built for each row and `fates` what became
      of it; `stalled` says the code generator of the next row is still drawing. */
  method BulkCreate(stored: seq<Attendee>, listed: bool, rows: seq<Row>, keys: Keys)
    returns (created: nat, skipped: nat, errors: seq<RowError>, publish: bool, stalled: bool,
             ghost done: seq<Attendee>, ghost fates: seq<Fate>)
    ensures Judged(Base(stored, listed), rows, done, fates, keys)
    ensures created == MadeCount(fates) && errors == Errors(fates)
    ensures skipped == |errors| && created + skipped == |done|
    ensures publish <==> exists i :: 0 <= i < |fates| && fates[i].Made?
    ensures (exists i :: StoredRow(rows, fates, i)) && !publish <==>
              (forall i :: 0 <= i < |fates| ==> !fates[i].Made?) && (exists i :: StoredRow(rows, fates, i) && rows[i].insert.Lost?)
    ensures if stalled then
              |done| < |rows| && StillDrawing(rows[|done|], CodeKeys(Base(stored, listed) + Created(done, fates), keys), keys)
            else |done| == |rows|
  {
    var old_ := Base(stored, listed);
    var emails, codes := LoadKeys(old_, keys);
    Start(old_, rows, keys);
    created, skipped, errors, stalled := 0, 0, [], false;
    done, fates := [], [];
    var n := 0;
    while n < |rows| && !stalled
      invariant 0 <= n <= |rows| && |done| == n && skipped == |errors|
      invariant Progress(old_, rows, keys, done, fates, emails, codes, created, errors)
      invariant stalled ==> n < |rows| && StillDrawing(rows[n], codes, keys)
      decreases |rows| - n, !stalled
    {
      var ok, a := Build(rows[n], codes, keys);
      if ok {
        var skip: nat;
        emails, codes, created, errors, skip, done, fates :=
          ImportRow(old_, rows, keys, n, a, emails, codes, created, errors, done, fates);
        skipped := skipped + skip;
        n := n + 1;
      } else {
        stalled := true;
      }
    }
    MadeCountPositive(fates);
    publish := created > 0;
  }

  method LoadKeys(old_: seq<Attendee>, keys: Keys) returns (emails: set<string>, codes: set<string>)
    ensures emails == EmailKeys(old_, keys) && codes == CodeKeys(old_, keys)
  {
    emails, codes := {}, {};
    var k := 0;
    while k < |old_|
      invariant 0 <= k <= |old_|
      invariant emails == EmailKeys(old_[..k], keys) && codes == CodeKeys(old_[..k], keys)
    {
      KeysAppend(old_[..k], old_[k], keys);
      assert old_[..k + 1] == old_[..k] + [old_[k]];
      if old_[k].email != "" {
        emails := emails + {keys.lower(old_[k].email)};
      }
      if old_[k].code != "" {
        codes := codes + {keys.upper(old_[k].code)};
      }
      k := k + 1;
    }
    assert old_[..k] == old_;
  }

  /** A row is created exactly when the store accepts it and its keys clash with no attendee the
      listing returned and no earlier created row. */
  lemma CreatedExactlyWhen(old_: seq<Attendee>, rows: seq<Row>, done: seq<Attendee>, fates: seq<Fate>, keys: Keys, i: nat)
    requires Judged(old_, rows, done, fates, keys) && i < |done|
    ensures fates[i].Made? <==>
              rows[i].insert.Answered?
              && (forall x :: x in old_ ==> !SameKeys(x, done[i], keys))
              && (forall j :: 0 <= j < i && fates[j].Made? ==> !SameKeys(done[j], done[i], keys))
  {
    var seen := Against(old_, done, fates, i);
    assert JudgedAt(rows[i], done[i], fates[i], seen, keys);
    assert fates[i].Made? <==> rows[i].insert.Answered? && forall x :: x in seen ==> !SameKeys(x, done[i], keys);
    SeenMembers(old_, done, fates, i);
  }

  /** Why a row is skipped: its email is taken; its email is free and its code is taken; or both are
      free and the INSERT is not answered.  A key is taken by an attendee the listing returned or
      by an earlier created row. */
  lemma SkippedExactlyWhen(old_: seq<Attendee>, rows: seq<Row>, done: seq<Attendee>, fates: seq<Fate>, keys: Keys, i: nat)
    requires Judged(old_, rows, done, fates, keys) && i < |done|
    ensures var emailTaken :=
              && done[i].email != ""
              && exists x :: TakenBy(old_, done, fates, i, x) && x.email != "" && keys.lower(x.email) == keys.lower(done[i].email);
            var codeTaken :=
              exists x :: TakenBy(old_, done, fates, i, x) && x.code != "" && keys.upper(x.code) == keys.upper(done[i].code);
            && (fates[i] == Skipped(DuplicateEmail) <==> emailTaken)
            && (fates[i] == Skipped(DuplicateCode) <==> !emailTaken && codeTaken)
            && (fates[i] == Skipped(CreateFailed) <==> !emailTaken && !codeTaken && !rows[i].insert.Answered?)
  {
    var seen := Against(old_, done, fates, i);
    assert JudgedAt(rows[i], done[i], fates[i], seen, keys);
    SeenMembers(old_, done, fates, i);
    assert forall x :: x in seen <==> TakenBy(old_, done, fates, i, x);
  }

  /** What is imported for a row: its fields, with its own code upper-cased, or else the upper-cased
      first draw that is neither empty nor taken. */
  lemma BuiltExactly(old_: seq<Attendee>, rows: seq<Row>, done: seq<Attendee>, fates: seq<Fate>, keys: Keys, i: nat)
    requires Judged(old_, rows, done, fates, keys) && i < |done|
    ensures var own, a := rows[i].fields, done[i];
            && a.first == own.first && a.last == own.last && a.email == own.email && a.code != ""
            && if own.code != "" && keys.upper(own.code) != "" then a.code == keys.upper(own.code)
               else exists n :: DrawnAt(old_, rows[i], done, fates, keys, i, n)
  {
    var codes := CodeKeys(Against(old_, done, fates, i), keys);
    assert JudgedAt(rows[i], done[i], fates[i], Against(old_, done, fates, i), keys);
    SeenMembers(old_, done, fates, i);
    if !HasCode(rows[i], keys) {
      var n := FirstDraw(rows[i].draws, codes, keys, 0);
      forall m | 0 <= m < n
        ensures keys.upper(rows[i].draws[m]) == "" || exists x :: TakenBy(old_, done, fates, i, x) && x.code != ""
                                                            && keys.upper(x.code) == keys.upper(rows[i].draws[m])
      {
        assert !FreshDraw(rows[i].draws, m, codes, keys);
      }
      assert DrawnAt(old_, rows[i], done, fates, keys, i, n);
    }
  }

  /** Draw n is the code of attendee i, every draw before it was empty or taken, and it was not. */
  ghost predicate DrawnAt(old_: seq<Attendee>, row: Row, done: seq<Attendee>, fates: seq<Fate>, keys: Keys, i: nat, n: int)
    requires i < |done| == |fates|
  {
    && 0 <= n < |row.draws| && done[i].code == keys.upper(row.draws[n])
    && (forall x :: TakenBy(old_, done, fates, i, x) && x.code != "" ==> keys.upper(x.code) != done[i].code)
    && forall m :: 0 <= m < n ==>
         || keys.upper(row.draws[m]) == ""
         || exists x :: TakenBy(old_, done, fates, i, x) && x.code != "" && keys.upper(x.code) == keys.upper(row.draws[m])
  }

  /** `x` is among the attendees row i is checked against. */
  predicate TakenBy(old_: seq<Attendee>, done: seq<Attendee>, fates: seq<Fate>, i: nat, x: Attendee)
    requires i <= |done| == |fates|
  {
    x in old_ || exists j :: 0 <= j < i && fates[j].Made? && done[j] == x
  }

  lemma SeenMembers(old_: seq<Attendee>, done: seq<Attendee>, fates: seq<Fate>, i: nat)
    requires i <= |done| == |fates|
    ensures forall x :: x in Against(old_, done, fates, i) <==>
              x in old_ || exists j :: 0 <= j < i && fates[j].Made? && done[j] == x
  {
    CreatedMembers(done[..i], fates[..i]);
    forall x ensures x in Against(old_, done, fates, i) <==> x in old_ || exists j :: 0 <= j < i && fates[j].Made? && done[j] == x {
      if x in Created(done[..i], fates[..i]) {
        var j :| 0 <= j < i && fates[..i][j].Made? && done[..i][j] == x;
        assert fates[j].Made? && done[j] == x;
      }
      if j :| 0 <= j < i && fates[j].Made? && done[j] == x {
        assert fates[..i][j].Made? && done[..i][j] == x;
      }
    }
  }

  /** A row without a code is never skipped for a duplicate code, since its draw is checked first
      (upper-casing an upper-cased draw changes nothing). */
  lemma DrawnNeverDuplicate(old_: seq<Attendee>, rows: seq<Row>, done: seq<Attendee>, fates: seq<Fate>, keys: Keys, i: nat)
    requires Judged(old_, rows, done, fates, keys) && i < |done| && !HasCode(rows[i], keys)
    requires forall d :: d in rows[i].draws ==> keys.upper(keys.upper(d)) == keys.upper(d)
    ensures fates[i] != Skipped(DuplicateCode)
  {
    assert JudgedAt(rows[i], done[i], fates[i], Against(old_, done, fates, i), keys);
  }

  /** So the keys of the created rows are distinct from each other and from all the listed ones. */
  lemma NewKeysDistinct(old_: seq<Attendee>, rows: seq<Row>, done: seq<Attendee>, fates: seq<Fate>, keys: Keys)
    requires Judged(old_, rows, done, fates, keys)
    ensures forall i, x :: 0 <= i < |done| && fates[i].Made? && x in old_ ==> !SameKeys(x, done[i], keys)
    ensures forall i, j :: 0 <= i < j < |done| && fates[i].Made? && fates[j].Made? ==> !SameKeys(done[i], done[j], keys)
  {
    forall i | 0 <= i < |done| && fates[i].Made?
      ensures forall x :: x in old_ ==> !SameKeys(x, done[i], keys)
      ensures forall j :: 0 <= j < i && fates[j].Made? ==> !SameKeys(done[j], done[i], keys)
    {
      CreatedExactlyWhen(old_, rows, done, fates, keys, i);
    }
  }

  predicate SameKeys(x: Attendee, a: Attendee, keys: Keys) {
    || (x.email != "" && a.email != "" && keys.lower(x.email) == keys.lower(a.email))
    || (x.code != "" && keys.upper(x.code) == keys.upper(a.code))
  }

  /** Row i is in the table afterwards: counted as created, or stored behind an INSERT error. */
  ghost predicate StoredRow(rows: seq<Row>, fates: seq<Fate>, i: int) {
    && 0 <= i < |fates| <= |rows|
    && (fates[i].Made? || (fates[i] == Skipped(CreateFailed) && rows[i].insert.Lost?))
  }

  ghost predicate ClearOfCreated(done: seq<Attendee>, fates: seq<Fate>, keys: Keys, i: int) {
    0 <= i < |done| == |fates| && forall j :: 0 <= j < i && fates[j].Made? ==> !SameKeys(done[j], done[i], keys)
  }

  lemma StoredExactlyWhen(old_: seq<Attendee>, rows: seq<Row>, done: seq<Attendee>, fates: seq<Fate>, keys: Keys, i: nat)
    requires Judged(old_, rows, done, fates, keys) && i < |done|
    ensures StoredRow(rows, fates, i) <==>
              && !rows[i].insert.RolledBack?
              && (forall x :: x in old_ ==> !SameKeys(x, done[i], keys))
              && ClearOfCreated(done, fates, keys, i)
  {
    NoClashMeans(old_, rows, done, fates, keys, i);
  }

  lemma NoClashMeans(old_: seq<Attendee>, rows: seq<Row>, done: seq<Attendee>, fates: seq<Fate>, keys: Keys, i: nat)
    requires Judged(old_, rows, done, fates, keys) && i < |done|
    ensures fates[i] != Skipped(DuplicateEmail) && fates[i] != Skipped(DuplicateCode) <==>
              && (forall x :: x in old_ ==> !SameKeys(x, done[i], keys))
              && ClearOfCreated(done, fates, keys, i)
  {
    var seen := Against(old_, done, fates, i);
    assert JudgedAt(rows[i], done[i], fates[i], seen, keys);
    SeenMembers(old_, done, fates, i);
  }

  /** A row in the table clashes with an attendee stored before the import if and only if the
      listing failed and nothing else stood in its way: the keys are the same, the INSERT took
      effect, and no earlier created row clashes. */
  lemma ClashWithStored(stored: seq<Attendee>, listed: bool, rows: seq<Row>, done: seq<Attendee>, fates: seq<Fate>,
                        keys: Keys, i: nat, x: Attendee)
    requires Judged(Base(stored, listed), rows, done, fates, keys) && i < |done| && x in stored
    ensures StoredRow(rows, fates, i) && SameKeys(x, done[i], keys) <==>
              && !listed
              && SameKeys(x, done[i], keys)
              && !rows[i].insert.RolledBack?
              && ClearOfCreated(done, fates, keys, i)
  {
    StoredExactlyWhen(Base(stored, listed), rows, done, fates, keys, i);
  }

  /** Two rows of one import end up in the table with a common key if and only if the first was
      stored behind an error, so that its keys were not tracked, and nothing else stood in the
      way of the second. */
  lemma ClashAmongStored(old_: seq<Attendee>, rows: seq<Row>, done: seq<Attendee>, fates: seq<Fate>, keys: Keys, i: nat, j: nat)
    requires Judged(old_, rows, done, fates, keys) && i < j < |done|
    ensures StoredRow(rows, fates, i) && StoredRow(rows, fates, j) && SameKeys(done[i], done[j], keys) <==>
              && StoredRow(rows, fates, i) && rows[i].insert.Lost?
              && SameKeys(done[i], done[j], keys)
              && !rows[j].insert.RolledBack?
              && (forall x :: x in old_ ==> !SameKeys(x, done[j], keys))
              && ClearOfCreated(done, fates, keys, j)
  {
    StoredExactlyWhen(old_, rows, done, fates, keys, i);
    StoredExactlyWhen(old_, rows, done, fates, keys, j);
    CreatedExactlyWhen(old_, rows, done, fates, keys, i);
  }

  /** After a failed listing a stored email is imported a second time. */
  lemma FailedListingDuplicates(keys: Keys)
    requires keys.upper("B") == "B"
    ensures var old_ := Attendee("Ann", "A", "a@x", "A");
            var row := Row(Attendee("Ann", "A", "a@x", "B"), [], Answered);
            && Judged(Base([old_], false), [row], [row.fields], [Made], keys)
            && StoredRow([row], [Made], 0) && SameKeys(old_, row.fields, keys)
  {
    var row := Row(Attendee("Ann", "A", "a@x", "B"), [], Answered);
    assert Created([row.fields][..0], [Made][..0]) == [];
    assert Against([], [row.fields], [Made], 0) == [];
    assert EmailKeys([], keys) == {} && CodeKeys([], keys) == {};
  }

  /** Behind a lost answer the same file stores one email twice, and counts it once. */
  lemma LostInsertDuplicates(keys: Keys)
    requires keys.upper("B") == "B" && keys.upper("C") == "C"
    ensures var x, y := Attendee("Ann", "A", "a@x", "B"), Attendee("Ann", "A", "a@x", "C");
            var rows, fates := [Row(x, [], Lost), Row(y, [], Answered)], [Skipped(CreateFailed), Made];
            && Judged([], rows, [x, y], fates, keys)
            && StoredRow(rows, fates, 0) && StoredRow(rows, fates, 1) && SameKeys(x, y, keys)
            && MadeCount(fates) == 1
  {
    var x, y := Attendee("Ann", "A", "a@x", "B"), Attendee("Ann", "A", "a@x", "C");
    var fates := [Skipped(CreateFailed), Made];
    assert [x, y][..1] == [x] && [x, y][..0] == [] && [x][..0] == [];
    assert fates[..1] == [fates[0]] && fates[..0] == [] && [fates[0]][..0] == [];
    assert Created([], []) == [] && Created([x], [fates[0]]) == [];
    assert Against([], [x, y], fates, 0) == [] && Against([], [x, y], fates, 1) == [];
    assert EmailKeys([], keys) == {} && CodeKeys([], keys) == {};
    assert MadeCount([fates[0]]) == 0;
  }

  lemma {:induction false} CreatedMembers(done: seq<Attendee>, fates: seq<Fate>)
    requires |done| == |fates|
    ensures forall x :: x in Created(done, fates) <==> exists j :: 0 <= j < |done| && fates[j].Made? && done[j] == x
    decreases |done|
  {
    if done != [] {
      var n := |done| - 1;
      CreatedMembers(done[..n], fates[..n]);
      forall x ensures x in Created(done, fates) <==> exists j :: 0 <= j < |done| && fates[j].Made? && done[j] == x {
        if x in Created(done[..n], fates[..n]) {
          var j :| 0 <= j < n && fates[..n][j].Made? && done[..n][j] == x;
          assert fates[j].Made? && done[j] == x;
        }
        if j :| 0 <= j < n && fates[j].Made? && done[j] == x {
          assert fates[..n][j].Made? && done[..n][j] == x;
        }
      }
    }
  }

  /** A recorded error is that of a skipped row. */
  ghost predicate ErrorOf(fates: seq<Fate>, e: RowError) {
    1 <= e.row <= |fates| && fates[e.row - 1] == Skipped(e.problem)
  }

  lemma {:induction false} ErrorsHonest(fates: seq<Fate>)
    ensures forall j :: 0 <= j < |Errors(fates)| ==> ErrorOf(fates, Errors(fates)[j])
    decreases |fates|
  {
    if fates != [] {
      var n := |fates| - 1;
      ErrorsHonest(fates[..n]);
      assert forall e :: ErrorOf(fates[..n], e) ==> ErrorOf(fates, e);
    }
  }

  lemma {:induction false} ErrorsIncrease(fates: seq<Fate>)
    ensures forall j, k :: 0 <= j < k < |Errors(fates)| ==> Errors(fates)[j].row < Errors(fates)[k].row
    decreases |fates|
  {
    if fates != [] {
      var n := |fates| - 1;
      ErrorsIncrease(fates[..n]);
      ErrorsHonest(fates[..n]);
    }
  }

  lemma {:induction false} ErrorsComplete(fates: seq<Fate>, i: nat)
    requires i < |fates| && fates[i].Skipped?
    ensures RowError(i + 1, fates[i].problem) in Errors(fates)
    decreases |fates|
  {
    var n := |fates| - 1;
    if i < n {
      ErrorsComplete(fates[..n], i);
    }
  }

  lemma {:induction false} ErrorsCounted(fates: seq<Fate>)
    ensures MadeCount(fates) + |Errors(fates)| == |fates|
    decreases |fates|
  {
    if fates != [] {
      ErrorsCounted(fates[..|fates| - 1]);
    }
  }

  /** Exactly one error per skipped row, in increasing row order, with the reason it was skipped. */
  lemma OneErrorPerSkip(fates: seq<Fate>)
    ensures forall j, k :: 0 <= j < k < |Errors(fates)| ==> Errors(fates)[j].row < Errors(fates)[k].row
    ensures forall j :: 0 <= j < |Errors(fates)| ==> ErrorOf(fates, Errors(fates)[j])
    ensures forall i :: 0 <= i < |fates| && fates[i].Skipped? ==> RowError(i + 1, fates[i].problem) in Errors(fates)
    ensures MadeCount(fates) + |Errors(fates)| == |fates|
  {
    ErrorsIncrease(fates);
    ErrorsHonest(fates);
    ErrorsCounted(fates);
    forall i | 0 <= i < |fates| && fates[i].Skipped?
      ensures RowError(i + 1, fates[i].problem) in Errors(fates)
    {
      ErrorsComplete(fates, i);
    }
  }
}
