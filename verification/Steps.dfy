/** The persisted step rows of one run: the step transition table (transitions.ts), the two writers of a
    step's status (step-status.ts), the retry's reset (step-recovery.ts) and the bookkeeping of an abort
    with cleanup (cleanup.ts). */
module Steps {
  import opened Common

  datatype StepStatus = Pending | Running | Ok | Failed | Skipped

  /** A row's name: a planned step, or the row an abort appends for one registered compensation (stored
      under the prefix "cleanup:", which no planned step carries). */
  datatype StepName = Work(name: string) | Cleanup(undoes: string)

  /** `cleanups` and `data` are the two halves of the checkpoint column. */
  datatype StepRow = StepRow(ordinal: nat, name: StepName, status: StepStatus, cleanups: seq<string>, data: Option<string>)

  predicate CanStep(from: StepStatus, to: StepStatus) {
    match from
    case Pending => !to.Ok?
    case Running => !to.Running?
    case Ok => to.Pending?
    case Failed => !to.Ok?
    case Skipped => to.Pending? || to.Skipped?
  }

  predicate Finished(row: StepRow) { row.status.Ok? || row.status.Skipped? }

  ghost predicate AllFinished(rows: seq<StepRow>) { forall i :: 0 <= i < |rows| ==> Finished(rows[i]) }

  // ---------------------------------------------------------------- the two writers

  /** One row whose status the caller has read. The table's refusal is the precondition: whoever calls
      this has shown that the change is one the table allows. */
  function SetStatus(rows: seq<StepRow>, i: nat, to: StepStatus): seq<StepRow>
    requires i < |rows| && CanStep(rows[i].status, to)
  {
    rows[i := rows[i].(status := to)]
  }

  /** Every row standing in one of `from`, each of which must be allowed to reach `to`. */
  function SetStatusIn(rows: seq<StepRow>, from: set<StepStatus>, to: StepStatus): (r: seq<StepRow>)
    requires forall f :: f in from ==> CanStep(f, to)
    ensures |r| == |rows|
    ensures forall i :: 0 <= i < |r| ==> r[i] == if rows[i].status in from then rows[i].(status := to) else rows[i]
  {
    seq(|rows|, i requires 0 <= i < |rows| => if rows[i].status in from then rows[i].(status := to) else rows[i])
  }

  /** What a crash left running goes back to pending; nothing else moves. */
  function Normalize(rows: seq<StepRow>): seq<StepRow> {
    SetStatusIn(rows, {Running}, Pending)
  }

  function Abandon(rows: seq<StepRow>): seq<StepRow> {
    SetStatusIn(rows, {Pending, Running, Failed, Skipped}, Skipped)
  }

  // ---------------------------------------------------------------- retry

  /** A retry's reset: every row from `ordinal` on that is not ok becomes pending and keeps its checkpoint. */
  function ResetFrom(rows: seq<StepRow>, ordinal: nat): (r: seq<StepRow>)
    ensures |r| == |rows|
    ensures forall i :: 0 <= i < |r| ==>
      r[i] == if rows[i].ordinal >= ordinal && !rows[i].status.Ok? then rows[i].(status := Pending) else rows[i]
  {
    seq(|rows|, i requires 0 <= i < |rows| =>
      if rows[i].ordinal >= ordinal && !rows[i].status.Ok? then rows[i].(status := Pending) else rows[i])
  }

  method ResetLater(rows: seq<StepRow>, ordinal: nat) returns (r: seq<StepRow>)
    ensures r == ResetFrom(rows, ordinal)
  {
    r := rows;
    for i := 0 to |rows|
      invariant |r| == |rows|
      invariant forall k :: 0 <= k < i ==> r[k] == ResetFrom(rows, ordinal)[k]
      invariant forall k :: i <= k < |rows| ==> r[k] == rows[k]
    {
      if r[i].ordinal >= ordinal && !r[i].status.Ok? {
        r := SetStatus(r, i, Pending);
      }
    }
  }

  // ---------------------------------------------------------------- the walk over the rows

  /** The first row that is not finished, or the number of rows. */
  function FirstUnfinished(rows: seq<StepRow>): (k: nat)
    ensures k <= |rows|
    ensures forall i :: 0 <= i < k ==> Finished(rows[i])
    ensures k < |rows| ==> !Finished(rows[k])
  {
    if rows == [] || !Finished(rows[0]) then 0 else 1 + FirstUnfinished(rows[1..])
  }

  lemma FirstUnfinishedIs(rows: seq<StepRow>, k: nat)
    requires k <= |rows|
    requires forall i :: 0 <= i < k ==> Finished(rows[i])
    requires k < |rows| ==> !Finished(rows[k])
    ensures FirstUnfinished(rows) == k
  {
  }

  /** The row of that name, or the number of rows. */
  function Find(rows: seq<StepRow>, name: StepName): (k: nat)
    ensures k <= |rows|
    ensures k < |rows| ==> rows[k].name == name
    ensures k == |rows| ==> forall i :: 0 <= i < |rows| ==> rows[i].name != name
  {
    if rows == [] || rows[0].name == name then 0 else 1 + Find(rows[1..], name)
  }

  /** The row that is found is the first of its name. */
  lemma {:induction false} FoundIsFirst(rows: seq<StepRow>, name: StepName, i: nat)
    requires i < Find(rows, name)
    ensures rows[i].name != name
  {
    if i > 0 { FoundIsFirst(rows[1..], name, i - 1); }
  }

  predicate HasRow(rows: seq<StepRow>, name: StepName) { Find(rows, name) < |rows| }

  lemma HasRowIff(rows: seq<StepRow>, name: StepName)
    ensures HasRow(rows, name) <==> exists i :: 0 <= i < |rows| && rows[i].name == name
  {
    if HasRow(rows, name) { assert rows[Find(rows, name)].name == name; }
  }

  predicate IsCleanupRun(rows: seq<StepRow>) { exists i :: 0 <= i < |rows| && rows[i].name.Cleanup? }

  // ---------------------------------------------------------------- registered compensations

  /** `appendCleanupName`: a name is kept once per step. */
  function AddName(names: seq<string>, name: string): (r: seq<string>)
    ensures forall n :: n in r <==> n in names || n == name
    ensures names <= r
  {
    if name in names then names else names + [name]
  }

  /** The registered names as their compensations are to run: last step first, and a step's own as it registered them. */
  function Registered(rows: seq<StepRow>): seq<string> {
    if rows == [] then [] else Registered(rows[1..]) + rows[0].cleanups
  }

  /** Where the `p`th name of row `i` stands among the registered names. */
  function PlaceOf(rows: seq<StepRow>, i: nat, p: nat): nat
    requires i < |rows| && p < |rows[i].cleanups|
  {
    if i == 0 then |Registered(rows[1..])| + p else PlaceOf(rows[1..], i - 1, p)
  }

  /** Where two arbitrary names stand: a later step's first, and one step's as it registered them. */
  lemma {:induction false} RegisteredOrder(rows: seq<StepRow>, i: nat, p: nat, j: nat, q: nat)
    requires i < |rows| && p < |rows[i].cleanups| && j < |rows| && q < |rows[j].cleanups|
    ensures PlaceOf(rows, i, p) < |Registered(rows)| && Registered(rows)[PlaceOf(rows, i, p)] == rows[i].cleanups[p]
    ensures PlaceOf(rows, i, p) < PlaceOf(rows, j, q) <==> (i > j || (i == j && p < q))
  {
    if i > 0 && j > 0 {
      RegisteredOrder(rows[1..], i - 1, p, j - 1, q);
    } else {
      if i > 0 { RegisteredOrder(rows[1..], i - 1, p, i - 1, p); }
      if j > 0 { RegisteredOrder(rows[1..], j - 1, q, j - 1, q); }
    }
  }

  /** Every place among the registered names belongs to some row's own name: nothing is invented. */
  lemma {:induction false} RegisteredIsComplete(rows: seq<StepRow>, k: nat)
    requires k < |Registered(rows)|
    ensures exists i, p :: 0 <= i < |rows| && 0 <= p < |rows[i].cleanups| && PlaceOf(rows, i, p) == k
  {
    var rest := Registered(rows[1..]);
    if k < |rest| {
      RegisteredIsComplete(rows[1..], k);
      var i, p :| 0 <= i < |rows[1..]| && 0 <= p < |rows[1..][i].cleanups| && PlaceOf(rows[1..], i, p) == k;
      assert PlaceOf(rows, i + 1, p) == k;
    } else {
      assert PlaceOf(rows, 0, k - |rest|) == k;
    }
  }

  lemma {:induction false} RegisteredMembers(rows: seq<StepRow>)
    ensures forall n :: n in Registered(rows) <==> exists i :: 0 <= i < |rows| && n in rows[i].cleanups
  {
    if rows != [] {
      RegisteredMembers(rows[1..]);
      forall n ensures n in Registered(rows) <==> exists i :: 0 <= i < |rows| && n in rows[i].cleanups {
        if i :| 0 <= i < |rows| && n in rows[i].cleanups {
          if i > 0 { assert n in rows[1..][i - 1].cleanups; }
        }
        if i :| 0 <= i < |rows[1..]| && n in rows[1..][i].cleanups { assert n in rows[i + 1].cleanups; }
      }
    }
  }

  lemma {:induction false} NothingRegistered(rows: seq<StepRow>)
    requires forall i :: 0 <= i < |rows| ==> rows[i].cleanups == []
    ensures Registered(rows) == []
  {
    if rows != [] { NothingRegistered(rows[1..]); }
  }

  /** Where only the first two rows registered anything. */
  lemma RegisteredTwo(rows: seq<StepRow>)
    requires |rows| >= 2 && forall i :: 2 <= i < |rows| ==> rows[i].cleanups == []
    ensures Registered(rows) == rows[1].cleanups + rows[0].cleanups
  {
    NothingRegistered(rows[2..]);
    assert rows[1..][1..] == rows[2..] && rows[1..][0] == rows[1];
    assert [] + rows[1].cleanups == rows[1].cleanups;
  }

  method RegisteredCleanupNames(rows: seq<StepRow>) returns (names: seq<string>)
    ensures names == Registered(rows)
  {
    names := [];
    for i := |rows| downto 0
      invariant names == Registered(rows[i..])
    {
      assert rows[i..][1..] == rows[i + 1..];
      ghost var before := names;
      for p := 0 to |rows[i].cleanups|
        invariant names == before + rows[i].cleanups[..p]
      {
        names := names + [rows[i].cleanups[p]];
      }
      assert rows[i].cleanups[..|rows[i].cleanups|] == rows[i].cleanups;
    }
    assert rows[0..] == rows;
  }

  /** Rows that agree on their checkpoints register the same names in the same order. */
  lemma {:induction false} RegisteredSame(a: seq<StepRow>, b: seq<StepRow>)
    requires |a| <= |b|
    requires forall i :: 0 <= i < |a| ==> a[i].cleanups == b[i].cleanups
    requires forall i :: |a| <= i < |b| ==> b[i].cleanups == []
    ensures Registered(a) == Registered(b)
  {
    if a != [] {
      RegisteredSame(a[1..], b[1..]);
    } else if b != [] {
      RegisteredSame(a, b[1..]);
    }
  }

  // ---------------------------------------------------------------- scheduling the compensations

  function MaxOrdinal(rows: seq<StepRow>): (m: nat)
    requires rows != []
    ensures forall i :: 0 <= i < |rows| ==> rows[i].ordinal <= m
    ensures exists i :: 0 <= i < |rows| && rows[i].ordinal == m
  {
    if |rows| == 1 then rows[0].ordinal else
      var rest := MaxOrdinal(rows[1..]);
      if rows[0].ordinal >= rest then rows[0].ordinal else
        assert exists i :: 0 <= i < |rows[1..]| && rows[1..][i].ordinal == rest && rows[i + 1].ordinal == rest;
        rest
  }

  /** The rows that were there: a registered compensation's row is pending again, every other row that
      is not ok is abandoned. */
  function Rearm(rows: seq<StepRow>, names: seq<string>): (r: seq<StepRow>)
    ensures |r| == |rows|
    ensures forall i :: 0 <= i < |r| ==> r[i] == Rearmed(rows[i], names)
  {
    seq(|rows|, i requires 0 <= i < |rows| => Rearmed(rows[i], names))
  }

  function Rearmed(row: StepRow, names: seq<string>): StepRow {
    row.(status := if row.name.Cleanup? && row.name.undoes in names then Pending else if row.status.Ok? then Ok else Skipped)
  }

  function CleanupRow(ordinal: nat, name: string): StepRow {
    StepRow(ordinal, Cleanup(name), Pending, [], None)
  }

  /** The rows appended for the names that have none yet; a name's place fixes its row's ordinal. */
  function Fresh(rows: seq<StepRow>, names: seq<string>, next: nat): seq<StepRow> {
    if names == [] then [] else
      (if HasRow(rows, Cleanup(names[0])) then [] else [CleanupRow(next, names[0])]) + Fresh(rows, names[1..], next + 1)
  }

  function ScheduleNames(rows: seq<StepRow>, names: seq<string>): seq<StepRow>
    requires rows != []
  {
    Rearm(rows, names) + Fresh(rows, names, MaxOrdinal(rows) + 1)
  }

  function Schedule(rows: seq<StepRow>): seq<StepRow>
    requires rows != []
  {
    ScheduleNames(rows, Registered(rows))
  }

  /** A name registered by two steps and scheduled for the first time: the second insert of its row is
      refused by the unique (run, name) index, and the whole transaction with it. */
  ghost predicate Clash(rows: seq<StepRow>, names: seq<string>) {
    exists i, j :: 0 <= i < j < |names| && names[i] == names[j] && !HasRow(rows, Cleanup(names[i]))
  }

  ghost predicate NamesDiffer(rows: seq<StepRow>) {
    forall i, j :: 0 <= i < j < |rows| ==> rows[i].name != rows[j].name
  }

  /** What the scheduling loop has done with the names it has passed. */
  ghost predicate Passed(rows: seq<StepRow>, names: seq<string>, stood: seq<StepRow>, inserted: set<string>) {
    && !Clash(rows, names)
    && stood == Rearm(rows, names)
    && forall n :: n in inserted <==> n in names && !HasRow(rows, Cleanup(n))
  }

  /** The rows as they stand when the scheduling loop has passed the first `i` names. */
  ghost predicate Scheduling(rows: seq<StepRow>, names: seq<string>, i: nat, max: nat, stood: seq<StepRow>, added: seq<StepRow>, inserted: set<string>)
    requires i <= |names|
  {
    Passed(rows, names[..i], stood, inserted) && added + Fresh(rows, names[i..], max + 1 + i) == Fresh(rows, names, max + 1)
  }

  /** `names.forEach`: one row per name, inside one transaction, which a refused insert undoes whole. */
  method ScheduleCleanupSteps(rows: seq<StepRow>, names: seq<string>) returns (r: Option<seq<StepRow>>)
    requires rows != [] && NamesDiffer(rows)
    ensures r.None? <==> Clash(rows, names)
    ensures r.Some? ==> r.value == ScheduleNames(rows, names)
  {
    var max := MaxOrdinal(rows);
    var stood, added, inserted := Abandon(rows), [], {};
    SchedulingBegins(rows, names, max);
    for i := 0 to |names|
      invariant Scheduling(rows, names, i, max, stood, added, inserted)
    {
      var clash;
      clash, stood, added, inserted := ScheduleOne(rows, names, i, max, stood, added, inserted);
      if clash {
        return None;
      }
    }
    SchedulingEnds(rows, names, max, stood, added, inserted);
    return Some(stood + added);
  }

  method ScheduleOne(rows: seq<StepRow>, names: seq<string>, i: nat, max: nat, stood: seq<StepRow>, added: seq<StepRow>, inserted: set<string>)
    returns (clash: bool, stood': seq<StepRow>, added': seq<StepRow>, inserted': set<string>)
    requires i < |names| && NamesDiffer(rows) && Scheduling(rows, names, i, max, stood, added, inserted)
    ensures clash ==> Clash(rows, names)
    ensures !clash ==> Scheduling(rows, names, i + 1, max, stood', added', inserted')
  {
    clash, stood', added', inserted' := false, stood, added, inserted;
    TakeNext(names, i);
    FreshNext(rows, names, i, max + 1 + i, added);
    assert added + [] == added;
    var k := Find(rows, Cleanup(names[i]));
    if k < |rows| {
      // The table is asked about the status read before the rows were abandoned.
      assert CanStep(rows[k].status, Pending);
      PassOld(rows, names[..i], names[i], stood, inserted);
      stood' := stood[k := stood[k].(status := Pending)];
    } else if names[i] in inserted {
      clash := true;
      ClashNext(rows, names[..i], names[i]);
      ClashPrefix(rows, names, i + 1);
    } else {
      PassNew(rows, names[..i], names[i], stood, inserted);
      added' := added + [CleanupRow(max + 1 + i, names[i])];
      inserted' := inserted + {names[i]};
    }
  }

  /** A name that has a row: the row is pending again. */
  lemma PassOld(rows: seq<StepRow>, names: seq<string>, name: string, stood: seq<StepRow>, inserted: set<string>)
    requires Passed(rows, names, stood, inserted) && NamesDiffer(rows) && HasRow(rows, Cleanup(name))
    ensures var k := Find(rows, Cleanup(name)); Passed(rows, names + [name], stood[k := stood[k].(status := Pending)], inserted)
  {
    RearmNext(rows, names, name);
    ClashNext(rows, names, name);
  }

  /** A name met for the first time: a row is inserted for it. */
  lemma PassNew(rows: seq<StepRow>, names: seq<string>, name: string, stood: seq<StepRow>, inserted: set<string>)
    requires Passed(rows, names, stood, inserted) && NamesDiffer(rows) && !HasRow(rows, Cleanup(name)) && name !in inserted
    ensures Passed(rows, names + [name], stood, inserted + {name})
  {
    RearmNext(rows, names, name);
    ClashNext(rows, names, name);
  }

  lemma SchedulingBegins(rows: seq<StepRow>, names: seq<string>, max: nat)
    ensures Scheduling(rows, names, 0, max, Abandon(rows), [], {})
  {
    assert names[0..] == names && names[..0] == [];
    assert [] + Fresh(rows, names, max + 1) == Fresh(rows, names, max + 1);
  }

  lemma SchedulingEnds(rows: seq<StepRow>, names: seq<string>, max: nat, stood: seq<StepRow>, added: seq<StepRow>, inserted: set<string>)
    requires Scheduling(rows, names, |names|, max, stood, added, inserted)
    ensures !Clash(rows, names) && stood == Rearm(rows, names) && added == Fresh(rows, names, max + 1)
  {
    TakeAll(names);
    assert Fresh(rows, names[|names|..], max + 1 + |names|) == [];
    assert added + [] == added;
  }

  lemma FreshNext(rows: seq<StepRow>, names: seq<string>, i: nat, next: nat, added: seq<StepRow>)
    requires i < |names|
    ensures added + Fresh(rows, names[i..], next)
      == (added + if HasRow(rows, Cleanup(names[i])) then [] else [CleanupRow(next, names[i])]) + Fresh(rows, names[i + 1..], next + 1)
  {
    assert names[i..][1..] == names[i + 1..];
    Assoc(added, if HasRow(rows, Cleanup(names[i])) then [] else [CleanupRow(next, names[i])], Fresh(rows, names[i + 1..], next + 1));
  }

  lemma RearmedNext(row: StepRow, names: seq<string>, name: string)
    ensures Rearmed(row, names + [name]) == if row.name == Cleanup(name) then Rearmed(row, names).(status := Pending) else Rearmed(row, names)
  {
  }

  lemma RearmNext(rows: seq<StepRow>, names: seq<string>, name: string)
    requires NamesDiffer(rows)
    ensures var k, before := Find(rows, Cleanup(name)), Rearm(rows, names);
      Rearm(rows, names + [name]) == if k < |rows| then before[k := before[k].(status := Pending)] else before
  {
    var k, before, after := Find(rows, Cleanup(name)), Rearm(rows, names), Rearm(rows, names + [name]);
    forall i | 0 <= i < |rows| ensures after[i] == if i == k then before[i].(status := Pending) else before[i] {
      RearmedNext(rows[i], names, name);
    }
    if k == |rows| { assert after == before; }
  }

  lemma ClashNext(rows: seq<StepRow>, names: seq<string>, name: string)
    requires !Clash(rows, names)
    ensures Clash(rows, names + [name]) <==> !HasRow(rows, Cleanup(name)) && name in names
  {
    if name in names && !HasRow(rows, Cleanup(name)) {
      var a :| 0 <= a < |names| && names[a] == name;
      assert (names + [name])[a] == (names + [name])[|names|];
    }
    if Clash(rows, names + [name]) { ClashMeans(rows, names, name); }
  }

  lemma ClashMeans(rows: seq<StepRow>, names: seq<string>, name: string)
    requires Clash(rows, names + [name])
    ensures Clash(rows, names) || (!HasRow(rows, Cleanup(name)) && name in names)
  {
    var all := names + [name];
    var a, b :| 0 <= a < b < |all| && all[a] == all[b] && !HasRow(rows, Cleanup(all[a]));
    if b < |names| { assert names[a] == names[b]; } else { assert names[a] == name; }
  }

  lemma ClashPrefix(rows: seq<StepRow>, names: seq<string>, n: nat)
    requires n <= |names| && Clash(rows, names[..n])
    ensures Clash(rows, names)
  {
    var a, b :| 0 <= a < b < n && names[..n][a] == names[..n][b] && !HasRow(rows, Cleanup(names[..n][a]));
    assert names[a] == names[b];
  }

  lemma ClashTail(rows: seq<StepRow>, names: seq<string>)
    requires names != []
    ensures Clash(rows, names[1..]) ==> Clash(rows, names)
    ensures !HasRow(rows, Cleanup(names[0])) && names[0] in names[1..] ==> Clash(rows, names)
  {
    if a, b :| 0 <= a < b < |names[1..]| && names[1..][a] == names[1..][b] && !HasRow(rows, Cleanup(names[1..][a])) {
      assert names[a + 1] == names[b + 1];
    }
    if b :| 0 <= b < |names[1..]| && names[1..][b] == names[0] {
      assert names[0] == names[b + 1];
    }
  }

  /** What a row appended for a scheduled name is. */
  ghost predicate IsFresh(rows: seq<StepRow>, names: seq<string>, next: nat, row: StepRow) {
    && row.name.Cleanup? && row.name.undoes in names && !HasRow(rows, row.name)
    && row == CleanupRow(row.ordinal, row.name.undoes) && next <= row.ordinal
  }

  lemma {:induction false} FreshAre(rows: seq<StepRow>, names: seq<string>, next: nat)
    ensures forall row :: row in Fresh(rows, names, next) ==> IsFresh(rows, names, next, row)
    decreases names
  {
    if names != [] { FreshAre(rows, names[1..], next + 1); }
  }

  ghost predicate Ascends(rows: seq<StepRow>) {
    forall i, j :: 0 <= i < j < |rows| ==> rows[i].ordinal < rows[j].ordinal
  }

  lemma {:induction false} FreshAscends(rows: seq<StepRow>, names: seq<string>, next: nat)
    ensures Ascends(Fresh(rows, names, next))
    decreases names
  {
    if names != [] {
      var all, rest := Fresh(rows, names, next), Fresh(rows, names[1..], next + 1);
      FreshAscends(rows, names[1..], next + 1);
      FreshAre(rows, names[1..], next + 1);
      forall k, l | 0 <= k < l < |all| ensures all[k].ordinal < all[l].ordinal {
        if !HasRow(rows, Cleanup(names[0])) {
          assert all[l] == rest[l - 1] && rest[l - 1] in rest;
        }
      }
    }
  }

  /** Every name without a row gets one. */
  lemma {:induction false} FreshCovers(rows: seq<StepRow>, names: seq<string>, next: nat, n: string)
    requires n in names && !HasRow(rows, Cleanup(n))
    ensures exists row :: row in Fresh(rows, names, next) && row.name == Cleanup(n)
    decreases names
  {
    if n == names[0] {
      assert Fresh(rows, names, next)[0].name == Cleanup(n);
    } else {
      FreshCovers(rows, names[1..], next + 1, n);
    }
  }

  lemma {:induction false} FreshDistinct(rows: seq<StepRow>, names: seq<string>, next: nat)
    requires !Clash(rows, names)
    ensures NamesDiffer(Fresh(rows, names, next))
    decreases names
  {
    if names != [] {
      var all, rest := Fresh(rows, names, next), Fresh(rows, names[1..], next + 1);
      ClashTail(rows, names);
      FreshDistinct(rows, names[1..], next + 1);
      FreshAre(rows, names[1..], next + 1);
      forall k, l | 0 <= k < l < |all| ensures all[k].name != all[l].name {
        if !HasRow(rows, Cleanup(names[0])) {
          assert all[l] == rest[l - 1] && rest[l - 1] in rest;
        }
      }
    }
  }

  /** With no row of any of the names, each gets one, in order. */
  lemma {:induction false} FreshForAll(rows: seq<StepRow>, names: seq<string>, next: nat)
    requires forall n :: n in names ==> !HasRow(rows, Cleanup(n))
    ensures |Fresh(rows, names, next)| == |names|
    ensures forall k :: 0 <= k < |names| ==> Fresh(rows, names, next)[k] == CleanupRow(next + k, names[k])
    decreases names
  {
    if names != [] {
      var all, rest := Fresh(rows, names, next), Fresh(rows, names[1..], next + 1);
      FreshForAll(rows, names[1..], next + 1);
      assert all == [CleanupRow(next, names[0])] + rest;
      forall k | 0 < k < |names| ensures all[k] == CleanupRow(next + k, names[k]) { assert all[k] == rest[k - 1]; }
    }
  }

  lemma {:induction false} FreshForNone(rows: seq<StepRow>, names: seq<string>, next: nat)
    requires forall n :: n in names ==> HasRow(rows, Cleanup(n))
    ensures Fresh(rows, names, next) == []
    decreases names
  {
    if names != [] { FreshForNone(rows, names[1..], next + 1); }
  }

  /** A first abort: everything that was there is ok or skipped, and the only pending rows are one per
      registered name, numbered on from the last ordinal in the order the names must run. */
  lemma FirstAbortOrder(rows: seq<StepRow>, names: seq<string>)
    requires rows != [] && !IsCleanupRun(rows) && names == Registered(rows)
    ensures |Schedule(rows)| == |rows| + |names|
    ensures forall i :: 0 <= i < |rows| ==> Finished(Schedule(rows)[i])
    ensures forall i :: |rows| <= i < |rows| + |names| ==>
      Schedule(rows)[i] == CleanupRow(MaxOrdinal(rows) + 1 + i - |rows|, names[i - |rows|])
  {
    assert Schedule(rows) == ScheduleNames(rows, names);
    FirstScheduleOrder(rows, names);
  }

  lemma FirstScheduleOrder(rows: seq<StepRow>, names: seq<string>)
    requires rows != [] && !IsCleanupRun(rows)
    ensures |ScheduleNames(rows, names)| == |rows| + |names|
    ensures forall i :: 0 <= i < |rows| ==> Finished(ScheduleNames(rows, names)[i])
    ensures forall i :: |rows| <= i < |rows| + |names| ==>
      ScheduleNames(rows, names)[i] == CleanupRow(MaxOrdinal(rows) + 1 + i - |rows|, names[i - |rows|])
  {
    forall n | n in names ensures !HasRow(rows, Cleanup(n)) { }
    FreshForAll(rows, names, MaxOrdinal(rows) + 1);
  }

  /** A repeated abort over the same registered names inserts no row and moves none: each keeps its
      ordinal, and exactly the registered compensations are pending again. */
  lemma RepeatedAbortOrder(rows: seq<StepRow>, names: seq<string>)
    requires rows != [] && names == Registered(rows)
    requires forall n :: n in names ==> HasRow(rows, Cleanup(n))
    ensures |Schedule(rows)| == |rows|
    ensures forall i :: 0 <= i < |rows| ==>
      && Schedule(rows)[i].ordinal == rows[i].ordinal && Schedule(rows)[i].name == rows[i].name
      && (Schedule(rows)[i].status.Pending? <==> rows[i].name.Cleanup? && rows[i].name.undoes in names)
  {
    FreshForNone(rows, names, MaxOrdinal(rows) + 1);
    assert Rearm(rows, names) + [] == Rearm(rows, names);
  }
}
