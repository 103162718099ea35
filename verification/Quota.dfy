/**
 Monthly success quotas. A tool call reserves one success before it runs, in one transaction that
 counts it against the current month, and completes the reservation afterwards, once. Months are
 numbered; the history of all reservations ever granted is kept beside the tables.
 */
module Quota {
  import opened Basics

  type Id = string
  type Month = int

  datatype UserRow = UserRow(calls: int, period: Month)

  datatype Reservation = Reservation(user: Id, period: Month)

  datatype Tables = Tables(users: map<Id, UserRow>, reservations: map<Id, Reservation>)

  datatype Outcome = Granted | NotFound | Exhausted | Completed | Invalid

  datatype Op =
    | Create(user: Id, period: Month)
    | Delete(user: Id)
    | Reserve(id: Id, user: Id, limit: int, period: Month)
    | Complete(id: Id, user: Id, period: Month, wellFormed: bool, succeeded: bool)

  // ---------- the transactions ----------

  /** Calls counted against a month. */
  function Used(row: UserRow, period: Month): int {
    if row.period == period then row.calls else 0
  }

  function ReserveResult(t: Tables, op: Op): Outcome
    requires op.Reserve?
  {
    if op.user !in t.users then NotFound
    else if op.limit <= 0 || Used(t.users[op.user], op.period) < op.limit then Granted
    else Exhausted
  }

  /** ReserveSuccessCall */
  function ReserveIn(t: Tables, op: Op): Tables
    requires op.Reserve?
  {
    if ReserveResult(t, op) != Granted then t
    else
      var row := t.users[op.user];
      var calls := if row.period == op.period then row.calls + 1 else 1;
      Tables(t.users[op.user := UserRow(calls, op.period)], t.reservations[op.id := Reservation(op.user, op.period)])
  }

  predicate Matches(t: Tables, op: Op)
    requires op.Complete?
  {
    op.wellFormed && op.id in t.reservations && t.reservations[op.id] == Reservation(op.user, op.period)
  }

  /** The counter after a failed call gives its reservation back. */
  function RolledBack(row: UserRow, period: Month): UserRow {
    if row.period == period && row.calls > 0 then row.(calls := row.calls - 1) else row
  }

  /** CompleteSuccessCall */
  function CompleteIn(t: Tables, op: Op): Tables
    requires op.Complete?
  {
    if !Matches(t, op) then t
    else
      var users := if !op.succeeded && op.user in t.users
                   then t.users[op.user := RolledBack(t.users[op.user], op.period)] else t.users;
      Tables(users, t.reservations - {op.id})
  }

  /** Deleting a user removes its reservations with it. */
  function DeleteIn(t: Tables, user: Id): Tables {
    Tables(t.users - {user}, map id | id in t.reservations && t.reservations[id].user != user :: t.reservations[id])
  }

  function Apply(t: Tables, op: Op): Tables {
    match op
    case Create(user, period) => t.(users := t.users[user := UserRow(0, period)])
    case Delete(user) => DeleteIn(t, user)
    case Reserve(_, _, _, _) => ReserveIn(t, op)
    case Complete(_, _, _, _, _) => CompleteIn(t, op)
  }

  // ---------- what was granted ----------

  datatype Status = Outstanding | Succeeded | Failed

  datatype Grant = Grant(user: Id, period: Month, status: Status)

  datatype History = History(grants: map<Id, Grant>, users: set<Id>)

  function Remember(t: Tables, h: History, op: Op): History {
    match op
    case Create(user, _) => h.(users := h.users + {user})
    case Delete(_) => h
    case Reserve(id, user, _, period) =>
      if ReserveResult(t, op).Granted? then h.(grants := h.grants[id := Grant(user, period, Outstanding)]) else h
    case Complete(id, user, period, _, succeeded) =>
      if Matches(t, op) then h.(grants := h.grants[id := Grant(user, period, if succeeded then Succeeded else Failed)]) else h
  }

  /** Identifiers are random, so none comes up twice. */
  predicate Enabled(h: History, op: Op) {
    match op
    case Create(user, _) => user !in h.users
    case Delete(_) => true
    case Reserve(id, _, _, _) => id !in h.grants
    case Complete(_, _, _, _, _) => true
  }

  datatype World = World(tables: Tables, history: History)

  function Next(w: World, op: Op): World {
    if Enabled(w.history, op) then World(Apply(w.tables, op), Remember(w.tables, w.history, op)) else w
  }

  function Run(w: World, ops: seq<Op>): World {
    if ops == [] then w else Next(Run(w, ops[..|ops| - 1]), ops[|ops| - 1])
  }

  const EMPTY := World(Tables(map[], map[]), History(map[], {}))

  // ---------- the reservation table ----------

  /** The table holds exactly the outstanding grants of users that still exist. */
  ghost predicate TableOk(t: Tables, h: History) {
    && (forall u :: u in t.users ==> u in h.users)
    && (forall id :: id in h.grants ==> h.grants[id].user in h.users)
    && (forall id :: id in t.reservations ==>
          && id in h.grants && h.grants[id].status.Outstanding?
          && t.reservations[id] == Reservation(h.grants[id].user, h.grants[id].period)
          && h.grants[id].user in t.users)
    && (forall id :: id in h.grants && h.grants[id].status.Outstanding? && h.grants[id].user in t.users ==> id in t.reservations)
  }

  lemma NextTable(w: World, op: Op)
    requires TableOk(w.tables, w.history)
    ensures TableOk(Next(w, op).tables, Next(w, op).history)
  {
  }

  // ---------- the counter ----------

  predicate Counts(g: Grant, user: Id, period: Month) {
    g.user == user && g.period == period && !g.status.Failed?
  }

  /** A user's reservations of a month that are outstanding or ended in success. */
  function Counted(grants: map<Id, Grant>, user: Id, period: Month): set<Id> {
    set id | id in grants && Counts(grants[id], user, period)
  }

  ghost predicate CallsOk(t: Tables, h: History, user: Id) {
    user in t.users ==> t.users[user].calls == |Counted(h.grants, user, t.users[user].period)|
  }

  lemma AddGrant(grants: map<Id, Grant>, id: Id, g: Grant, user: Id, period: Month)
    requires id !in grants && !g.status.Failed?
    ensures |Counted(grants[id := g], user, period)|
            == |Counted(grants, user, period)| + if g.user == user && g.period == period then 1 else 0
  {
    assert Counted(grants[id := g], user, period)
        == Counted(grants, user, period) + if g.user == user && g.period == period then {id} else {};
  }

  lemma EndGrant(grants: map<Id, Grant>, id: Id, status: Status, user: Id, period: Month)
    requires id in grants && grants[id].status.Outstanding? && !status.Outstanding?
    ensures |Counted(grants[id := grants[id].(status := status)], user, period)|
            == |Counted(grants, user, period)| - if status.Failed? && grants[id].user == user && grants[id].period == period then 1 else 0
    ensures grants[id].user == user && grants[id].period == period ==> |Counted(grants, user, period)| > 0
  {
    var grants' := grants[id := grants[id].(status := status)];
    var mine := grants[id].user == user && grants[id].period == period;
    assert Counted(grants', user, period) == Counted(grants, user, period) - if status.Failed? && mine then {id} else {};
    if mine {
      assert id in Counted(grants, user, period);
    }
  }

  /** A month that is entered again although calls of it are still counted. */
  ghost predicate Reenters(w: World, op: Op) {
    && op.Reserve? && ReserveResult(w.tables, op).Granted?
    && w.tables.users[op.user].period != op.period
    && exists id :: id in Counted(w.history.grants, op.user, op.period)
  }

  lemma ReserveCounts(w: World, op: Op, user: Id)
    requires TableOk(w.tables, w.history) && CallsOk(w.tables, w.history, user)
    requires op.Reserve? && Enabled(w.history, op)
    ensures CallsOk(Next(w, op).tables, Next(w, op).history, user) <==> !(user == op.user && Reenters(w, op))
  {
    if ReserveResult(w.tables, op).Granted? && user in w.tables.users {
      AddGrant(w.history.grants, op.id, Grant(op.user, op.period, Outstanding), user, Next(w, op).tables.users[user].period);
      var there := Counted(w.history.grants, op.user, op.period);
      assert |there| == 0 <==> !exists id :: id in there;
    }
  }

  lemma CompleteCounts(w: World, op: Op, user: Id)
    requires TableOk(w.tables, w.history) && CallsOk(w.tables, w.history, user) && op.Complete?
    ensures CallsOk(Next(w, op).tables, Next(w, op).history, user)
  {
    if Matches(w.tables, op) && user in w.tables.users {
      EndGrant(w.history.grants, op.id, if op.succeeded then Succeeded else Failed, user, w.tables.users[user].period);
    }
  }

  lemma CreateCounts(w: World, op: Op, user: Id)
    requires TableOk(w.tables, w.history) && CallsOk(w.tables, w.history, user) && op.Create?
    ensures CallsOk(Next(w, op).tables, Next(w, op).history, user)
  {
    if Enabled(w.history, op) && op.user == user {
      assert Counted(w.history.grants, user, op.period) == {};
    }
  }

  /** A step breaks a user's counter if and only if it is that user's reservation re-entering a counted month. */
  lemma CounterBreaksIffReentered(w: World, op: Op, user: Id)
    requires TableOk(w.tables, w.history) && CallsOk(w.tables, w.history, user)
    ensures !CallsOk(Next(w, op).tables, Next(w, op).history, user)
            <==> Enabled(w.history, op) && op.Reserve? && user == op.user && Reenters(w, op)
  {
    match op
    case Create(_, _) => CreateCounts(w, op, user);
    case Delete(_) =>
    case Reserve(_, _, _, _) =>
      if Enabled(w.history, op) {
        ReserveCounts(w, op, user);
      }
    case Complete(_, _, _, _, _) => CompleteCounts(w, op, user);
  }

  // ---------- runs ----------

  /** Successive reservations of one user see months that do not go back. */
  predicate MonthsOrdered(ops: seq<Op>) {
    forall i, j :: 0 <= i < j < |ops| && ops[i].Reserve? && ops[j].Reserve? && ops[i].user == ops[j].user ==>
      ops[i].period <= ops[j].period
  }

  /** The stored month is that of the last reservation, so no grant is of a later one. */
  ghost predicate LatestMonth(w: World, ops: seq<Op>, user: Id) {
    user in w.tables.users ==>
      forall id :: id in w.history.grants && w.history.grants[id].user == user ==>
        && w.history.grants[id].period <= w.tables.users[user].period
        && exists i :: 0 <= i < |ops| && ops[i].Reserve? && ops[i].user == user && ops[i].period == w.tables.users[user].period
  }

  lemma OneMore(w: World, ops: seq<Op>, op: Op, user: Id)
    requires LatestMonth(w, ops, user)
    ensures LatestMonth(w, ops + [op], user)
  {
    if user in w.tables.users {
      forall id | id in w.history.grants && w.history.grants[id].user == user
        ensures exists i :: 0 <= i < |ops + [op]| && (ops + [op])[i].Reserve? && (ops + [op])[i].user == user
                            && (ops + [op])[i].period == w.tables.users[user].period
      {
        var i :| 0 <= i < |ops| && ops[i].Reserve? && ops[i].user == user && ops[i].period == w.tables.users[user].period;
        assert (ops + [op])[i] == ops[i];
      }
    }
  }

  lemma NextLatestMonth(w: World, ops: seq<Op>, op: Op, user: Id)
    requires TableOk(w.tables, w.history) && LatestMonth(w, ops, user) && MonthsOrdered(ops + [op])
    ensures LatestMonth(Next(w, op), ops + [op], user)
    ensures op.Reserve? && user == op.user && Enabled(w.history, op) ==> !Reenters(w, op)
  {
    OneMore(w, ops, op, user);
    var w' := Next(w, op);
    if op.Reserve? && user == op.user && ReserveResult(w.tables, op).Granted? && Enabled(w.history, op) {
      assert (ops + [op])[|ops|] == op;
      forall id | id in w.history.grants && w.history.grants[id].user == user
        ensures w.history.grants[id].period <= w.tables.users[user].period <= op.period
      {
        var i :| 0 <= i < |ops| && ops[i].Reserve? && ops[i].user == user && ops[i].period == w.tables.users[user].period;
        assert (ops + [op])[i] == ops[i];
      }
    }
  }

  lemma {:induction false} RunTable(ops: seq<Op>)
    ensures TableOk(Run(EMPTY, ops).tables, Run(EMPTY, ops).history)
  {
    if ops != [] {
      RunTable(ops[..|ops| - 1]);
      NextTable(Run(EMPTY, ops[..|ops| - 1]), ops[|ops| - 1]);
    }
  }

  lemma {:induction false} RunCounts(ops: seq<Op>, user: Id)
    requires MonthsOrdered(ops)
    ensures CallsOk(Run(EMPTY, ops).tables, Run(EMPTY, ops).history, user) && LatestMonth(Run(EMPTY, ops), ops, user)
  {
    if ops != [] {
      var before, op := ops[..|ops| - 1], ops[|ops| - 1];
      RunTable(before);
      RunCounts(before, user);
      assert before + [op] == ops;
      NextLatestMonth(Run(EMPTY, before), before, op, user);
      CounterBreaksIffReentered(Run(EMPTY, before), op, user);
    }
  }

  /**
   After any run whose reservation months do not go back, a user's counter is the number of reservations of
   the stored month that are outstanding or ended in success.
   */
  lemma CallsAreCountedReservations(ops: seq<Op>, user: Id)
    requires MonthsOrdered(ops) && user in Run(EMPTY, ops).tables.users
    ensures var w := Run(EMPTY, ops);
            w.tables.users[user].calls == |Counted(w.history.grants, user, w.tables.users[user].period)|
  {
    RunCounts(ops, user);
  }

  /**
   A reservation is refused for quota exactly when the month's counted reservations have reached the limit,
   and a granted one leaves them within it.
   */
  lemma GrantsStayWithinLimit(ops: seq<Op>, op: Op)
    requires MonthsOrdered(ops + [op]) && op.Reserve? && Enabled(Run(EMPTY, ops).history, op)
    ensures var w := Run(EMPTY, ops);
            var counted := |Counted(w.history.grants, op.user, op.period)|;
            && (ReserveResult(w.tables, op).NotFound? <==> op.user !in w.tables.users)
            && (ReserveResult(w.tables, op).Exhausted? <==> op.user in w.tables.users && 0 < op.limit <= counted)
            && (ReserveResult(w.tables, op).Granted? ==>
                  |Counted(Next(w, op).history.grants, op.user, op.period)| == counted + 1
                  && (op.limit > 0 ==> counted + 1 <= op.limit))
            && (!ReserveResult(w.tables, op).Granted? ==> Next(w, op) == w)
  {
    var w := Run(EMPTY, ops);
    assert MonthsOrdered(ops) by {
      forall i, j | 0 <= i < j < |ops| && ops[i].Reserve? && ops[j].Reserve? && ops[i].user == ops[j].user
        ensures ops[i].period <= ops[j].period
      {
        assert (ops + [op])[i] == ops[i] && (ops + [op])[j] == ops[j];
      }
    }
    RunCounts(ops, op.user);
    RunTable(ops);
    AddGrant(w.history.grants, op.id, Grant(op.user, op.period, Outstanding), op.user, op.period);
    if op.user in w.tables.users {
      UsedIsCounted(w, ops, op);
    }
  }

  lemma UsedIsCounted(w: World, ops: seq<Op>, op: Op)
    requires TableOk(w.tables, w.history) && CallsOk(w.tables, w.history, op.user) && LatestMonth(w, ops, op.user)
    requires MonthsOrdered(ops + [op]) && op.Reserve? && op.user in w.tables.users
    ensures Used(w.tables.users[op.user], op.period) == |Counted(w.history.grants, op.user, op.period)|
  {
    if w.tables.users[op.user].period != op.period {
      assert (ops + [op])[|ops|] == op;
      forall id | id in w.history.grants && w.history.grants[id].user == op.user
        ensures w.history.grants[id].period < op.period
      {
        var i :| 0 <= i < |ops| && ops[i].Reserve? && ops[i].user == op.user && ops[i].period == w.tables.users[op.user].period;
        assert (ops + [op])[i] == ops[i];
      }
      assert Counted(w.history.grants, op.user, op.period) == {};
    }
  }

  // ---------- completions ----------

  /** A reservation that is over: granted once, and no longer in the table. */
  predicate Over(w: World, id: Id) {
    id in w.history.grants && id !in w.tables.reservations
  }

  lemma {:induction false} StaysOver(w: World, ops: seq<Op>, id: Id)
    requires Over(w, id)
    ensures Over(Run(w, ops), id)
  {
    if ops != [] {
      StaysOver(w, ops[..|ops| - 1], id);
    }
  }

  /**
   Once a reservation has been completed, completing it again changes nothing, whatever happened in between, whatever
   either outcome was, and whatever user or month the second call names.
   */
  lemma CompletedForGood(w: World, op: Op, ops: seq<Op>, again: Op)
    requires TableOk(w.tables, w.history) && op.Complete? && Matches(w.tables, op)
    requires again.Complete? && again.id == op.id
    ensures Next(Run(Next(w, op), ops), again) == Run(Next(w, op), ops)
  {
    StaysOver(Next(w, op), ops, op.id);
  }

  /**
   What a failed completion of an outstanding reservation does, after any run whose months do not go back: in the
   stored month the guard against a negative counter never stops it, and exactly one comes off that user's counter;
   after the month has turned no counter changes. Either way it no longer counts.
   */
  lemma FailureRollsBackExactly(ops: seq<Op>, op: Op)
    requires MonthsOrdered(ops) && op.Complete? && !op.succeeded && Matches(Run(EMPTY, ops).tables, op)
    ensures var w := Run(EMPTY, ops);
            var t, t' := w.tables, Next(w, op).tables;
            && op.user in t.users
            && (t.users[op.user].period == op.period ==>
                  0 < t.users[op.user].calls && t'.users == t.users[op.user := UserRow(t.users[op.user].calls - 1, op.period)])
            && (t.users[op.user].period != op.period ==> t'.users == t.users)
            && |Counted(Next(w, op).history.grants, op.user, op.period)| == |Counted(w.history.grants, op.user, op.period)| - 1
  {
    var w := Run(EMPTY, ops);
    RunTable(ops);
    RunCounts(ops, op.user);
    EndGrant(w.history.grants, op.id, Failed, op.user, op.period);
    assert w.history.grants[op.id] == Grant(op.user, op.period, Outstanding);
  }

  /**
   What any completion does, after any run: it takes effect exactly when it is well formed and names an outstanding
   reservation with its own user and month, of a user who still exists. Then the reservation is gone and is remembered
   as succeeded or failed, no other reservation changes, and a success leaves every counter alone. Otherwise nothing
   changes.
   */
  lemma CompletionIsExact(ops: seq<Op>, op: Op)
    requires op.Complete?
    ensures var w := Run(EMPTY, ops);
            var w' := Next(w, op);
            var outstanding := op.wellFormed && op.id in w.history.grants && w.history.grants[op.id] == Grant(op.user, op.period, Outstanding)
                               && op.user in w.tables.users;
            && (outstanding ==>
                  && op.id in w.tables.reservations && w'.tables.reservations == w.tables.reservations - {op.id}
                  && w'.history.grants == w.history.grants[op.id := Grant(op.user, op.period, if op.succeeded then Succeeded else Failed)]
                  && (op.succeeded ==> w'.tables.users == w.tables.users))
            && (!outstanding ==> w' == w)
  {
    RunTable(ops);
  }

  /** With months out of order the counter can lose a reservation. */
  lemma BackwardMonthLosesCount()
    ensures var ops := [Create("u", 1), Reserve("a", "u", 0, 1), Reserve("b", "u", 0, 2), Reserve("c", "u", 0, 1)];
            var w := Run(EMPTY, ops);
            && "u" in w.tables.users && w.tables.users["u"] == UserRow(1, 1)
            && Counted(w.history.grants, "u", 1) == {"a", "c"}
  {
    var ops := [Create("u", 1), Reserve("a", "u", 0, 1), Reserve("b", "u", 0, 2), Reserve("c", "u", 0, 1)];
    var w1 := Next(EMPTY, ops[0]);
    var w2 := Next(w1, ops[1]);
    var w3 := Next(w2, ops[2]);
    RunFour(EMPTY, ops);
    assert w2.history.grants == map["a" := Grant("u", 1, Outstanding)];
    assert w3.history.grants == map["a" := Grant("u", 1, Outstanding), "b" := Grant("u", 2, Outstanding)];
  }

  lemma RunFour(w: World, ops: seq<Op>)
    requires |ops| == 4
    ensures Run(w, ops) == Next(Next(Next(Next(w, ops[0]), ops[1]), ops[2]), ops[3])
  {
    assert ops[..3][..2] == ops[..2] && ops[..2][..1] == ops[..1] && ops[..1][..0] == [];
    assert Run(w, ops[..1]) == Next(Run(w, []), ops[0]);
    assert Run(w, ops[..2]) == Next(Run(w, ops[..1]), ops[1]);
    assert Run(w, ops[..3]) == Next(Run(w, ops[..2]), ops[2]);
  }

  // ---------- the store ----------

  /** The two tables, changed in place by committed transactions. */
  class QuotaStore {
    var users: map<Id, UserRow>
    var reservations: map<Id, Reservation>

    ghost function View(): Tables
      reads this
    {
      Tables(users, reservations)
    }

    method ReserveSuccessCall(id: Id, user: Id, limit: int, period: Month) returns (r: Outcome)
      modifies this
      ensures View() == Apply(old(View()), Reserve(id, user, limit, period))
      ensures r == ReserveResult(old(View()), Reserve(id, user, limit, period))
      ensures r.NotFound? <==> user !in old(users)
      ensures r.Exhausted? <==>
                user in old(users) && limit > 0 && limit <= if old(users)[user].period == period then old(users)[user].calls else 0
      ensures !r.Granted? ==> View() == old(View())
    {
      if user !in users {
        return NotFound;
      }
      var row := users[user];
      var used := if row.period == period then row.calls else 0;
      if limit > 0 && used >= limit {
        return Exhausted;
      }
      users := users[user := UserRow(used + 1, period)];
      reservations := reservations[id := Reservation(user, period)];
      return Granted;
    }

    method CompleteSuccessCall(id: Id, user: Id, period: Month, wellFormed: bool, succeeded: bool) returns (r: Outcome)
      modifies this
      ensures View() == Apply(old(View()), Complete(id, user, period, wellFormed, succeeded))
      ensures r == if wellFormed then Completed else Invalid
      ensures var mine := wellFormed && id in old(reservations) && old(reservations)[id] == Reservation(user, period);
              && reservations == (if mine then old(reservations) - {id} else old(reservations))
              && (!mine || succeeded ==> users == old(users))
    {
      if !wellFormed {
        return Invalid;
      }
      if id in reservations && reservations[id] == Reservation(user, period) {
        reservations := reservations - {id};
        if !succeeded && user in users && users[user].period == period && users[user].calls > 0 {
          users := users[user := users[user].(calls := users[user].calls - 1)];
        }
      }
      return Completed;
    }
  }
}
