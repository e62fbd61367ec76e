/**
 * Prepaid scan credits: a balance and an append-only ledger whose rows carry unique keys. Each paid
 * scan reserves one credit before it runs and may give it back from several places, more than once,
 * or not at all because its process died. Transactions are serialised; everything else interleaves.
 */
module CreditLedger {
  import opened Common

  // ---------------------------------------------------------------------------------------------
  // The charge decision
  // ---------------------------------------------------------------------------------------------

  datatype Charge = Unlimited | Allowance | Credit | Denied

  function DecideScanCharge(unlimited: bool, allowance: Option<int>, usageThisMonth: int, balance: int): Charge {
    if unlimited then Unlimited
    else if allowance.Some? && usageThisMonth < allowance.value then Allowance
    else if balance > 0 then Credit
    else Denied
  }

  // ---------------------------------------------------------------------------------------------
  // The account
  // ---------------------------------------------------------------------------------------------

  /** A debit is keyed by its reservation, a refund by the debit it reverses, any other grant by its own id. */
  datatype Key = Debit(reservation: string) | Refund(reservation: string) | Grant(id: string)

  datatype Row = Row(key: Key, delta: int, balanceAfter: int)

  datatype Account = Account(opening: nat, balance: int, rows: seq<Row>)

  function Keys(rows: seq<Row>): set<Key> {
    set r | r in rows :: r.key
  }

  function Append(a: Account, key: Key, delta: int): Account {
    Account(a.opening, a.balance + delta, a.rows + [Row(key, delta, a.balance + delta)])
  }

  datatype Answer = Charged(balance: int) | Refused(balance: int)

  /** One debit transaction: decrement if positive, then insert; a taken key rolls the decrement back. */
  function DebitTx(a: Account, reservation: string): (Account, Answer) {
    if a.balance <= 0 then
      if Debit(reservation) in Keys(a.rows) then (a, Charged(a.balance)) else (a, Refused(a.balance))
    else if Debit(reservation) in Keys(a.rows) then
      (a, Charged(a.balance))
    else
      (Append(a, Debit(reservation), -1), Charged(a.balance - 1))
  }

  /** One grant transaction: a taken key does nothing; a negative amount is clamped to what is there. */
  function GrantTx(a: Account, key: Key, amount: int): Account {
    if amount == 0 || key in Keys(a.rows) then a
    else
      var applied := if amount >= 0 then amount else if amount < -a.balance then -a.balance else amount;
      if applied == 0 then a else Append(a, key, applied)
  }

  // ---------------------------------------------------------------------------------------------
  // What the ledger adds up to
  // ---------------------------------------------------------------------------------------------

  function Sum(rows: seq<Row>): int {
    if rows == [] then 0 else Sum(rows[..|rows| - 1]) + rows[|rows| - 1].delta
  }

  /** Everything granted or adjusted that was neither a debit nor a refund. */
  function Granted(rows: seq<Row>): int {
    if rows == [] then 0
    else Granted(rows[..|rows| - 1]) + (if rows[|rows| - 1].key.Grant? then rows[|rows| - 1].delta else 0)
  }

  /** What one reservation has moved, debit and refund together. */
  function Net(rows: seq<Row>, reservation: string): int {
    if rows == [] then 0
    else
      var last := rows[|rows| - 1];
      Net(rows[..|rows| - 1], reservation)
        + (if last.key == Debit(reservation) || last.key == Refund(reservation) then last.delta else 0)
  }

  function Debited(rows: seq<Row>): set<string> {
    set r | r in rows && r.key.Debit? :: r.key.reservation
  }

  function Refunded(rows: seq<Row>): set<string> {
    set r | r in rows && r.key.Refund? :: r.key.reservation
  }

  /** The balance after the first `n` rows, as the rows themselves record it. */
  function BalanceAfter(a: Account, n: nat): int
    requires n <= |a.rows|
  {
    if n == 0 then a.opening else a.rows[n - 1].balanceAfter
  }

  /** Every row continues the balance the row before it left, and no balance was ever negative. */
  ghost predicate Continues(a: Account) {
    && (forall i :: 0 <= i < |a.rows| ==> RowContinues(a, i))
    && a.balance == BalanceAfter(a, |a.rows|) && a.balance >= 0
  }

  predicate RowContinues(a: Account, i: nat)
    requires i < |a.rows|
  {
    a.rows[i].balanceAfter == BalanceAfter(a, i) + a.rows[i].delta && a.rows[i].balanceAfter >= 0
  }

  lemma ContinuesGrows(a: Account, key: Key, delta: int)
    requires Continues(a) && a.balance + delta >= 0
    ensures Continues(Append(a, key, delta))
  {
    var b := Append(a, key, delta);
    forall i | 0 <= i < |b.rows|
      ensures RowContinues(b, i)
    {
      if i < |a.rows| {
        assert RowContinues(a, i);
        assert BalanceAfter(b, i) == BalanceAfter(a, i);
      } else {
        assert BalanceAfter(b, i) == BalanceAfter(a, i);
      }
    }
  }

  ghost predicate KeyedOnce(rows: seq<Row>) {
    && (forall i, j :: 0 <= i < j < |rows| ==> rows[i].key != rows[j].key)
    && (forall i :: 0 <= i < |rows| ==>
          (rows[i].key.Debit? ==> rows[i].delta == -1) && (rows[i].key.Refund? ==> rows[i].delta == 1))
  }

  ghost predicate RefundsNameDebits(rows: seq<Row>) {
    forall k :: Refund(k) in Keys(rows) ==> Debit(k) in Keys(rows)
  }

  ghost predicate Sound(a: Account) {
    Continues(a) && KeyedOnce(a.rows) && RefundsNameDebits(a.rows)
  }

  lemma KeysGrow(rows: seq<Row>, row: Row)
    ensures Keys(rows + [row]) == Keys(rows) + {row.key}
  {
    var more := rows + [row];
    assert more[|rows|] == row;
    forall k | k in Keys(rows) + {row.key}
      ensures k in Keys(more)
    {
      if k in Keys(rows) {
        var r :| r in rows && r.key == k;
        assert r in more;
      }
    }
  }

  lemma KeyedOnceGrows(rows: seq<Row>, row: Row)
    requires KeyedOnce(rows) && row.key !in Keys(rows)
    requires (row.key.Debit? ==> row.delta == -1) && (row.key.Refund? ==> row.delta == 1)
    ensures KeyedOnce(rows + [row])
  {
    assert forall i :: 0 <= i < |rows| ==> rows[i].key in Keys(rows);
  }

  lemma AppendKeeps(a: Account, key: Key, delta: int)
    requires Sound(a) && key !in Keys(a.rows) && a.balance + delta >= 0
    requires key.Debit? ==> delta == -1
    requires key.Refund? ==> delta == 1 && Debit(key.reservation) in Keys(a.rows)
    ensures Sound(Append(a, key, delta))
    ensures Keys(Append(a, key, delta).rows) == Keys(a.rows) + {key}
  {
    hide KeyedOnce, Keys, Continues;
    var row := Row(key, delta, a.balance + delta);
    ContinuesGrows(a, key, delta);
    KeysGrow(a.rows, row);
    KeyedOnceGrows(a.rows, row);
  }

  lemma DebitTxKeeps(a: Account, reservation: string)
    requires Sound(a)
    ensures Sound(DebitTx(a, reservation).0)
    ensures DebitTx(a, reservation).1.Charged? <==> Debit(reservation) in Keys(DebitTx(a, reservation).0.rows)
    ensures Keys(a.rows) <= Keys(DebitTx(a, reservation).0.rows)
  {
    if a.balance > 0 && Debit(reservation) !in Keys(a.rows) {
      AppendKeeps(a, Debit(reservation), -1);
    }
  }

  lemma GrantTxKeeps(a: Account, key: Key, amount: int)
    requires Sound(a) && !key.Debit?
    requires key.Refund? ==> amount == 1 && Debit(key.reservation) in Keys(a.rows)
    ensures Sound(GrantTx(a, key, amount)) && Keys(a.rows) <= Keys(GrantTx(a, key, amount).rows)
  {
    if amount != 0 && key !in Keys(a.rows) {
      assert a.balance >= 0;
      var applied := if amount >= 0 then amount else if amount < -a.balance then -a.balance else amount;
      if applied != 0 {
        AppendKeeps(a, key, applied);
      }
    }
  }

  /** A debit takes one credit for a new reservation while there is one, and is refused only for want of one. */
  lemma DebitTakesOne(a: Account, reservation: string)
    requires Sound(a)
    ensures
      var (b, answer) := DebitTx(a, reservation);
      var known := Debit(reservation) in Keys(a.rows);
      && b.balance == a.balance - (if !known && a.balance > 0 then 1 else 0)
      && (answer.Refused? <==> !known && a.balance == 0)
      && answer.balance == b.balance
  {
  }

  /** A grant under a new key moves the balance by its amount, stopping at zero; under a known key not at all. */
  lemma GrantMovesTheBalance(a: Account, key: Key, amount: int)
    requires Sound(a)
    ensures
      var b := GrantTx(a, key, amount);
      && (key in Keys(a.rows) ==> b == a)
      && (key !in Keys(a.rows) ==> b.balance == if a.balance + amount > 0 then a.balance + amount else 0)
  {
  }

  // ---------------------------------------------------------------------------------------------
  // Runs: scans, crashes, repeated refunds, grants
  // ---------------------------------------------------------------------------------------------

  /**
   * A scan's process and the reservation key it would use: about to debit, holding a paid reservation,
   * let through free, or turned away. `landed` is history: a debit of its own landed unacknowledged.
   */
  datatype Proc =
    | Charging(reservation: string, landed: bool)
    | Held(reservation: string)
    | Free(reservation: string)
    | Skipped(reservation: string, landed: bool)

  datatype System = System(account: Account, procs: map<nat, Proc>)

  datatype Event =
    | Look(p: nat, reservation: string, unlimited: bool, allowance: Option<int>, usage: int)
    | Commit(p: nat, acked: bool)
    | GiveUp(p: nat)
    | Carry(p: nat, reservation: string)
    | GiveBack(p: nat)
    | Adjust(id: string, amount: int)

  /** A process that crashed is one that no later event names. */
  predicate Possible(s: System, e: Event) {
    match e
    case Look(p, _, _, _, _) => p !in s.procs
    case Commit(p, _) => p in s.procs && s.procs[p].Charging?
    case GiveUp(p) => p in s.procs && s.procs[p].Charging?
    case Carry(p, reservation) => p !in s.procs && Debit(reservation) in Keys(s.account.rows)
    case GiveBack(p) => p in s.procs
    case Adjust(_, _) => true
  }

  function Next(s: System, e: Event): System
    requires Possible(s, e)
  {
    match e
    case Look(p, reservation, unlimited, allowance, usage) =>
      var proc := match DecideScanCharge(unlimited, allowance, usage, s.account.balance)
        case Unlimited => Free(reservation)
        case Allowance => Free(reservation)
        case Denied => Skipped(reservation, false)
        case Credit => Charging(reservation, false);
      s.(procs := s.procs[p := proc])
    case Commit(p, acked) =>
      var (account, answer) := DebitTx(s.account, s.procs[p].reservation);
      var k := s.procs[p].reservation;
      var proc := if !acked then Charging(k, answer.Charged?) else if answer.Charged? then Held(k) else Skipped(k, false);
      System(account, s.procs[p := proc])
    case GiveUp(p) =>
      s.(procs := s.procs[p := Skipped(s.procs[p].reservation, s.procs[p].landed)])
    case Carry(p, reservation) =>
      s.(procs := s.procs[p := Held(reservation)])
    case GiveBack(p) =>
      if s.procs[p].Held? then s.(account := GrantTx(s.account, Refund(s.procs[p].reservation), 1)) else s
    case Adjust(id, amount) =>
      s.(account := GrantTx(s.account, Grant(id), amount))
  }

  function Run(s: System, events: seq<Event>): Option<System>
    decreases |events|
  {
    if events == [] then Some(s)
    else if !Possible(s, events[0]) then None
    else Run(Next(s, events[0]), events[1..])
  }

  /** A run starts where it is told to, and whatever is possible after it can come next. */
  lemma {:induction false} RunGoesOn(s: System, events: seq<Event>, t: System, e: Event)
    requires Run(s, events) == Some(t) && Possible(t, e)
    ensures Run(s, events + [e]) == Some(Next(t, e)) && Run(t, []) == Some(t)
    decreases |events|
  {
    hide Next, Possible;
    if events == [] {
      assert ([] + [e])[1..] == [];
    } else {
      assert (events + [e])[1..] == events[1..] + [e];
      RunGoesOn(Next(s, events[0]), events[1..], t, e);
    }
  }

  /** The process has paid for reservation `k`, whether or not it knows. */
  predicate Paid(proc: Proc, k: string) {
    && proc.reservation == k
    && match proc
       case Charging(_, landed) => landed
       case Held(_) => true
       case Free(_) => false
       case Skipped(_, landed) => landed
  }

  predicate PaidBy(s: System, p: nat, k: string) {
    p in s.procs && Paid(s.procs[p], k)
  }

  predicate HeldBy(s: System, p: nat, k: string) {
    p in s.procs && s.procs[p] == Held(k)
  }

  ghost predicate SomeonePaid(s: System, k: string) {
    exists p :: PaidBy(s, p, k)
  }

  ghost predicate SomeoneHolds(s: System, k: string) {
    exists p :: HeldBy(s, p, k)
  }

  /** A debit is on the ledger exactly when some process paid it; a refund only when some process held it. */
  ghost predicate RowsHaveOwners(s: System) {
    && (forall k :: Debit(k) in Keys(s.account.rows) <==> SomeonePaid(s, k))
    && (forall k :: Refund(k) in Keys(s.account.rows) ==> SomeoneHolds(s, k))
  }

  ghost predicate Inv(s: System) {
    Sound(s.account) && RowsHaveOwners(s)
  }

  /** Debits and refunds only ever join the ledger, and which ones is known. */
  lemma DebitTxAdds(a: Account, reservation: string)
    ensures
      var (b, answer) := DebitTx(a, reservation);
      && (forall k :: Debit(k) in Keys(b.rows) <==> Debit(k) in Keys(a.rows) || (k == reservation && answer.Charged?))
      && (forall k :: Refund(k) in Keys(b.rows) <==> Refund(k) in Keys(a.rows))
  {
    if a.balance > 0 && Debit(reservation) !in Keys(a.rows) {
      KeysGrow(a.rows, Row(Debit(reservation), -1, a.balance - 1));
    }
  }

  lemma GrantTxAdds(a: Account, key: Key, amount: int)
    requires !key.Debit?
    ensures
      var b := GrantTx(a, key, amount);
      && (forall k :: Debit(k) in Keys(b.rows) <==> Debit(k) in Keys(a.rows))
      && (forall k :: Refund(k) in Keys(b.rows) ==> Refund(k) in Keys(a.rows) || Refund(k) == key)
  {
    if |GrantTx(a, key, amount).rows| > |a.rows| {
      KeysGrow(a.rows, GrantTx(a, key, amount).rows[|a.rows|]);
    }
  }

  /** A process that has paid stays paid, and one that holds goes on holding. */
  lemma NextKeepsOwners(s: System, e: Event)
    requires RowsHaveOwners(s) && Possible(s, e)
    ensures RowsHaveOwners(Next(s, e))
  {
    var t := Next(s, e);
    if e.Commit? {
      DebitTxAdds(s.account, s.procs[e.p].reservation);
    } else if e.GiveBack? && s.procs[e.p].Held? {
      GrantTxAdds(s.account, Refund(s.procs[e.p].reservation), 1);
      assert HeldBy(t, e.p, s.procs[e.p].reservation);
    } else if e.Adjust? {
      GrantTxAdds(s.account, Grant(e.id), e.amount);
    }
    hide Keys, DebitTx, GrantTx;
    forall k
      ensures Debit(k) in Keys(t.account.rows) <==> SomeonePaid(t, k)
    {
      OwnersMove(s, e, k);
    }
    forall k | Refund(k) in Keys(t.account.rows)
      ensures SomeoneHolds(t, k)
    {
      if SomeoneHolds(s, k) {
        var p :| HeldBy(s, p, k);
        assert HeldBy(t, p, k);
      }
    }
  }

  lemma OwnersMove(s: System, e: Event, k: string)
    requires RowsHaveOwners(s) && Possible(s, e)
    requires forall j :: Debit(j) in Keys(Next(s, e).account.rows) <==>
      Debit(j) in Keys(s.account.rows) || (e.Commit? && j == s.procs[e.p].reservation && DebitTx(s.account, j).1.Charged?)
    ensures Debit(k) in Keys(Next(s, e).account.rows) <==> SomeonePaid(Next(s, e), k)
  {
    hide Keys, DebitTx, GrantTx;
    var t := Next(s, e);
    if SomeonePaid(s, k) {
      var p :| PaidBy(s, p, k);
      assert e.Commit? && p == e.p ==> Debit(k) in Keys(s.account.rows);
      CommitStaysCharged(s.account, k);
      assert PaidBy(t, p, k);
    }
    if SomeonePaid(t, k) {
      var p :| PaidBy(t, p, k);
      assert ((e.Commit? || e.Carry?) && p == e.p) || PaidBy(s, p, k);
    }
    if Debit(k) in Keys(t.account.rows) && Debit(k) !in Keys(s.account.rows) {
      assert PaidBy(t, e.p, k);
    }
  }

  lemma CommitStaysCharged(a: Account, k: string)
    ensures Debit(k) in Keys(a.rows) ==> DebitTx(a, k).1.Charged?
  {
  }

  lemma NextKeeps(s: System, e: Event)
    requires Inv(s) && Possible(s, e)
    ensures Inv(Next(s, e)) && Next(s, e).account.opening == s.account.opening
  {
    NextKeepsOwners(s, e);
    hide Sound, Keys, RowsHaveOwners;
    match e {
      case Look(_, _, _, _, _) =>
      case Commit(p, _) => DebitTxKeeps(s.account, s.procs[p].reservation);
      case GiveUp(_) =>
      case Carry(_, _) =>
      case GiveBack(p) =>
        if s.procs[p].Held? {
          HoldersPaid(s, p);
          GrantTxKeeps(s.account, Refund(s.procs[p].reservation), 1);
        }
      case Adjust(id, amount) => GrantTxKeeps(s.account, Grant(id), amount);
    }
  }

  lemma HoldersPaid(s: System, p: nat)
    requires RowsHaveOwners(s) && p in s.procs && s.procs[p].Held?
    ensures Debit(s.procs[p].reservation) in Keys(s.account.rows)
  {
    assert PaidBy(s, p, s.procs[p].reservation);
  }

  lemma {:induction false} RunKeeps(s: System, events: seq<Event>)
    requires Inv(s)
    ensures Run(s, events).Some? ==> Inv(Run(s, events).value) && Run(s, events).value.account.opening == s.account.opening
    decreases |events|
  {
    hide Inv, Next, Possible;
    if events != [] && Possible(s, events[0]) {
      NextKeeps(s, events[0]);
      RunKeeps(Next(s, events[0]), events[1..]);
    }
  }

  function Opened(opening: nat): System {
    System(Account(opening, opening, []), map[])
  }

  // ---------------------------------------------------------------------------------------------
  // Conservation
  // ---------------------------------------------------------------------------------------------

  lemma {:induction false} SumOfFirst(a: Account, n: nat)
    requires Continues(a) && n <= |a.rows|
    ensures BalanceAfter(a, n) == a.opening + Sum(a.rows[..n])
  {
    if n > 0 {
      SumOfFirst(a, n - 1);
      assert a.rows[..n][..n - 1] == a.rows[..n - 1];
      assert RowContinues(a, n - 1);
    }
  }

  lemma BalanceIsTheSum(a: Account)
    requires Continues(a)
    ensures a.balance == a.opening + Sum(a.rows) && a.balance >= 0
  {
    SumOfFirst(a, |a.rows|);
    assert a.rows[..|a.rows|] == a.rows;
  }

  lemma SplitLast(rows: seq<Row>) returns (front: seq<Row>, last: Row)
    requires rows != [] && KeyedOnce(rows)
    ensures front == rows[..|rows| - 1] && last == rows[|rows| - 1] && rows == front + [last] && KeyedOnce(front)
    ensures Keys(rows) == Keys(front) + {last.key} && last.key !in Keys(front)
    ensures (last.key.Debit? ==> last.delta == -1) && (last.key.Refund? ==> last.delta == 1)
  {
    front, last := rows[..|rows| - 1], rows[|rows| - 1];
    KeysGrow(front, last);
    assert forall i :: 0 <= i < |front| ==> front[i].key != last.key;
  }

  lemma ReservationsAreKeys(rows: seq<Row>)
    ensures forall k :: k in Debited(rows) <==> Debit(k) in Keys(rows)
    ensures forall k :: k in Refunded(rows) <==> Refund(k) in Keys(rows)
  {
    forall k | Debit(k) in Keys(rows)
      ensures k in Debited(rows)
    {
      var r :| r in rows && r.key == Debit(k);
    }
    forall k | Refund(k) in Keys(rows)
      ensures k in Refunded(rows)
    {
      var r :| r in rows && r.key == Refund(k);
    }
  }

  lemma {:induction false} SumByKind(rows: seq<Row>)
    requires KeyedOnce(rows)
    ensures Sum(rows) == Granted(rows) - |Debited(rows)| + |Refunded(rows)|
  {
    hide KeyedOnce, Keys;
    if rows != [] {
      var front, last := SplitLast(rows);
      SumByKind(front);
      CountsGrow(rows, front, last);
    }
  }

  lemma CountsGrow(rows: seq<Row>, front: seq<Row>, last: Row)
    requires Keys(rows) == Keys(front) + {last.key} && last.key !in Keys(front)
    ensures |Debited(rows)| == |Debited(front)| + (if last.key.Debit? then 1 else 0)
    ensures |Refunded(rows)| == |Refunded(front)| + (if last.key.Refund? then 1 else 0)
  {
    hide Keys, Debited, Refunded;
    ReservationsAreKeys(rows);
    ReservationsAreKeys(front);
    if last.key.Debit? {
      assert Debited(rows) == Debited(front) + {last.key.reservation};
    } else {
      assert Debited(rows) == Debited(front);
    }
    if last.key.Refund? {
      assert Refunded(rows) == Refunded(front) + {last.key.reservation};
    } else {
      assert Refunded(rows) == Refunded(front);
    }
  }

  lemma {:induction false} NetOfReservation(rows: seq<Row>, k: string)
    requires KeyedOnce(rows)
    ensures Net(rows, k) == (if Refund(k) in Keys(rows) then 1 else 0) - (if Debit(k) in Keys(rows) then 1 else 0)
    decreases |rows|, 1
  {
    if rows != [] {
      NetOfLonger(rows, k);
    }
  }

  lemma {:induction false} NetOfLonger(rows: seq<Row>, k: string)
    requires KeyedOnce(rows) && rows != []
    ensures Net(rows, k) == (if Refund(k) in Keys(rows) then 1 else 0) - (if Debit(k) in Keys(rows) then 1 else 0)
    decreases |rows|, 0
  {
    hide KeyedOnce, Keys;
    var front, last := SplitLast(rows);
    NetOfReservation(front, k);
  }

  /**
   * After any run: the balance is what the org opened with, plus its grants and adjustments, less one
   * for each distinct reservation debited, plus one for each distinct debit refunded; it is never
   * negative; and only a debited reservation is ever refunded.
   */
  lemma CreditsAreConserved(opening: nat, events: seq<Event>, s: System)
    requires Run(Opened(opening), events) == Some(s)
    ensures s.account.balance == opening + Granted(s.account.rows) - |Debited(s.account.rows)| + |Refunded(s.account.rows)|
    ensures s.account.balance >= 0
    ensures Refunded(s.account.rows) <= Debited(s.account.rows)
  {
    RunKeeps(Opened(opening), events);
    BalanceIsTheSum(s.account);
    SumByKind(s.account.rows);
    ReservationsAreKeys(s.account.rows);
  }

  /** Each reservation nets one credit or none, however often it was committed, carried or given back. */
  lemma ReservationNetsOneOrNone(opening: nat, events: seq<Event>, s: System, k: string)
    requires Run(Opened(opening), events) == Some(s)
    ensures Net(s.account.rows, k) == -1 || Net(s.account.rows, k) == 0
    ensures Net(s.account.rows, k) == -1 <==>
      Debit(k) in Keys(s.account.rows) && Refund(k) !in Keys(s.account.rows)
  {
    RunKeeps(Opened(opening), events);
    NetOfReservation(s.account.rows, k);
  }

  /**
   * A scan let through as paid has its debit on the ledger, and has cost its org a credit unless that
   * reservation was already refunded, which a key reused after its refund would be.
   */
  lemma PaidMeansDebited(opening: nat, events: seq<Event>, s: System, p: nat)
    requires Run(Opened(opening), events) == Some(s) && p in s.procs && s.procs[p].Held?
    ensures s.procs[p].reservation in Debited(s.account.rows)
    ensures Net(s.account.rows, s.procs[p].reservation) == -1 <==> s.procs[p].reservation !in Refunded(s.account.rows)
  {
    RunKeeps(Opened(opening), events);
    ReservationsAreKeys(s.account.rows);
    NetOfReservation(s.account.rows, s.procs[p].reservation);
    HoldersPaid(s, p);
  }

  /** No other process ever uses reservation `k`. */
  ghost predicate OnlyUser(s: System, p: nat, k: string) {
    forall q :: q in s.procs && q != p ==> s.procs[q].reservation != k
  }

  /**
   * Exactly when a scan that was turned away has cost a credit: when its own debit landed without its
   * hearing of it, or, on a shared key, some other process paid; and no refund has come.
   */
  lemma SkippedCostsIff(opening: nat, events: seq<Event>, s: System, p: nat)
    requires Run(Opened(opening), events) == Some(s) && p in s.procs && s.procs[p].Skipped?
    ensures
      var k := s.procs[p].reservation;
      && (Net(s.account.rows, k) == -1 <==> SomeonePaid(s, k) && Refund(k) !in Keys(s.account.rows))
      && (OnlyUser(s, p, k) ==> (Net(s.account.rows, k) == -1 <==> s.procs[p].landed))
  {
    var k := s.procs[p].reservation;
    RunKeeps(Opened(opening), events);
    NetOfReservation(s.account.rows, k);
    OnlyUserOwns(s, p, k);
  }

  lemma OnlyUserOwns(s: System, p: nat, k: string)
    requires RowsHaveOwners(s) && p in s.procs && s.procs[p].reservation == k
    ensures OnlyUser(s, p, k) ==> (Debit(k) in Keys(s.account.rows) <==> Paid(s.procs[p], k))
    ensures OnlyUser(s, p, k) && !s.procs[p].Held? ==> Refund(k) !in Keys(s.account.rows)
  {
    hide Keys;
    assert Debit(k) in Keys(s.account.rows) <==> SomeonePaid(s, k);
    assert Refund(k) in Keys(s.account.rows) ==> SomeoneHolds(s, k);
    assert PaidBy(s, p, k) <==> Paid(s.procs[p], k);
  }

  /**
   * A scan covered by its plan moves nothing, ever: over any run around its look, however often its hold
   * is asked for a refund, no row of its reservation exists.
   */
  lemma CoveredScanMovesNothing(opening: nat, before: seq<Event>, e: Event, later: seq<Event>, s: System)
    requires Run(Opened(opening), before + [e] + later) == Some(s)
    requires e.Look? && (e.unlimited || (e.allowance.Some? && e.usage < e.allowance.value))
    requires OnlyUser(s, e.p, e.reservation)
    ensures Debit(e.reservation) !in Keys(s.account.rows) && Refund(e.reservation) !in Keys(s.account.rows)
    ensures Net(s.account.rows, e.reservation) == 0
  {
    RunKeeps(Opened(opening), before + [e] + later);
    assert before + [e] + later == before + ([e] + later);
    var mid := RunSplits(Opened(opening), before, [e] + later, s);
    assert ([e] + later)[1..] == later;
    FreeScansNeverHold(Next(mid, e), later, s, e.p);
    OnlyUserOwns(s, e.p, e.reservation);
    NetOfReservation(s.account.rows, e.reservation);
  }

  lemma {:induction false} RunSplits(s: System, first: seq<Event>, second: seq<Event>, t: System) returns (mid: System)
    requires Run(s, first + second) == Some(t)
    ensures Run(s, first) == Some(mid) && Run(mid, second) == Some(t)
    decreases |first|
  {
    hide Next, Possible;
    if first == [] {
      assert first + second == second;
      mid := s;
    } else {
      assert (first + second)[1..] == first[1..] + second;
      mid := RunSplits(Next(s, first[0]), first[1..], second, t);
    }
  }

  /** How a scan is let through or turned away, on the balance it saw; looking moves nothing. */
  lemma LookChargesAsPlanned(s: System, e: Event)
    requires Possible(s, e) && e.Look?
    ensures
      var free := e.unlimited || (e.allowance.Some? && e.usage < e.allowance.value);
      var proc := Next(s, e).procs[e.p];
      && Next(s, e).account == s.account
      && (proc.Free? <==> free)
      && (proc.Skipped? <==> !free && s.account.balance <= 0)
      && (proc.Charging? <==> !free && s.account.balance > 0)
  {
  }

  predicate Covered(unlimited: bool, allowance: Option<int>, usage: int) {
    unlimited || (allowance.Some? && usage < allowance.value)
  }

  /**
   * Over every run, a scan that is neither covered nor short of credits is let through: it looks, its debit
   * is acknowledged, and it holds a credit its reservation paid for, which costs the balance one unless the
   * reservation had paid before. With nothing left it is turned away and nothing moves.
   */
  lemma UncoveredScanPays(opening: nat, events: seq<Event>, s: System, e: Event)
    requires Run(Opened(opening), events) == Some(s) && Possible(s, e) && e.Look?
    requires !Covered(e.unlimited, e.allowance, e.usage)
    ensures
      var looked := Next(s, e);
      && looked.account == s.account
      && (s.account.balance == 0 ==> looked.procs == s.procs[e.p := Skipped(e.reservation, false)])
      && (s.account.balance > 0 ==>
            Possible(looked, Commit(e.p, true)) &&
            var paid := Next(looked, Commit(e.p, true));
            && paid.procs == s.procs[e.p := Held(e.reservation)]
            && Debit(e.reservation) in Keys(paid.account.rows)
            && paid.account.balance == s.account.balance - (if Debit(e.reservation) in Keys(s.account.rows) then 0 else 1))
  {
    RunKeeps(Opened(opening), events);
    DebitTxKeeps(s.account, e.reservation);
    hide Keys, Continues;
  }

  /**
   * Over every run, a debit that lands without its scan hearing of it costs what a heard one costs; the
   * scan that gives up is turned away, and only another process that knows the key can hold that credit.
   */
  lemma UnheardDebitCosts(opening: nat, events: seq<Event>, s: System, e: Event, q: nat)
    requires Run(Opened(opening), events) == Some(s) && Possible(s, e) && e.Look?
    requires !Covered(e.unlimited, e.allowance, e.usage) && s.account.balance > 0
    requires q !in s.procs && q != e.p
    ensures
      var looked := Next(s, e);
      Possible(looked, Commit(e.p, false)) && Possible(looked, Commit(e.p, true)) &&
      var lost := Next(looked, Commit(e.p, false));
      Possible(lost, GiveUp(e.p)) &&
      var gone := Next(lost, GiveUp(e.p));
      && gone.account == lost.account == Next(looked, Commit(e.p, true)).account
      && gone.procs == s.procs[e.p := Skipped(e.reservation, true)]
      && Possible(gone, Carry(q, e.reservation))
      && Next(gone, Carry(q, e.reservation)) == gone.(procs := gone.procs[q := Held(e.reservation)])
  {
    RunKeeps(Opened(opening), events);
    DebitTxKeeps(s.account, e.reservation);
    hide Keys, Continues;
  }

  /**
   * Over every run, giving a paid hold back works: its reservation nets nothing from then on, and the
   * balance is one higher unless it had been given back before. A grant moves the balance by its amount,
   * stopping at zero, the first time its id is seen and never again.
   */
  lemma CreditsComeBack(opening: nat, events: seq<Event>, s: System, e: Event)
    requires Run(Opened(opening), events) == Some(s) && Possible(s, e) && (e.GiveBack? || e.Adjust?)
    ensures
      var t := Next(s, e);
      && t.procs == s.procs
      && (e.GiveBack? && !s.procs[e.p].Held? ==> t == s)
      && (e.GiveBack? && s.procs[e.p].Held? ==>
            var k := s.procs[e.p].reservation;
            && Refund(k) in Keys(t.account.rows) && Net(t.account.rows, k) == 0
            && t.account.balance == s.account.balance + (if Refund(k) in Keys(s.account.rows) then 0 else 1))
      && (e.Adjust? ==>
            var sum := s.account.balance + e.amount;
            t.account.balance
            == if Grant(e.id) in Keys(s.account.rows) then s.account.balance else if sum > 0 then sum else 0)
  {
    RunKeeps(Opened(opening), events);
    if e.Adjust? {
      GrantMovesTheBalance(s.account, Grant(e.id), e.amount);
    } else if s.procs[e.p].Held? {
      var k := s.procs[e.p].reservation;
      HoldersPaid(s, e.p);
      NextKeeps(s, e);
      NetOfReservation(Next(s, e).account.rows, k);
      RefundLands(s.account, k);
    }
  }

  lemma RefundLands(a: Account, k: string)
    ensures Refund(k) in Keys(GrantTx(a, Refund(k), 1).rows)
    ensures GrantTx(a, Refund(k), 1).balance == a.balance + (if Refund(k) in Keys(a.rows) then 0 else 1)
  {
    var b := GrantTx(a, Refund(k), 1);
    if Refund(k) !in Keys(a.rows) {
      assert b.rows[|a.rows|] in b.rows;
    }
  }

  /** A scan let through free, or turned away, never comes to hold a credit, so it has none to give back. */
  lemma {:induction false} FreeScansNeverHold(s: System, events: seq<Event>, t: System, p: nat)
    requires Run(s, events) == Some(t) && p in s.procs && (s.procs[p].Free? || s.procs[p].Skipped?)
    ensures p in t.procs && t.procs[p] == s.procs[p]
    decreases |events|
  {
    hide DebitTx, GrantTx, Keys;
    if events != [] {
      FreeScansNeverHold(Next(s, events[0]), events[1..], t, p);
    }
  }

  /** Giving a hold back again, from anywhere, at any later time, changes nothing. */
  lemma SecondRefundDoesNothing(a: Account, k: string, later: Account)
    requires Keys(GrantTx(a, Refund(k), 1).rows) <= Keys(later.rows)
    ensures GrantTx(later, Refund(k), 1) == later
  {
    var b := GrantTx(a, Refund(k), 1);
    if Refund(k) !in Keys(a.rows) {
      assert b.rows[|a.rows|] in b.rows;
    }
    assert Refund(k) in Keys(b.rows);
  }

  // ---------------------------------------------------------------------------------------------
  // The data layer and the holds
  // ---------------------------------------------------------------------------------------------

  /** How one attempt of a transaction ends: conflict rolls it back, a lost acknowledgement hides that it landed. */
  datatype Fate = Acked | Conflict | AckLost

  const MAX_ATTEMPTS := 5

  /** Some attempt took effect, acknowledged or not. */
  predicate Landed(fates: seq<Fate>) {
    exists i :: 0 <= i < |fates| && !fates[i].Conflict?
  }

  /** Some attempt was acknowledged; none is made after the first that is. */
  predicate Heard(fates: seq<Fate>) {
    exists i :: 0 <= i < |fates| && fates[i].Acked?
  }

  lemma OneMoreFate(fates: seq<Fate>, n: nat)
    requires n < |fates|
    ensures Landed(fates[..n + 1]) <==> Landed(fates[..n]) || !fates[n].Conflict?
    ensures Heard(fates[..n + 1]) <==> Heard(fates[..n]) || fates[n].Acked?
    ensures (Landed(fates[..n + 1]) ==> Landed(fates)) && (Heard(fates[..n + 1]) ==> Heard(fates))
  {
    assert forall i :: 0 <= i <= n ==> fates[..n + 1][i] == fates[i];
    assert forall i :: 0 <= i < n ==> fates[..n][i] == fates[i];
    if !fates[n].Conflict? {
      assert !fates[..n + 1][n].Conflict?;
    }
    if fates[n].Acked? {
      assert fates[..n + 1][n].Acked?;
    }
  }

  datatype Reservation = Reservation(skip: bool, reserved: bool, balance: Option<int>)

  class CreditStore {
    var account: Account

    ghost predicate Valid()
      reads this
    {
      Sound(account)
    }

    constructor (opening: nat)
      ensures Valid() && account == Account(opening, opening, [])
    {
      account := Account(opening, opening, []);
    }

    /**
     * A debit with retries. Whatever the attempts ran into, the credit was taken at most once, an answer
     * of "charged" means the reservation is on the ledger, and a refusal means nothing was taken.
     */
    method ConsumeOverflow(reservation: string, fates: seq<Fate>) returns (answer: Option<Answer>)
      requires Valid() && |fates| == MAX_ATTEMPTS
      modifies this
      ensures Valid()
      ensures account == if Landed(fates) then DebitTx(old(account), reservation).0 else old(account)
      ensures answer.Some? <==> Heard(fates)
      ensures answer.Some? ==> (answer.value.Charged? <==> Debit(reservation) in Keys(account.rows))
      ensures answer.Some? ==> (answer.value.Charged? <==> old(account).balance > 0 || Debit(reservation) in Keys(old(account).rows))
      ensures answer.Some? ==> answer.value.balance == account.balance
      ensures answer.Some? && answer.value.Refused? ==> account == old(account)
      ensures Debit(reservation) in Keys(old(account).rows) ==> account == old(account)
    {
      hide Sound, Keys;
      var attempt := 0;
      while attempt < MAX_ATTEMPTS
        invariant 0 <= attempt <= MAX_ATTEMPTS
        invariant Sound(account)
        invariant account == if Landed(fates[..attempt]) then DebitTx(old(account), reservation).0 else old(account)
        invariant !Heard(fates[..attempt])
      {
        var (after, result) := DebitTx(account, reservation);
        DebitTxKeeps(account, reservation);
        DebitTxKeeps(old(account), reservation);
        DebitTwice(old(account), reservation);
        OneMoreFate(fates, attempt);
        match fates[attempt] {
          case Acked =>
            account := after;
            return Some(result);
          case Conflict =>
          case AckLost =>
            account := after;
        }
        attempt := attempt + 1;
      }
      assert fates[..MAX_ATTEMPTS] == fates;
      return None;
    }

    /** A keyed grant with retries lands at most once, whatever was lost on the way. */
    method GrantCredits(key: Key, amount: int, fates: seq<Fate>) returns (balance: Option<int>)
      requires Valid() && |fates| == MAX_ATTEMPTS && !key.Debit?
      requires key.Refund? ==> amount == 1 && Debit(key.reservation) in Keys(account.rows)
      modifies this
      ensures Valid() && Keys(old(account).rows) <= Keys(account.rows)
      ensures account == if Landed(fates) then GrantTx(old(account), key, amount) else old(account)
      ensures balance.Some? <==> amount == 0 || key in Keys(old(account).rows) || Heard(fates)
      ensures balance.Some? ==> balance.value == account.balance
    {
      if amount == 0 || key in Keys(account.rows) {
        return Some(account.balance);
      }
      hide Sound, Keys;
      var attempt := 0;
      while attempt < MAX_ATTEMPTS
        invariant 0 <= attempt <= MAX_ATTEMPTS
        invariant Sound(account) && Keys(old(account).rows) <= Keys(account.rows)
        invariant account == if Landed(fates[..attempt]) then GrantTx(old(account), key, amount) else old(account)
        invariant !Heard(fates[..attempt])
      {
        var after := GrantTx(account, key, amount);
        GrantTxKeeps(account, key, amount);
        GrantTxKeeps(old(account), key, amount);
        GrantTwice(old(account), key, amount);
        OneMoreFate(fates, attempt);
        match fates[attempt] {
          case Acked =>
            account := after;
            return Some(account.balance);
          case Conflict =>
          case AckLost =>
            account := after;
        }
        attempt := attempt + 1;
      }
      assert fates[..MAX_ATTEMPTS] == fates;
      return None;
    }

    /**
     * The reserve step. A scan its plan covers is let through and moves nothing; another with no credit
     * left is turned away; with one left it is let through as paid exactly when an attempt of its debit was
     * acknowledged, and its debit is on the ledger, one credit cheaper, exactly when an attempt landed.
     */
    method ReserveScanCredit(reservation: string, unlimited: bool, allowance: Option<int>, usage: int, fates: seq<Fate>)
      returns (r: Reservation)
      requires Valid() && |fates| == MAX_ATTEMPTS
      modifies this
      ensures Valid()
      ensures Covered(unlimited, allowance, usage) ==>
        r == Reservation(false, false, Some(account.balance)) && account == old(account)
      ensures !Covered(unlimited, allowance, usage) && old(account).balance == 0 ==>
        r == Reservation(true, false, Some(0)) && account == old(account)
      ensures !Covered(unlimited, allowance, usage) && old(account).balance > 0 ==>
        && r == (if Heard(fates) then Reservation(false, true, Some(account.balance)) else Reservation(true, false, None))
        && account == (if Landed(fates) then DebitTx(old(account), reservation).0 else old(account))
        && (Landed(fates) ==> Debit(reservation) in Keys(account.rows))
        && account.balance
           == old(account).balance - (if Landed(fates) && Debit(reservation) !in Keys(old(account).rows) then 1 else 0)
    {
      DebitTxKeeps(account, reservation);
      hide Sound, Keys;
      assert account.balance >= 0 by { BalanceIsNeverNegative(account); }
      match DecideScanCharge(unlimited, allowance, usage, account.balance) {
        case Unlimited => return Reservation(false, false, Some(account.balance));
        case Allowance => return Reservation(false, false, Some(account.balance));
        case Denied => return Reservation(true, false, Some(account.balance));
        case Credit =>
          var answer := ConsumeOverflow(reservation, fates);
          var balance := if answer.Some? then Some(answer.value.balance) else None;
          if answer.None? || answer.value.Refused? {
            return Reservation(true, false, balance);
          }
          return Reservation(false, true, balance);
      }
    }
  }

  lemma BalanceIsNeverNegative(a: Account)
    requires Sound(a)
    ensures a.balance >= 0
  {
  }

  lemma DebitTwice(a: Account, k: string)
    requires Sound(a)
    ensures DebitTx(DebitTx(a, k).0, k) == (DebitTx(a, k).0, DebitTx(a, k).1)
  {
    DebitTxKeeps(a, k);
  }

  lemma GrantTwice(a: Account, key: Key, amount: int)
    requires Sound(a) && !key.Debit?
    requires key.Refund? ==> amount == 1 && Debit(key.reservation) in Keys(a.rows)
    ensures GrantTx(GrantTx(a, key, amount), key, amount) == GrantTx(a, key, amount)
  {
    var b := GrantTx(a, key, amount);
    if |b.rows| > |a.rows| {
      assert b.rows[|a.rows|] in b.rows;
      assert key in Keys(b.rows);
    }
  }

  /** The hold a scan carries: refunding it twice returns one credit. */
  class Hold {
    const reservation: string
    const reserved: bool
    var remaining: Option<int>

    constructor (reservation: string, reserved: bool, remaining: Option<int>)
      ensures this.reservation == reservation && this.reserved == reserved && this.remaining == remaining
    {
      this.reservation, this.reserved, this.remaining := reservation, reserved, remaining;
    }

    method GiveBack(store: CreditStore, fates: seq<Fate>)
      requires store.Valid() && |fates| == MAX_ATTEMPTS
      requires reserved ==> Debit(reservation) in Keys(store.account.rows)
      modifies this, store
      ensures store.Valid()
      ensures !reserved ==> store.account == old(store.account) && remaining == old(remaining)
      ensures store.account
        == if reserved && Landed(fates) then GrantTx(old(store.account), Refund(reservation), 1) else old(store.account)
      ensures store.account.balance
        == old(store.account).balance
           + (if reserved && Landed(fates) && Refund(reservation) !in Keys(old(store.account).rows) then 1 else 0)
      ensures remaining
        == if reserved && (Heard(fates) || Refund(reservation) in Keys(old(store.account).rows))
           then Some(store.account.balance) else old(remaining)
    {
      if !reserved {
        return;
      }
      RefundLands(store.account, reservation);
      var balance := store.GrantCredits(Refund(reservation), 1, fates);
      if balance.Some? {
        remaining := balance;
      }
    }
  }
}
