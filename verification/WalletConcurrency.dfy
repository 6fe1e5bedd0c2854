/** The concurrency laboratory's statements against the wallets table, each one atomic. */
module WalletStatements {
  import opened Wrappers
  import opened Money
  import opened Sums

  datatype Row = Row(balance: int, version: nat)

  type Table = map<WalletId, Row>

  datatype Statement =
    | SetBalance(wallet: WalletId, balance: int)
    | DebitAtomic(wallet: WalletId, amount: int)
    | CreditAtomic(wallet: WalletId, amount: int)
    | UpdateOptimistic(wallet: WalletId, balance: int, expectedVersion: nat)

  /** The affected-row count, or the table's CHECK (balance >= 0) rejecting the statement. */
  datatype Outcome = RowCount(n: nat) | CheckViolation

  /** The row a statement would write, if its WHERE clause matches. */
  function Target(t: Table, st: Statement): Option<Row> {
    if st.wallet !in t then None else
      var row := t[st.wallet];
      match st
      case SetBalance(_, balance) => Some(row.(balance := balance))
      case DebitAtomic(_, amount) => if row.balance >= amount then Some(row.(balance := row.balance - amount)) else None
      case CreditAtomic(_, amount) => Some(row.(balance := row.balance + amount))
      case UpdateOptimistic(_, balance, expected) =>
        if row.version == expected then Some(Row(balance, row.version + 1)) else None
  }

  function Execute(t: Table, st: Statement): (Table, Outcome) {
    match Target(t, st)
    case None => (t, RowCount(0))
    case Some(row) => if row.balance < 0 then (t, CheckViolation) else (t[st.wallet := row], RowCount(1))
  }

  class WalletRepository {
    var rows: Table

    constructor (rows: Table)
      ensures this.rows == rows
    {
      this.rows := rows;
    }

    method FindById(wallet: WalletId) returns (r: Option<Row>)
      ensures r.Some? <==> wallet in rows
      ensures r.Some? ==> r.value == rows[wallet]
    {
      r := if wallet in rows then Some(rows[wallet]) else None;
    }

    method SetBalance(wallet: WalletId, balance: int) returns (outcome: Outcome)
      modifies this
      ensures rows == Execute(old(rows), Statement.SetBalance(wallet, balance)).0
      ensures outcome == Execute(old(rows), Statement.SetBalance(wallet, balance)).1
    {
      if wallet !in rows {
        return RowCount(0);
      }
      if balance < 0 {
        return CheckViolation;
      }
      rows := rows[wallet := rows[wallet].(balance := balance)];
      return RowCount(1);
    }

    /** The guard is re-checked against the current row, in the statement that writes. */
    method DebitAtomic(wallet: WalletId, amount: int) returns (done: bool)
      modifies this
      ensures rows == Execute(old(rows), Statement.DebitAtomic(wallet, amount)).0
      ensures done <==> wallet in old(rows) && old(rows)[wallet].balance >= amount
    {
      var rowCount := 0;
      if wallet in rows && rows[wallet].balance >= amount {
        rows := rows[wallet := rows[wallet].(balance := rows[wallet].balance - amount)];
        rowCount := 1;
      }
      done := rowCount > 0;
    }

    method CreditAtomic(wallet: WalletId, amount: int) returns (outcome: Outcome)
      modifies this
      ensures rows == Execute(old(rows), Statement.CreditAtomic(wallet, amount)).0
      ensures outcome == Execute(old(rows), Statement.CreditAtomic(wallet, amount)).1
    {
      if wallet !in rows {
        return RowCount(0);
      }
      var credited := rows[wallet].balance + amount;
      if credited < 0 {
        return CheckViolation;
      }
      rows := rows[wallet := rows[wallet].(balance := credited)];
      return RowCount(1);
    }

    method UpdateBalanceOptimistic(wallet: WalletId, balance: int, expectedVersion: nat) returns (outcome: Outcome)
      modifies this
      ensures rows == Execute(old(rows), UpdateOptimistic(wallet, balance, expectedVersion)).0
      ensures outcome == Execute(old(rows), UpdateOptimistic(wallet, balance, expectedVersion)).1
    {
      if wallet !in rows || rows[wallet].version != expectedVersion {
        return RowCount(0);
      }
      if balance < 0 {
        return CheckViolation;
      }
      rows := rows[wallet := Row(balance, rows[wallet].version + 1)];
      return RowCount(1);
    }
  }

  // ---- Sequences of atomic debits and credits

  /** What one statement contributed to a wallet: its amount if it was applied, and nothing if it was refused. */
  datatype Applied = Applied(statement: Statement, outcome: Outcome)

  function Contribution(wallet: WalletId): Applied -> int {
    (a: Applied) =>
      if a.statement.wallet != wallet || a.outcome != RowCount(1) then 0
      else match a.statement
           case DebitAtomic(_, amount) => -amount
           case CreditAtomic(_, amount) => amount
           case _ => 0
  }

  function ExecuteAll(t: Table, statements: seq<Statement>): (Table, seq<Applied>) {
    if statements == [] then (t, [])
    else
      var n := |statements| - 1;
      var (before, log) := ExecuteAll(t, statements[..n]);
      var (after, outcome) := Execute(before, statements[n]);
      (after, log + [Applied(statements[n], outcome)])
  }

  lemma OneStatementContributes(t: Table, st: Statement, w: WalletId)
    requires w in t && t[w].balance >= 0 && (st.DebitAtomic? || st.CreditAtomic?)
    ensures var (t', outcome) := Execute(t, st);
            && w in t' && t'[w].balance >= 0
            && t'[w].balance == t[w].balance + Contribution(w)(Applied(st, outcome))
  {
  }

  /** In any order of any debits and credits, a balance stays non-negative and is the start plus what was applied. */
  lemma {:induction false} BalanceIsStartPlusApplied(t: Table, statements: seq<Statement>, w: WalletId)
    requires w in t && t[w].balance >= 0
    requires forall st | st in statements :: st.DebitAtomic? || st.CreditAtomic?
    ensures var (t', log) := ExecuteAll(t, statements);
            w in t' && t'[w].balance >= 0 && t'[w].balance == t[w].balance + Sum(log, Contribution(w))
  {
    if statements == [] {
    } else {
      var n := |statements| - 1;
      assert statements[n] in statements && forall st | st in statements[..n] :: st in statements;
      BalanceIsStartPlusApplied(t, statements[..n], w);
      var (before, log) := ExecuteAll(t, statements[..n]);
      OneStatementContributes(before, statements[n], w);
      Push(log, Applied(statements[n], Execute(before, statements[n]).1), Contribution(w));
    }
  }

  function WasApplied(): Applied -> int { (a: Applied) => if a.outcome == RowCount(1) then 1 else 0 }

  function Applications(log: seq<Applied>): int { Sum(log, WasApplied()) }

  lemma OneMoreDebit(t: Table, w: WalletId, d: nat, n: nat)
    requires n > 0
    ensures var debit := DebitAtomic(w, d);
            var (before, log) := ExecuteAll(t, Repeat(debit, n - 1));
            var (after, outcome) := Execute(before, debit);
            && ExecuteAll(t, Repeat(debit, n)) == (after, log + [Applied(debit, outcome)])
            && Applications(log + [Applied(debit, outcome)])
               == Applications(log) + if outcome == RowCount(1) then 1 else 0
  {
    var debit := DebitAtomic(w, d);
    assert Repeat(debit, n)[..n - 1] == Repeat(debit, n - 1);
    var (before, log) := ExecuteAll(t, Repeat(debit, n - 1));
    Push(log, Applied(debit, Execute(before, debit).1), WasApplied());
  }

  /** A balance after n tries to take d from it, and how many of them took it. */
  function TakenFrom(b: int, d: nat, n: nat): (int, nat) {
    if n == 0 then (b, 0)
    else
      var (left, taken) := TakenFrom(b, d, n - 1);
      if left >= d then (left - d, taken + 1) else (left, taken)
  }

  lemma {:induction false} TakenIsQuotient(b: nat, d: nat, n: nat)
    requires d > 0
    ensures var (left, taken) := TakenFrom(b, d, n);
            taken == (if n <= b / d then n else b / d) && left == b - d * taken
  {
    if n == 0 {
    } else {
      TakenIsQuotient(b, d, n - 1);
      AffordsOneMore(b, d, TakenFrom(b, d, n - 1).1);
    }
  }

  lemma OneDebit(t: Table, w: WalletId, d: nat)
    requires w in t && t[w].balance >= 0
    ensures var (t', outcome) := Execute(t, DebitAtomic(w, d));
            && t'.Keys == t.Keys && t'[w].balance >= 0
            && (t'[w].balance, outcome)
               == if t[w].balance >= d then (t[w].balance - d, RowCount(1)) else (t[w].balance, RowCount(0))
  {
  }

  lemma {:induction false} DebitsTake(t: Table, w: WalletId, d: nat, n: nat)
    requires w in t && t[w].balance >= 0
    ensures var (t', log) := ExecuteAll(t, Repeat(DebitAtomic(w, d), n));
            && t'.Keys == t.Keys && t'[w].balance >= 0
            && (t'[w].balance, Applications(log)) == TakenFrom(t[w].balance, d, n)
  {
    if n == 0 {
    } else {
      DebitsTake(t, w, d, n - 1);
      OneMoreDebit(t, w, d, n);
      OneDebit(ExecuteAll(t, Repeat(DebitAtomic(w, d), n - 1)).0, w, d);
    }
  }

  /** N equal debits succeed exactly min(N, B / d) times, and take d each time. */
  lemma EqualDebits(t: Table, w: WalletId, d: nat, n: nat)
    requires w in t && t[w].balance >= 0 && d > 0
    ensures var (t', log) := ExecuteAll(t, Repeat(DebitAtomic(w, d), n));
            var affordable := t[w].balance / d;
            && Applications(log) == (if n <= affordable then n else affordable)
            && t'.Keys == t.Keys && t'[w].balance == t[w].balance - d * Applications(log)
  {
    DebitsTake(t, w, d, n);
    TakenIsQuotient(t[w].balance, d, n);
  }

  lemma AffordsOneMore(b: nat, d: nat, k: int)
    requires d > 0
    ensures b - d * k >= d <==> k + 1 <= b / d
    ensures d * (k + 1) == d * k + d
  {
    var q := b / d;
    assert b == d * q + b % d;
    if k + 1 <= q {
      assert d * (k + 1) <= d * q;
    } else {
      assert d * (q + 1) <= d * (k + 1);
    }
  }

  /** A write that does not bump the version defeats the version check: its change is overwritten without a conflict. */
  lemma UnversionedWriteIsOverwritten(t: Table, w: WalletId, credit: nat, delta: nat)
    requires w in t && t[w].balance >= 0
    ensures var read := t[w];
            var (t1, first) := Execute(t, SetBalance(w, read.balance + credit));
            var (t2, second) := Execute(t1, UpdateOptimistic(w, read.balance + delta, read.version));
            first == second == RowCount(1) && w in t2 && t2[w].balance == read.balance + delta
  {
  }
}

/**
  Read a balance, compute, write it back: any number of clients doing so concurrently on one wallet row, under
  one of the laboratory's disciplines. The row lock is the one FOR UPDATE takes, or the one an uncommitted
  UPDATE takes; it lasts until its transaction ends.
*/
module ReadModifyWrite {
  import opened Wrappers
  import opened Sums

  type Client = nat

  datatype Level = ReadCommitted | RepeatableRead | Serializable

  /** Version-checked update; SELECT FOR UPDATE then update; plain read then update at an isolation level. */
  datatype Discipline = Versioned | Locked | Isolated(level: Level)

  /** A client that has read the row. The number of commits at that time identifies what it saw. */
  datatype Tx = Tx(readBalance: int, readVersion: nat, readCommits: nat, delta: int, pending: Option<int>)

  datatype Update = Updated(client: Client, delta: int)

  datatype State = State(
    discipline: Discipline,
    balance: int,
    version: nat,
    lock: Option<Client>,
    txs: map<Client, Tx>,
    log: seq<Update>)       // history: the committed transactions

  datatype Action = Read(c: Client, delta: int) | Write(c: Client) | Commit(c: Client) | Rollback(c: Client)

  predicate Enabled(s: State, a: Action) {
    match a
    case Read(c, _) => c !in s.txs && (s.discipline.Locked? ==> s.lock.None?)
    case Write(c) => c in s.txs && s.txs[c].pending.None? && (s.discipline.Isolated? ==> s.lock.None?)
    case Commit(c) => c in s.txs && s.txs[c].pending.Some?
    case Rollback(c) => c in s.txs
  }

  function End(s: State, c: Client): State {
    s.(txs := s.txs - {c}, lock := if s.lock == Some(c) then None else s.lock)
  }

  /** The write is refused: the version moved on, the snapshot is stale, or the balance would go negative. */
  predicate Refused(s: State, c: Client) {
    c in s.txs
    && var tx := s.txs[c];
       || tx.readBalance + tx.delta < 0
       || (s.discipline.Versioned? && tx.readVersion != s.version)
       || (s.discipline.Isolated? && !s.discipline.level.ReadCommitted? && tx.readCommits != |s.log|)
  }

  function Do(s: State, a: Action): State
    requires Enabled(s, a)
  {
    match a
    case Read(c, delta) =>
      s.(txs := s.txs[c := Tx(s.balance, s.version, |s.log|, delta, None)],
         lock := if s.discipline.Locked? then Some(c) else s.lock)
    case Write(c) =>
      var tx := s.txs[c];
      if Refused(s, c) then End(s, c)
      else if s.discipline.Versioned? then
        End(s.(balance := tx.readBalance + tx.delta, version := s.version + 1, log := s.log + [Updated(c, tx.delta)]),
            c)
      else s.(txs := s.txs[c := tx.(pending := Some(tx.readBalance + tx.delta))], lock := Some(c))
    case Commit(c) =>
      var tx := s.txs[c];
      End(s.(balance := tx.pending.value, log := s.log + [Updated(c, tx.delta)]), c)
    case Rollback(c) => End(s, c)
  }

  function Init(discipline: Discipline, balance: int, version: nat): State {
    State(discipline, balance, version, None, map[], [])
  }

  ghost predicate Run(states: seq<State>, actions: seq<Action>) {
    && |states| == |actions| + 1
    && states[0] == Init(states[0].discipline, states[0].balance, states[0].version)
    && forall i :: 0 <= i < |actions| ==> Enabled(states[i], actions[i]) && states[i + 1] == Do(states[i], actions[i])
  }

  // ---- Invariants

  predicate TxInv(s: State, version0: nat, c: Client) {
    c in s.txs
    && var tx := s.txs[c];
       && tx.readCommits <= |s.log|
       && (tx.readCommits == |s.log| ==> tx.readBalance == s.balance)
       && (s.discipline.Versioned? ==> tx.readVersion == version0 + tx.readCommits && tx.pending.None?)
       && (s.discipline.Locked? ==> s.lock == Some(c) && tx.readCommits == |s.log|)
       && (tx.pending.Some? ==> s.lock == Some(c) && tx.pending.value == tx.readBalance + tx.delta)
       && (tx.pending.Some? && s.discipline.Isolated? && !s.discipline.level.ReadCommitted? ==>
             tx.readCommits == |s.log|)
  }

  /** Nothing a client commits can fall between its own read and its own write. */
  ghost predicate OthersSinceRead(s: State) {
    forall c, i | c in s.txs && s.txs[c].readCommits <= i < |s.log| :: s.log[i].client != c
  }

  ghost predicate Inv(s: State, version0: nat) {
    && (forall c | c in s.txs :: TxInv(s, version0, c))
    && OthersSinceRead(s)
    && (s.discipline.Versioned? ==> s.version == version0 + |s.log|)
  }

  lemma InvPreserved(s: State, a: Action, version0: nat)
    requires Inv(s, version0) && Enabled(s, a)
    ensures Inv(Do(s, a), version0)
  {
    var s' := Do(s, a);
    if !a.Read? {
      assert TxInv(s, version0, a.c);
    }
    forall c | c in s'.txs ensures TxInv(s', version0, c) {
      assert c in s.txs ==> TxInv(s, version0, c);
    }
    forall c, i | c in s'.txs && s'.txs[c].readCommits <= i < |s'.log| ensures s'.log[i].client != c {
      if i < |s.log| {
        assert c in s.txs ==> s.log[i].client != c;
      }
    }
  }

  /** The state an observer of committed data sees: the balance and the history of committed deltas. */
  ghost predicate AtomicAdd(s: State, s': State, c: Client, delta: int) {
    s'.balance == s.balance + delta && s'.log == s.log + [Updated(c, delta)]
  }

  predicate Unchanged(s: State, s': State) {
    s'.balance == s.balance && s'.log == s.log
  }

  predicate Commits(s: State, a: Action) {
    a.Commit? || (a.Write? && s.discipline.Versioned? && !Refused(s, a.c))
  }

  /**
    The step at which a transaction takes effect is one atomic addition to the current balance exactly when no
    commit has changed the balance its client read; every other step changes nothing visible.
  */
  lemma CommitIsAtomicAddIff(s: State, a: Action, version0: nat)
    requires Inv(s, version0) && Enabled(s, a)
    ensures Commits(s, a) ==> (AtomicAdd(s, Do(s, a), a.c, s.txs[a.c].delta) <==> s.txs[a.c].readBalance == s.balance)
    ensures !Commits(s, a) ==> Unchanged(s, Do(s, a))
  {
    if !a.Read? {
      assert TxInv(s, version0, a.c);
    }
  }

  predicate Safe(d: Discipline) { !d.Isolated? || !d.level.ReadCommitted? }

  /** Under every discipline but plain READ COMMITTED, each step refines the atomic counter. */
  lemma SafeDisciplinesRefineAtomicAdd(s: State, a: Action, version0: nat)
    requires Inv(s, version0) && Enabled(s, a) && Safe(s.discipline)
    ensures if Commits(s, a) then AtomicAdd(s, Do(s, a), a.c, s.txs[a.c].delta) else Unchanged(s, Do(s, a))
  {
    CommitIsAtomicAddIff(s, a, version0);
    if Commits(s, a) {
      assert TxInv(s, version0, a.c);
    }
  }

  function Delta(): Update -> int { (x: Update) => x.delta }

  lemma {:induction false} InvOfRun(states: seq<State>, actions: seq<Action>)
    requires Run(states, actions)
    ensures Inv(states[|actions|], states[0].version)
    ensures states[|actions|].discipline == states[0].discipline
    decreases |actions|
  {
    if actions == [] {
    } else {
      var n := |actions| - 1;
      InvOfRun(states[..|actions|], actions[..n]);
      assert states[|actions|] == Do(states[n], actions[n]);
      InvPreserved(states[n], actions[n], states[0].version);
    }
  }

  /** No lost update, for any number of clients: the balance is the start plus every committed delta. */
  lemma {:induction false} NoLostUpdate(states: seq<State>, actions: seq<Action>)
    requires Run(states, actions) && Safe(states[0].discipline)
    ensures states[|actions|].balance == states[0].balance + Sum(states[|actions|].log, Delta())
    ensures states[0].discipline.Versioned? ==> states[|actions|].version == states[0].version + |states[|actions|].log|
    decreases |actions|
  {
    InvOfRun(states, actions);
    if actions == [] {
    } else {
      var n := |actions| - 1;
      var s, a := states[n], actions[n];
      assert Run(states[..|actions|], actions[..n]);
      NoLostUpdate(states[..|actions|], actions[..n]);
      InvOfRun(states[..|actions|], actions[..n]);
      assert Enabled(s, a) && states[|actions|] == Do(s, a);
      SafeDisciplinesRefineAtomicAdd(s, a, states[0].version);
      if Commits(s, a) {
        Push(s.log, Updated(a.c, s.txs[a.c].delta), Delta());
      }
    }
  }

  /** A version conflict means some other client committed since this one read. */
  lemma ConflictMeansAnotherSucceeded(states: seq<State>, actions: seq<Action>, c: Client)
    requires Run(states, actions) && states[0].discipline.Versioned?
    requires var s := states[|actions|]; c in s.txs && s.txs[c].readVersion != s.version
    ensures var s := states[|actions|];
            exists i :: s.txs[c].readCommits <= i < |s.log| && s.log[i].client != c
  {
    InvOfRun(states, actions);
    var s := states[|actions|];
    assert TxInv(s, states[0].version, c);
    assert s.log[s.txs[c].readCommits].client != c;
  }

  /** Two plain read-then-writes at READ COMMITTED: the second overwrites the first without any error. */
  lemma ReadCommittedLosesAnUpdate(balance: nat, first: nat, second: nat)
    returns (states: seq<State>, actions: seq<Action>)
    ensures Run(states, actions) && states[0] == Init(Isolated(ReadCommitted), balance, 0)
    ensures states[|actions|].log == [Updated(1, first), Updated(2, second)]
    ensures states[|actions|].balance == balance + second
  {
    actions := [Read(1, first), Read(2, second), Write(1), Commit(1), Write(2), Commit(2)];
    var s0 := Init(Isolated(ReadCommitted), balance, 0);
    var s1 := Do(s0, Read(1, first));
    var s2 := Do(s1, Read(2, second));
    assert s2.txs == map[1 := Tx(balance, 0, 0, first, None), 2 := Tx(balance, 0, 0, second, None)];
    var s3 := Do(s2, Write(1));
    var s4 := Do(s3, Commit(1));
    assert s4.txs == map[2 := Tx(balance, 0, 0, second, None)] && s4.lock.None?;
    var s5 := Do(s4, Write(2));
    var s6 := Do(s5, Commit(2));
    states := [s0, s1, s2, s3, s4, s5, s6];
  }
}
