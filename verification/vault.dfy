/** The vault economy ledger (Archive/vault/vault.py): accounts with a
    balance that never goes below zero, and give, take, set and transfer
    with their error cases, each recorded in a log. The `data` table is a
    map from the account name (its primary key), `Decimal` amounts are
    whole cents, and the clock is a parameter. */
module Vault {
  import opened Basics

  /** A row of the `data` table; the balance is in cents. */
  datatype Account = Account(createAt: int, updateAt: int, balance: int)

  /** A row of the `log` table, without its random id. */
  datatype LogEntry = LogEntry(createAt: int, debit: string, credit: string, amount: int)

  type Accounts = map<string, Account>

  datatype Vault = Vault(accounts: Accounts, log: seq<LogEntry>)

  datatype VaultError = AccountNotExistsError | AmountIllegalError | InsufficientBalanceError

  /** The `balance>=0` check constraint. */
  predicate Valid(v: Vault)
  {
    forall name :: name in v.accounts ==> v.accounts[name].balance >= 0
  }

  /** All the money in the vault. */
  ghost function Total(m: Accounts): int
    decreases |m|
  {
    if |m| == 0 then 0
    else
      var k :| k in m;
      m[k].balance + Total(m - {k})
  }

  /** Any account can be taken out of the total first. */
  lemma {:induction false} TotalRemove(m: Accounts, k: string)
    requires k in m
    ensures Total(m) == m[k].balance + Total(m - {k})
    decreases |m|, 1
  {
    assert |m| != 0 by {
      assert m.Keys != {};
    }
    var j :| j in m && Total(m) == m[j].balance + Total(m - {j});
    if j != k {
      TotalSwap(m, j, k);
    }
  }

  /** Taking out either of two accounts first gives the same total. */
  lemma {:induction false} TotalSwap(m: Accounts, j: string, k: string)
    requires j in m && k in m && j != k
    ensures m[j].balance + Total(m - {j}) == m[k].balance + Total(m - {k})
    decreases |m|, 0
  {
    var mj, mk := m - {j}, m - {k};
    RemoveSize(m, j);
    RemoveSize(m, k);
    assert mj - {k} == mk - {j};
    TotalRemove(mj, k);
    TotalRemove(mk, j);
  }

  lemma RemoveSize(m: Accounts, k: string)
    requires k in m
    ensures |m - {k}| == |m| - 1
  {
    assert (m - {k}).Keys == m.Keys - {k};
  }

  /** Storing one account changes the total by that account's change. */
  lemma TotalUpdate(m: Accounts, k: string, a: Account)
    ensures k in m ==> Total(m[k := a]) == Total(m) - m[k].balance + a.balance
    ensures k !in m ==> Total(m[k := a]) == Total(m) + a.balance
  {
    TotalRemove(m[k := a], k);
    if k in m {
      TotalRemove(m, k);
      assert m[k := a] - {k} == m - {k};
    } else {
      assert m[k := a] - {k} == m;
    }
  }

  /** `is_account` */
  predicate IsAccount(v: Vault, name: string)
  {
    name in v.accounts
  }

  /** `create_account`: a new account holds nothing; an existing one is
      left alone. */
  function CreateAccount(v: Vault, name: string, now: int): (r: Vault)
    requires Valid(v)
    ensures Valid(r) && IsAccount(r, name) && r.log == v.log
    ensures IsAccount(v, name) ==> r == v
    ensures !IsAccount(v, name) ==> r.accounts[name] == Account(now, now, 0)
    ensures r.accounts.Keys == v.accounts.Keys + {name}
    ensures forall other :: other in v.accounts ==> r.accounts[other] == v.accounts[other]
    ensures Total(r.accounts) == Total(v.accounts)
  {
    if IsAccount(v, name) then v
    else
      TotalUpdate(v.accounts, name, Account(now, now, 0));
      v.(accounts := v.accounts[name := Account(now, now, 0)])
  }

  /** `get_balance` */
  function GetBalance(v: Vault, name: string): (r: Result<int, VaultError>)
    requires Valid(v)
    ensures r.Err? <==> !IsAccount(v, name)
    ensures r.Err? ==> r.error == AccountNotExistsError
    ensures r.Ok? ==> r.value >= 0 && r.value == v.accounts[name].balance
  {
    if IsAccount(v, name) then Ok(v.accounts[name].balance)
    else Err(AccountNotExistsError)
  }

  /** `get_open_time` */
  function GetOpenTime(v: Vault, name: string): (r: Result<int, VaultError>)
    ensures r.Err? <==> !IsAccount(v, name)
    ensures r.Err? ==> r.error == AccountNotExistsError
    ensures r.Ok? ==> r.value == v.accounts[name].createAt
  {
    if IsAccount(v, name) then Ok(v.accounts[name].createAt)
    else Err(AccountNotExistsError)
  }

  /** An account's opening time survives every later change of balance. */
  lemma OpenTimeKept(v: Vault, name: string, balance: int, now: int, who: string)
    requires Valid(v) && IsAccount(v, name) && balance >= 0
    ensures GetOpenTime(SetBalance(v, name, balance, now), who) == GetOpenTime(v, who)
  {
  }

  /** `__set_balance`: the balance and the update time of one row. */
  function SetBalance(v: Vault, name: string, balance: int, now: int): (r: Vault)
    requires Valid(v) && IsAccount(v, name) && balance >= 0
    ensures Valid(r) && r.log == v.log
    ensures r.accounts.Keys == v.accounts.Keys
    ensures r.accounts[name] == Account(v.accounts[name].createAt, now, balance)
    ensures forall other :: other in v.accounts && other != name ==> r.accounts[other] == v.accounts[other]
    ensures Total(r.accounts) == Total(v.accounts) - v.accounts[name].balance + balance
  {
    var a := Account(v.accounts[name].createAt, now, balance);
    TotalUpdate(v.accounts, name, a);
    v.(accounts := v.accounts[name := a])
  }

  /** `give`: a positive amount is added, with the operator as debit. */
  function Give(v: Vault, name: string, amount: int, operator: string, now: int): (r: Result<Vault, VaultError>)
    requires Valid(v)
    ensures !IsAccount(v, name) ==> r == Err(AccountNotExistsError)
    ensures IsAccount(v, name) && amount <= 0 ==> r == Err(AmountIllegalError)
    ensures r.Ok? ==>
      && Valid(r.value)
      && GetBalance(r.value, name) == Ok(GetBalance(v, name).value + amount)
      && Total(r.value.accounts) == Total(v.accounts) + amount
      && r.value.log == v.log + [LogEntry(now, operator, name, amount)]
  {
    if !IsAccount(v, name) then Err(AccountNotExistsError)
    else if amount <= 0 then Err(AmountIllegalError)
    else
      var w := SetBalance(v, name, GetBalance(v, name).value + amount, now);
      Ok(w.(log := w.log + [LogEntry(now, operator, name, amount)]))
  }

  /** `take`: a positive amount no larger than the balance is removed; the
      log records it as negative. */
  function Take(v: Vault, name: string, amount: int, operator: string, now: int): (r: Result<Vault, VaultError>)
    requires Valid(v)
    ensures !IsAccount(v, name) ==> r == Err(AccountNotExistsError)
    ensures IsAccount(v, name) && amount <= 0 ==> r == Err(AmountIllegalError)
    ensures IsAccount(v, name) && amount > 0 && amount > GetBalance(v, name).value ==> r == Err(InsufficientBalanceError)
    ensures r.Ok? ==>
      && Valid(r.value)
      && GetBalance(r.value, name) == Ok(GetBalance(v, name).value - amount)
      && Total(r.value.accounts) == Total(v.accounts) - amount
      && r.value.log == v.log + [LogEntry(now, operator, name, -amount)]
  {
    if !IsAccount(v, name) then Err(AccountNotExistsError)
    else if amount <= 0 then Err(AmountIllegalError)
    else if amount > GetBalance(v, name).value then Err(InsufficientBalanceError)
    else
      var w := SetBalance(v, name, GetBalance(v, name).value - amount, now);
      Ok(w.(log := w.log + [LogEntry(now, operator, name, -amount)]))
  }

  /** Taking back what was given restores every balance. */
  lemma GiveThenTake(v: Vault, name: string, amount: int, operator: string, t1: int, t2: int)
    requires Valid(v) && Give(v, name, amount, operator, t1).Ok?
    ensures Take(Give(v, name, amount, operator, t1).value, name, amount, operator, t2).Ok?
    ensures forall who :: GetBalance(Take(Give(v, name, amount, operator, t1).value, name, amount, operator, t2).value, who) == GetBalance(v, who)
  {
  }

  /** `set`: any amount from zero up; the log records the change. */
  function SetAmount(v: Vault, name: string, amount: int, operator: string, now: int): (r: Result<Vault, VaultError>)
    requires Valid(v)
    ensures !IsAccount(v, name) ==> r == Err(AccountNotExistsError)
    ensures IsAccount(v, name) && amount < 0 ==> r == Err(AmountIllegalError)
    ensures r.Ok? ==>
      && Valid(r.value)
      && GetBalance(r.value, name) == Ok(amount)
      && Total(r.value.accounts) == Total(v.accounts) + (amount - GetBalance(v, name).value)
      && r.value.log == v.log + [LogEntry(now, operator, name, amount - GetBalance(v, name).value)]
  {
    if !IsAccount(v, name) then Err(AccountNotExistsError)
    else if amount < 0 then Err(AmountIllegalError)
    else
      var before := GetBalance(v, name).value;
      var w := SetBalance(v, name, amount, now);
      Ok(w.(log := w.log + [LogEntry(now, operator, name, amount - before)]))
  }

  /** The checks of `transfer`, shared by both versions below. */
  function TransferCheck(v: Vault, debit: string, credit: string, amount: int): (r: Option<VaultError>)
    requires Valid(v)
    ensures r.None? <==> IsAccount(v, debit) && IsAccount(v, credit) && 0 < amount <= GetBalance(v, debit).value
    ensures !(IsAccount(v, debit) && IsAccount(v, credit)) ==> r == Some(AccountNotExistsError)
    ensures IsAccount(v, debit) && IsAccount(v, credit) && amount <= 0 ==> r == Some(AmountIllegalError)
    ensures IsAccount(v, debit) && IsAccount(v, credit) && 0 < amount && amount > GetBalance(v, debit).value ==>
      r == Some(InsufficientBalanceError)
  {
    if !(IsAccount(v, debit) && IsAccount(v, credit)) then Some(AccountNotExistsError)
    else if amount <= 0 then Some(AmountIllegalError)
    else if amount > GetBalance(v, debit).value then Some(InsufficientBalanceError)
    else None
  }

  /** `transfer` as written: both new balances are computed from the old
      ones before either is stored, so a transfer from an account to
      itself stores the credited balance last. */
  function TransferAsWritten(v: Vault, debit: string, credit: string, amount: int, now: int): (r: Result<Vault, VaultError>)
    requires Valid(v)
    ensures TransferCheck(v, debit, credit, amount).Some? ==> r == Err(TransferCheck(v, debit, credit, amount).value)
    ensures r.Ok? ==> Valid(r.value) && r.value.log == v.log + [LogEntry(now, debit, credit, amount)]
    ensures r.Ok? && debit != credit ==> Total(r.value.accounts) == Total(v.accounts)
  {
    match TransferCheck(v, debit, credit, amount)
    case Some(e) => Err(e)
    case None =>
      var debitOld := GetBalance(v, debit).value;
      var creditOld := GetBalance(v, credit).value;
      var w := SetBalance(v, debit, debitOld - amount, now);
      var x := SetBalance(w, credit, creditOld + amount, now);
      Ok(x.(log := x.log + [LogEntry(now, debit, credit, amount)]))
  }

  /** A transfer to oneself creates the amount out of nothing. */
  lemma SelfTransferCreatesMoney(v: Vault, name: string, amount: int, now: int)
    requires Valid(v) && IsAccount(v, name) && 0 < amount <= GetBalance(v, name).value
    ensures TransferAsWritten(v, name, name, amount, now).Ok?
    ensures GetBalance(TransferAsWritten(v, name, name, amount, now).value, name) == Ok(GetBalance(v, name).value + amount)
    ensures Total(TransferAsWritten(v, name, name, amount, now).value.accounts) == Total(v.accounts) + amount
  {
  }

  /** The corrected movement of money: the credit side's balance is read
      after the debit side has been stored. */
  function Move(v: Vault, debit: string, credit: string, amount: int, now: int): (r: Vault)
    requires Valid(v) && TransferCheck(v, debit, credit, amount).None?
    ensures Valid(r)
    ensures r.log == v.log + [LogEntry(now, debit, credit, amount)]
    ensures Total(r.accounts) == Total(v.accounts)
    ensures forall who :: who != debit && who != credit ==> GetBalance(r, who) == GetBalance(v, who)
    ensures debit != credit ==>
      && GetBalance(r, debit) == Ok(GetBalance(v, debit).value - amount)
      && GetBalance(r, credit) == Ok(GetBalance(v, credit).value + amount)
    ensures debit == credit ==> GetBalance(r, debit) == GetBalance(v, debit)
  {
    var w := SetBalance(v, debit, GetBalance(v, debit).value - amount, now);
    var x := SetBalance(w, credit, GetBalance(w, credit).value + amount, now);
    MoveBalances(v, w, x, debit, credit, amount);
    x.(log := x.log + [LogEntry(now, debit, credit, amount)])
  }

  /** The balances after the debit is stored and then the credit. */
  lemma MoveBalances(v: Vault, w: Vault, x: Vault, debit: string, credit: string, amount: int)
    requires Valid(v) && Valid(w) && Valid(x) && IsAccount(v, debit) && IsAccount(v, credit)
    requires w.accounts.Keys == v.accounts.Keys && x.accounts.Keys == w.accounts.Keys
    requires w.accounts[debit].balance == v.accounts[debit].balance - amount
    requires forall other :: other in v.accounts && other != debit ==> w.accounts[other] == v.accounts[other]
    requires x.accounts[credit].balance == w.accounts[credit].balance + amount
    requires forall other :: other in w.accounts && other != credit ==> x.accounts[other] == w.accounts[other]
    ensures forall who :: who != debit && who != credit ==> GetBalance(x, who) == GetBalance(v, who)
    ensures debit != credit ==>
      && GetBalance(x, debit) == Ok(GetBalance(v, debit).value - amount)
      && GetBalance(x, credit) == Ok(GetBalance(v, credit).value + amount)
    ensures debit == credit ==> GetBalance(x, debit) == GetBalance(v, debit)
  {
    forall who | who != debit && who != credit
      ensures GetBalance(x, who) == GetBalance(v, who)
    {
      if who in v.accounts {
        assert x.accounts[who] == w.accounts[who] == v.accounts[who];
      }
    }
  }

  /** `transfer` with its evident intent: the debit side loses what the
      credit side gains, every other account is untouched, and a transfer
      to oneself changes no balance. */
  function Transfer(v: Vault, debit: string, credit: string, amount: int, now: int): (r: Result<Vault, VaultError>)
    requires Valid(v)
    ensures TransferCheck(v, debit, credit, amount).Some? ==> r == Err(TransferCheck(v, debit, credit, amount).value)
    ensures TransferCheck(v, debit, credit, amount).None? ==> r.Ok?
    ensures r.Ok? ==>
      && Valid(r.value)
      && r.value.log == v.log + [LogEntry(now, debit, credit, amount)]
      && Total(r.value.accounts) == Total(v.accounts)
      && (forall who :: who != debit && who != credit ==> GetBalance(r.value, who) == GetBalance(v, who))
    ensures r.Ok? && debit != credit ==>
      && GetBalance(r.value, debit) == Ok(GetBalance(v, debit).value - amount)
      && GetBalance(r.value, credit) == Ok(GetBalance(v, credit).value + amount)
    ensures r.Ok? && debit == credit ==> GetBalance(r.value, debit) == GetBalance(v, debit)
  {
    match TransferCheck(v, debit, credit, amount)
    case Some(e) => Err(e)
    case None => Ok(Move(v, debit, credit, amount, now))
  }

  /** Between two different accounts both versions agree. */
  lemma TransferAgrees(v: Vault, debit: string, credit: string, amount: int, now: int)
    requires Valid(v) && debit != credit
    ensures TransferAsWritten(v, debit, credit, amount, now) == Transfer(v, debit, credit, amount, now)
  {
  }

  /** A transfer there and back restores every balance. */
  lemma TransferBack(v: Vault, a: string, b: string, amount: int, t1: int, t2: int)
    requires Valid(v) && Transfer(v, a, b, amount, t1).Ok?
    ensures Transfer(Transfer(v, a, b, amount, t1).value, b, a, amount, t2).Ok?
    ensures forall who :: GetBalance(Transfer(Transfer(v, a, b, amount, t1).value, b, a, amount, t2).value, who) == GetBalance(v, who)
  {
  }

  // ---------------------------------------------------------------------
  // Ranking
  // ---------------------------------------------------------------------

  /** Balances from largest to smallest. */
  predicate Descending(r: seq<(string, int)>)
  {
    forall i, j :: 0 <= i < j < |r| ==> r[i].1 >= r[j].1
  }

  /** Insertion of an entry that came earlier than all of `r`: it goes
      before the first entry that is not larger, so equal balances keep
      their order, as in Python's stable sort. */
  function Insert(e: (string, int), r: seq<(string, int)>): (s: seq<(string, int)>)
    requires Descending(r)
    ensures Descending(s)
    ensures multiset(s) == multiset(r) + multiset{e}
    ensures |s| > 0 && (s[0] == e || (|r| > 0 && s[0] == r[0]))
  {
    if |r| == 0 then [e]
    else if r[0].1 > e.1 then
      assert Descending(r[1..]) by {
        forall i, j | 0 <= i < j < |r[1..]| ensures r[1..][i].1 >= r[1..][j].1 {
          assert r[1..][i] == r[i + 1] && r[1..][j] == r[j + 1];
        }
      }
      var rest := Insert(e, r[1..]);
      assert r == [r[0]] + r[1..];
      assert multiset([r[0]] + rest) == multiset{r[0]} + multiset(rest);
      ConsDescending(r[0], rest);
      [r[0]] + rest
    else
      ConsDescending(e, r);
      [e] + r
  }

  /** An entry no smaller than the head of a descending list can go in
      front of it. */
  lemma ConsDescending(x: (string, int), s: seq<(string, int)>)
    requires Descending(s) && (|s| > 0 ==> x.1 >= s[0].1)
    ensures Descending([x] + s)
  {
    var t := [x] + s;
    forall i, j | 0 <= i < j < |t|
      ensures t[i].1 >= t[j].1
    {
      if i == 0 {
        assert t[j] == s[j - 1];
      } else {
        assert t[i] == s[i - 1] && t[j] == s[j - 1];
      }
    }
  }

  /** The rows of the `data` table in the order the query returns them:
      every account exactly once. */
  predicate RowOrder(v: Vault, rows: seq<string>)
  {
    && (forall name :: name in v.accounts ==> name in rows)
    && (forall i :: 0 <= i < |rows| ==> rows[i] in v.accounts)
    && (forall i, j :: 0 <= i < j < |rows| ==> rows[i] != rows[j])
  }

  /** The names and balances in row order (`{a: b['balance'] ...}`). */
  function Balances(v: Vault, rows: seq<string>): (r: seq<(string, int)>)
    requires RowOrder(v, rows)
    ensures |r| == |rows| && forall i :: 0 <= i < |rows| ==> r[i] == (rows[i], v.accounts[rows[i]].balance)
  {
    seq(|rows|, i requires 0 <= i < |rows| => (rows[i], v.accounts[rows[i]].balance))
  }

  function SortDescending(r: seq<(string, int)>): (s: seq<(string, int)>)
    ensures Descending(s) && multiset(s) == multiset(r)
  {
    if |r| == 0 then []
    else
      assert r == [r[0]] + r[1..];
      Insert(r[0], SortDescending(r[1..]))
  }

  /** `get_ranking`: every account once with its balance, largest first. */
  function Ranking(v: Vault, rows: seq<string>): (r: seq<(string, int)>)
    requires RowOrder(v, rows)
    ensures Descending(r)
    ensures multiset(r) == multiset(Balances(v, rows))
  {
    SortDescending(Balances(v, rows))
  }

  /** The ranking lists exactly the accounts, and its head is the richest. */
  lemma RankingContents(v: Vault, rows: seq<string>)
    requires RowOrder(v, rows)
    ensures forall name :: name in v.accounts ==> (name, v.accounts[name].balance) in Ranking(v, rows)
    ensures forall e :: e in Ranking(v, rows) ==> e.0 in v.accounts && e.1 == v.accounts[e.0].balance
    ensures |Ranking(v, rows)| > 0 ==> forall name :: name in v.accounts ==> Ranking(v, rows)[0].1 >= v.accounts[name].balance
  {
    var r := Ranking(v, rows);
    var b := Balances(v, rows);
    forall name | name in v.accounts ensures (name, v.accounts[name].balance) in r {
      var i :| 0 <= i < |rows| && rows[i] == name;
      assert b[i] in multiset(b);
    }
    forall e | e in r ensures e.0 in v.accounts && e.1 == v.accounts[e.0].balance {
      assert e in multiset(b);
      var i :| 0 <= i < |b| && b[i] == e;
    }
    if |r| > 0 {
      forall name | name in v.accounts ensures r[0].1 >= v.accounts[name].balance {
        var i :| 0 <= i < |rows| && rows[i] == name;
        assert b[i] in multiset(r);
        var j :| 0 <= j < |r| && r[j] == b[i];
        assert j == 0 || r[0].1 >= r[j].1;
      }
    }
  }
}
