// Token balances as the SPL token program keeps them, u64 and i64 arithmetic, and what an
// instruction comes to: a new state, or an error that leaves the old one.
module TokenLedger {
  const U64_MAX: int := 0xFFFF_FFFF_FFFF_FFFF
  const I64_MAX: int := 0x7FFF_FFFF_FFFF_FFFF

  type Pubkey = int

  // A user's token account, or one a program holds for item id: a job's escrow, a proposal's bond.
  datatype Account = Wallet(owner: Pubkey) | Held(id: nat)

  type Ledger = map<Account, nat>

  function Balance(l: Ledger, a: Account): nat {
    if a in l then l[a] else 0
  }

  ghost function Total(l: Ledger): nat {
    if l == map[] then 0
    else
      var a :| a in l;
      l[a] + Total(l - {a})
  }

  lemma {:induction false} TotalWithout(l: Ledger, a: Account)
    requires a in l
    ensures Total(l) == l[a] + Total(l - {a})
    decreases |l|
  {
    var first :| first in l && Total(l) == l[first] + Total(l - {first});
    if first == a {
    } else {
      var rest := l - {first};
      TotalWithout(rest, a);
      TotalWithout(l - {a}, first);
      assert rest - {a} == l - {a} - {first};
    }
  }

  lemma TotalUpdate(l: Ledger, a: Account, n: nat)
    ensures Total(l[a := n]) == Total(l) - Balance(l, a) + n
  {
    TotalWithout(l[a := n], a);
    assert l[a := n] - {a} == l - {a};
    if a in l {
      TotalWithout(l, a);
    } else {
      assert l - {a} == l;
    }
  }

  lemma BalanceWithinTotal(l: Ledger, a: Account)
    ensures Balance(l, a) <= Total(l)
  {
    if a in l {
      TotalWithout(l, a);
    }
  }

  // A failed transfer, a panic of checked arithmetic, an account that does not exist, or a failed
  // require! with the name of its error.
  datatype Error = InsufficientFunds | Overflow | NoAccount | Rejected(reason: string)

  datatype Outcome<+T> = Done(value: T) | Abort(error: Error)

  // An aborted instruction leaves the state as it was.
  function Commit<T>(before: T, o: Outcome<T>): T {
    match o
    case Done(after) => after
    case Abort(_) => before
  }

  function Code<T>(o: Outcome<T>): Outcome<()> {
    match o
    case Done(_) => Done(())
    case Abort(e) => Abort(e)
  }

  // token::transfer
  function Transfer(l: Ledger, from: Account, to: Account, amount: nat): Outcome<Ledger> {
    if Balance(l, from) < amount then Abort(InsufficientFunds)
    else
      var taken := l[from := Balance(l, from) - amount];
      if Balance(taken, to) + amount > U64_MAX then Abort(Overflow)
      else Done(taken[to := Balance(taken, to) + amount])
  }

  // With no more tokens than a u64 can count, a covered transfer goes through; it creates and
  // destroys nothing.
  lemma TransferFacts(l: Ledger, from: Account, to: Account, amount: nat)
    requires Total(l) <= U64_MAX
    ensures Transfer(l, from, to, amount).Done? <==> Balance(l, from) >= amount
    ensures Transfer(l, from, to, amount).Done? ==>
              var after := Transfer(l, from, to, amount).value;
              && Total(after) == Total(l)
              && forall a :: Balance(after, a) ==
                   Balance(l, a) - (if a == from then amount else 0) + (if a == to then amount else 0)
  {
    if Balance(l, from) >= amount {
      var taken := l[from := Balance(l, from) - amount];
      TotalUpdate(l, from, Balance(l, from) - amount);
      BalanceWithinTotal(taken, to);
      TotalUpdate(taken, to, Balance(taken, to) + amount);
    }
  }

  // Two payments out of one account.
  lemma TwoTransfers(l: Ledger, from: Account, a: Account, x: nat, b: Account, y: nat)
    requires Total(l) <= U64_MAX && Balance(l, from) == x + y && a != from && b != from
    ensures var first := Transfer(l, from, a, x);
            && first.Done? && Transfer(first.value, from, b, y).Done?
            && var after := Transfer(first.value, from, b, y).value;
               && Total(after) == Total(l)
               && forall c :: Balance(after, c) ==
                    if c == from then 0 else Balance(l, c) + (if c == a then x else 0) + (if c == b then y else 0)
  {
    TransferFacts(l, from, a, x);
    TransferFacts(Transfer(l, from, a, x).value, from, b, y);
    hide Transfer, Total, Balance;
  }
}
