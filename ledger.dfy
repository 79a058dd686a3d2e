/**
 * A bank account: a total balance and the part of it blocked for pending
 * bids. Both are Java ints, so every update wraps around on overflow, and
 * nothing in the account itself keeps the blocked part within the total.
 */
module Ledger {
  import opened Int32

  /** The two amounts of an account. */
  datatype Balances = Balances(total: int32, blocked: int32)

  /** `getAvailableBalance`: total minus blocked, as a Java int. */
  function Available(s: Balances): (r: int32)
    ensures InRange(s.total - s.blocked) ==> r == s.total - s.blocked
    ensures (r - (s.total - s.blocked)) % Modulus == 0
  {
    Sub(s.total, s.blocked)
  }

  /** `setBlockedFunds(amount)`: despite its name, adds `amount` to the blocked funds. */
  function Block(s: Balances, amount: int32): (r: Balances)
    ensures r.total == s.total
    ensures InRange(s.blocked + amount) ==> r.blocked == s.blocked + amount
  {
    s.(blocked := Add(s.blocked, amount))
  }

  /** `setTotalBalance(amount)`: despite its name, adds `amount` to the total. */
  function Deposit(s: Balances, amount: int32): (r: Balances)
    ensures r.blocked == s.blocked
    ensures InRange(s.total + amount) ==> r.total == s.total + amount
  {
    s.(total := Add(s.total, amount))
  }

  /** What a careful caller keeps: the blocked part is non-negative and within the total. */
  predicate Escrowed(s: Balances) {
    0 <= s.blocked <= s.total
  }

  /** Under escrow, the available balance lies between 0 and the total. */
  lemma EscrowedAvailable(s: Balances)
    requires Escrowed(s)
    ensures Available(s) == s.total - s.blocked && 0 <= Available(s) <= s.total
  {
  }

  /** Blocking `d` and then `-d` gives back the account as it was, whatever the wrap-arounds. */
  lemma BlockThenUnblock(s: Balances, d: int32)
    ensures Block(Block(s, d), Neg(d)) == s
  {
    AddNegCancels(s.blocked, d);
  }

  /** Blocking `d` lowers the available balance by `d` and leaves the total alone. */
  lemma BlockLowersAvailable(s: Balances, d: int32)
    ensures Available(Block(s, d)) == Sub(Available(s), d)
    ensures Block(s, d).total == s.total
  {
    SubAdd(s.total, s.blocked, d);
  }

  /** Depositing `d` raises the available balance by `d` and leaves the blocked funds alone. */
  lemma DepositRaisesAvailable(s: Balances, d: int32)
    ensures Available(Deposit(s, d)) == Add(Available(s), d)
    ensures Deposit(s, d).blocked == s.blocked
  {
    SubAfterAdd(s.total, d, s.blocked);
  }

  /** Blocking no more than is available keeps the escrow property. */
  lemma BlockKeepsEscrow(s: Balances, d: int32)
    requires Escrowed(s) && 0 <= d <= Available(s)
    ensures Escrowed(Block(s, d))
    ensures Available(Block(s, d)) == Available(s) - d
  {
    EscrowedAvailable(s);
    BlockLowersAvailable(s, d);
  }

  /** Releasing no more than is blocked keeps the escrow property. */
  lemma UnblockKeepsEscrow(s: Balances, d: int32)
    requires Escrowed(s) && 0 <= d <= s.blocked
    ensures Escrowed(Block(s, Neg(d)))
    ensures Available(Block(s, Neg(d))) == Available(s) + d
  {
    EscrowedAvailable(s);
  }

  /** A deposit that does not overflow keeps the escrow property. */
  lemma DepositKeepsEscrow(s: Balances, d: int32)
    requires Escrowed(s) && 0 <= d && s.total + d <= MaxInt
    ensures Escrowed(Deposit(s, d))
    ensures Available(Deposit(s, d)) == Available(s) + d
  {
    EscrowedAvailable(s);
  }

  /** An account of the bank: identity fixed at creation, balances updated in place. */
  class Account {
    const id: int32
    const name: string
    const isAgent: bool
    var totalBalance: int32
    var blockedFunds: int32

    function State(): Balances
      reads this
    {
      Balances(totalBalance, blockedFunds)
    }

    constructor (id: int32, name: string, isAgent: bool, initialBalance: int32)
      ensures this.id == id && this.name == name && this.isAgent == isAgent
      ensures totalBalance == initialBalance && blockedFunds == 0
      ensures AvailableBalance() == initialBalance
    {
      this.id := id;
      this.name := name;
      this.isAgent := isAgent;
      totalBalance := initialBalance;
      blockedFunds := 0;
    }

    function AvailableBalance(): (r: int32)
      reads this
      ensures InRange(totalBalance - blockedFunds) ==> r == totalBalance - blockedFunds
      ensures 0 <= blockedFunds <= totalBalance ==> 0 <= r <= totalBalance
    {
      Available(State())
    }

    method SetBlockedFunds(amount: int32)
      modifies this`blockedFunds
      ensures State() == Block(old(State()), amount)
      ensures AvailableBalance() == Sub(old(AvailableBalance()), amount)
    {
      blockedFunds := Add(blockedFunds, amount);
      BlockLowersAvailable(old(State()), amount);
    }

    method SetTotalBalance(amount: int32)
      modifies this`totalBalance
      ensures State() == Deposit(old(State()), amount)
      ensures AvailableBalance() == Add(old(AvailableBalance()), amount)
    {
      totalBalance := Add(totalBalance, amount);
      DepositRaisesAvailable(old(State()), amount);
    }
  }
}
