/** The bank's balances, per account and denomination, and its transfer
    primitive, which the checkers module uses for escrow. */
module Bank {
  import opened Types

  /** Balances keyed by (account, denomination); a missing key is 0. */
  type Balances = map<(Account, string), nat>

  function Balance(b: Balances, a: Account, d: string): nat {
    if (a, d) in b then b[(a, d)] else 0
  }

  /** Moves amount units of denomination d from one account to another;
      the bank refuses a transfer the sender cannot cover, hence the
      precondition. */
  function Send(b: Balances, from: Account, to: Account, d: string, amount: nat): (r: Balances)
    requires amount <= Balance(b, from, d)
    ensures forall a, e :: Balance(r, a, e) == Balance(b, a, e)
                                                - (if a == from && e == d then amount else 0)
                                                + (if a == to && e == d then amount else 0)
  {
    var debited := b[(from, d) := Balance(b, from, d) - amount];
    debited[(to, d) := Balance(debited, to, d) + amount]
  }
}
