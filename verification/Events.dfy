/** The wallet events that processors derive from blocks and hand to the publisher. */
module Events {

  /** An address with an amount in integer base units (satoshis, lamports, token units). */
  datatype Leg = Leg(address: string, amount: int)

  datatype Event =
    | Deposit(tx: string, wallet: string, address: string, from: string,
              legs: seq<Leg>, asset: string, amount: int)
    | Withdrawal(tx: string, wallet: string, address: string, to: string,
                 legs: seq<Leg>, asset: string, amount: int)
}
