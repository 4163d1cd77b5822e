/** Types that several parts of the tracker share. */
module Common {

  datatype Option<+T> = None | Some(value: T)

  type Network = string

  /** Watched address to wallet id. */
  type Wallets = map<string, string>

  /** How a Redis write ends. Lost: the command took effect, the caller saw an error. */
  datatype Reply = Done | Refused | Lost
}
