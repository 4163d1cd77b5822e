/** What an attempt on a block fetches, per kind of chain, and which events that calls for. */
module Chains {
  import opened Common
  import opened Events
  import UtxoModel = Utxo
  import SolanaTransfers
  import SolanaBlock

  datatype Chain = UtxoChain | SolanaChain | EvmChain | TronChain

  /** The block an attempt fetched, with the wallets its lookups saw. */
  datatype BlockData =
    | UtxoData(txs: seq<UtxoModel.Tx>, wallets: Wallets)
    | SolanaData(slot: Option<seq<SolanaTransfers.Tx>>, watch: SolanaTransfers.Watch)
    | OtherData

  /** A fetched block and the events it calls for. */
  datatype Fetched = Fetched(data: BlockData, events: seq<Event>)

  /** What the publisher said to an event, if it was asked. */
  datatype Answer = Taken | Declined | Unoffered

  /** The events are those of the block. How EVM and TRON blocks become events is not modelled: any list
      will do there. */
  ghost predicate Derives(chain: Chain, f: Fetched) {
    match chain
    case UtxoChain => f.data.UtxoData? && f.events == UtxoModel.BlockEvents(f.data.txs, f.data.wallets)
    case SolanaChain => f.data.SolanaData? && SolanaBlock.SlotDerives(f.data.slot, f.data.watch, f.events)
    case EvmChain => true
    case TronChain => true
  }

  /** The processors that fail a block on the first event not taken; the others only log it. */
  predicate Strict(chain: Chain) {
    chain.UtxoChain? || chain.SolanaChain?
  }
}
