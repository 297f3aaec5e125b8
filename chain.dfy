/** The Bitcoin chain the service talks to, and the two facts it derives
    from it: the node's default RPC port and the `bitcoin` crate network. */
module BitcoinChain {

  newtype u16 = x: int | 0 <= x < 0x1_0000

  datatype Chain = Mainnet | Testnet

  /** The subset of the `bitcoin` crate's `Network` enum this code uses. */
  datatype Network = Bitcoin | Testnet

  /** Bitcoin Core's default JSON-RPC port for the chain. */
  function DefaultRpcPort(c: Chain): (port: u16)
    ensures c == Chain.Mainnet <==> port == 8332
    ensures c == Chain.Testnet <==> port == 18332
  {
    match c
    case Mainnet => 8332
    case Testnet => 18332
  }

  /** The network an address must belong to on this chain. */
  function NetworkOf(c: Chain): (n: Network)
    ensures c == Chain.Mainnet <==> n == Network.Bitcoin
    ensures c == Chain.Testnet <==> n == Network.Testnet
  {
    match c
    case Mainnet => Network.Bitcoin
    case Testnet => Network.Testnet
  }

  /** Distinct chains never share an RPC port. */
  lemma DefaultRpcPortInjective(a: Chain, b: Chain)
    ensures DefaultRpcPort(a) == DefaultRpcPort(b) ==> a == b
  {
  }

  /** Distinct chains never map to the same network. */
  lemma NetworkOfInjective(a: Chain, b: Chain)
    ensures NetworkOf(a) == NetworkOf(b) ==> a == b
  {
  }
}
