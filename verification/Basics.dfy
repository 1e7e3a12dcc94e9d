/** Types and small helpers shared by the models of the node's components. */
module Basics {

  datatype Option<+T> = None | Some(value: T)

  // The three kinds of identifiers; an empty string stands for "none" as in the source.
  type Hash = string
  type Address = string
  type Uri = string

  // Amounts count 10^-8 parts of a coin.
  type Amount = nat

  // Unsigned words have 64 bits.
  const WORD: nat := 0x1_0000_0000_0000_0000

  // Seconds between blocks, and the tolerance between the clocks of nodes.
  const BLOCK_MINE_DELAY: int := 600
  const NODES_TIME_SHIFT: int := 60

  function Min(a: int, b: int): int { if a < b then a else b }

  function Max(a: int, b: int): int { if a < b then b else a }

  predicate Distinct<T(==)>(s: seq<T>) {
    forall i, j :: 0 <= i < j < |s| ==> s[i] != s[j]
  }

  function Lookup<K>(m: map<K, Amount>, k: K): Amount {
    if k in m then m[k] else 0
  }
}
