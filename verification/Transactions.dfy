/** Transactions and the shard an address belongs to (Tx/transaction.go). */
module Transactions {
  datatype Option<+T> = None | Some(value: T)

  datatype Kind = RegisterTx | PryTx | RelayTx | RelayDump

  predicate IsHexDigit(c: char) { '0' <= c <= '9' || 'a' <= c <= 'f' || 'A' <= c <= 'F' }

  // An address whose last eight characters are a hexadecimal number; the source panics on others.
  type Address = a: string | |a| >= 8 && forall c <- a[|a| - 8..] :: IsHexDigit(c) witness "00000000"

  datatype Transaction = Transaction(sender: Address, recipient: Address, value: int, nonce: nat, kind: Kind)

  function HexValue(c: char): (v: nat)
    requires IsHexDigit(c)
    ensures v < 16
  {
    if c <= '9' then (c - '0') as nat
    else if c <= 'F' then (c - 'A') as nat + 10
    else (c - 'a') as nat + 10
  }

  function ParseHex(s: string): nat
    requires forall c <- s :: IsHexDigit(c)
  {
    if s == "" then 0 else 16 * ParseHex(s[..|s| - 1]) + HexValue(s[|s| - 1])
  }

  function InShard(a: Address, shardAmount: nat): nat
    requires shardAmount > 0
  {
    ParseHex(a[|a| - 8..]) % shardAmount
  }

  function SInShard(tx: Transaction, shardAmount: nat): nat
    requires shardAmount > 0
  {
    if tx.kind == RegisterTx then 0 else InShard(tx.sender, shardAmount)
  }

  function RInShard(tx: Transaction, shardAmount: nat): nat
    requires shardAmount > 0
  {
    if tx.kind == RegisterTx then 0 else InShard(tx.recipient, shardAmount)
  }

  function Elements<T>(s: seq<T>): set<T> { set x | x in s }

  lemma ElementsAppend<T>(s: seq<T>, x: T)
    ensures Elements(s + [x]) == Elements(s) + {x}
  {
    forall y ensures y in Elements(s + [x]) <==> y in Elements(s) + {x} {
      if y in s {
        assert y in s + [x];
      }
      assert (s + [x])[|s|] == x;
    }
  }
}
