/** The stored chain of blocks, with the cached header and hash of the last block. */
module Chains {
  import opened Basics

  datatype Header = Header(number: nat, delta: nat, constant: nat, cSum: nat, prevHash: Hash, time: int)

  // A header with the hash of its block.
  datatype HeaderEx = HeaderEx(header: Header, hash: Hash)

  // A block as the chain sees it: its header and the hash of its text.
  datatype Stored = Stored(header: Header, hash: Hash)

  class Blockchain {
    var headers: seq<Header>
    var blocks: seq<Stored>
    var lastHeader: Header
    var lastHash: Hash

    ghost predicate Valid()
      reads this
    {
      && |headers| == |blocks| > 0
      && (forall i :: 0 <= i < |blocks| ==> headers[i] == blocks[i].header && headers[i].number == i && blocks[i].hash != "")
      && lastHeader == headers[|headers| - 1] && lastHash == blocks[|blocks| - 1].hash
    }

    ghost predicate Linked()
      reads this
    {
      |headers| == |blocks| && forall i :: 0 < i < |headers| ==> headers[i].prevHash == blocks[i - 1].hash
    }

    constructor (genesis: Stored)
      requires genesis.header.number == 0 && genesis.hash != ""
      ensures Valid() && Linked() && blocks == [genesis]
    {
      headers, blocks := [genesis.header], [genesis];
      lastHeader, lastHash := genesis.header, genesis.hash;
    }

    method Length() returns (n: nat)
      ensures n == |blocks|
    {
      return |blocks|;
    }

    method UpdateState()
      requires |headers| == |blocks| > 0
      modifies this`lastHeader, this`lastHash
      ensures lastHeader == blocks[|blocks| - 1].header && lastHash == blocks[|blocks| - 1].hash
    {
      var last := blocks[|blocks| - 1];
      lastHeader, lastHash := last.header, last.hash;
    }

    // Only the number of the block is checked here.
    method Insert(block: Stored) returns (ok: bool)
      requires Valid() && block.hash != ""
      modifies this
      ensures Valid() && (ok <==> block.header.number == |old(blocks)|)
      ensures blocks == if ok then old(blocks) + [block] else old(blocks)
      ensures ok && old(Linked()) && block.header.prevHash == old(lastHash) ==> Linked()
    {
      if block.header.number != |blocks| { return false; }
      headers := headers + [block.header];
      blocks := blocks + [block];
      UpdateState();
      return true;
    }

    method RemoveLastBlock() returns (ok: bool)
      requires Valid()
      modifies this
      ensures Valid() && (ok <==> |old(blocks)| > 1)
      ensures blocks == if ok then old(blocks)[..|old(blocks)| - 1] else old(blocks)
      ensures old(Linked()) ==> Linked()
    {
      if |blocks| == 1 { return false; }
      headers := headers[..|headers| - 1];
      blocks := blocks[..|blocks| - 1];
      UpdateState();
      return true;
    }

    method HeaderAt(number: nat) returns (header: Option<Header>)
      requires Valid()
      ensures header == if number < |blocks| then Some(blocks[number].header) else None
    {
      return if number < |headers| then Some(headers[number]) else None;
    }

    // The hash comes from the next header, or from the cache: on a linked chain both are the
    // hash of the block itself.
    method HeaderExAt(number: nat) returns (header: Option<HeaderEx>)
      requires Valid() && Linked()
      ensures header == if number < |blocks| then Some(HeaderEx(blocks[number].header, blocks[number].hash)) else None
    {
      if number == |blocks| - 1 { return Some(HeaderEx(lastHeader, lastHash)); }
      if number >= |headers| { return None; }
      return Some(HeaderEx(headers[number], headers[number + 1].prevHash));
    }
  }
}
