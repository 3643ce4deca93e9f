/** The packets that travel between a program and a file handler (aweb/asyncio.c). */
module Packets {

  newtype byte = x: int | 0 <= x < 256

  const NEWLINE: byte := 10

  /** How the handler answers a packet: it does the work, or reports an error that the user
      then cancels or wants retried. */
  datatype Outcome = Done | Error(retry: bool)

  /** Where the packet is: with the program, with the handler, or back at the reply port. */
  datatype Packet = Home | InFlight | Replied

  /** The least multiple of the block size that holds the size asked for. */
  function RoundUp(size: nat, block: nat): (r: nat)
    requires block > 0
    ensures size <= r && (size > 0 ==> block <= r)
  {
    var q := (size + block - 1) / block;
    assert q * block + (size + block - 1) % block == size + block - 1;
    q * block
  }

  ghost predicate Calm(os: seq<Outcome>) { forall o <- os :: o.Done? }

  ghost predicate NoRetry(os: seq<Outcome>) { forall o <- os :: o != Error(true) }

  lemma TailForeseen(os: seq<Outcome>)
    requires os != []
    ensures Calm(os) ==> os[0].Done? && Calm(os[1..])
    ensures NoRetry(os) ==> os[0] != Error(true) && NoRetry(os[1..])
  {
    assert os[0] in os && forall o <- os[1..] :: o in os;
  }

  function Concat(parts: seq<seq<byte>>): seq<byte> {
    if parts == [] then [] else parts[0] + Concat(parts[1..])
  }
}
