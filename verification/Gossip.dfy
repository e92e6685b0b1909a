/** The sample of peers that a node gossips about (node/manager.go keepalive, handleSayHello, NodeList). */
module Gossip {
  import opened Seqs

  const GOSSIP_SIZE := 5

  lemma WrapAround(start: nat, i: nat, j: nat, n: nat)
    requires i < j && j < i + n
    ensures (start + i) % n != (start + j) % n
  {
    var a, b := start + i, start + j;
    if a % n == b % n {
      assert a == a / n * n + a % n && b == b / n * n + b % n;
      assert j - i == (b / n - a / n) * n;
      NoMultipleBetween(b / n - a / n, n);
    }
  }

  lemma NoMultipleBetween(k: int, n: int)
    requires 0 < n
    ensures !(0 < k * n < n)
  {
    if k <= 0 {
      assert k * n <= 0;
    } else {
      assert (k - 1) * n >= 0;
    }
  }

  /** Walks the peers from any start, wrapping around: exactly five of them, or all if there are fewer, and none
      twice. */
  method Sample<T>(peers: seq<T>, start: nat) returns (sample: seq<T>)
    ensures |sample| == if |peers| < GOSSIP_SIZE then |peers| else GOSSIP_SIZE
    ensures forall x :: x in sample ==> x in peers
    ensures NoRepeats(peers) ==> NoRepeats(sample)
  {
    sample := [];
    var size := |peers|;
    if size == 0 {
      return;
    }
    var total := if size < GOSSIP_SIZE then size else GOSSIP_SIZE;
    var count, at := total, start;
    while count > 0
      invariant 0 <= count <= total && |sample| == total - count && at == start + |sample|
      invariant forall i :: 0 <= i < |sample| ==> sample[i] == peers[(start + i) % size]
    {
      sample := sample + [peers[at % size]];
      at := at + 1;
      count := count - 1;
    }
    if NoRepeats(peers) {
      forall i, j | 0 <= i < j < |sample| ensures sample[i] != sample[j] {
        WrapAround(start, i, j, size);
        assert peers[(start + i) % size] != peers[(start + j) % size];
      }
    }
  }
}
