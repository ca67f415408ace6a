/** The order a sequencer plays its children in. */
module IndexTable {
  import opened Sources

  /** How many steps one pass has for n children. */
  function TableSize(mode: U32, n: nat): int {
    if mode == PINGPONG then 2 * n - 1 else n
  }

  /** The table before any shuffling: up to the last child and, for ping-pong, back again. */
  function Plain(mode: U32, n: nat): (t: seq<nat>)
    requires n >= 1
    ensures |t| == TableSize(mode, n)
    ensures forall i | 0 <= i < |t| :: t[i] == (if i < n then i else 2 * n - 2 - i) && t[i] < n
  {
    seq(TableSize(mode, n), i requires 0 <= i < TableSize(mode, n) => if i < n then i else 2 * n - 2 - i)
  }

  function Iota(n: nat): (t: seq<nat>)
    ensures |t| == n && forall i | 0 <= i < n :: t[i] == i
  {
    seq(n, i requires 0 <= i < n => i)
  }

  /** The table-filling loop of FrameSequencer::reset_index, before the shuffle. */
  method FillTable(mode: U32, n: nat) returns (tbl: seq<nat>)
    requires n >= 1
    ensures tbl == Plain(mode, n)
  {
    var sz := n;
    var incr := 1;
    if mode == PINGPONG {
      sz := sz * 2;
      sz := sz - 1;
    }
    tbl := [];
    var k: int := 0;
    for i := 0 to sz
      invariant |tbl| == i && tbl == Plain(mode, n)[..i]
      invariant k == if i < n then i else 2 * n - 2 - i
      invariant incr == if i < n then 1 else -1
    {
      if i >= n - 1 { incr := -1; }
      tbl := tbl + [k];
      k := k + incr;
      assert k >= -1;
    }
  }

  /** Random numbers: each shuffle of n children, told apart by which playback asks and how often it has asked,
      is some permutation. */
  type Shuffle = (seq<nat>, nat, nat) -> seq<nat>

  ghost predicate Shuffles(sh: Shuffle) {
    forall who, draw, n :: IsPermutation(sh(who, draw, n), n)
  }

  ghost predicate IsPermutation(t: seq<nat>, n: nat) {
    multiset(t) == multiset(Iota(n))
  }

  /** A permutation of n children has n entries, each of them a child, and each child is among them. */
  lemma PermutationFits(t: seq<nat>, n: nat)
    requires IsPermutation(t, n)
    ensures |t| == n
    ensures forall i | 0 <= i < n :: t[i] < n
    ensures forall k | 0 <= k < n :: k in t
    ensures forall i, j | 0 <= i < j < n :: t[i] != t[j]
  {
    assert |multiset(t)| == |t| && |multiset(Iota(n))| == n;
    forall i | 0 <= i < |t|
      ensures t[i] < n
    {
      assert t[i] in multiset(t);
      assert t[i] in Iota(n);
    }
    forall k | 0 <= k < n
      ensures k in t
    {
      assert Iota(n)[k] in multiset(Iota(n));
    }
    forall i, j | 0 <= i < j < n
      ensures t[i] != t[j]
    {
      if t[i] == t[j] {
        TwiceInMultiset(t, i, j);
        IotaOnce(n, t[i]);
        assert false;
      }
    }
  }

  lemma TwiceInMultiset(t: seq<nat>, i: nat, j: nat)
    requires i < j < |t| && t[i] == t[j]
    ensures multiset(t)[t[i]] >= 2
  {
    assert t == t[..i] + [t[i]] + t[i + 1..j] + [t[j]] + t[j + 1..];
  }

  lemma {:induction false} IotaOnce(n: nat, k: nat)
    ensures multiset(Iota(n))[k] == if k < n then 1 else 0
  {
    if n > 0 {
      IotaOnce(n - 1, k);
      assert Iota(n) == Iota(n - 1) + [n - 1];
    }
  }

  /** Ping-pong reads the same in both directions, turns once at the last child and meets every other child twice. */
  lemma PingpongTurnsOnce(n: nat)
    requires n >= 1
    ensures var t := Plain(PINGPONG, n);
            |t| == 2 * n - 1
            && (forall i | 0 <= i < |t| :: t[i] == t[|t| - 1 - i])
            && (forall i | 0 <= i < |t| :: t[i] == n - 1 <==> i == n - 1)
            && multiset(t) == multiset(Iota(n)) + multiset(Iota(n - 1))
  {
    var t := Plain(PINGPONG, n);
    var back := t[n..];
    assert t == Iota(n) + back;
    ReversedIota(back, n - 1);
  }

  lemma {:induction false} ReversedIota(t: seq<nat>, n: nat)
    requires |t| == n && forall i | 0 <= i < n :: t[i] == n - 1 - i
    ensures multiset(t) == multiset(Iota(n))
  {
    if n > 0 {
      ReversedIota(t[1..], n - 1);
      assert t == [n - 1] + t[1..];
      assert Iota(n) == Iota(n - 1) + [n - 1];
    }
  }
}
