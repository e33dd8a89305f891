// The 2-opt local search on block suffixes (`_local_search_2opt`): it never finds an exchange it accepts.
module TwoOpt {
  import opened Wrappers
  import opened Domain
  import opened Kernel
  import opened Blocks
  import opened Moves

  /** Idle minutes at the joint of a head and a tail. */
  function JointGap(head: Chain, tail: Chain): int
    requires head != [] && tail != []
  {
    GapBetween(head[|head| - 1], tail[0])
  }

  /** Exchanging the tails of two blocks moves idle time between the joints and removes none. */
  lemma ExchangeKeepsGaps(head1: Chain, tail1: Chain, head2: Chain, tail2: Chain)
    requires head1 != [] && tail1 != [] && head2 != [] && tail2 != []
    ensures JointGap(head1, tail2) + JointGap(head2, tail1) == JointGap(head1, tail1) + JointGap(head2, tail2)
  {
  }

  /** The acceptance test for one cut, with the gaps the suffix checks report. */
  method ExchangePays(c1: Chain, c2: Chain, cut: nat, p: Params) returns (pays: bool)
    requires 0 < cut < |c1| && cut < |c2|
    ensures !pays
  {
    hide BlockFeasible;
    var head1, tail1 := c1[..|c1| - cut], c1[|c1| - cut..];
    var head2, tail2 := c2[..|c2| - cut], c2[|c2| - cut..];
    var check1 := CanAppendSuffix(head1, tail2, p);
    var check2 := CanAppendSuffix(head2, tail1, p);
    if check1.Accepted? && check2.Accepted? && BlockFeasible(head1 + tail2, p) && BlockFeasible(head2 + tail1, p) {
      ExchangeKeepsGaps(head1, tail1, head2, tail2);
      pays := check1.gap + check2.gap < JointGap(head1, tail1) + JointGap(head2, tail2);
    } else {
      pays := false;
    }
  }

  /** `_local_search_2opt`: returns copies with the same trips after a single pass. */
  method LocalSearch2Opt(blocks: seq<Block>, p: Params) returns (r: seq<Block>, passes: nat)
    ensures View(r) == old(View(blocks)) && passes == 1
    ensures forall i :: 0 <= i < |blocks| ==> r[i].id == old(blocks[i].id)
    ensures Distinct(r) && fresh(Objs(r))
  {
    r := CopyBlocks(blocks);
    passes := 0;
    var improved := true;
    while improved
      invariant improved <==> passes == 0
      invariant !improved ==> passes == 1
      modifies {}
      decreases improved
    {
      improved := false;
      passes := passes + 1;
      for i := 0 to |r|
        modifies {}
      {
        for j := i + 1 to |r|
          modifies {}
        {
          if |r[i].trips| >= 2 && |r[j].trips| >= 2 {
            var c1, c2 := r[i].trips, r[j].trips;
            for cut := 1 to Min(|c1|, |c2|)
              modifies {}
            {
              var pays := ExchangePays(c1, c2, cut, p);
              if pays {
                // the exchange of the two suffixes would happen here
                assert false;
              }
            }
          }
        }
      }
    }
  }
}
