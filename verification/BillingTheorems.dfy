// From the sender's message trees to the reply, across framing and scanning.
module BillingTheorems {
  import opened Basics
  import opened Protobuf
  import opened ProtobufTheorems
  import opened Frames
  import opened Billing

  function LeavesOfTrees(trees: seq<seq<Node>>): Leaves
    requires forall t :: t in trees ==> AllLegal(t)
  {
    if trees == [] then NO_LEAVES
    else LeavesOfTrees(trees[..|trees| - 1]).Merge(LeavesOf(trees[|trees| - 1], 0, [], 0))
  }

  predicate Carries(ps: seq<seq<Byte>>, trees: seq<seq<Node>>) {
    && |ps| == |trees|
    && forall i :: 0 <= i < |ps| ==>
         AllLegal(trees[i]) && ps[i] == EncodeAll(trees[i]) && |ps[i]| < TWO_TO_THE_63
  }

  lemma {:induction false} ScanAllEncoded(ps: seq<seq<Byte>>, trees: seq<seq<Node>>)
    requires Carries(ps, trees)
    ensures forall t :: t in trees ==> AllLegal(t)
    ensures ScanAll(ps) == Some(LeavesOfTrees(trees))
  {
    hide Scan, LeavesOf, EncodeAll, AllLegal;
    if ps != [] {
      var n := |ps| - 1;
      ScanAllEncoded(ps[..n], trees[..n]);
      ScanMessage(trees[n], 0, [], 0);
    }
  }

  // Whatever trailers surround the data frames, the reply is decided by the
  // leaves of the trees sent.
  lemma ReplyFollowsTrees(fs: seq<Frame>, stray: seq<Byte>, trees: seq<seq<Node>>, now: int, reply: Reply)
    requires Sendable(fs) && |stray| < HEADER
    requires trees != [] && Carries(Frames.Payloads(fs, false), trees)
    ensures forall t :: t in trees ==> AllLegal(t)
    ensures Replies(WriteAll(fs) + stray, now, reply) <==> Answers(LeavesOfTrees(trees), now, reply)
  {
    hide ScanAll, DataFrom, WriteAll, Answers;
    RoundTrip(fs, stray);
    ScanAllEncoded(Frames.Payloads(fs, false), trees);
  }
}
