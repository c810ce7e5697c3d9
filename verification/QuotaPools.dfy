// Grouping models by quota signature: a stable partition of the input.
module QuotaPools {
  import opened Basics

  datatype Model = Model(id: string, title: string, remaining: real, percent: real, exhausted: bool,
                         resetAt: Option<int>, untilReset: int)

  datatype Pool = Pool(id: string, name: string, labels: seq<string>, remaining: real, percent: real,
                       exhausted: bool, resetAt: Option<int>, untilReset: int)

  // The text rendering the grouping relies on: the six-decimal fraction, the
  // timestamp, the label clean-up, the display name of an id and the pool name.
  datatype Texts = Texts(fraction: real -> string, instant: int -> string, clean: string -> string,
                         display: string -> string, poolName: seq<string> -> string)

  function ResetText(t: Texts, m: Model): string {
    if m.resetAt.None? then "" else t.instant(m.resetAt.value)
  }

  function Signature(t: Texts, m: Model): string {
    t.fraction(m.remaining) + "_" + ResetText(t, m)
  }

  function LabelOf(t: Texts, m: Model): string {
    if t.clean(m.title) == "" then t.display(m.id) else t.clean(m.title)
  }

  function Labels(t: Texts, group: seq<Model>): seq<string> {
    seq(|group|, i requires 0 <= i < |group| => LabelOf(t, group[i]))
  }

  function PoolOf(t: Texts, sig: string, group: seq<Model>): Pool
    requires group != []
  {
    var ref := group[0];
    Pool(sig, t.poolName(Labels(t, group)), Labels(t, group), ref.remaining, ref.percent, ref.exhausted, ref.resetAt,
         ref.untilReset)
  }

  // --- What the two loops build ---

  function Members(t: Texts, models: seq<Model>, sig: string): seq<Model> {
    if models == [] then []
    else
      var m := models[|models| - 1];
      Members(t, models[..|models| - 1], sig) + if Signature(t, m) == sig then [m] else []
  }

  // The signatures met so far, each at its first occurrence.
  function Order(t: Texts, models: seq<Model>): seq<string> {
    if models == [] then []
    else
      var rest, sig := Order(t, models[..|models| - 1]), Signature(t, models[|models| - 1]);
      if sig in rest then rest else rest + [sig]
  }

  lemma {:induction false} OrderIsSignatures(t: Texts, models: seq<Model>, sig: string)
    ensures sig in Order(t, models) <==> exists i :: 0 <= i < |models| && Signature(t, models[i]) == sig
    ensures sig in Order(t, models) <==> Members(t, models, sig) != []
  {
    if models != [] {
      hide Signature;
      var n := |models| - 1;
      OrderIsSignatures(t, models[..n], sig);
      assert Signature(t, models[n]) == sig ==> exists i :: 0 <= i < |models| && Signature(t, models[i]) == sig;
      assert forall i :: 0 <= i < n ==> models[..n][i] == models[i];
    }
  }

  lemma EmptyGroups(t: Texts)
    ensures Order(t, []) == [] && forall sig :: Members(t, [], sig) == []
  {}

  lemma GroupStep(t: Texts, models: seq<Model>, n: nat)
    requires n < |models|
    ensures var sig, order := Signature(t, models[n]), Order(t, models[..n]);
            Order(t, models[..n + 1]) == if sig in order then order else order + [sig]
    ensures forall sig :: Members(t, models[..n + 1], sig) ==
                          Members(t, models[..n], sig) + if Signature(t, models[n]) == sig then [models[n]] else []
  {
    hide Signature;
    assert models[..n + 1][..n] == models[..n];
  }

  method GroupModelsByQuota(t: Texts, models: seq<Model>) returns (pools: seq<Pool>)
    ensures |pools| == |Order(t, models)|
    ensures forall k :: 0 <= k < |pools| ==>
              var group := Members(t, models, Order(t, models)[k]);
              group != [] && pools[k] == PoolOf(t, Order(t, models)[k], group)
  {
    hide Signature, PoolOf, Members, Order;
    EmptyGroups(t);
    if |models| == 0 {
      return [];
    }
    var poolMap: map<string, seq<Model>> := map[];
    var poolOrder: seq<string> := [];
    for n := 0 to |models|
      invariant poolOrder == Order(t, models[..n])
      invariant forall sig :: sig in poolMap <==> sig in poolOrder
      invariant forall sig :: sig in poolMap ==> poolMap[sig] == Members(t, models[..n], sig)
    {
      var sig := Signature(t, models[n]);
      GroupStep(t, models, n);
      OrderIsSignatures(t, models[..n], sig);
      if sig !in poolMap {
        poolMap := poolMap[sig := []];
        poolOrder := poolOrder + [sig];
      }
      poolMap := poolMap[sig := poolMap[sig] + [models[n]]];
    }
    assert models[..|models|] == models;
    pools := [];
    for k := 0 to |poolOrder|
      invariant |pools| == k
      invariant forall j :: 0 <= j < k ==>
                  poolMap[poolOrder[j]] != [] && pools[j] == PoolOf(t, poolOrder[j], poolMap[poolOrder[j]])
    {
      OrderIsSignatures(t, models, poolOrder[k]);
      assert poolOrder[k] in poolMap;
      var pool := BuildPool(t, poolOrder[k], poolMap[poolOrder[k]]);
      pools := pools + [pool];
    }
  }

  method BuildPool(t: Texts, sig: string, group: seq<Model>) returns (pool: Pool)
    requires group != []
    ensures pool == PoolOf(t, sig, group)
  {
    var names: seq<string> := [];
    for i := 0 to |group|
      invariant |names| == i && forall j :: 0 <= j < i ==> names[j] == LabelOf(t, group[j])
    {
      var name := t.clean(group[i].title);
      if name == "" {
        name := t.display(group[i].id);
      }
      names := names + [name];
    }
    assert names == Labels(t, group);
    var ref := group[0];
    pool := Pool(sig, t.poolName(names), names, ref.remaining, ref.percent, ref.exhausted, ref.resetAt, ref.untilReset);
  }

  // --- The partition ---

  lemma {:induction false} OrderDistinct(t: Texts, models: seq<Model>, k: nat, l: nat)
    requires k < l < |Order(t, models)|
    ensures Order(t, models)[k] != Order(t, models)[l]
  {
    var n := |models| - 1;
    if l < |Order(t, models[..n])| {
      OrderDistinct(t, models[..n], k, l);
    }
  }

  // Two models lie in the same pool exactly when their signatures agree: the
  // pool of a model is the only one whose group holds its signature.
  lemma PoolExists(t: Texts, models: seq<Model>, i: nat) returns (k: nat)
    requires i < |models|
    ensures k < |Order(t, models)| && Order(t, models)[k] == Signature(t, models[i])
    ensures forall l :: 0 <= l < |Order(t, models)| && Order(t, models)[l] == Signature(t, models[i]) ==> l == k
  {
    hide Signature, Order;
    var order, sig := Order(t, models), Signature(t, models[i]);
    OrderIsSignatures(t, models, sig);
    k :| 0 <= k < |order| && order[k] == sig;
    forall l | 0 <= l < |order| && order[l] == sig
      ensures l == k
    {
      if l < k {
        OrderDistinct(t, models, l, k);
      } else if k < l {
        OrderDistinct(t, models, k, l);
      }
    }
  }

  // `at` lists, ascending, every position of the input with the signature, and
  // `group` holds the models there.
  ghost predicate Positions(t: Texts, models: seq<Model>, sig: string, group: seq<Model>, at: seq<nat>) {
    && |at| == |group|
    && (forall j :: 0 <= j < |at| ==>
          at[j] < |models| && group[j] == models[at[j]] && Signature(t, group[j]) == sig)
    && (forall j, l :: 0 <= j < l < |at| ==> at[j] < at[l])
    && (forall i :: 0 <= i < |models| && Signature(t, models[i]) == sig ==> i in at)
  }

  lemma PositionsSkip(t: Texts, models: seq<Model>, sig: string, group: seq<Model>, at: seq<nat>)
    requires models != [] && Positions(t, models[..|models| - 1], sig, group, at)
    requires Signature(t, models[|models| - 1]) != sig
    ensures Positions(t, models, sig, group, at)
  {
    hide Signature;
    assert forall i :: 0 <= i < |models| - 1 ==> models[..|models| - 1][i] == models[i];
  }

  lemma PositionsTake(t: Texts, models: seq<Model>, sig: string, group: seq<Model>, at: seq<nat>)
    requires models != [] && Positions(t, models[..|models| - 1], sig, group, at)
    requires Signature(t, models[|models| - 1]) == sig
    ensures Positions(t, models, sig, group + [models[|models| - 1]], at + [|models| - 1])
  {
    hide Signature;
    var m := |models| - 1;
    assert forall i :: 0 <= i < m ==> models[..m][i] == models[i];
    assert (at + [m])[|at|] == m;
    assert forall i :: i in at ==> i in at + [m];
  }

  // A group is the subsequence of the input with its signature.
  lemma {:induction false} MembersKeepOrder(t: Texts, models: seq<Model>, sig: string) returns (at: seq<nat>)
    ensures Positions(t, models, sig, Members(t, models, sig), at)
  {
    hide Signature;
    if models == [] {
      at := [];
    } else {
      hide Positions;
      var n := |models| - 1;
      at := MembersKeepOrder(t, models[..n], sig);
      var before := Members(t, models[..n], sig);
      if Signature(t, models[n]) == sig {
        PositionsTake(t, models, sig, before, at);
        at := at + [n];
      } else {
        PositionsSkip(t, models, sig, before, at);
        assert Members(t, models, sig) == before;
      }
    }
  }

  // Pools appear in the order their signatures first occur.
  lemma {:induction false} PoolsByFirstOccurrence(t: Texts, models: seq<Model>, l: nat) returns (first: nat)
    requires l < |Order(t, models)|
    ensures first < |models| && Signature(t, models[first]) == Order(t, models)[l]
    ensures forall i :: 0 <= i < first ==> Signature(t, models[i]) in Order(t, models)[..l]
  {
    hide Signature;
    var n := |models| - 1;
    var rest := Order(t, models[..n]);
    if l < |rest| {
      first := PoolsByFirstOccurrence(t, models[..n], l);
      assert Order(t, models)[..l] == rest[..l];
      assert forall i :: 0 <= i < n ==> models[..n][i] == models[i];
    } else {
      first := n;
      assert Order(t, models)[..l] == rest;
      forall i | 0 <= i < n
        ensures Signature(t, models[i]) in rest
      {
        OrderIsSignatures(t, models[..n], Signature(t, models[i]));
        assert models[..n][i] == models[i];
      }
    }
  }

  function Total(t: Texts, models: seq<Model>, order: seq<string>): nat {
    if order == [] then 0
    else Total(t, models, order[..|order| - 1]) + |Members(t, models, order[|order| - 1])|
  }

  lemma CountStep(t: Texts, models: seq<Model>, sig: string)
    requires models != []
    ensures |Members(t, models, sig)| ==
            |Members(t, models[..|models| - 1], sig)| + if Signature(t, models[|models| - 1]) == sig then 1 else 0
  {
    hide Signature;
  }

  lemma TotalSnoc(t: Texts, models: seq<Model>, order: seq<string>)
    requires order != []
    ensures Total(t, models, order) ==
            Total(t, models, order[..|order| - 1]) + |Members(t, models, order[|order| - 1])|
  {
    hide Members;
  }

  lemma InFrontOrLast(order: seq<string>, sig: string)
    requires order != [] && forall k, l :: 0 <= k < l < |order| ==> order[k] != order[l]
    ensures sig in order <==> sig in order[..|order| - 1] || sig == order[|order| - 1]
    ensures order[|order| - 1] !in order[..|order| - 1]
  {
    assert order == order[..|order| - 1] + [order[|order| - 1]];
  }

  lemma {:induction false} TotalStep(t: Texts, models: seq<Model>, order: seq<string>)
    requires models != [] && forall k, l :: 0 <= k < l < |order| ==> order[k] != order[l]
    ensures var before, sig := models[..|models| - 1], Signature(t, models[|models| - 1]);
            Total(t, models, order) == Total(t, before, order) + if sig in order then 1 else 0
  {
    if order == [] {
    } else {
      hide Signature, Members, Total;
      var last := |order| - 1;
      TotalStep(t, models, order[..last]);
      CountStep(t, models, order[last]);
      TotalSnoc(t, models, order);
      TotalSnoc(t, models[..|models| - 1], order);
      InFrontOrLast(order, Signature(t, models[|models| - 1]));
    }
  }

  // No model is lost or counted twice.
  lemma {:induction false} CountsSum(t: Texts, models: seq<Model>)
    ensures Total(t, models, Order(t, models)) == |models|
  {
    if models != [] {
      hide Signature;
      var n := |models| - 1;
      var before, rest, sig := models[..n], Order(t, models[..n]), Signature(t, models[n]);
      CountsSum(t, before);
      OrderIsSignatures(t, before, sig);
      forall k, l | 0 <= k < l < |rest|
        ensures rest[k] != rest[l]
      {
        OrderDistinct(t, before, k, l);
      }
      TotalStep(t, models, rest);
      assert sig !in rest ==> Order(t, models)[..|rest|] == rest;
    }
  }

  // Signatures agree exactly when both rendered parts do, since a rendered
  // fraction holds no underscore.
  lemma {:induction false} SignatureParts(t: Texts, a: Model, b: Model)
    requires '_' !in t.fraction(a.remaining) && '_' !in t.fraction(b.remaining)
    ensures Signature(t, a) == Signature(t, b) <==>
            t.fraction(a.remaining) == t.fraction(b.remaining) && ResetText(t, a) == ResetText(t, b)
  {
    var x, y, s, u := t.fraction(a.remaining), t.fraction(b.remaining), Signature(t, a), Signature(t, b);
    if s == u {
      assert s[|x|] == '_' && u[|y|] == '_';
      assert forall i :: 0 <= i < |x| ==> s[i] == x[i];
      assert forall i :: 0 <= i < |y| ==> u[i] == y[i];
      assert |x| == |y|;
      assert x == s[..|x|] && y == u[..|x|];
      assert ResetText(t, a) == s[|x| + 1..] && ResetText(t, b) == u[|x| + 1..];
    }
  }
}
