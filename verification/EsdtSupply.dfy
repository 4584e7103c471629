/**
 The total supply of a token, summed over the shards as decimal strings (process/esdtSupplyProcessor.go).
 */
module EsdtSupply {
  import opened Basics
  import opened Numerals

  datatype Supply = Supply(supply: string, burned: string, minted: string, initialMinted: string, recomputed: bool)

  /** What the observers of a shard say about a token, if any of them answers. */
  type ShardAnswer = Shard -> Option<Supply>

  /** `sumStr`: a string that is not a number gives way to the other one. */
  function SumStr(s1: string, s2: string): string {
    match ParseBig(s1)
    case None => s2
    case Some(a) =>
      match ParseBig(s2)
      case None => s1
      case Some(b) => BigString(a + b)
  }

  // ----- The intended sum -----

  datatype Field = TotalSupply | Burned | Minted

  function FieldOf(f: Field, s: Supply): string {
    match f
    case TotalSupply => s.supply
    case Burned => s.burned
    case Minted => s.minted
  }

  /** The number a shard reports in a field, when it reports one at all. */
  function Reported(f: Field, answer: ShardAnswer, shard: Shard): Option<int> {
    if shard == METACHAIN || answer(shard).None? then None else ParseBig(FieldOf(f, answer(shard).value))
  }

  function Plus(x: Option<int>, y: Option<int>): Option<int> {
    if x.None? then y else if y.None? then x else Some(x.value + y.value)
  }

  function OrZero(x: Option<int>): int {
    if x.Some? then x.value else 0
  }

  /** The integer sum of all numbers a report gives, if it gives any. */
  function SumBy(report: Shard -> Option<int>, shards: seq<Shard>): Option<int> {
    if shards == [] then None
    else Plus(SumBy(report, shards[..|shards| - 1]), report(shards[|shards| - 1]))
  }

  function SumOf(f: Field, answer: ShardAnswer, shards: seq<Shard>): Option<int> {
    SumBy((s: Shard) => Reported(f, answer, s), shards)
  }

  predicate AnyRecomputed(answer: ShardAnswer, shards: seq<Shard>) {
    exists s :: s in shards && s != METACHAIN && answer(s).Some? && answer(s).value.recomputed
  }

  predicate AllAnswer(answer: ShardAnswer, shards: seq<Shard>) {
    forall s :: s in shards && s != METACHAIN ==> answer(s).Some?
  }

  /** On what the strings stand for, `sumStr` is addition. */
  lemma SumStrAdds(s1: string, s2: string)
    ensures ParseBig(SumStr(s1, s2)) == Plus(ParseBig(s1), ParseBig(s2))
  {
    var a, b := ParseBig(s1), ParseBig(s2);
    if a.Some? && b.Some? {
      BigRoundTrip(a.value + b.value);
    }
  }

  lemma SumSnoc(report: Shard -> Option<int>, shards: seq<Shard>, next: Shard)
    ensures SumBy(report, shards + [next]) == Plus(SumBy(report, shards), report(next))
  {
    assert (shards + [next])[..|shards|] == shards;
  }

  lemma SumOfSnoc(f: Field, answer: ShardAnswer, shards: seq<Shard>, next: Shard)
    ensures SumOf(f, answer, shards + [next]) == Plus(SumOf(f, answer, shards), Reported(f, answer, next))
  {
    SumSnoc((s: Shard) => Reported(f, answer, s), shards, next);
  }

  lemma Regroup(front: seq<Shard>, back: seq<Shard>, init: seq<Shard>, last: Shard)
    requires back == init + [last]
    ensures front + back == (front + init) + [last]
  {
  }

  lemma {:induction false} SumWithout(report: Shard -> Option<int>, front: seq<Shard>, x: Shard, back: seq<Shard>)
    ensures SumBy(report, front + [x] + back) == Plus(SumBy(report, front + back), report(x))
  {
    if back == [] {
      assert front + [x] + back == front + [x] && front + back == front;
      SumSnoc(report, front, x);
    } else {
      var init, last := back[..|back| - 1], back[|back| - 1];
      SumWithout(report, front, x, init);
      Regroup(front + [x], back, init, last);
      Regroup(front, back, init, last);
      SumSnoc(report, front + [x] + init, last);
      SumSnoc(report, front + init, last);
    }
  }

  /** The sum does not depend on the order of the shards. */
  lemma {:induction false} SumOrder(report: Shard -> Option<int>, shards: seq<Shard>, shards': seq<Shard>)
    requires multiset(shards) == multiset(shards')
    ensures SumBy(report, shards) == SumBy(report, shards')
    decreases |shards|
  {
    if shards == [] {
      assert |multiset(shards')| == 0;
    } else {
      var init, last := shards[..|shards| - 1], shards[|shards| - 1];
      assert shards == init + [last];
      var front, back := SplitAtLast(init, last, shards');
      SumOrder(report, init, front + back);
      SumWithout(report, front, last, back);
    }
  }

  lemma SumOfOrder(f: Field, answer: ShardAnswer, shards: seq<Shard>, shards': seq<Shard>)
    requires multiset(shards) == multiset(shards')
    ensures SumOf(f, answer, shards) == SumOf(f, answer, shards')
  {
    SumOrder((s: Shard) => Reported(f, answer, s), shards, shards');
  }

  /** The totals stand for the sums over the shards. */
  ghost predicate Totals(t: Supply, answer: ShardAnswer, shards: seq<Shard>) {
    && ParseBig(t.supply) == SumOf(TotalSupply, answer, shards)
    && ParseBig(t.burned) == SumOf(Burned, answer, shards)
    && ParseBig(t.minted) == SumOf(Minted, answer, shards)
  }

  /** Two shards, the metachain between them: each field is added up on its own, and the metachain says nothing. */
  lemma SumOfTwoShards(answer: ShardAnswer, x: Shard, y: Shard)
    requires x != 0xFFFF_FFFF && y != 0xFFFF_FFFF && answer(x).Some? && answer(y).Some?
    ensures SumOf(TotalSupply, answer, [x, 0xFFFF_FFFF, y]) ==
            Plus(ParseBig(answer(x).value.supply), ParseBig(answer(y).value.supply))
    ensures SumOf(Burned, answer, [x, 0xFFFF_FFFF, y]) ==
            Plus(ParseBig(answer(x).value.burned), ParseBig(answer(y).value.burned))
    ensures SumOf(Minted, answer, [x, 0xFFFF_FFFF, y]) ==
            Plus(ParseBig(answer(x).value.minted), ParseBig(answer(y).value.minted))
  {
    assert [] + [x] + [METACHAIN] + [y] == [x, 0xFFFF_FFFF, y];
    SumOfThree(TotalSupply, answer, x, METACHAIN, y);
    SumOfThree(Burned, answer, x, METACHAIN, y);
    SumOfThree(Minted, answer, x, METACHAIN, y);
  }

  /** Numbers add up; what is no number gives way. */
  lemma PlusInFull(x: Option<int>, y: Option<int>)
    ensures x.Some? && y.Some? ==> Plus(x, y) == Some(x.value + y.value)
    ensures x.None? ==> Plus(x, y) == y
    ensures y.None? ==> Plus(x, y) == x
  {
  }

  lemma SumOfThree(f: Field, answer: ShardAnswer, x: Shard, y: Shard, z: Shard)
    ensures SumOf(f, answer, [] + [x] + [y] + [z]) ==
            Plus(Plus(Reported(f, answer, x), Reported(f, answer, y)), Reported(f, answer, z))
  {
    SumOfSnoc(f, answer, [], x);
    SumOfSnoc(f, answer, [] + [x], y);
    SumOfSnoc(f, answer, [] + [x] + [y], z);
  }

  // ----- The processor -----

  method AddToSupply(ghost answer: ShardAnswer, ghost shards: seq<Shard>, ghost next: Shard, dst: Supply,
                     source: Supply)
    returns (sum: Supply)
    requires Totals(dst, answer, shards)
    requires next != METACHAIN && answer(next) == Some(source)
    ensures Totals(sum, answer, shards + [next])
    ensures sum.initialMinted == dst.initialMinted && sum.recomputed == dst.recomputed
  {
    sum := dst.(supply := SumStr(dst.supply, source.supply));
    sum := sum.(burned := SumStr(sum.burned, source.burned));
    sum := sum.(minted := SumStr(sum.minted, source.minted));
    TotalsGrow(answer, shards, next, dst, source, sum);
  }

  lemma TotalsGrow(answer: ShardAnswer, shards: seq<Shard>, next: Shard, dst: Supply, source: Supply, sum: Supply)
    requires Totals(dst, answer, shards)
    requires next != METACHAIN && answer(next) == Some(source)
    requires sum.supply == SumStr(dst.supply, source.supply)
    requires sum.burned == SumStr(dst.burned, source.burned)
    requires sum.minted == SumStr(dst.minted, source.minted)
    ensures Totals(sum, answer, shards + [next])
  {
    SumStrAdds(dst.supply, source.supply);
    SumStrAdds(dst.burned, source.burned);
    SumStrAdds(dst.minted, source.minted);
    SumOfSnoc(TotalSupply, answer, shards, next);
    SumOfSnoc(Burned, answer, shards, next);
    SumOfSnoc(Minted, answer, shards, next);
  }

  lemma TotalsSkip(answer: ShardAnswer, shards: seq<Shard>, total: Supply)
    requires Totals(total, answer, shards)
    ensures Totals(total, answer, shards + [METACHAIN])
  {
    SumOfSnoc(TotalSupply, answer, shards, METACHAIN);
    SumOfSnoc(Burned, answer, shards, METACHAIN);
    SumOfSnoc(Minted, answer, shards, METACHAIN);
  }

  /** Asks every shard but the metachain and adds up what they say; fails when one does not answer. */
  method GetSupplyFromShards(shards: seq<Shard>, answer: ShardAnswer) returns (r: Option<Supply>)
    ensures r.Some? <==> AllAnswer(answer, shards)
    ensures r.Some? ==>
      && Totals(r.value, answer, shards)
      && (r.value.recomputed <==> AnyRecomputed(answer, shards))
      && r.value.initialMinted == ""
  {
    var total := Supply("", "", "", "", false);
    var numRecomputed := 0;
    for i := 0 to |shards|
      invariant AllAnswer(answer, shards[..i])
      invariant Totals(total, answer, shards[..i])
      invariant total.initialMinted == "" && !total.recomputed
      invariant numRecomputed >= 0 && (numRecomputed > 0 <==> AnyRecomputed(answer, shards[..i]))
    {
      var shard := shards[i];
      assert shards[..i + 1] == shards[..i] + [shard];
      if shard == METACHAIN {
        TotalsSkip(answer, shards[..i], total);
      } else {
        var supply := answer(shard);
        if supply.None? {
          return None;
        }
        total := AddToSupply(answer, shards[..i], shard, total, supply.value);
        if supply.value.recomputed {
          numRecomputed := numRecomputed + 1;
        }
      }
    }
    assert shards[..|shards|] == shards;
    r := Some(if numRecomputed > 0 then total.(recomputed := true) else total);
  }

  function Dashes(token: string): nat {
    if token == [] then 0 else Dashes(token[..|token| - 1]) + if token[|token| - 1] == '-' then 1 else 0
  }

  /** Fewer than three parts between dashes. */
  predicate IsFungible(token: string) {
    Dashes(token) < 2
  }

  lemma {:induction false} DashesInFull(token: string)
    ensures Dashes(token) >= 1 <==> exists i :: 0 <= i < |token| && token[i] == '-'
    ensures Dashes(token) >= 2 <==> exists i, j :: 0 <= i < j < |token| && token[i] == '-' && token[j] == '-'
  {
    if token != [] {
      var init := token[..|token| - 1];
      DashesInFull(init);
      assert forall i :: 0 <= i < |init| ==> init[i] == token[i];
    }
  }

  /** A token is fungible when its name has no two dashes. */
  lemma FungibleExactly(token: string)
    ensures IsFungible(token) <==> forall i, j :: 0 <= i < j < |token| ==> token[i] != '-' || token[j] != '-'
  {
    DashesInFull(token);
  }

  /** The initial supply is the fourth value returned, if that is a number. */
  lemma InitialSupplyInFull(returnData: seq<string>)
    ensures |returnData| < 4 ==> InitialSupply(returnData) == 0
    ensures |returnData| >= 4 ==>
              InitialSupply(returnData) == if ParseBig(returnData[3]).Some? then ParseBig(returnData[3]).value else 0
  {
  }

  /** `getInitialSupplyFromMeta` over the data a contract query returned; anything unusable counts as zero. */
  function InitialSupply(returnData: seq<string>): int {
    if |returnData| < 4 then 0
    else
      match ParseBig(returnData[3])
      case None => 0
      case Some(x) => x
  }

  /** Supply conservation. `properties` is the contract's answer about a fungible token, if it gives one. */
  method GetEsdtSupply(token: string, shards: seq<Shard>, answer: ShardAnswer, properties: Option<seq<string>>)
    returns (r: Option<Supply>)
    ensures r.Some? <==> AllAnswer(answer, shards) && (IsFungible(token) ==> properties.Some?)
    ensures r.Some? ==> (r.value.recomputed <==> AnyRecomputed(answer, shards))
    // A fungible token nobody recomputed: all shards plus the initial supply, whatever could be parsed.
    ensures r.Some? && IsFungible(token) && !AnyRecomputed(answer, shards) ==>
      && ParseBig(r.value.supply) == Some(OrZero(SumOf(TotalSupply, answer, shards)) + InitialSupply(properties.value))
      && ParseBig(r.value.burned) == SumOf(Burned, answer, shards)
      && ParseBig(r.value.minted) == SumOf(Minted, answer, shards)
    // One that somebody recomputed: the initial supply is in there already.
    ensures r.Some? && IsFungible(token) && AnyRecomputed(answer, shards) ==>
      && ParseBig(r.value.supply) == SumOf(TotalSupply, answer, shards)
      && r.value.burned == r.value.minted == "0"
    ensures r.Some? && IsFungible(token) ==> ParseBig(r.value.initialMinted) == Some(InitialSupply(properties.value))
    ensures r.Some? && !IsFungible(token) ==> Totals(r.value, answer, shards) && r.value.initialMinted == "0"
  {
    var total := GetSupplyFromShards(shards, answer);
    if total.None? {
      return None;
    }
    if !IsFungible(token) {
      return Some(MakeInitialMintedNotEmpty(total.value));
    }
    if properties.None? {
      return None;
    }
    var res := WithInitialSupply(total.value, InitialSupply(properties.value));
    r := Some(res);
  }

  /** The response about a fungible token, from what the shards say and the initial supply. */
  method WithInitialSupply(total: Supply, initial: int) returns (res: Supply)
    ensures ParseBig(res.initialMinted) == Some(initial) && res.recomputed == total.recomputed
    ensures if total.recomputed then res.supply == total.supply && res.burned == res.minted == "0"
            else && ParseBig(res.supply) == Some(OrZero(ParseBig(total.supply)) + initial)
                 && res.burned == total.burned && res.minted == total.minted
  {
    BigRoundTrip(initial);
    res := Supply("", "", "", BigString(initial), false);
    if total.recomputed {
      res := res.(supply := total.supply, burned := "0", minted := "0", recomputed := true);
    } else {
      SumStrAdds(total.supply, BigString(initial));
      res := res.(supply := SumStr(total.supply, BigString(initial)), burned := total.burned, minted := total.minted);
    }
    res := MakeInitialMintedNotEmpty(res);
  }

  function MakeInitialMintedNotEmpty(s: Supply): Supply {
    if s.initialMinted == "" then s.(initialMinted := "0") else s
  }
}
