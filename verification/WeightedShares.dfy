/** From configured weights to the words that pick a backend: the whole weighted router. */
module WeightedShares {
  import opened Basics
  import AliasTable
  import AliasWords
  import RouterStack

  /** Random words below `n` on which the router's sample is `b`. */
  ghost function SamplesFor(router: RouterStack.WeightedRouter, b: BackendId, n: nat): nat
    requires router.Valid()
  {
    if n == 0 then 0 else SamplesFor(router, b, n - 1) + (if router.Sample(n - 1) == b then 1 else 0)
  }

  lemma {:induction false} SamplesAreWords(router: RouterStack.WeightedRouter, b: BackendId, n: nat)
    requires router.Valid()
    ensures SamplesFor(router, b, n) == AliasWords.WordsFor(router.table, b, 0, n)
  {
    hide AliasTable.PickWord;
    if n > 0 {
      SamplesAreWords(router, b, n - 1);
    }
  }

  /** Of all 2^64 words those that sample `b` are its table mass times 2^40 / n up to a relative
      deviation of n / 2^32, and its mass is its weight's share of the n * 2^24 draws up to less
      than one draw per entry below and n - 1 draws above. */
  lemma {:induction false} SamplesFollowWeights(
    router: RouterStack.WeightedRouter, ws: seq<AliasTable.Weight>, b: BackendId)
    requires router.Valid() && |router.table| == |ws| && AliasTable.Faithful(ws, router.table, b)
    ensures var n, mass, samples := |ws|, AliasTable.Mass(router.table, b), SamplesFor(router, b, U64_LIMIT);
            && (0x1_0000_0000 - n) * (256 * mass) <= n * samples
            && n * samples <= (0x1_0000_0000 + n) * (256 * mass)
            && var share, total := AliasTable.WeightOf(ws, b) * (n * 0x100_0000), AliasTable.Total(ws);
               && share - AliasTable.Entries(ws, b) * (total - 1) <= mass * total
               && (mass - (n - 1)) * total <= share
  {
    hide AliasWords.WordsFor, SamplesFor, AliasTable.Mass;
    SamplesAreWords(router, b, U64_LIMIT);
    AliasWords.WordsFollowMass(router.table, b);
  }
}
