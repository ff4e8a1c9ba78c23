// The reservation tokens ever issued, as a history. In the source a token is a
// value that can be settled once because settling moves it; here its position
// in the ledger is its identity and its phase says what has happened to it.

module Ledger {

  type Asset = string

  datatype Phase =
    | Pending   // reserved; its transfer has not left the account
    | Landed    // its transfer has left the account; not settled yet
    | Consumed
    | Released

  datatype Token = Token(asset: Asset, amount: nat, phase: Phase)

  const HELD: set<Phase> := {Pending, Landed}

  /** The total amount of `asset`'s tokens in one of `phases`. */
  function Sum(tokens: seq<Token>, asset: Asset, phases: set<Phase>): nat {
    if tokens == [] then 0
    else
      Sum(tokens[..|tokens| - 1], asset, phases) + Weight(tokens[|tokens| - 1], asset, phases)
  }

  function Weight(token: Token, asset: Asset, phases: set<Phase>): nat {
    if token.asset == asset && token.phase in phases then token.amount else 0
  }

  function Held(tokens: seq<Token>, asset: Asset): nat {
    Sum(tokens, asset, HELD)
  }

  function Unlanded(tokens: seq<Token>, asset: Asset): nat {
    Sum(tokens, asset, {Pending})
  }

  function Unsettled(tokens: seq<Token>, asset: Asset): nat {
    Sum(tokens, asset, {Landed})
  }

  lemma SumAppend(tokens: seq<Token>, token: Token, asset: Asset, phases: set<Phase>)
    ensures Sum(tokens + [token], asset, phases) == Sum(tokens, asset, phases) + Weight(token, asset, phases)
  {
  }

  /** Changing one token moves the total by that token's own weight. */
  lemma {:induction false} SumUpdate(tokens: seq<Token>, i: nat, token: Token, asset: Asset, phases: set<Phase>)
    requires i < |tokens|
    ensures Sum(tokens[i := token], asset, phases) + Weight(tokens[i], asset, phases)
         == Sum(tokens, asset, phases) + Weight(token, asset, phases)
  {
    var last := |tokens| - 1;
    if i == last {
      assert tokens[i := token][..last] == tokens[..last];
    } else {
      assert tokens[i := token][..last] == tokens[..last][i := token];
      SumUpdate(tokens[..last], i, token, asset, phases);
    }
  }

  /** One token never outweighs the total it is part of. */
  lemma {:induction false} SumCovers(tokens: seq<Token>, i: nat, asset: Asset, phases: set<Phase>)
    requires i < |tokens|
    ensures Weight(tokens[i], asset, phases) <= Sum(tokens, asset, phases)
  {
    var last := |tokens| - 1;
    if i < last {
      SumCovers(tokens[..last], i, asset, phases);
    }
  }

  /** Held splits into unlanded and landed-but-unsettled. */
  lemma {:induction false} HeldSplits(tokens: seq<Token>, asset: Asset)
    ensures Held(tokens, asset) == Unlanded(tokens, asset) + Unsettled(tokens, asset)
  {
    if tokens != [] {
      HeldSplits(tokens[..|tokens| - 1], asset);
    }
  }

  lemma {:induction false} SumOfAbsentAsset(tokens: seq<Token>, asset: Asset, phases: set<Phase>)
    requires forall t :: t in tokens ==> t.asset != asset
    ensures Sum(tokens, asset, phases) == 0
  {
    if tokens != [] {
      SumOfAbsentAsset(tokens[..|tokens| - 1], asset, phases);
    }
  }
}
