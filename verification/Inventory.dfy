// The inventory manager of src/inventory.rs: per-asset balances, reservations
// and refreshes. Chain reads arrive as arguments.

module Inventory {
  import opened Foundations
  import opened Ledger

  datatype Entry = Entry(balance: u128, reserved: u128)

  function Available(e: Entry): u128 {
    SaturatingSub(e.balance, e.reserved)
  }

  function ReserveIn(e: Entry, amount: u128): Option<Entry> {
    if amount > Available(e) then None
    else Some(e.(reserved := SaturatingAdd(e.reserved, amount)))
  }

  function ReleaseIn(e: Entry, amount: u128): Entry {
    e.(reserved := SaturatingSub(e.reserved, amount))
  }

  function ConsumeIn(e: Entry, amount: u128): Entry {
    ReleaseIn(e.(balance := SaturatingSub(e.balance, amount)), amount)
  }

  /** Reserving is exact (its saturating add never saturates), and releasing
      what was reserved undoes it. */
  lemma ReserveThenRelease(e: Entry, amount: u128)
    requires ReserveIn(e, amount).Some?
    ensures var e' := ReserveIn(e, amount).value;
            && e'.reserved == e.reserved + amount
            && Available(e') == Available(e) - amount
            && ReleaseIn(e', amount) == e
            && ConsumeIn(e', amount) == Entry(e.balance - amount, e.reserved)
  {
  }

  datatype Reservation = Reservation(asset: Asset, amount: u128, managerId: nat, serial: nat)

  datatype ReserveError =
    | AssetNotTracked(asset: Asset)
    | InsufficientBalance(required: u128, available: u128)

  datatype ReserveResult = Granted(token: Reservation) | Refused(error: ReserveError)

  class InventoryManager {
    const id: nat
    const minRefreshInterval: nat
    var inventory: map<Asset, Entry>
    var lastFullRefresh: Option<nat>
    /** The next token's identity: what moving a token by value gives the source. */
    var nextSerial: nat
    ghost var ledger: seq<Token>
    ghost var owners: seq<nat>   // which task reserved each token

    /** The reserved totals are exactly the sums of the unsettled tokens. */
    ghost predicate Valid()
      reads this
    {
      && nextSerial == |ledger| == |owners|
      && (forall t :: t in ledger ==> t.asset in inventory)
      && (forall a :: a in inventory ==> inventory[a].reserved == Held(ledger, a))
    }

    /** The token is one this manager issued and nobody has settled. */
    ghost predicate Open(r: Reservation)
      reads this
    {
      && r.managerId == id
      && r.serial < |ledger|
      && ledger[r.serial].asset == r.asset
      && ledger[r.serial].amount == r.amount
      && ledger[r.serial].phase in HELD
    }

    constructor (id: nat, minRefreshInterval: nat)
      ensures Valid()
      ensures this.id == id && this.minRefreshInterval == minRefreshInterval
      ensures inventory == map[] && ledger == [] && lastFullRefresh == None
    {
      this.id, this.minRefreshInterval := id, minRefreshInterval;
      inventory, lastFullRefresh, nextSerial, ledger, owners := map[], None, 0, [], [];
    }

    /** New assets start empty; known ones keep balance and reservations. */
    method DiscoverAssets(assets: seq<Asset>)
      requires Valid()
      modifies this`inventory
      ensures Valid()
      ensures inventory.Keys == old(inventory.Keys) + set a | a in assets
      ensures forall a :: a in inventory ==>
                inventory[a] == if a in old(inventory) then old(inventory[a]) else Entry(0, 0)
    {
      for i := 0 to |assets|
        invariant inventory.Keys == old(inventory.Keys) + set a | a in assets[..i]
        invariant forall a :: a in inventory ==>
                    inventory[a] == if a in old(inventory) then old(inventory[a]) else Entry(0, 0)
      {
        if assets[i] !in inventory {
          inventory := inventory[assets[i] := Entry(0, 0)];
        }
        assert assets[..i + 1] == assets[..i] + [assets[i]];
      }
      assert assets[..|assets|] == assets;
      forall a | a in inventory
        ensures inventory[a].reserved == Held(ledger, a)
      {
        if a !in old(inventory) {
          SumOfAbsentAsset(ledger, a, HELD);
        }
      }
    }

    method Reserve(asset: Asset, amount: u128, ghost task: nat) returns (r: ReserveResult)
      requires Valid()
      modifies this`inventory, this`ledger, this`owners, this`nextSerial
      ensures Valid()
      ensures asset !in old(inventory) ==> r == Refused(AssetNotTracked(asset))
      ensures asset in old(inventory) && amount > Available(old(inventory[asset])) ==>
                r == Refused(InsufficientBalance(amount, Available(old(inventory[asset]))))
      ensures r.Granted? <==> asset in old(inventory) && amount <= Available(old(inventory[asset]))
      ensures r.Refused? ==> unchanged(this)
      ensures r.Granted? ==>
                && r.token == Reservation(asset, amount, id, |old(ledger)|)
                && Open(r.token)
                && ledger == old(ledger) + [Token(asset, amount, Pending)]
                && owners == old(owners) + [task]
                && inventory == old(inventory)[asset := old(inventory[asset]).(reserved := old(inventory[asset]).reserved + amount)]
    {
      if asset !in inventory {
        return Refused(AssetNotTracked(asset));
      }
      match ReserveIn(inventory[asset], amount) {
        case None =>
          return Refused(InsufficientBalance(amount, Available(inventory[asset])));
        case Some(entry) =>
          ReserveThenRelease(inventory[asset], amount);
          inventory := inventory[asset := entry];
          ghost var token := Token(asset, amount, Pending);
          forall a ensures Held(ledger + [token], a) == Held(ledger, a) + Weight(token, a, HELD) {
            SumAppend(ledger, token, a, HELD);
          }
          r := Granted(Reservation(asset, amount, id, nextSerial));
          nextSerial, ledger, owners := nextSerial + 1, ledger + [token], owners + [task];
      }
    }

    /** Marks a token settled; the sums then owe exactly its amount. */
    ghost method Settle(r: Reservation, phase: Phase)
      requires Open(r) && phase !in HELD && nextSerial == |ledger| == |owners|
      requires forall t :: t in ledger ==> t.asset in inventory
      requires forall a :: a in inventory ==>
                 inventory[a].reserved == Held(ledger, a) - if a == r.asset then r.amount else 0
      modifies this`ledger
      ensures Valid()
      ensures ledger == old(ledger)[r.serial := Token(r.asset, r.amount, phase)]
    {
      var settled := Token(r.asset, r.amount, phase);
      forall a
        ensures Held(ledger[r.serial := settled], a) == Held(ledger, a) - Weight(ledger[r.serial], a, HELD)
      {
        SumUpdate(ledger, r.serial, settled, a, HELD);
      }
      ledger := ledger[r.serial := settled];
    }

    /** The amount is available again; a foreign token changes nothing. */
    method Release(r: Reservation)
      requires Valid()
      requires r.managerId == id ==> Open(r)
      modifies this`inventory, this`ledger
      ensures Valid()
      ensures r.managerId != id ==> unchanged(this)
      ensures r.managerId == id ==>
                && ledger == old(ledger)[r.serial := Token(r.asset, r.amount, Released)]
                && r.amount <= old(inventory[r.asset]).reserved
                && inventory == old(inventory)[r.asset := old(inventory[r.asset]).(reserved := old(inventory[r.asset]).reserved - r.amount)]
    {
      if r.managerId != id {
        return;
      }
      SumCovers(ledger, r.serial, r.asset, HELD);
      if r.asset in inventory {
        inventory := inventory[r.asset := ReleaseIn(inventory[r.asset], r.amount)];
      }
      Settle(r, Released);
    }

    /** The amount is spent: balance and reservation fall together, the balance
        stopping at zero. */
    method Consume(r: Reservation)
      requires Valid()
      requires r.managerId == id ==> Open(r)
      modifies this`inventory, this`ledger
      ensures Valid()
      ensures r.managerId != id ==> unchanged(this)
      ensures r.managerId == id ==>
                && ledger == old(ledger)[r.serial := Token(r.asset, r.amount, Consumed)]
                && r.amount <= old(inventory[r.asset]).reserved
                && inventory == old(inventory)[r.asset :=
                     Entry(SaturatingSub(old(inventory[r.asset]).balance, r.amount), old(inventory[r.asset]).reserved - r.amount)]
    {
      if r.managerId != id {
        return;
      }
      SumCovers(ledger, r.serial, r.asset, HELD);
      if r.asset in inventory {
        inventory := inventory[r.asset := ConsumeIn(inventory[r.asset], r.amount)];
      }
      Settle(r, Consumed);
    }

    /** One asset's balance from one chain read (`None`: the read failed). */
    method RefreshAsset(asset: Asset, read: Option<u128>) returns (ok: bool)
      requires Valid()
      modifies this`inventory
      ensures Valid()
      ensures ok <==> read.Some? && asset in old(inventory)
      ensures !ok ==> inventory == old(inventory)
      ensures ok ==> inventory == old(inventory)[asset := Entry(read.value, old(inventory[asset]).reserved)]
    {
      if read == None || asset !in inventory {
        return false;
      }
      inventory := inventory[asset := inventory[asset].(balance := read.value)];
      ok := true;
    }

    /** Queries every tracked asset once, in any order. */
    method RefreshAll(answers: map<Asset, u128>) returns (refreshed: nat)
      modifies this`inventory
      ensures inventory.Keys == old(inventory).Keys
      ensures forall a :: a in inventory ==>
                inventory[a].reserved == old(inventory)[a].reserved
                && inventory[a].balance == if a in answers then answers[a] else old(inventory)[a].balance
      ensures refreshed == |old(inventory).Keys * answers.Keys|
    {
      refreshed := 0;
      var assetsToQuery := inventory.Keys;
      ghost var answered: set<Asset> := {};
      while assetsToQuery != {}
        invariant assetsToQuery <= old(inventory).Keys == inventory.Keys
        invariant refreshed == |answered|
        invariant forall a :: a in answered <==> a in inventory && a !in assetsToQuery && a in answers
        invariant forall a :: a in inventory && a !in assetsToQuery ==>
                    inventory[a].reserved == old(inventory)[a].reserved
                    && inventory[a].balance == if a in answers then answers[a] else old(inventory)[a].balance
        invariant forall a :: a in assetsToQuery ==> inventory[a] == old(inventory)[a]
        decreases assetsToQuery
      {
        var asset :| asset in assetsToQuery;
        if asset in answers {
          inventory := inventory[asset := inventory[asset].(balance := answers[asset])];
          refreshed := refreshed + 1;
          answered := answered + {asset};
        }
        assetsToQuery := assetsToQuery - {asset};
      }
      assert answered == old(inventory).Keys * answers.Keys;
    }

    /** A full refresh: every asset whose read answered takes that balance and
        keeps its reservations; the rest stay. Skipped within the minimum
        interval of the last one. */
    method Refresh(now: nat, answers: map<Asset, u128>, finished: nat) returns (refreshed: nat)
      requires Valid()
      modifies this`inventory, this`lastFullRefresh
      ensures Valid()
      ensures var due := old(lastFullRefresh) == None
                       || SaturatingSub(now, old(lastFullRefresh).value) >= minRefreshInterval;
              if due then
                && lastFullRefresh == Some(finished)
                && refreshed == |old(inventory).Keys * answers.Keys|
                && inventory.Keys == old(inventory).Keys
                && (forall a :: a in inventory ==>
                      inventory[a].reserved == old(inventory)[a].reserved
                      && inventory[a].balance == if a in answers then answers[a] else old(inventory)[a].balance)
              else
                && refreshed == 0
                && inventory == old(inventory)
                && lastFullRefresh == old(lastFullRefresh)
    {
      refreshed := 0;
      match lastFullRefresh {
        case Some(last) =>
          if SaturatingSub(now, last) < minRefreshInterval {
            return 0;
          }
        case None =>
      }
      refreshed := RefreshAll(answers);
      lastFullRefresh := Some(finished);
    }
  }
}
