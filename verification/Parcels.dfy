// Transfers of alkanes between a contract and its callers.
module Parcels {

  type AlkaneId = nat

  // The running contract's own token among the alkanes.
  const MYSELF: AlkaneId := 0

  datatype Transfer = Transfer(id: AlkaneId, value: nat)

  type Parcel = seq<Transfer>

  // How much of one alkane a parcel carries.
  function AmountOf(id: AlkaneId, parcel: Parcel): nat {
    if parcel == [] then 0
    else AmountOf(id, parcel[..|parcel| - 1]) + if parcel[|parcel| - 1].id == id then parcel[|parcel| - 1].value else 0
  }

  // The given amount once for every transfer of one alkane.
  function PerTransferOf(id: AlkaneId, amount: nat, parcel: Parcel): nat {
    if parcel == [] then 0
    else PerTransferOf(id, amount, parcel[..|parcel| - 1]) + if parcel[|parcel| - 1].id == id then amount else 0
  }

  // How many transfers of one alkane a parcel holds.
  function CountOf(id: AlkaneId, parcel: Parcel): nat {
    if parcel == [] then 0
    else CountOf(id, parcel[..|parcel| - 1]) + if parcel[|parcel| - 1].id == id then 1 else 0
  }

  // How many of them are below the amount.
  function ShortOf(id: AlkaneId, amount: nat, parcel: Parcel): nat {
    if parcel == [] then 0
    else
      var last := parcel[|parcel| - 1];
      ShortOf(id, amount, parcel[..|parcel| - 1]) + if last.id == id && last.value < amount then 1 else 0
  }

  lemma OneMore(amount: nat, n: int)
    ensures amount * (n + 1) == amount * n + amount
  {
  }

  // The amount once per transfer is the amount times their number, and the transfers that are not short alone
  // are worth that many amounts.
  lemma {:induction false} CountsAre(id: AlkaneId, amount: nat, parcel: Parcel)
    ensures PerTransferOf(id, amount, parcel) == amount * CountOf(id, parcel)
    ensures ShortOf(id, amount, parcel) <= CountOf(id, parcel)
    ensures amount == 0 ==> ShortOf(id, amount, parcel) == 0
    ensures AmountOf(id, parcel) >= amount * (CountOf(id, parcel) - ShortOf(id, amount, parcel))
  {
    if parcel != [] {
      var front := parcel[..|parcel| - 1];
      CountsAre(id, amount, front);
      OneMore(amount, CountOf(id, front));
      OneMore(amount, CountOf(id, front) - ShortOf(id, amount, front));
    }
  }

  lemma AppendTransfer(id: AlkaneId, parcel: Parcel, t: Transfer)
    ensures AmountOf(id, parcel + [t]) == AmountOf(id, parcel) + if t.id == id then t.value else 0
    ensures forall amount: nat ::
      PerTransferOf(id, amount, parcel + [t]) == PerTransferOf(id, amount, parcel) + if t.id == id then amount else 0
  {
  }
}
