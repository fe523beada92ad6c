/**
  What a reported snapshot is answered, and what is read of the stored one.
 */
module FinancingAnswers {
  import opened Prelude
  import opened Financing
  import Text

  /** Another sale of the filial holds that contract of that provider, letter case aside. */
  predicate HeldElsewhere(sales: seq<Sale>, k: nat, p: Snapshot)
    requires k < |sales|
  {
    exists j :: 0 <= j < |sales| && j != k && sales[j].filial == sales[k].filial && sales[j].snapshot.Some?
                && sales[j].snapshot.value.contract == p.contract
                && Text.Lower(sales[j].snapshot.value.provider) == Text.Lower(p.provider)
  }

  /** The report is newer than what the sale holds. */
  predicate Newer(sale: Sale, p: Snapshot) { sale.snapshot.None? || sale.snapshot.value.reported < p.reported }

  /**
    A report is accepted exactly for a financed sale, if it repeats what is held or is newer
    and its contract is free; it is stored exactly if it is newer.
   */
  lemma SyncMeaning(sales: seq<Sale>, k: nat, p: Snapshot)
    ensures
      var r := Synced(sales, k, p);
      && (r.Ok? <==>
           && k < |sales| && sales[k].financed
           && if Newer(sales[k], p) then !HeldElsewhere(sales, k, p) else sales[k].snapshot == Some(p))
      && (r.Ok? ==> r.sales == if Newer(sales[k], p) then sales[k := sales[k].(snapshot := Some(p))] else sales)
      && (r.Fail? ==>
           match r.error
           case NotFound => k >= |sales|
           case NotFinanced => k < |sales| && !sales[k].financed
           case Stale => k < |sales| && sales[k].snapshot.Some? && p.reported < sales[k].snapshot.value.reported
           case Conflicting =>
             && k < |sales| && sales[k].snapshot.Some? && p.reported == sales[k].snapshot.value.reported
             && p != sales[k].snapshot.value
           case DuplicateContract => k < |sales| && HeldElsewhere(sales, k, p))
  {
    hide Text.Lower;
    if k < |sales| && sales[k].snapshot == Some(p) { assert sales[k := sales[k].(snapshot := Some(p))] == sales; }
  }

  /** What is owed, and the state of the credit on a day. */
  lemma CreditMeaning(sale: Sale, today: int)
    ensures
      match sale.snapshot
      case None => Balance(sale).None? && StatusOn(sale, today) == SinDatos
      case Some(s) =>
        && Balance(sale) == Some(s.total - s.paid)
        && (StatusOn(sale, today) == Liquidado <==> s.paid == s.total)
        && (StatusOn(sale, today) == Vencido <==>
             && s.paid != s.total
             && exists k :: 0 <= k < |s.installments| && s.installments[k].due < today
                            && s.installments[k].paid < s.installments[k].amount)
        && StatusOn(sale, today) != SinDatos
  {
  }
}
