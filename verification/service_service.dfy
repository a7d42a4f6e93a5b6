/** The service catalog (services/service-service.ts): service records and
    the active-service listing. */
module Catalog {
  import opened Wrappers
  import Seqs

  /** A catalog service. `isActive` is optional in the source; only an
      explicit `true` counts as active. */
  datatype Service = Service(
    id: string,
    name: string,
    description: string,
    basePrice: real,
    category: string,
    isActive: Option<bool>)

  predicate IsActive(s: Service)
  {
    s.isActive == Some(true)
  }

  /** `getServices`: the catalog entries whose `isActive` is truthy, in
      catalog order. */
  function GetServices(catalog: seq<Service>): (r: seq<Service>)
    ensures forall i :: 0 <= i < |r| ==> r[i] in catalog && r[i].isActive == Some(true)
    ensures forall i :: 0 <= i < |catalog| && catalog[i].isActive == Some(true) ==> catalog[i] in r
    ensures forall s :: multiset(r)[s] == if s.isActive == Some(true) then multiset(catalog)[s] else 0
  {
    Seqs.FilterComplete(catalog, IsActive);
    Seqs.FilterCount(catalog, IsActive);
    Seqs.Filter(catalog, IsActive)
  }

  /** The listing keeps catalog order: it is the catalog with the inactive
      entries deleted. */
  lemma GetServicesPreservesOrder(catalog: seq<Service>)
    ensures Seqs.SubsequenceOf(GetServices(catalog), catalog)
  {
    Seqs.FilterIsSubsequence(catalog, IsActive);
  }

  /** A catalog of active services is listed whole and unchanged. */
  lemma {:induction false} GetServicesAllActive(catalog: seq<Service>)
    requires forall i :: 0 <= i < |catalog| ==> catalog[i].isActive == Some(true)
    ensures GetServices(catalog) == catalog
  {
    Seqs.FilterKeepsAll(catalog, IsActive);
  }
}
