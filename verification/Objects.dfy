/** The object that compute nodes belong to, and the name of its warehouse in the FE. */
module Objects {
  import Strings

  datatype Owner = OfCluster | OfWarehouse(name: string)

  const DEFAULT_WAREHOUSE := "default_warehouse"

  function GetWarehouseNameInFE(name: string): string {
    Strings.ReplaceAll(name, '-', '_')
  }

  function WarehouseInFE(owner: Owner): string {
    match owner
    case OfCluster => DEFAULT_WAREHOUSE
    case OfWarehouse(name) => GetWarehouseNameInFE(name)
  }

  /** The same name with an underscore for every dash. */
  predicate NamedInFE(name: string, inFE: string) {
    |inFE| == |name| && forall i :: 0 <= i < |name| ==> inFE[i] == if name[i] == '-' then '_' else name[i]
  }

  /** There is exactly one such name, and it is the one that the operator uses. */
  lemma OnlyNameInFE(name: string, inFE: string)
    ensures NamedInFE(name, inFE) <==> inFE == GetWarehouseNameInFE(name)
  {}
}
