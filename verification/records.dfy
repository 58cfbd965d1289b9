/**
 * The records the program passes between its parts: log rows of the master
 * transaction workbook, rows of a plan file, the upstream verification and
 * quota answers, and the business-rule configuration.
 */
module Records {
  import opened Wrappers

  /** The only distinction the program ever makes between customer types. */
  datatype Category = UsahaMikro | Other

  /** Remaining family quota: a count, or the `'N/A'` placeholder. */
  datatype FamilyQuota = FamilyCount(count: int) | FamilyNA

  /** A normalised quota answer (`{ daily, monthly, all, family }`). */
  datatype Quota = Quota(daily: int, monthly: int, family: FamilyQuota, all: int)

  /**
   * A successful NIK verification. `firstTypeName` is
   * `customerTypes?.[0]?.name`: `None` when the list is empty or the first
   * entry has no name.
   */
  datatype Verification = Verification(
    name: string,
    firstTypeName: Option<string>,
    familyIdEncrypted: Option<string>,
    token: string)

  /** Whether the first customer type carries a (non-empty, hence truthy) name. */
  predicate HasTypeName(v: Verification) {
    v.firstTypeName.Some? && v.firstTypeName.value != ""
  }

  /** The label of a customer's first type, or `N/A` when it has none or its name is empty. */
  function TypeLabel(v: Verification): string {
    if HasTypeName(v) then v.firstTypeName.value else "N/A"
  }

  function CategoryOf(v: Verification): Category {
    if TypeLabel(v) == "Usaha Mikro" then UsahaMikro else Other
  }

  /** `config.aturanBisnis`: the monthly per-outlet transaction limits. */
  datatype Rules = Rules(batasUsahaMikro: int, batasPerPangkalan: int)

  function MonthlyLimit(rules: Rules, c: Category): int {
    match c
    case UsahaMikro => rules.batasUsahaMikro
    case Other => rules.batasPerPangkalan
  }

  /**
   * One row of an outlet's sheet in the master log. `noKTP` is the row's
   * NIK as text (`String(row.noKTP)`); the four quota columns are filled in
   * by the quota refresh and are otherwise absent.
   */
  datatype LogRow = LogRow(
    noKTP: string,
    nama: string,
    customerTypes: string,
    status: string,
    tanggal: string,
    pangkalan: string,
    quantity: Option<int>,
    daily: Option<int>,
    monthly: Option<int>,
    family: Option<FamilyQuota>,
    all: Option<int>)

  /** One sheet of the master log, named after its outlet. */
  datatype Sheet = Sheet(name: string, rows: seq<LogRow>)

  /** The sheets of a workbook carry distinct names. */
  predicate DistinctNames(sheets: seq<Sheet>) {
    forall i, j :: 0 <= i < j < |sheets| ==> sheets[i].name != sheets[j].name
  }

  /** `bacaLog`: the rows of the sheet with the given name, or none when it is absent. */
  function SheetRows(sheets: seq<Sheet>, name: string): seq<LogRow> {
    if |sheets| == 0 then []
    else if sheets[0].name == name then sheets[0].rows
    else SheetRows(sheets[1..], name)
  }

  /** One row of a plan or manual-input file: the raw `noKTP` and `quantity` cells. */
  datatype PlanRow = PlanRow(noKTP: Option<string>, quantity: Option<int>)

  /** `String(user.noKTP)`: a missing cell reads as the text `undefined`. */
  function NikText(cell: Option<string>): string {
    cell.GetOr("undefined")
  }
}
