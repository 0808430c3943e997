/**
 * The client table the dashboard works on (`main_data`): one row per client,
 * the application attributes merged with the "Credit Score" column.
 */
module Table {

  /** A cell: missing (NaN or None, what `pd.isnull` detects), a number, or a text label. */
  datatype Value = Null | Num(x: real) | Str(s: string)

  /** The eight attributes a cohort can be matched on. */
  datatype Attribute =
    | DaysBirth
    | AmtIncomeTotal
    | NameContractType
    | NameEducationType
    | NameHousingType
    | NameFamilyStatus
    | NameIncomeType
    | OccupationType

  /**
   * One row of `main_data`. `creditScore` is the "Credit Score" column, the
   * model's default probability in percent, so a lower value is a better client.
   */
  datatype Client = Client(
    id: int,
    daysBirth: Value,
    amtIncomeTotal: Value,
    nameContractType: Value,
    nameEducationType: Value,
    nameHousingType: Value,
    nameFamilyStatus: Value,
    nameIncomeType: Value,
    occupationType: Value,
    daysEmployed: Value,
    creditScore: real)

  /** `client[column]` for the attribute's column (DAYS_BIRTH, AMT_INCOME_TOTAL, ..., OCCUPATION_TYPE). */
  function Get(c: Client, a: Attribute): Value
  {
    match a
    case DaysBirth => c.daysBirth
    case AmtIncomeTotal => c.amtIncomeTotal
    case NameContractType => c.nameContractType
    case NameEducationType => c.nameEducationType
    case NameHousingType => c.nameHousingType
    case NameFamilyStatus => c.nameFamilyStatus
    case NameIncomeType => c.nameIncomeType
    case OccupationType => c.occupationType
  }

  const AllAttributes: set<Attribute> := {
    DaysBirth, AmtIncomeTotal, NameContractType, NameEducationType,
    NameHousingType, NameFamilyStatus, NameIncomeType, OccupationType}

  lemma AllAttributesComplete()
    ensures forall a :: a in AllAttributes
  {
    forall a ensures a in AllAttributes {
      match a {
        case DaysBirth =>
        case AmtIncomeTotal =>
        case NameContractType =>
        case NameEducationType =>
        case NameHousingType =>
        case NameFamilyStatus =>
        case NameIncomeType =>
        case OccupationType =>
      }
    }
  }

  /** The wildcard sentinel the dashboard writes into a criterion: the string "*". */
  const Star: Value := Str("*")

  /** `filter_dict`: attribute to the value a similar client must have, or `Star`. */
  type Criterion = map<Attribute, Value>

  /**
   * The ASSUMED contract of `get_filtered_client_data`, whose code is not part
   * of this model: a row matches when it equals the criterion exactly on every
   * attribute whose entry is not the wildcard.
   */
  predicate Matches(c: Client, crit: Criterion)
  {
    forall a | a in crit :: crit[a] == Star || Get(c, a) == crit[a]
  }
}
