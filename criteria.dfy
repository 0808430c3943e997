/**
 * How the dashboard picks the "similar clients" of a selected client: the
 * eight checkboxes, the `filter_dict` criterion built from the selected
 * client's row, and the cohort it selects.
 */
module Criteria {
  import opened Wrappers
  import opened Table
  import opened Masks

  /** The eight "Compare data with clients with same" checkboxes. */
  datatype Flags = Flags(
    age: bool,
    income: bool,
    loanType: bool,
    highestEd: bool,
    housingSituation: bool,
    familyStatus: bool,
    incomeType: bool,
    occupation: bool)

  const AllOff := Flags(false, false, false, false, false, false, false, false)

  /**
   * The checkbox that decides whether an attribute is used, as the dashboard
   * wires them. NAME_INCOME_TYPE is decided by the "Income bracket" box; the
   * "Income Type" box is read nowhere.
   */
  function Gate(f: Flags, a: Attribute): bool
  {
    match a
    case DaysBirth => f.age
    case AmtIncomeTotal => f.income
    case NameContractType => f.loanType
    case NameEducationType => f.highestEd
    case NameHousingType => f.housingSituation
    case NameFamilyStatus => f.familyStatus
    case NameIncomeType => f.income
    case OccupationType => f.occupation
  }

  /**
   * One entry of `filter_dict`: the reference value if its box is on, else "*";
   * then "*" again if that is '' or null.
   */
  function Entry(on: bool, v: Value): (e: Value)
    ensures e == Star <==> !on || v == Str("") || v == Null || v == Star
    ensures e != Star ==> e == v && on
    ensures e != Null && e != Str("")
  {
    var picked := if on then v else Star;
    if picked == Str("") || picked == Null then Star else picked
  }

  /** `filter_dict` for the reference client `ref` under the checkboxes `f`. */
  function BuildCriterion(ref: Client, f: Flags): (crit: Criterion)
    ensures forall a :: a in crit
    ensures forall a :: crit[a] == Star <==>
      !Gate(f, a) || Get(ref, a) == Str("") || Get(ref, a) == Null || Get(ref, a) == Star
    ensures forall a :: crit[a] != Star ==> crit[a] == Get(ref, a)
  {
    AllAttributesComplete();
    map a | a in AllAttributes :: Entry(Gate(f, a), Get(ref, a))
  }

  /** Toggling the "Income Type" box alone never changes the criterion. */
  lemma IncomeTypeBoxIgnored(ref: Client, f: Flags)
    ensures BuildCriterion(ref, f.(incomeType := !f.incomeType)) == BuildCriterion(ref, f)
  {
  }

  /** The "Income bracket" box switches both AMT_INCOME_TOTAL and NAME_INCOME_TYPE off. */
  lemma IncomeBoxGatesIncomeType(ref: Client, f: Flags)
    requires !f.income
    ensures BuildCriterion(ref, f)[AmtIncomeTotal] == Star
    ensures BuildCriterion(ref, f)[NameIncomeType] == Star
  {
  }

  /** The selected client satisfies its own criterion: every constraint was copied from it. */
  lemma ReferenceMatches(ref: Client, f: Flags)
    ensures Matches(ref, BuildCriterion(ref, f))
  {
  }

  /** With every box off, the criterion is all wildcards and every client matches. */
  lemma AllOffMatchesEveryone(ref: Client, c: Client)
    ensures forall a :: BuildCriterion(ref, AllOff)[a] == Star
    ensures Matches(c, BuildCriterion(ref, AllOff))
  {
  }

  /**
   * `get_filtered_client_data(main_data, filter_dict)`, under the assumed
   * exact-match contract of `Matches`.
   */
  function FilterClients(store: seq<Client>, crit: Criterion): (cohort: seq<Client>)
    ensures IsSubsequence(cohort, store)
    ensures forall c :: c in cohort <==> c in store && Matches(c, crit)
    ensures forall c :: multiset(cohort)[c] == (if Matches(c, crit) then multiset(store)[c] else 0)
  {
    WhereIsSubsequence(store, MatchesCriterion(crit));
    WhereMultiplicity(store, MatchesCriterion(crit));
    Where(store, MatchesCriterion(crit))
  }

  /** An all-wildcard criterion selects the whole store. */
  lemma AllWildcardSelectsStore(store: seq<Client>, ref: Client)
    ensures FilterClients(store, BuildCriterion(ref, AllOff)) == store
  {
    forall i | 0 <= i < |store| ensures Holds(MatchesCriterion(BuildCriterion(ref, AllOff)), store[i]) {
      AllOffMatchesEveryone(ref, store[i]);
    }
    WhereAll(store, MatchesCriterion(BuildCriterion(ref, AllOff)));
  }

  /** Filtering the cohort again with the same criterion gives the same cohort. */
  lemma FilterIdempotent(store: seq<Client>, crit: Criterion)
    ensures FilterClients(FilterClients(store, crit), crit) == FilterClients(store, crit)
  {
    WhereIdempotent(store, MatchesCriterion(crit));
  }

  datatype LookupError = UnknownClient

  /**
   * `main_data[main_data["SK_ID_CURR"] == id].iloc[0]`: the first row with
   * that id; `.iloc[0]` of an empty selection fails.
   */
  function Lookup(store: seq<Client>, id: int): (r: Result<Client, LookupError>)
    ensures r.Failure? <==> forall i :: 0 <= i < |store| ==> store[i].id != id
    ensures r.Success? ==>
              exists i :: 0 <= i < |store| && store[i] == r.value && r.value.id == id &&
                          (forall j :: 0 <= j < i ==> store[j].id != id)
  {
    var hits := Where(store, HasId(id));
    if hits == [] then
      assert forall i :: 0 <= i < |store| ==> store[i] !in hits;
      Failure(UnknownClient)
    else
      WhereHead(store, HasId(id));
      Success(hits[0])
  }

  /**
   * The similar-clients cohort of the client `id` (dashboard lines 89 to 142):
   * look the client up, build its criterion, filter the store.
   */
  function SimilarClients(store: seq<Client>, id: int, f: Flags): (r: Result<seq<Client>, LookupError>)
    ensures r.Failure? <==> Lookup(store, id).Failure?
    ensures r.Success? ==>
      var ref := Lookup(store, id).value;
      r.value == FilterClients(store, BuildCriterion(ref, f)) && ref in r.value
  {
    match Lookup(store, id)
    case Failure(e) => Failure(e)
    case Success(ref) =>
      ReferenceMatches(ref, f);
      Success(FilterClients(store, BuildCriterion(ref, f)))
  }

  /** The similar-clients cohort of a client that exists is never empty. */
  lemma SimilarCohortNonEmpty(store: seq<Client>, id: int, f: Flags)
    requires exists i :: 0 <= i < |store| && store[i].id == id
    ensures SimilarClients(store, id, f).Success?
    ensures |SimilarClients(store, id, f).value| > 0
  {
  }
}
