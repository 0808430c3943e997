/**
 * The dashboard's comparison flow put together: the similar-clients cohort of
 * the selected client, then its best and worst groups.
 */
module Comparison {
  import opened Wrappers
  import opened Table
  import opened Criteria
  import opened Bucketing

  /**
   * For a client that exists, the similar-clients cohort is never empty, so its
   * best and worst groups can always be built (dashboard lines 89 to 142 and 246
   * to 256): the empty-cohort failure cannot happen in that view.
   */
  lemma SimilarGroupsExist(store: seq<Client>, id: int, f: Flags)
    requires exists i :: 0 <= i < |store| && store[i].id == id
    ensures SimilarClients(store, id, f).Success?
    ensures Bucket(SimilarClients(store, id, f).value, Similar).Success?
  {
    SimilarCohortNonEmpty(store, id, f);
  }

  /**
   * When the selected client is the best-scoring of its cohort, it is in the
   * best group; when it is the worst-scoring, it is in the worst group.
   */
  lemma SelectedClientPlacement(store: seq<Client>, id: int, f: Flags)
    requires exists i :: 0 <= i < |store| && store[i].id == id
    ensures var cohort := SimilarClients(store, id, f).value;
      var ref := Lookup(store, id).value;
      var g := Bucket(cohort, Similar).value;
      (ref.creditScore == MinScore(cohort) ==> ref in g.best) &&
      (ref.creditScore == MaxScore(cohort) ==> ref in g.worst)
  {
    var cohort := SimilarClients(store, id, f).value;
    var ref := Lookup(store, id).value;
    if ref.creditScore == MinScore(cohort) {
      MinimumIsBest(cohort, Similar, ref);
    }
    if ref.creditScore == MaxScore(cohort) {
      MaximumIsWorst(cohort, Similar, ref);
    }
  }

  /** The all-clients view can only fail on an empty store. */
  lemma GlobalGroupsExist(store: seq<Client>)
    ensures Bucket(store, Global).Success? <==> store != []
  {
  }
}
