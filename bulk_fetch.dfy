/**
 * What the bulk download builds: a dictionary from survey id to the frame its
 * single download returned, or to `None` when that download raised.
 */
module BulkFetch {
  import opened Wrappers
  import opened Frames

  type SurveyId = int

  /** What one call of the single download did: returned a frame, or raised. */
  datatype FetchOutcome = Fetched(df: DataFrame) | FetchRaised

  /** The dictionary entry recorded for one outcome. */
  function Entry(o: FetchOutcome): (e: Option<DataFrame>)
    ensures e.Some? <==> o.Fetched?
    ensures o.Fetched? ==> e.value == o.df
  {
    match o
    case Fetched(df) => Some(df)
    case FetchRaised => None
  }

  /**
   * The dictionary after the ids have been downloaded in order, the i-th download
   * having had outcome `outcomes[i]`; a later entry for an id replaces an earlier one.
   */
  function Collected(ids: seq<SurveyId>, outcomes: seq<FetchOutcome>): (m: map<SurveyId, Option<DataFrame>>)
    requires |ids| == |outcomes|
    ensures |m| <= |ids|
    decreases |ids|
  {
    if ids == [] then map[]
    else
      var n := |ids| - 1;
      Collected(ids[..n], outcomes[..n])[ids[n] := Entry(outcomes[n])]
  }

  /** Position k holds the last occurrence of its id. */
  ghost predicate LastOccurrence(ids: seq<SurveyId>, k: nat)
  {
    k < |ids| && forall l :: k < l < |ids| ==> ids[l] != ids[k]
  }

  ghost predicate Distinct(ids: seq<SurveyId>)
  {
    forall a, b :: 0 <= a < b < |ids| ==> ids[a] != ids[b]
  }

  /** The keys are exactly the ids asked for. */
  lemma {:induction false} CollectedKeys(ids: seq<SurveyId>, outcomes: seq<FetchOutcome>)
    requires |ids| == |outcomes|
    ensures Collected(ids, outcomes).Keys == set k | 0 <= k < |ids| :: ids[k]
  {
    if ids != [] {
      var n := |ids| - 1;
      CollectedKeys(ids[..n], outcomes[..n]);
      var before := set k | 0 <= k < n :: ids[..n][k];
      assert before == set k | 0 <= k < n :: ids[k];
      var all := set k | 0 <= k < |ids| :: ids[k];
      assert all == before + {ids[n]} by {
        forall x | x in all ensures x in before + {ids[n]} {
          var k :| 0 <= k < |ids| && ids[k] == x;
          if k < n { assert ids[..n][k] == x; }
        }
        forall x | x in before + {ids[n]} ensures x in all {
          if x != ids[n] {
            var k :| 0 <= k < n && ids[k] == x;
          }
        }
      }
    }
  }

  /** Each id maps to the outcome of its last download: the frame, or `None` if it raised. */
  lemma {:induction false} CollectedLastWins(ids: seq<SurveyId>, outcomes: seq<FetchOutcome>, k: nat)
    requires |ids| == |outcomes| && LastOccurrence(ids, k)
    ensures ids[k] in Collected(ids, outcomes)
    ensures Collected(ids, outcomes)[ids[k]] == Entry(outcomes[k])
  {
    var n := |ids| - 1;
    if k < n {
      assert ids[..n][k] == ids[k] && outcomes[..n][k] == outcomes[k];
      assert LastOccurrence(ids[..n], k);
      CollectedLastWins(ids[..n], outcomes[..n], k);
    }
  }

  /** N distinct ids give a dictionary of size N. */
  lemma {:induction false} CollectedSize(ids: seq<SurveyId>, outcomes: seq<FetchOutcome>)
    requires |ids| == |outcomes| && Distinct(ids)
    ensures |Collected(ids, outcomes)| == |ids|
  {
    if ids != [] {
      var n := |ids| - 1;
      assert Distinct(ids[..n]);
      CollectedSize(ids[..n], outcomes[..n]);
      CollectedKeys(ids[..n], outcomes[..n]);
      assert ids[n] !in Collected(ids[..n], outcomes[..n]);
    }
  }
}
