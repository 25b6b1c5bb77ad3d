/**
 `waitUntilHealthy` of both managed runtimes: two healthy looks in a row, within a bounded number of
 attempts. The two copies differ in one branch, and that decides what "in a row" means.
 */
module Health {
  datatype Kind = Realm | Xray

  /** One attempt: the service query failed, said inactive, or said active with the listeners down or up. */
  datatype Look = QueryFailed | Inactive | Down | Up

  /** A look and whether the pause after it was not cancelled. */
  datatype Attempt = Attempt(look: Look, waited: bool)

  datatype Verdict = Healthy | QueryError | HealthError | StartError

  /** The j-th look is the second of a healthy pair: adjacent for Xray, for Realm with nothing but
      inactive looks in between, because an inactive service does not reset its counter. */
  predicate Paired(kind: Kind, looks: seq<Attempt>, j: nat) {
    j < |looks| && looks[j].look.Up?
    && exists i :: 0 <= i < j && looks[i].look.Up? && (forall k :: i < k < j ==> looks[k].look.Inactive?) && (kind == Xray ==> i + 1 == j)
  }

  /** Nothing before the j-th look ended the loop with an error. */
  predicate Reached(looks: seq<Attempt>, j: nat) {
    j < |looks| && !looks[j].look.QueryFailed? && forall k :: 0 <= k < j ==> !looks[k].look.QueryFailed? && looks[k].waited
  }

  /** When the runtime counts as healthy; a single permitted attempt needs a single healthy look. */
  predicate Confirmed(kind: Kind, looks: seq<Attempt>, j: nat) {
    Reached(looks, j) && (Paired(kind, looks, j) || (|looks| == 1 && looks[0].look.Up?))
  }

  /** The counter after the first n looks, for as long as no pair was found. */
  predicate LastUp(kind: Kind, looks: seq<Attempt>, n: nat) {
    n <= |looks|
    && exists i :: 0 <= i < n && looks[i].look.Up? && (forall k :: i < k < n ==> looks[k].look.Inactive?) && (kind == Xray ==> i + 1 == n)
  }

  /** The query of attempt n is made and fails. */
  predicate FailedAt(looks: seq<Attempt>, n: nat) {
    n < |looks| && looks[n].look.QueryFailed? && forall k :: 0 <= k < n ==> !looks[k].look.QueryFailed? && looks[k].waited
  }

  /** Every attempt was made. */
  predicate RanOut(looks: seq<Attempt>) {
    forall k :: 0 <= k < |looks| ==> !looks[k].look.QueryFailed? && (k + 1 < |looks| ==> looks[k].waited)
  }

  predicate SeenActive(looks: seq<Attempt>) {
    exists j :: 0 <= j < |looks| && (looks[j].look.Up? || looks[j].look.Down?)
  }

  /** Healthy, or which of the three errors: the query's own, a health error when every attempt was
      made and the service was up at least once, a start error in all other cases. */
  method WaitUntilHealthy(kind: Kind, looks: seq<Attempt>) returns (verdict: Verdict)
    ensures verdict.Healthy? <==> exists j :: Confirmed(kind, looks, j)
    ensures verdict.QueryError? <==> (exists n :: FailedAt(looks, n)) && forall j :: !Confirmed(kind, looks, j)
    ensures verdict.HealthError? <==> RanOut(looks) && SeenActive(looks) && forall j :: !Confirmed(kind, looks, j)
  {
    var consecutive, wasActive := 0, false;
    for attempt := 0 to |looks|
      invariant consecutive == 0 || consecutive == 1
      invariant consecutive == 1 <==> LastUp(kind, looks, attempt)
      invariant forall k :: 0 <= k < attempt ==> !looks[k].look.QueryFailed? && (k + 1 < |looks| ==> looks[k].waited)
      invariant forall j :: 0 <= j < attempt ==> !Confirmed(kind, looks, j)
      invariant wasActive <==> exists j :: 0 <= j < attempt && (looks[j].look.Up? || looks[j].look.Down?)
    {
      var look := looks[attempt].look;
      if look.QueryFailed? {
        assert FailedAt(looks, attempt);
        NoLaterConfirmation(kind, looks, attempt);
        return QueryError;
      }
      if look.Up? || look.Down? {
        wasActive := true;
        if look.Up? {
          PairFromCounter(kind, looks, attempt);
          consecutive := consecutive + 1;
          if consecutive == 2 || |looks| == 1 {
            assert Confirmed(kind, looks, attempt);
            return Healthy;
          }
          assert LastUp(kind, looks, attempt + 1);
        } else {
          consecutive := 0;
        }
      } else if kind == Xray {
        consecutive := 0;
      }
      if attempt + 1 < |looks| && !looks[attempt].waited {
        NoLaterConfirmation(kind, looks, attempt + 1);
        return StartError;
      }
    }
    assert forall j: nat :: Confirmed(kind, looks, j) ==> j < |looks|;
    return if wasActive then HealthError else StartError;
  }

  lemma PairFromCounter(kind: Kind, looks: seq<Attempt>, n: nat)
    requires n < |looks| && looks[n].look.Up?
    ensures LastUp(kind, looks, n) <==> Paired(kind, looks, n)
  {
  }

  lemma NoLaterConfirmation(kind: Kind, looks: seq<Attempt>, n: nat)
    requires forall j :: 0 <= j < n ==> !Confirmed(kind, looks, j)
    requires n < |looks| && (looks[n].look.QueryFailed? || (n > 0 && !looks[n - 1].waited))
    ensures forall j :: !Confirmed(kind, looks, j)
  {
  }

  /** Xray's test is the stricter one. */
  lemma XrayImpliesRealm(looks: seq<Attempt>, j: nat)
    requires Confirmed(Xray, looks, j)
    ensures Confirmed(Realm, looks, j)
  {
  }

  /** Strictly so: a service that is found inactive between two healthy looks passes Realm's test only. */
  lemma RealmAcceptsFlapping()
    ensures exists looks: seq<Attempt>, j: nat :: Confirmed(Realm, looks, j) && forall k :: !Confirmed(Xray, looks, k)
  {
    var looks := [Attempt(Up, true), Attempt(Inactive, true), Attempt(Up, true)];
    assert looks[0].look.Up? && forall k :: 0 < k < 2 ==> looks[k].look.Inactive?;
    assert Confirmed(Realm, looks, 2);
    assert forall k :: !Confirmed(Xray, looks, k);
  }
}
