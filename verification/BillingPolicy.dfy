/** What billing does with usage of each trust level (internal/control/billing_policy.go). */
module BillingPolicy {

  const UPSTREAM := "upstream"
  const ESTIMATED := "estimated"
  const MISSING := "missing"
  const ERROR_OK := "ok"

  datatype Disposition = Bill | Hold | WriteOff

  datatype UsageClass = UsageClass(source: string, partial: bool, succeeded: bool)

  /* The policy, written out in full. */
  const DISPOSITIONS: map<UsageClass, Disposition> := map[
    UsageClass(UPSTREAM, false, true) := Bill,
    UsageClass(UPSTREAM, true, true) := Bill,
    UsageClass(UPSTREAM, false, false) := WriteOff,
    UsageClass(UPSTREAM, true, false) := WriteOff,
    UsageClass(ESTIMATED, false, true) := Hold,
    UsageClass(ESTIMATED, true, true) := Hold,
    UsageClass(ESTIMATED, false, false) := Hold,
    UsageClass(ESTIMATED, true, false) := Hold,
    UsageClass(MISSING, false, true) := Hold,
    UsageClass(MISSING, true, true) := Hold,
    UsageClass(MISSING, false, false) := WriteOff,
    UsageClass(MISSING, true, false) := WriteOff
  ]

  /** The disposition of a class and whether the table knows the class at all. */
  function DispositionFor(class_: UsageClass): (Disposition, bool) {
    if class_ in DISPOSITIONS then (DISPOSITIONS[class_], true) else (Hold, false)
  }

  predicate ReleaseSucceeded(statusCode: int, errorClass: string) {
    errorClass == ERROR_OK && 200 <= statusCode < 400
  }

  /** The table in one sentence: only upstream-reported usage of a served request is charged, only failed
      requests are written off, and a class is unknown exactly when its source is. */
  lemma PolicyMeaning(c: UsageClass)
    ensures DispositionFor(c).0 == Bill <==> c.source == UPSTREAM && c.succeeded
    ensures DispositionFor(c).0 == WriteOff <==> (c.source == UPSTREAM || c.source == MISSING) && !c.succeeded
    ensures DispositionFor(c).1 <==> c.source == UPSTREAM || c.source == ESTIMATED || c.source == MISSING
    ensures !DispositionFor(c).1 ==> DispositionFor(c).0 == Hold
  {
    assert UPSTREAM[0] != ESTIMATED[0] && UPSTREAM[0] != MISSING[0] && ESTIMATED[0] != MISSING[0];
    assert c == UsageClass(c.source, c.partial, c.succeeded);
  }
}
