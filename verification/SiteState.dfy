/** The normalized serving state of a website, from which the gateway, the
    status cache and the recovery watcher all derive their decisions. */
module SiteState {
  import opened Options

  const STATUS_ACTIVE := "active"
  const STATUS_PENDING := "pending_validation"
  const STATUS_BROKEN := "broken"

  datatype State = Active | Pending | Broken | Inactive | Unknown {
    predicate IsServiceable() { Active? }
    predicate NeedsShortTTL() { Pending? || Broken? }
  }

  /** A website as the portal reports it; only the fields decisions read. */
  datatype Website = Website(status: string, targetHash: string)

  function StateFromStatus(status: string): State {
    if status == STATUS_ACTIVE then Active
    else if status == STATUS_PENDING then Pending
    else if status == STATUS_BROKEN then Broken
    else if status == "" then Unknown
    else Inactive
  }

  function Classify(site: Option<Website>): State {
    match site
    case None => Unknown
    case Some(w) => StateFromStatus(w.status)
  }

  /** Exactly the sites reported active are served on the strength of their status, and
      exactly those pending or broken are asked about again sooner. */
  lemma StatusDecides(site: Option<Website>)
    ensures Classify(site).IsServiceable() <==> site.Some? && site.value.status == "active"
    ensures Classify(site).NeedsShortTTL() <==>
            site.Some? && site.value.status in {"pending_validation", "broken"}
  {
  }
}
