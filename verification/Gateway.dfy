/** The gateway's access decision for a domain: what is served from the status
    cache, which portal outcomes are cached, and when a last known response is
    served in place of an unreachable portal. */
module Gateway {
  import opened Options
  import opened Recency
  import opened SiteState
  import SC = StatusCache

  datatype Access = Serve(site: Option<Website>) | Deny(err: SC.Error) | AskPortal

  /** The portal's answer to a status request. */
  datatype Outcome = Site(site: Option<Website>) | Failed(err: SC.Error)

  const NOT_FOUND := SC.Error(SC.NotFound, "not found")

  /** The lookup half of a request; the portal is asked on a miss. */
  function Ask(t: SC.Tiers, c: SC.Config, now: int, d: string, isIP: bool): (SC.Tiers, Access) {
    if isIP then (t, Deny(NOT_FOUND))
    else
      var (t', r) := SC.Get(t, c, now, d);
      match r
      case Hit(e, _) => (t', if e.err.Some? then Deny(e.err.value) else Serve(e.response))
      case Miss => (t', if c.hasApi then AskPortal else Serve(None))
  }

  /** The last known response, if the site may be served on its strength. */
  function Degraded(t: SC.Tiers, c: SC.Config, now: int, d: string): (SC.Tiers, Option<Website>) {
    var (t', e) := SC.KeepAlive(t, c, now, d);
    (t', if e.Some? && Classify(e.value.response).IsServiceable() then e.value.response else None)
  }

  /** The portal could not be reached: serve the last known response, or fail and
      remember the failure, unless it was a deadline. */
  function Unreached(t: SC.Tiers, c: SC.Config, now: int, d: string, err: SC.Error): (SC.Tiers, Access) {
    var (t', last) := Degraded(t, c, now, d);
    if last.Some? then (t', Serve(last))
    else if err.class_.Deadline? then (t', Deny(err))
    else (SC.SetError(t', c, now, d, err, true), Deny(err))
  }

  /** The portal half of a request. */
  function Answer(t: SC.Tiers, c: SC.Config, now: int, d: string, o: Outcome): (SC.Tiers, Access) {
    match o
    case Site(site) => (SC.SetFromAPI(t, c, now, d, site), Serve(site))
    case Failed(err) =>
      match err.class_
      case NotFound => (SC.SetError(t, c, now, d, err, false), Deny(err))
      case Gone => (SC.SetError(t, c, now, d, err, true), Deny(err))
      case Unauthorized => (SC.SetError(t, c, now, d, err, true), Deny(err))
      case Canceled => (t, Deny(err))
      case _ => Unreached(t, c, now, d, err)
  }

  /** A whole request: the portal's answer, if it is needed, arrives `later`. */
  function CheckAccess(t: SC.Tiers, c: SC.Config, d: string, isIP: bool, now: int, later: int, o: Outcome)
    : (SC.Tiers, Access)
  {
    var (t', a) := Ask(t, c, now, d, isIP);
    if a.AskPortal? then Answer(t', c, later, d, o) else (t', a)
  }

  /** Without a status cache every request is the portal's answer. */
  function Uncached(hasApi: bool, isIP: bool, o: Outcome): Access {
    if isIP then Deny(NOT_FOUND)
    else if !hasApi then Serve(None)
    else match o
         case Site(site) => Serve(site)
         case Failed(err) => Deny(err)
  }

  class SiteGateway {
    const cache: SC.Cache?
    const hasApi: bool

    constructor (cache: SC.Cache?, hasApi: bool)
      requires cache != null ==> cache.config.hasApi == hasApi
      ensures this.cache == cache && this.hasApi == hasApi
    {
      this.cache, this.hasApi := cache, hasApi;
    }

    method LastKnown(now: int, d: string) returns (site: Option<Website>)
      modifies cache
      ensures cache == null ==> site == None
      ensures cache != null ==> (cache.View(), site) == Degraded(old(cache.View()), cache.config, now, d)
    {
      if cache == null { return None; }
      var e := cache.KeepServing(now, d);
      if e.None? || e.value.response.None? || !Classify(e.value.response).IsServiceable() { return None; }
      return e.value.response;
    }

    method Check(d: string, isIP: bool, now: int, later: int, o: Outcome) returns (a: Access)
      requires cache != null ==> cache.config.hasApi == hasApi
      modifies cache
      ensures cache == null ==> a == Uncached(hasApi, isIP, o)
      ensures cache != null ==>
                (cache.View(), a) == CheckAccess(old(cache.View()), cache.config, d, isIP, now, later, o)
    {
      if isIP { return Deny(NOT_FOUND); }
      if cache != null {
        var r := cache.LookUp(now, d);
        if r.Hit? {
          if r.entry.err.Some? { return Deny(r.entry.err.value); }
          return Serve(r.entry.response);
        }
      }
      if !hasApi { return Serve(None); }
      a := AfterMiss(d, later, o);
    }

    method AfterMiss(d: string, now: int, o: Outcome) returns (a: Access)
      modifies cache
      ensures cache == null ==> a == Uncached(true, false, o)
      ensures cache != null ==> (cache.View(), a) == Answer(old(cache.View()), cache.config, now, d, o)
    {
      match o {
        case Failed(err) =>
          if err.class_.NotFound? {
            if cache != null { cache.StoreError(now, d, err, false); }
            return Deny(err);
          }
          if err.class_.Gone? || err.class_.Unauthorized? {
            if cache != null { cache.StoreError(now, d, err, true); }
            return Deny(err);
          }
          if err.class_.Canceled? { return Deny(err); }
          var last := LastKnown(now, d);
          if last.Some? { return Serve(last); }
          if err.class_.Deadline? { return Deny(err); }
          if cache != null { cache.StoreError(now, d, err, true); }
          return Deny(err);
        case Site(site) =>
          if cache != null { cache.StoreFromAPI(now, d, site); }
          return Serve(site);
      }
    }
  }
}
