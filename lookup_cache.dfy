/**
 * The status and validity cache of src/cache.py.
 *
 * The two database tables become two maps from the key (a URL, an e-mail
 * address) to a stamped row: the stored value and the time it was looked
 * up. Time is an integer count of seconds, the resolution at which the
 * database keeps it. What the network answers (the page fetch, the
 * e-mail verification service) is passed in, and so is the current time.
 */
module LookupCache {
  import opened Wrappers

  /** The age in days at which a stored row is too old to be served without a fresh lookup. */
  const MAX_AGE_DAYS: int := 14
  const SECONDS_PER_DAY: int := 86400
  const MAX_AGE: int := MAX_AGE_DAYS * SECONDS_PER_DAY

  /** The status stored for a page whose server cannot be reached ("410 Gone"). */
  const UNREACHABLE_STATUS: int := 410

  /** The reasons `set_email` stores for an address validated or refuted by hand. */
  const USER_VERIFIED: string := "user_verified"
  const USER_REFUTED: string := "user_refuted"

  /** A stored value with the time of its lookup. */
  datatype Stamped<V> = Stamped(value: V, lastLookup: int)

  /** The stored validity of an e-mail address. */
  datatype Validity = Validity(isValid: bool, reason: string)

  datatype CacheError =
    | CacheMiss(key: string)       // the key is not stored and no lookup was allowed
    | LookupFailed(key: string)    // the lookup raised an error other than a connection error

  /** What fetching a page gives. */
  datatype PageFetch =
    | Reached(status: int)         // the server answered with this status
    | ConnectionFailed             // `requests.exceptions.ConnectionError`: an unresolvable
                                   // host, a refused or reset connection, an SSL failure
                                   // or a connect timeout
    | RequestFailed                // any other request error, which propagates

  /** What the e-mail verification service gives. */
  datatype EmailFetch =
    | Verdict(safeToSend: string, reason: string)
    | VerificationFailed           // the request, the JSON body or a field is missing

  /** What `get_webpage` and `get_email` return. */
  datatype WebpageInfo = WebpageInfo(url: string, status: int, lastLookup: int)
  datatype EmailInfo = EmailInfo(address: string, isValid: bool, reason: string, lastLookup: int)

  /** A row is too old once it has reached MAX_AGE. */
  predicate Stale<V>(row: Stamped<V>, now: int) {
    now - row.lastLookup >= MAX_AGE
  }

  /** The status `lookup_webpage` stores, or None when the lookup fails. */
  function PageStatus(fetch: PageFetch): (s: Option<int>)
    ensures s.None? <==> fetch.RequestFailed?
    ensures fetch.ConnectionFailed? ==> s == Some(UNREACHABLE_STATUS)
    ensures fetch.Reached? ==> s == Some(fetch.status)
  {
    match fetch
    case Reached(status) => Some(status)
    case ConnectionFailed => Some(UNREACHABLE_STATUS)
    case RequestFailed => None
  }

  /** The validity `lookup_email` stores: invalid exactly when the service says `safe_to_send` is "false". */
  function EmailValidity(fetch: EmailFetch): (v: Option<Validity>)
    ensures v.None? <==> fetch.VerificationFailed?
    ensures v.Some? ==> (!v.value.isValid <==> fetch.safeToSend == "false")
    ensures v.Some? ==> v.value.reason == fetch.reason
  {
    match fetch
    case Verdict(safe, reason) => Some(Validity(safe != "false", reason))
    case VerificationFailed => None
  }

  /** The validity `set_email` stores: the reason records whether a user validated or refuted it. */
  function ManualValidity(isValid: bool): (v: Validity)
    ensures v.isValid == isValid
    ensures v.reason == USER_VERIFIED <==> isValid
    ensures v.reason == USER_REFUTED <==> !isValid
  {
    Validity(isValid, if isValid then USER_VERIFIED else USER_REFUTED)
  }

  /** The outcome of one `get_*` call: the answer, the table afterwards, and whether it looked up. */
  datatype Consulted<V> = Consulted(answer: Result<Stamped<V>, CacheError>, table: map<string, Stamped<V>>, lookedUp: bool)

  /**
   * One `get_webpage` or `get_email` call on `table`, with `fetched` the
   * value a lookup would store (None when it fails):
   * a fresh row is served as stored; a stale row is served as stored and,
   * unless `nolookup`, refreshed behind it; a missing row is a cache miss
   * under `nolookup`, and otherwise looked up, stored and served.
   */
  function Consult<V>(table: map<string, Stamped<V>>, key: string, nolookup: bool, fetched: Option<V>, now: int): (c: Consulted<V>)
    ensures c.lookedUp <==> !nolookup && (key in table ==> Stale(table[key], now))
    ensures c.answer.Failure? <==> (key !in table && nolookup) || (c.lookedUp && fetched.None?)
    ensures c.answer == Failure(CacheMiss(key)) <==> key !in table && nolookup
    ensures c.lookedUp && fetched.None? ==> c.answer == Failure(LookupFailed(key))
    ensures c.answer.Success? && key in table ==> c.answer.value == table[key]
    ensures c.answer.Success? ==> key in c.table && (key !in table ==> c.answer.value == c.table[key])
    ensures c.lookedUp && fetched.Some? ==> c.table == table[key := Stamped(fetched.value, now)]
    ensures !(c.lookedUp && fetched.Some?) ==> c.table == table
  {
    if key in table then
      var row := table[key];
      if Stale(row, now) && !nolookup then
        match fetched
        case Some(v) => Consulted(Success(row), table[key := Stamped(v, now)], true)
        case None => Consulted(Failure(LookupFailed(key)), table, true)
      else
        Consulted(Success(row), table, false)
    else if nolookup then
      Consulted(Failure(CacheMiss(key)), table, false)
    else
      match fetched
      case Some(v) =>
        var stored := table[key := Stamped(v, now)];
        Consulted(Success(stored[key]), stored, true)
      case None => Consulted(Failure(LookupFailed(key)), table, true)
  }

  /** Rows of other keys are never touched by a `get_*` call. */
  lemma ConsultKeepsOtherKeys<V>(table: map<string, Stamped<V>>, key: string, nolookup: bool, fetched: Option<V>, now: int, other: string)
    requires other != key
    ensures var c := Consult(table, key, nolookup, fetched, now);
            (other in c.table <==> other in table) && (other in table ==> c.table[other] == table[other])
  {
  }

  /**
   * A stale row refreshed by a lookup is served as it was before the
   * refresh: the caller sees the old value, the table holds the new one.
   */
  lemma StaleRefreshServesOldRow<V>(table: map<string, Stamped<V>>, key: string, v: V, now: int)
    requires key in table && Stale(table[key], now)
    ensures var c := Consult(table, key, false, Some(v), now);
            c.answer == Success(table[key]) && c.table[key] == Stamped(v, now)
  {
  }

  /**
   * A call that may look up leaves a fresh row behind: a second call at the
   * same time, allowed to look up or not, is served that row without any lookup.
   */
  lemma ConsultSettles<V>(table: map<string, Stamped<V>>, key: string, fetched: Option<V>, now: int,
                          nolookup': bool, fetched': Option<V>)
    requires Consult(table, key, false, fetched, now).answer.Success?
    ensures var c := Consult(table, key, false, fetched, now);
            var c' := Consult(c.table, key, nolookup', fetched', now);
            !c'.lookedUp && c'.table == c.table && c'.answer == Success(c.table[key])
  {
  }

  /** A row stored by a setter at time `t` is served unchanged, without a lookup, until it goes stale. */
  lemma StoredRowIsServed<V>(table: map<string, Stamped<V>>, key: string, v: V, t: int,
                             nolookup: bool, fetched: Option<V>, now: int)
    requires now - t < MAX_AGE
    ensures var stored := table[key := Stamped(v, t)];
            Consult(stored, key, nolookup, fetched, now) == Consulted(Success(Stamped(v, t)), stored, false)
  {
  }

  /** The cache: the `webpages` and `emails` tables of its database. */
  class Cache {
    var webpages: map<string, Stamped<int>>
    var emails: map<string, Stamped<Validity>>

    /** A cache over a new, empty database. */
    constructor ()
      ensures webpages == map[] && emails == map[]
    {
      webpages := map[];
      emails := map[];
    }

    /** `lookup_webpage`: fetch the page and insert or replace its row, stamped `now`. */
    method LookupWebpage(url: string, fetch: PageFetch, now: int) returns (r: Outcome<CacheError>)
      modifies this
      ensures r.Fail? <==> PageStatus(fetch).None?
      ensures r.Fail? ==> r.error == LookupFailed(url) && webpages == old(webpages)
      ensures r.Pass? ==> webpages == old(webpages)[url := Stamped(PageStatus(fetch).value, now)]
      ensures emails == old(emails)
    {
      var status: int;
      match fetch {
        case Reached(s) =>
          status := s;
        case ConnectionFailed =>
          status := UNREACHABLE_STATUS;
        case RequestFailed =>
          return Fail(LookupFailed(url));
      }
      webpages := webpages[url := Stamped(status, now)];
      r := Pass;
    }

    /**
     * `get_webpage`: read the row; refresh it when stale unless `nolookup`
     * (serving the row read before the refresh); on a miss, raise a cache
     * miss under `nolookup`, or else look it up and read it again.
     */
    method GetWebpage(url: string, nolookup: bool, fetch: PageFetch, now: int) returns (r: Result<WebpageInfo, CacheError>)
      modifies this
      ensures var c := Consult(old(webpages), url, nolookup, PageStatus(fetch), now);
              && webpages == c.table
              && (c.answer.Success? ==> r == Success(WebpageInfo(url, c.answer.value.value, c.answer.value.lastLookup)))
              && (c.answer.Failure? ==> r == Failure(c.answer.error))
      ensures emails == old(emails)
    {
      if url in webpages {
        var row := webpages[url];
        if now - row.lastLookup >= MAX_AGE && !nolookup {
          var looked := LookupWebpage(url, fetch, now);
          if looked.Fail? {
            return Failure(looked.error);
          }
        }
        r := Success(WebpageInfo(url, row.value, row.lastLookup));
      } else if nolookup {
        r := Failure(CacheMiss(url));
      } else {
        var looked := LookupWebpage(url, fetch, now);
        if looked.Fail? {
          return Failure(looked.error);
        }
        var row := webpages[url];
        r := Success(WebpageInfo(url, row.value, row.lastLookup));
      }
    }

    /** `set_webpage`: insert or replace the row of `url` with `status`, stamped `now`. */
    method SetWebpage(url: string, status: int, now: int)
      modifies this
      ensures webpages == old(webpages)[url := Stamped(status, now)]
      ensures emails == old(emails)
    {
      webpages := webpages[url := Stamped(status, now)];
    }

    /** `lookup_email`: ask the verification service and insert or replace the row, stamped `now`. */
    method LookupEmail(address: string, fetch: EmailFetch, now: int) returns (r: Outcome<CacheError>)
      modifies this
      ensures r.Fail? <==> EmailValidity(fetch).None?
      ensures r.Fail? ==> r.error == LookupFailed(address) && emails == old(emails)
      ensures r.Pass? ==> emails == old(emails)[address := Stamped(EmailValidity(fetch).value, now)]
      ensures webpages == old(webpages)
    {
      match fetch {
        case Verdict(safe, reason) =>
          emails := emails[address := Stamped(Validity(safe != "false", reason), now)];
          r := Pass;
        case VerificationFailed =>
          r := Fail(LookupFailed(address));
      }
    }

    /** `get_email`: the same branches as `get_webpage`, over the `emails` table. */
    method GetEmail(address: string, nolookup: bool, fetch: EmailFetch, now: int) returns (r: Result<EmailInfo, CacheError>)
      modifies this
      ensures var c := Consult(old(emails), address, nolookup, EmailValidity(fetch), now);
              && emails == c.table
              && (c.answer.Success? ==>
                    var row := c.answer.value;
                    r == Success(EmailInfo(address, row.value.isValid, row.value.reason, row.lastLookup)))
              && (c.answer.Failure? ==> r == Failure(c.answer.error))
      ensures webpages == old(webpages)
    {
      if address in emails {
        var row := emails[address];
        if now - row.lastLookup >= MAX_AGE && !nolookup {
          var looked := LookupEmail(address, fetch, now);
          if looked.Fail? {
            return Failure(looked.error);
          }
        }
        r := Success(EmailInfo(address, row.value.isValid, row.value.reason, row.lastLookup));
      } else if nolookup {
        r := Failure(CacheMiss(address));
      } else {
        var looked := LookupEmail(address, fetch, now);
        if looked.Fail? {
          return Failure(looked.error);
        }
        var row := emails[address];
        r := Success(EmailInfo(address, row.value.isValid, row.value.reason, row.lastLookup));
      }
    }

    /** `set_email`: insert or replace the row of `address`, with the reason a manual verdict records. */
    method SetEmail(address: string, isValid: bool, now: int)
      modifies this
      ensures emails == old(emails)[address := Stamped(ManualValidity(isValid), now)]
      ensures webpages == old(webpages)
    {
      var reason := if isValid then USER_VERIFIED else USER_REFUTED;
      emails := emails[address := Stamped(Validity(isValid, reason), now)];
    }
  }
}
