/**
 * The redirect page: resolves the shortcode of the route against the store,
 * ends in an error outcome or in the ready state, and then counts down from
 * 5 to 0, one tick per second, navigating to the destination at 0.
 */
module Redirect {
  import opened Wrappers
  import opened JsObject
  import opened UrlStorage
  import opened StorageAsWritten

  const InitialCountdown := 5

  /** The user-visible outcomes of a failed resolution; the last is the `catch` branch. */
  datatype RedirectError = BadShortcode | UrlNotFound | UrlExpired | ClickFailed | ProcessingFailed

  function ErrorMessage(e: RedirectError): string {
    match e
    case BadShortcode => "Invalid shortcode"
    case UrlNotFound => "Short URL not found"
    case UrlExpired => "This short URL has expired"
    case ClickFailed => "Failed to record click or URL has expired"
    case ProcessingFailed => "An error occurred while processing the redirect"
  }

  /** Each outcome has a message of its own. */
  lemma ErrorMessagesDistinct(a: RedirectError, b: RedirectError)
    ensures ErrorMessage(a) == ErrorMessage(b) ==> a == b
  {
  }

  /** The route parameter is present and non-empty (`!shortcode` is false). */
  predicate Given(shortcode: Option<string>) {
    shortcode.Some? && shortcode.value != ""
  }

  /**
   * `handleRedirect()` as written, on the store's collections: the error it
   * shows, or `None` when it ends with the record shown. A thrown store call
   * lands in the `catch` branch.
   */
  function HandleRedirectAsWritten(shortcode: Option<string>, urls: map<string, UrlRecord>, clicks: map<string, seq<Click>>,
                                   lookupNow: int, clickNow: int): Option<RedirectError> {
    if !Given(shortcode) then Some(BadShortcode)
    else match GetUrlByShortcodeAsWritten(urls, shortcode.value, lookupNow)
      case Null => Some(UrlNotFound)
      case OwnRecord(_, true) => Some(UrlExpired)
      case _ =>
        match RecordClickAsWritten(urls, clicks, shortcode.value, clickNow)
        case Refused => Some(ClickFailed)
        case Throws => Some(ProcessingFailed)
        case Recorded => None
  }

  /**
   * Off the inherited names the page as written ends as `HandleRedirect`
   * states, and never in the `catch` branch.
   */
  lemma HandleRedirectAgrees(shortcode: Option<string>, urls: map<string, UrlRecord>, clicks: map<string, seq<Click>>,
                             shortcodes: set<string>, lookupNow: int, clickNow: int)
    requires StoreConsistent(urls, clicks, shortcodes)
    requires Given(shortcode) ==> shortcode.value !in PrototypeMembers || shortcode.value in urls
    ensures var out := HandleRedirectAsWritten(shortcode, urls, clicks, lookupNow, clickNow);
            var stored := Given(shortcode) && shortcode.value in urls;
            var goneAtLookup := stored && IsExpired(urls[shortcode.value], lookupNow);
            var goneAtClick := stored && IsExpired(urls[shortcode.value], clickNow);
            && (!Given(shortcode) ==> out == Some(BadShortcode))
            && (Given(shortcode) && !stored ==> out == Some(UrlNotFound))
            && (goneAtLookup ==> out == Some(UrlExpired))
            && (stored && !goneAtLookup && goneAtClick ==> out == Some(ClickFailed))
            && (stored && !goneAtLookup && !goneAtClick ==> out == None)
            && out != Some(ProcessingFailed)
  {
    if Given(shortcode) {
      LookupAndClickAgree(urls, clicks, shortcodes, shortcode.value, lookupNow);
      LookupAndClickAgree(urls, clicks, shortcodes, shortcode.value, clickNow);
    }
  }

  /**
   * A route value that names an inherited member, and is not stored, makes
   * the page as written show the `catch` message, where `HandleRedirect`
   * shows "Short URL not found".
   */
  lemma InheritedRedirectFails(urls: map<string, UrlRecord>, clicks: map<string, seq<Click>>, shortcodes: set<string>,
                               sc: string, lookupNow: int, clickNow: int)
    requires StoreConsistent(urls, clicks, shortcodes)
    requires sc in PrototypeMembers && sc !in urls
    ensures HandleRedirectAsWritten(Some(sc), urls, clicks, lookupNow, clickNow) == Some(ProcessingFailed)
  {
    InheritedClickThrows(urls, clicks, shortcodes, sc, lookupNow);
    InheritedClickThrows(urls, clicks, shortcodes, sc, clickNow);
  }

  /** The route `/toString` on an empty store: the page as written shows the `catch` message. */
  lemma ToStringRouteFails(lookupNow: int, clickNow: int)
    ensures HandleRedirectAsWritten(Some("toString"), map[], map[], lookupNow, clickNow) == Some(ProcessingFailed)
  {
    assert "toString" in PrototypeMembers;
    InheritedRedirectFails(map[], map[], {}, "toString", lookupNow, clickNow);
  }

  class RedirectHandler {
    const store: Store
    var loading: bool
    var error: Option<RedirectError>
    var urlData: Option<UrlRecord>
    var countdown: int
    /** The last destination assigned to `window.location.href`. */
    var navigatedTo: Option<string>
    /** The route parameter the resolution effect last ran for; `None` before the first run. */
    var resolvedFor: Option<Option<string>>
    /** The number of `recordClick` calls this page has made. */
    ghost var recordCalls: nat

    ghost predicate Valid()
      reads this, store
    {
      store.Valid() && 0 <= countdown <= InitialCountdown
    }

    /** The initial state: loading, no error, no data, countdown at 5. */
    constructor (store: Store)
      requires store.Valid()
      ensures Valid() && this.store == store
      ensures loading && error == None && urlData == None && countdown == InitialCountdown
      ensures navigatedTo == None && resolvedFor == None && recordCalls == 0
    {
      this.store := store;
      loading, error, urlData, countdown := true, None, None, InitialCountdown;
      navigatedTo, resolvedFor := None, None;
      recordCalls := 0;
    }

    /**
     * `handleRedirect()`. The store reads the clock twice, once in the lookup
     * (`lookupNow`) and once when recording the click (`clickNow`).
     */
    method HandleRedirect(shortcode: Option<string>, ctx: ClientContext, lookupNow: int, clickNow: int)
      requires Valid()
      modifies this, store
      ensures Valid()
      ensures store.shortcodes == old(store.shortcodes)
      ensures countdown == old(countdown) && navigatedTo == old(navigatedTo) && resolvedFor == old(resolvedFor)
      ensures !loading
      ensures recordCalls <= old(recordCalls) + 1
      ensures !Given(shortcode) ==>
                && error == Some(BadShortcode) && urlData == old(urlData)
                && recordCalls == old(recordCalls)
                && store.urls == old(store.urls) && store.clicks == old(store.clicks)
      ensures Given(shortcode) && shortcode.value !in old(store.urls) ==>
                && error == Some(UrlNotFound) && urlData == old(urlData)
                && recordCalls == old(recordCalls)
                && store.urls == old(store.urls) && store.clicks == old(store.clicks)
      ensures Given(shortcode) && shortcode.value in old(store.urls)
              && IsExpired(old(store.urls)[shortcode.value], lookupNow) ==>
                && error == Some(UrlExpired) && urlData == old(urlData)
                && recordCalls == old(recordCalls)
                && store.clicks == old(store.clicks)
                && store.urls == old(store.urls)[shortcode.value := old(store.urls)[shortcode.value].(isActive := false)]
      ensures Given(shortcode) && shortcode.value in old(store.urls)
              && !IsExpired(old(store.urls)[shortcode.value], lookupNow)
              && IsExpired(old(store.urls)[shortcode.value], clickNow) ==>
                && error == Some(ClickFailed) && urlData == old(urlData)
                && recordCalls == old(recordCalls) + 1
                && store.urls == old(store.urls) && store.clicks == old(store.clicks)
      ensures Given(shortcode) && shortcode.value in old(store.urls)
              && !IsExpired(old(store.urls)[shortcode.value], lookupNow)
              && !IsExpired(old(store.urls)[shortcode.value], clickNow) ==>
                var sc := shortcode.value;
                && error == old(error)
                && recordCalls == old(recordCalls) + 1
                && store.clicks == old(store.clicks)[sc := old(store.clicks)[sc] + [MakeClick(ctx, clickNow, store.parseUrl)]]
                && store.urls == old(store.urls)[sc := old(store.urls)[sc].(clickCount := old(store.urls)[sc].clickCount + 1)]
                && urlData == Some(store.urls[sc])
                && urlData.value.originalUrl == old(store.urls)[sc].originalUrl
    {
      if !Given(shortcode) {
        error := Some(BadShortcode);
        loading := false;
        return;
      }
      var sc := shortcode.value;
      var found := store.GetUrlByShortcode(sc, lookupNow);
      if found.NotFound? {
        error := Some(UrlNotFound);
        loading := false;
        return;
      }
      if found.isExpired {
        error := Some(UrlExpired);
        loading := false;
        return;
      }
      var clickRecorded := store.RecordClick(sc, ctx, clickNow);
      recordCalls := recordCalls + 1;
      if !clickRecorded {
        error := Some(ClickFailed);
        loading := false;
        return;
      }
      urlData := Some(store.urls[sc]);
      loading := false;
    }

    /** The resolution effect: it runs `handleRedirect` only when the route parameter differs from the last one resolved. */
    method OnShortcode(shortcode: Option<string>, ctx: ClientContext, lookupNow: int, clickNow: int)
      requires Valid()
      modifies this, store
      ensures Valid()
      ensures resolvedFor == Some(shortcode)
      ensures recordCalls <= old(recordCalls) + 1
      ensures old(resolvedFor) == Some(shortcode) ==>
                && recordCalls == old(recordCalls)
                && store.urls == old(store.urls) && store.clicks == old(store.clicks)
                && store.shortcodes == old(store.shortcodes)
                && loading == old(loading) && error == old(error) && urlData == old(urlData)
                && countdown == old(countdown) && navigatedTo == old(navigatedTo)
      ensures countdown == old(countdown) && navigatedTo == old(navigatedTo)
      ensures store.clicks != old(store.clicks) ==>
                && Given(shortcode)
                && old(resolvedFor) != Some(shortcode)
                && shortcode.value in old(store.clicks)
                && store.clicks == old(store.clicks)[shortcode.value := old(store.clicks)[shortcode.value] + [MakeClick(ctx, clickNow, store.parseUrl)]]
      ensures old(resolvedFor) != Some(shortcode) && Given(shortcode) && shortcode.value in old(store.urls)
              && !IsExpired(old(store.urls)[shortcode.value], lookupNow)
              && !IsExpired(old(store.urls)[shortcode.value], clickNow) ==>
                && recordCalls == old(recordCalls) + 1
                && store.clicks == old(store.clicks)[shortcode.value := old(store.clicks)[shortcode.value] + [MakeClick(ctx, clickNow, store.parseUrl)]]
                && urlData == Some(store.urls[shortcode.value])
                && urlData.value.originalUrl == old(store.urls)[shortcode.value].originalUrl
    {
      if resolvedFor == Some(shortcode) {
        return;
      }
      resolvedFor := Some(shortcode);
      HandleRedirect(shortcode, ctx, lookupNow, clickNow);
    }

    /** One second of the countdown effect: a tick while data is shown and time is left, navigation when it reaches 0. */
    method Tick()
      requires Valid()
      modifies this
      ensures Valid()
      ensures loading == old(loading) && error == old(error) && urlData == old(urlData)
      ensures resolvedFor == old(resolvedFor) && recordCalls == old(recordCalls)
      ensures old(urlData).Some? && old(countdown) > 0 ==> countdown == old(countdown) - 1
      ensures !(old(urlData).Some? && old(countdown) > 0) ==> countdown == old(countdown)
      ensures navigatedTo ==
                if old(urlData).Some? && old(countdown) == 1 then Some(urlData.value.originalUrl)
                else old(navigatedTo)
    {
      if urlData.Some? && countdown > 0 {
        countdown := countdown - 1;
        if countdown == 0 {
          navigatedTo := Some(urlData.value.originalUrl);
        }
      }
    }

    /** `handleManualRedirect()`: "Go Now" navigates only when data is shown. */
    method HandleManualRedirect()
      requires Valid()
      modifies this
      ensures Valid()
      ensures loading == old(loading) && error == old(error) && urlData == old(urlData) && countdown == old(countdown)
      ensures resolvedFor == old(resolvedFor) && recordCalls == old(recordCalls)
      ensures navigatedTo == if urlData.Some? then Some(urlData.value.originalUrl) else old(navigatedTo)
    {
      if urlData.Some? {
        navigatedTo := Some(urlData.value.originalUrl);
      }
    }
  }

  /**
   * A fresh page on a live code, rendered twice with the same route value:
   * it records one click, shows nothing navigated after four ticks, and
   * navigates to the original URL at the fifth.
   */
  method ResolveAndCountDown(store: Store, sc: string, ctx: ClientContext, now: int)
    returns (afterFour: Option<string>, afterFive: Option<string>)
    requires store.Valid()
    requires sc != "" && sc in store.urls && !IsExpired(store.urls[sc], now)
    modifies store
    ensures store.Valid()
    ensures store.clicks == old(store.clicks)[sc := old(store.clicks)[sc] + [MakeClick(ctx, now, store.parseUrl)]]
    ensures afterFour == None && afterFive == Some(old(store.urls)[sc].originalUrl)
  {
    var page := new RedirectHandler(store);
    page.OnShortcode(Some(sc), ctx, now, now);
    page.OnShortcode(Some(sc), ctx, now, now);
    page.Tick(); page.Tick(); page.Tick(); page.Tick();
    afterFour := page.navigatedTo;
    page.Tick();
    afterFive := page.navigatedTo;
  }
}
