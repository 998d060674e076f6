/**
 * The URL store: shortcode allocation, creation with expiry, lookup with
 * expiry tagging, click recording, deletion, the sweep of expired records,
 * the listing and the per-shortcode statistics.
 *
 * The store keeps three parallel collections: `urls` (shortcode to record),
 * `clicks` (shortcode to its append-only click log) and `shortcodes` (the set
 * of codes in use). Instants are integer milliseconds since the epoch; the
 * clock is a parameter of every operation that reads it.
 */
module UrlStorage {
  import opened Wrappers
  import opened Text
  import opened Shortcode
  import opened Counting

  const MsPerMinute := 60000
  const DefaultValidityMinutes := 30
  const GeneratedLength := 6
  const MaxAttempts := 1000
  const FallbackLength := 6
  const ShortUrlBase := "http://localhost:3000/"
  /** The largest distance from the epoch, in milliseconds, that a JavaScript `Date` can hold. */
  const MaxTime := 8_640_000_000_000_000

  /**
   * The WHATWG URL parser as the store sees it: `Some(hostname)` when
   * `new URL(s)` succeeds and `None` when it throws.
   */
  type UrlParser = string -> Option<string>

  datatype UrlRecord = UrlRecord(
    originalUrl: string,
    shortcode: string,
    createdAt: int,
    expiresAt: int,
    validityMinutes: int,
    clickCount: nat,
    isActive: bool)

  /** What the browser tells about a visit: `navigator.userAgent`, `document.referrer`, the approximate location. */
  datatype ClientContext = ClientContext(userAgent: string, referrer: string, location: string)

  datatype Click = Click(timestamp: int, userAgent: string, referrer: string, source: string, location: string)

  /** The exceptions `createShortUrl` throws. */
  datatype CreateError =
    | InvalidUrl        // "Invalid URL format"
    | InvalidShortcode  // "Invalid shortcode format. ..."
    | ShortcodeTaken    // "Shortcode already exists. ..."
    | InvalidTime       // the RangeError of `toISOString` on an out-of-range expiry date

  datatype Created = Created(record: UrlRecord, shortUrl: string)

  datatype UrlValidation = UrlValidation(isValid: bool, normalizedUrl: string)

  /** The result of `getUrlByShortcode`: `null`, or the record with its expiry tag. */
  datatype Lookup = NotFound | Found(record: UrlRecord, isExpired: bool)

  /** One entry of `getAllUrls`. */
  datatype Listing = Listing(record: UrlRecord, shortUrl: string, clicks: seq<Click>, isExpired: bool)

  /** The result of `getUrlStats`. */
  datatype Stats = Stats(
    record: UrlRecord,
    shortUrl: string,
    clicks: seq<Click>,
    clicksBySource: map<string, nat>,
    clicksByDate: map<string, nat>,
    isExpired: bool)

  /** `new Date() > new Date(expiresAt)` */
  predicate IsExpired(r: UrlRecord, now: int) {
    now > r.expiresAt
  }

  /** A time value a JavaScript `Date` can represent. */
  predicate InDateRange(t: int) {
    -MaxTime <= t <= MaxTime
  }

  function ShortUrl(shortcode: string): string {
    ShortUrlBase + shortcode
  }

  /** A custom shortcode was given: JavaScript treats `null` and `""` alike as absent. */
  predicate HasCustom(customShortcode: Option<string>) {
    customShortcode.Some? && customShortcode.value != ""
  }

  /** The validity in minutes: the argument, or 30 when it is left out (`undefined`). */
  function Minutes(validityMinutes: Option<int>): int {
    if validityMinutes.Some? then validityMinutes.value else DefaultValidityMinutes
  }

  /** The protocol defaulting of `validateUrl`. */
  function NormalizeUrl(url: string): string {
    if !StartsWith(url, "http://") && !StartsWith(url, "https://") then "https://" + url else url
  }

  /** A normalized URL always names a protocol, normalizing twice changes nothing, and the input is kept exactly when it already had one. */
  lemma NormalizeUrlSpec(url: string)
    ensures StartsWith(NormalizeUrl(url), "http://") || StartsWith(NormalizeUrl(url), "https://")
    ensures NormalizeUrl(NormalizeUrl(url)) == NormalizeUrl(url)
    ensures NormalizeUrl(url) == url <==> StartsWith(url, "http://") || StartsWith(url, "https://")
    ensures NormalizeUrl(url) != url ==> NormalizeUrl(url) == "https://" + url
  {
    var p := "https://";
    assert (p + url)[..|p|] == p;
  }

  /** `validateUrl(url)` */
  function ValidateUrl(url: string, parseUrl: UrlParser): (v: UrlValidation)
    ensures v.normalizedUrl == NormalizeUrl(url)
    ensures v.isValid <==> parseUrl(NormalizeUrl(url)).Some?
  {
    var normalized := NormalizeUrl(url);
    UrlValidation(parseUrl(normalized).Some?, normalized)
  }

  /** `getClickSource()`: the referrer's host mapped to a brand. */
  function GetClickSource(referrer: string, parseUrl: UrlParser): string {
    if referrer == "" then "Direct"
    else match parseUrl(referrer)
      case None => "Unknown"
      case Some(host) =>
        if Contains(host, "google") then "Google"
        else if Contains(host, "facebook") then "Facebook"
        else if Contains(host, "twitter") then "Twitter"
        else if Contains(host, "linkedin") then "LinkedIn"
        else host
  }

  /** A brand word in the host: the first of google, facebook, twitter, linkedin that the host contains. */
  predicate NamesBrand(host: string) {
    Contains(host, "google") || Contains(host, "facebook") || Contains(host, "twitter") || Contains(host, "linkedin")
  }

  /**
   * The source is "Direct" for no referrer, "Unknown" for an unparsable one,
   * the first brand of google, facebook, twitter, linkedin that the host
   * names, and otherwise the host itself.
   */
  lemma ClickSourceCases(referrer: string, parseUrl: UrlParser)
    ensures referrer == "" ==> GetClickSource(referrer, parseUrl) == "Direct"
    ensures referrer != "" && parseUrl(referrer).None? ==> GetClickSource(referrer, parseUrl) == "Unknown"
    ensures referrer != "" && parseUrl(referrer).Some? ==>
              var host := parseUrl(referrer).value;
              var g, f, t, l := Contains(host, "google"), Contains(host, "facebook"), Contains(host, "twitter"), Contains(host, "linkedin");
              && (g ==> GetClickSource(referrer, parseUrl) == "Google")
              && (!g && f ==> GetClickSource(referrer, parseUrl) == "Facebook")
              && (!g && !f && t ==> GetClickSource(referrer, parseUrl) == "Twitter")
              && (!g && !f && !t && l ==> GetClickSource(referrer, parseUrl) == "LinkedIn")
              && (!NamesBrand(host) ==> GetClickSource(referrer, parseUrl) == host)
  {
  }

  /** The click `recordClick` appends: the defaults of the source, which the redirect page's own overrides repeat. */
  function MakeClick(ctx: ClientContext, now: int, parseUrl: UrlParser): Click {
    Click(now, ctx.userAgent, if ctx.referrer == "" then "Direct" else ctx.referrer,
          GetClickSource(ctx.referrer, parseUrl), ctx.location)
  }

  /** `click.source || "Unknown"` */
  function SourceLabel(c: Click): string {
    if c.source == "" then "Unknown" else c.source
  }

  function SourceLabels(clicks: seq<Click>): (labels: seq<string>)
    ensures |labels| == |clicks| && forall i :: 0 <= i < |clicks| ==> labels[i] == SourceLabel(clicks[i])
  {
    seq(|clicks|, i requires 0 <= i < |clicks| => SourceLabel(clicks[i]))
  }

  /** `new Date(click.timestamp).toDateString()`, with the calendar formatting given as `dateKey`. */
  function DateLabels(clicks: seq<Click>, dateKey: int -> string): (labels: seq<string>)
    ensures |labels| == |clicks| && forall i :: 0 <= i < |clicks| ==> labels[i] == dateKey(clicks[i].timestamp)
  {
    seq(|clicks|, i requires 0 <= i < |clicks| => dateKey(clicks[i].timestamp))
  }

  /** The fallback code: the last six base-36 digits of the clock. */
  function TimestampFallback(now: nat): string {
    Last(Base36(now), FallbackLength)
  }

  function Pow36(k: nat): nat {
    if k == 0 then 1 else 36 * Pow36(k - 1)
  }

  lemma {:induction false} Base36Length(n: nat, k: nat)
    requires n >= Pow36(k)
    ensures |Base36(n)| > k
  {
    if k > 0 {
      assert n / 36 >= Pow36(k - 1);
      Base36Length(n / 36, k - 1);
    }
  }

  /**
   * The fallback is drawn from the alphabet and never longer than six
   * characters; from 36^5 ms after the epoch on (January 1970) it has exactly
   * six, so it passes the shortcode pattern.
   */
  lemma FallbackShape(now: nat)
    ensures |TimestampFallback(now)| <= FallbackLength && OverAlphabet(TimestampFallback(now))
    ensures now >= Pow36(5) ==> |TimestampFallback(now)| == FallbackLength && ValidateShortcode(TimestampFallback(now))
  {
    var f := TimestampFallback(now);
    var b := Base36(now);
    forall i | 0 <= i < |f| ensures f[i] in Alphabet() {
      assert f[i] == b[|b| - |f| + i];
      AlphabetIsAlnum(f[i]);
    }
    if now >= Pow36(5) {
      Base36Length(now, 5);
      GeneratedCodeIsValid(f);
    }
  }

  /** The records a sweep at `now` removes. */
  function ExpiredCodes(urls: map<string, UrlRecord>, now: int): set<string> {
    set sc | sc in urls && urls[sc].expiresAt < now
  }

  /** The invariant tying one record to its key and its click log. */
  predicate RecordConsistent(sc: string, r: UrlRecord, log: seq<Click>) {
    && r.shortcode == sc
    && r.clickCount == |log|
    && r.expiresAt == r.createdAt + r.validityMinutes * MsPerMinute
  }

  /** The store invariant on the three collections: the key sets agree and every record matches its log. */
  predicate StoreConsistent(urls: map<string, UrlRecord>, clicks: map<string, seq<Click>>, shortcodes: set<string>) {
    && urls.Keys == clicks.Keys
    && shortcodes == urls.Keys
    && forall sc :: sc in urls ==> RecordConsistent(sc, urls[sc], clicks[sc])
  }

  lemma ConsistentAfterPut(urls: map<string, UrlRecord>, clicks: map<string, seq<Click>>, shortcodes: set<string>,
                           sc: string, rec: UrlRecord, log: seq<Click>)
    requires StoreConsistent(urls, clicks, shortcodes) && RecordConsistent(sc, rec, log)
    ensures StoreConsistent(urls[sc := rec], clicks[sc := log], shortcodes + {sc})
  {
  }

  lemma ConsistentAfterRemove(urls: map<string, UrlRecord>, clicks: map<string, seq<Click>>, shortcodes: set<string>,
                              sc: string)
    requires StoreConsistent(urls, clicks, shortcodes)
    ensures StoreConsistent(urls - {sc}, clicks - {sc}, shortcodes - {sc})
  {
  }

  predicate SortedByCreatedDesc(list: seq<Listing>) {
    forall i, j :: 0 <= i < j < |list| ==> list[i].record.createdAt >= list[j].record.createdAt
  }

  function Codes(list: seq<Listing>): set<string> {
    set x | x in list :: x.record.shortcode
  }

  predicate DistinctCodes(list: seq<Listing>) {
    forall i, j :: 0 <= i < j < |list| ==> list[i].record.shortcode != list[j].record.shortcode
  }

  /** Where an entry goes in a list sorted newest first: after every entry at least as new. */
  function InsertionPoint(list: seq<Listing>, e: Listing): (p: nat)
    ensures p <= |list|
    ensures forall i :: 0 <= i < p ==> list[i].record.createdAt >= e.record.createdAt
    ensures p < |list| ==> list[p].record.createdAt < e.record.createdAt
  {
    if list == [] || list[0].record.createdAt < e.record.createdAt then 0
    else 1 + InsertionPoint(list[1..], e)
  }

  lemma InsertMembers(list: seq<Listing>, e: Listing, p: nat)
    requires p <= |list|
    ensures forall x :: x in list[..p] + [e] + list[p..] <==> x in list || x == e
  {
    assert list == list[..p] + list[p..];
  }

  /** Where each entry of the list with `e` at `p` comes from. */
  lemma InsertAt(list: seq<Listing>, e: Listing, p: nat)
    requires p <= |list|
    ensures var list' := list[..p] + [e] + list[p..];
      && |list'| == |list| + 1
      && forall k :: 0 <= k < |list'| ==> list'[k] == if k < p then list[k] else if k == p then e else list[k - 1]
  {
  }

  lemma InsertSorted(list: seq<Listing>, e: Listing)
    requires SortedByCreatedDesc(list)
    ensures var p := InsertionPoint(list, e); SortedByCreatedDesc(list[..p] + [e] + list[p..])
  {
    var p := InsertionPoint(list, e);
    var list' := list[..p] + [e] + list[p..];
    InsertAt(list, e, p);
    forall i, j | 0 <= i < j < |list'| ensures list'[i].record.createdAt >= list'[j].record.createdAt {
      if i == p && j > p + 1 {
        assert list[p].record.createdAt >= list[j - 1].record.createdAt;
      }
    }
  }

  lemma InsertDistinct(list: seq<Listing>, e: Listing, p: nat)
    requires p <= |list| && DistinctCodes(list)
    requires e.record.shortcode !in Codes(list)
    ensures DistinctCodes(list[..p] + [e] + list[p..])
  {
    var list' := list[..p] + [e] + list[p..];
    forall i, j | 0 <= i < j < |list'| ensures list'[i].record.shortcode != list'[j].record.shortcode {
      if i == p {
        assert list'[j] == list[j - 1];
        assert list[j - 1] in list;
      } else if j == p {
        assert list'[i] == list[i];
        assert list[i] in list;
      } else {
        var i' := if i < p then i else i - 1;
        var j' := if j < p then j else j - 1;
        assert list'[i] == list[i'] && list'[j] == list[j'];
      }
    }
  }

  /** The entry `getAllUrls` derives from one record. */
  function ListingFor(rec: UrlRecord, clicks: map<string, seq<Click>>, now: int): Listing {
    Listing(rec, ShortUrl(rec.shortcode),
            if rec.shortcode in clicks then clicks[rec.shortcode] else [],
            IsExpired(rec, now))
  }

  /** Every entry of `list` is the listing of the record stored under its code. */
  predicate EntriesMatch(list: seq<Listing>, urls: map<string, UrlRecord>, clicks: map<string, seq<Click>>, now: int) {
    forall x :: x in list ==> x.record.shortcode in urls && x == ListingFor(urls[x.record.shortcode], clicks, now)
  }

  /** A list with distinct codes has as many entries as codes. */
  lemma {:induction false} DistinctCodesCount(list: seq<Listing>)
    requires DistinctCodes(list)
    ensures |Codes(list)| == |list|
  {
    if list != [] {
      var rest := list[1..];
      assert list == [list[0]] + rest;
      assert DistinctCodes(rest) by {
        forall i, j | 0 <= i < j < |rest| ensures rest[i].record.shortcode != rest[j].record.shortcode {
          assert rest[i] == list[i + 1] && rest[j] == list[j + 1];
        }
      }
      DistinctCodesCount(rest);
      assert list[0].record.shortcode !in Codes(rest) by {
        forall k | 0 <= k < |rest| ensures rest[k].record.shortcode != list[0].record.shortcode {
          assert rest[k] == list[k + 1];
        }
      }
      assert Codes(list) == Codes(rest) + {list[0].record.shortcode};
    }
  }

  /** `list` holds one entry for each code of `done`, newest first, each the listing of its record. */
  predicate ListsExactly(list: seq<Listing>, done: set<string>, urls: map<string, UrlRecord>, clicks: map<string, seq<Click>>, now: int) {
    && Codes(list) == done && DistinctCodes(list)
    && EntriesMatch(list, urls, clicks, now) && SortedByCreatedDesc(list)
  }

  /** The list with `e` at its insertion point. */
  function Insert(list: seq<Listing>, e: Listing): seq<Listing> {
    var p := InsertionPoint(list, e);
    list[..p] + [e] + list[p..]
  }

  /** Inserting the listing of a not yet listed record keeps the list sorted, distinct and matching. */
  lemma InsertStep(list: seq<Listing>, done: set<string>, urls: map<string, UrlRecord>, clicks: map<string, seq<Click>>, now: int, sc: string)
    requires sc in urls && urls[sc].shortcode == sc && sc !in done
    requires ListsExactly(list, done, urls, clicks, now)
    ensures ListsExactly(Insert(list, ListingFor(urls[sc], clicks, now)), done + {sc}, urls, clicks, now)
  {
    var entry := ListingFor(urls[sc], clicks, now);
    var p := InsertionPoint(list, entry);
    InsertMembers(list, entry, p);
    InsertSorted(list, entry);
    InsertDistinct(list, entry, p);
  }

  /** The loop of `getAllUrls`: each record's listing inserted in turn at its place. */
  method ListAll(urls: map<string, UrlRecord>, clicks: map<string, seq<Click>>, now: int) returns (list: seq<Listing>)
    requires forall sc :: sc in urls ==> urls[sc].shortcode == sc
    ensures ListsExactly(list, urls.Keys, urls, clicks, now)
  {
    list := [];
    var remaining := urls.Keys;
    while remaining != {}
      invariant remaining <= urls.Keys
      invariant ListsExactly(list, urls.Keys - remaining, urls, clicks, now)
      decreases remaining
    {
      var sc :| sc in remaining;
      InsertStep(list, urls.Keys - remaining, urls, clicks, now, sc);
      list := Insert(list, ListingFor(urls[sc], clicks, now));
      assert urls.Keys - (remaining - {sc}) == (urls.Keys - remaining) + {sc};
      remaining := remaining - {sc};
    }
  }

  /**
   * The `grouped[key] = (grouped[key] || 0) + 1` loop of the two
   * `groupClicksBy*` methods: the dictionary of occurrence counts.
   */
  method GroupByKey(keys: seq<string>) returns (grouped: map<string, nat>)
    ensures grouped == Tally(keys)
    ensures SumValues(grouped) == |keys|
    ensures forall k :: k in grouped <==> k in keys
    ensures forall k :: k in grouped ==> grouped[k] == Count(keys, k)
  {
    grouped := map[];
    var i := 0;
    while i < |keys|
      invariant 0 <= i <= |keys|
      invariant grouped == Tally(keys[..i])
    {
      var key := keys[i];
      grouped := grouped[key := (if key in grouped then grouped[key] else 0) + 1];
      assert keys[..i + 1][..i] == keys[..i];
      i := i + 1;
    }
    assert keys[..i] == keys;
    TallySum(keys);
    TallyCounts(keys);
    forall k ensures Count(keys, k) > 0 <==> k in keys {
      CountMember(keys, k);
    }
  }

  /** `groupClicksBySource(clicks)`: counts per source, a click without one under "Unknown". */
  method GroupClicksBySource(clicks: seq<Click>) returns (grouped: map<string, nat>)
    ensures grouped == Tally(SourceLabels(clicks))
    ensures SumValues(grouped) == |clicks|
    ensures forall k :: k in grouped ==> grouped[k] == Count(SourceLabels(clicks), k)
    ensures forall i :: 0 <= i < |clicks| ==> SourceLabel(clicks[i]) in grouped
    ensures "" !in grouped
  {
    grouped := GroupByKey(SourceLabels(clicks));
  }

  /** `groupClicksByDate(clicks)`: counts per calendar date. */
  method GroupClicksByDate(clicks: seq<Click>, dateKey: int -> string) returns (grouped: map<string, nat>)
    ensures grouped == Tally(DateLabels(clicks, dateKey))
    ensures SumValues(grouped) == |clicks|
    ensures forall k :: k in grouped ==> grouped[k] == Count(DateLabels(clicks, dateKey), k)
    ensures forall i :: 0 <= i < |clicks| ==> dateKey(clicks[i].timestamp) in grouped
  {
    grouped := GroupByKey(DateLabels(clicks, dateKey));
  }

  class Store {
    var urls: map<string, UrlRecord>
    var clicks: map<string, seq<Click>>
    var shortcodes: set<string>
    const parseUrl: UrlParser

    /** The three key sets agree and every record is consistent with its click log. */
    ghost predicate Valid()
      reads this
    {
      StoreConsistent(urls, clicks, shortcodes)
    }

    /** The empty store `loadData` starts from when nothing is persisted. */
    constructor (parseUrl: UrlParser)
      ensures Valid()
      ensures urls == map[] && clicks == map[] && shortcodes == {}
      ensures this.parseUrl == parseUrl
    {
      urls, clicks, shortcodes := map[], map[], {};
      this.parseUrl := parseUrl;
    }

    /** `isShortcodeExists(shortcode)` */
    predicate IsShortcodeExists(shortcode: string)
      reads this
    {
      shortcode in shortcodes || shortcode in urls
    }

    /**
     * `generateUniqueShortcode(length)`: up to 1000 random draws over the
     * alphabet, each rejected when already in use, then the timestamp fallback.
     */
    method GenerateUniqueShortcode(length: nat, now: nat) returns (code: string)
      ensures (|code| == length && OverAlphabet(code) && !IsShortcodeExists(code))
              || code == TimestampFallback(now)
    {
      var attempts := 0;
      while attempts < MaxAttempts
        invariant 0 <= attempts <= MaxAttempts
      {
        var result := "";
        var i := 0;
        while i < length
          invariant 0 <= i <= length
          invariant |result| == i && OverAlphabet(result)
        {
          var d :| 0 <= d < |Alphabet()|;
          result := result + [Alphabet()[d]];
          i := i + 1;
        }
        if !IsShortcodeExists(result) {
          return result;
        }
        attempts := attempts + 1;
      }
      code := TimestampFallback(now);
    }

    /** `createShortUrl(originalUrl, customShortcode, validityMinutes)` at clock `now`. */
    method CreateShortUrl(originalUrl: string, customShortcode: Option<string>, validityMinutes: Option<int>, now: nat)
      returns (r: Result<Created, CreateError>)
      requires Valid()
      requires now <= MaxTime
      modifies this
      ensures Valid()
      ensures r.Failure? ==> urls == old(urls) && clicks == old(clicks) && shortcodes == old(shortcodes)
      ensures parseUrl(NormalizeUrl(originalUrl)).None? ==> r == Failure(InvalidUrl)
      ensures (parseUrl(NormalizeUrl(originalUrl)).Some? && HasCustom(customShortcode)
               && !ValidateShortcode(customShortcode.value)) ==> r == Failure(InvalidShortcode)
      ensures (parseUrl(NormalizeUrl(originalUrl)).Some? && HasCustom(customShortcode)
               && ValidateShortcode(customShortcode.value) && old(IsShortcodeExists(customShortcode.value)))
              ==> r == Failure(ShortcodeTaken)
      ensures (parseUrl(NormalizeUrl(originalUrl)).Some?
               && (HasCustom(customShortcode) ==>
                     ValidateShortcode(customShortcode.value) && !old(IsShortcodeExists(customShortcode.value)))
               && !InDateRange(now + Minutes(validityMinutes) * MsPerMinute))
              ==> r == Failure(InvalidTime)
      ensures r.Success? <==>
                && parseUrl(NormalizeUrl(originalUrl)).Some?
                && (HasCustom(customShortcode) ==>
                      ValidateShortcode(customShortcode.value) && !old(IsShortcodeExists(customShortcode.value)))
                && InDateRange(now + Minutes(validityMinutes) * MsPerMinute)
      ensures r.Success? ==>
                var rec := r.value.record;
                var sc := rec.shortcode;
                && rec == UrlRecord(NormalizeUrl(originalUrl), sc, now, now + Minutes(validityMinutes) * MsPerMinute,
                                    Minutes(validityMinutes), 0, true)
                && r.value.shortUrl == ShortUrl(sc)
                && (HasCustom(customShortcode) ==> sc == customShortcode.value)
                && (!HasCustom(customShortcode) ==>
                      (|sc| == GeneratedLength && OverAlphabet(sc) && sc !in old(urls))
                      || sc == TimestampFallback(now))
                && urls == old(urls)[sc := rec]
                && clicks == old(clicks)[sc := []]
                && shortcodes == old(shortcodes) + {sc}
    {
      var validation := ValidateUrl(originalUrl, parseUrl);
      if !validation.isValid {
        return Failure(InvalidUrl);
      }
      var shortcode: string;
      if HasCustom(customShortcode) {
        if !ValidateShortcode(customShortcode.value) {
          return Failure(InvalidShortcode);
        }
        if IsShortcodeExists(customShortcode.value) {
          return Failure(ShortcodeTaken);
        }
        shortcode := customShortcode.value;
      } else {
        shortcode := GenerateUniqueShortcode(GeneratedLength, now);
      }
      var minutes := Minutes(validityMinutes);
      var expiresAt := now + minutes * MsPerMinute;
      if !InDateRange(expiresAt) {
        return Failure(InvalidTime);
      }
      var rec := UrlRecord(validation.normalizedUrl, shortcode, now, expiresAt, minutes, 0, true);
      Put(shortcode, rec);
      r := Success(Created(rec, ShortUrl(shortcode)));
    }

    /** Adds a new record under `sc` with an empty click log, as `createShortUrl` does before saving. */
    method Put(sc: string, rec: UrlRecord)
      requires Valid() && RecordConsistent(sc, rec, [])
      modifies this
      ensures Valid()
      ensures urls == old(urls)[sc := rec] && clicks == old(clicks)[sc := []] && shortcodes == old(shortcodes) + {sc}
    {
      ConsistentAfterPut(urls, clicks, shortcodes, sc, rec, []);
      urls := urls[sc := rec];
      shortcodes := shortcodes + {sc};
      clicks := clicks[sc := []];
    }

    /** `getUrlByShortcode(shortcode)` at clock `now`: an expired record is marked inactive and tagged. */
    method GetUrlByShortcode(shortcode: string, now: int) returns (r: Lookup)
      requires Valid()
      modifies this
      ensures Valid()
      ensures clicks == old(clicks) && shortcodes == old(shortcodes)
      ensures shortcode !in old(urls) ==> r == NotFound && urls == old(urls)
      ensures shortcode in old(urls) && IsExpired(old(urls)[shortcode], now) ==>
                && r == Found(old(urls)[shortcode].(isActive := false), true)
                && urls == old(urls)[shortcode := r.record]
      ensures shortcode in old(urls) && !IsExpired(old(urls)[shortcode], now) ==>
                r == Found(old(urls)[shortcode], false) && urls == old(urls)
    {
      if shortcode !in urls {
        return NotFound;
      }
      var rec := urls[shortcode];
      if IsExpired(rec, now) {
        rec := rec.(isActive := false);
        ConsistentAfterPut(urls, clicks, shortcodes, shortcode, rec, clicks[shortcode]);
        assert shortcodes + {shortcode} == shortcodes;
        urls := urls[shortcode := rec];
        return Found(rec, true);
      }
      r := Found(rec, false);
    }

    /** `recordClick(shortcode)` at clock `now`: rejected for an unknown or expired code. */
    method RecordClick(shortcode: string, ctx: ClientContext, now: int) returns (ok: bool)
      requires Valid()
      modifies this
      ensures Valid()
      ensures shortcodes == old(shortcodes)
      ensures ok <==> shortcode in old(urls) && !IsExpired(old(urls)[shortcode], now)
      ensures !ok ==> urls == old(urls) && clicks == old(clicks)
      ensures ok ==>
                && clicks == old(clicks)[shortcode := old(clicks)[shortcode] + [MakeClick(ctx, now, parseUrl)]]
                && urls == old(urls)[shortcode := old(urls)[shortcode].(clickCount := old(urls)[shortcode].clickCount + 1)]
    {
      if shortcode !in urls {
        return false;
      }
      if IsExpired(urls[shortcode], now) {
        return false;
      }
      var click := MakeClick(ctx, now, parseUrl);
      ConsistentAfterPut(urls, clicks, shortcodes, shortcode,
                         urls[shortcode].(clickCount := urls[shortcode].clickCount + 1), clicks[shortcode] + [click]);
      assert shortcodes + {shortcode} == shortcodes;
      clicks := clicks[shortcode := clicks[shortcode] + [click]];
      urls := urls[shortcode := urls[shortcode].(clickCount := urls[shortcode].clickCount + 1)];
      ok := true;
    }

    /** `getAllUrls()` at clock `now`: one entry per record, newest first. */
    method GetAllUrls(now: int) returns (list: seq<Listing>)
      requires Valid()
      ensures |list| == |urls|
      ensures Codes(list) == urls.Keys && DistinctCodes(list)
      ensures EntriesMatch(list, urls, clicks, now)
      ensures SortedByCreatedDesc(list)
    {
      assert forall sc :: sc in urls ==> RecordConsistent(sc, urls[sc], clicks[sc]);
      list := ListAll(urls, clicks, now);
      DistinctCodesCount(list);
    }

    /** `getUrlStats(shortcode)` at clock `now`, with the calendar formatting given as `dateKey`. */
    method GetUrlStats(shortcode: string, now: int, dateKey: int -> string) returns (r: Option<Stats>)
      requires Valid()
      ensures r.None? <==> shortcode !in urls
      ensures r.Some? ==>
                var s := r.value;
                && s.record == urls[shortcode]
                && s.shortUrl == ShortUrl(shortcode)
                && s.clicks == clicks[shortcode]
                && s.record.clickCount == |s.clicks|
                && s.isExpired == IsExpired(urls[shortcode], now)
                && s.clicksBySource == Tally(SourceLabels(s.clicks))
                && s.clicksByDate == Tally(DateLabels(s.clicks, dateKey))
                && SumValues(s.clicksBySource) == |s.clicks|
                && SumValues(s.clicksByDate) == |s.clicks|
    {
      var log := if shortcode in clicks then clicks[shortcode] else [];
      if shortcode !in urls {
        return None;
      }
      var rec := urls[shortcode];
      var bySource := GroupClicksBySource(log);
      var byDate := GroupClicksByDate(log, dateKey);
      r := Some(Stats(rec, ShortUrl(shortcode), log, bySource, byDate, IsExpired(rec, now)));
    }

    /** `deleteUrl(shortcode)`: removes the record, its click log and its code. */
    method DeleteUrl(shortcode: string) returns (ok: bool)
      requires Valid()
      modifies this
      ensures Valid()
      ensures ok <==> shortcode in old(urls)
      ensures urls == old(urls) - {shortcode}
      ensures clicks == old(clicks) - {shortcode}
      ensures shortcodes == old(shortcodes) - {shortcode}
    {
      if shortcode in urls {
        ConsistentAfterRemove(urls, clicks, shortcodes, shortcode);
        urls := urls - {shortcode};
        clicks := clicks - {shortcode};
        shortcodes := shortcodes - {shortcode};
        return true;
      }
      assert urls - {shortcode} == urls;
      assert clicks - {shortcode} == clicks;
      ok := false;
    }

    /** `clearExpiredUrls()` at clock `now`: deletes every record whose expiry lies before `now`. */
    method ClearExpiredUrls(now: int) returns (deletedCount: nat)
      requires Valid()
      modifies this
      ensures Valid()
      ensures urls == old(urls) - ExpiredCodes(old(urls), now)
      ensures clicks == old(clicks) - ExpiredCodes(old(urls), now)
      ensures shortcodes == old(shortcodes) - ExpiredCodes(old(urls), now)
      ensures deletedCount == |ExpiredCodes(old(urls), now)|
    {
      var keys := urls.Keys;
      deletedCount := 0;
      ghost var deleted: set<string> := {};
      while keys != {}
        invariant Valid()
        invariant keys <= old(urls).Keys
        invariant deleted == set sc | sc in old(urls).Keys - keys && old(urls)[sc].expiresAt < now
        invariant urls == old(urls) - deleted
        invariant clicks == old(clicks) - deleted
        invariant shortcodes == old(shortcodes) - deleted
        invariant deletedCount == |deleted|
        decreases keys
      {
        var sc :| sc in keys;
        keys := keys - {sc};
        if urls[sc].expiresAt < now {
          var _ := DeleteUrl(sc);
          deletedCount := deletedCount + 1;
          deleted := deleted + {sc};
        }
      }
      assert deleted == ExpiredCodes(old(urls), now);
    }
  }
}
