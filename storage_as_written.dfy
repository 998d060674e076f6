/**
 * The store's dictionary reads as the source writes them. `urls`, `clicks`
 * and the `grouped` tallies are object literals, so a shortcode or a click
 * source that names a member of `Object.prototype` reads that member where
 * the store of `UrlStorage`, which only finds its own keys, reads nothing.
 *
 * Each function follows one method of the store as written. For each, one
 * lemma shows where it departs from `UrlStorage` on those names and another
 * shows that it agrees with `UrlStorage` everywhere else.
 */
module StorageAsWritten {
  import opened Wrappers
  import opened JsObject
  import opened Shortcode
  import opened Counting
  import opened UrlStorage

  // ---------------------------------------------------------------- createShortUrl

  /** `isShortcodeExists(shortcode)` as written: the code is in the set, or `urls[shortcode]` is truthy. */
  predicate IsShortcodeExistsAsWritten(urls: map<string, UrlRecord>, shortcodes: set<string>, shortcode: string) {
    shortcode in shortcodes || Truthy(Read(urls, shortcode))
  }

  /** The checks `createShortUrl` makes before it allocates a code, as written: the error it throws, or `None`. */
  function CreateCheckAsWritten(urls: map<string, UrlRecord>, shortcodes: set<string>, parseUrl: UrlParser,
                                originalUrl: string, customShortcode: Option<string>): Option<CreateError> {
    if !ValidateUrl(originalUrl, parseUrl).isValid then Some(InvalidUrl)
    else if HasCustom(customShortcode) && !ValidateShortcode(customShortcode.value) then Some(InvalidShortcode)
    else if HasCustom(customShortcode) && IsShortcodeExistsAsWritten(urls, shortcodes, customShortcode.value) then Some(ShortcodeTaken)
    else None
  }

  /**
   * Off the inherited names the checks are those of `Store.CreateShortUrl`:
   * a custom code is taken exactly when it is a stored code.
   */
  lemma CreateCheckAgrees(urls: map<string, UrlRecord>, clicks: map<string, seq<Click>>, shortcodes: set<string>,
                          parseUrl: UrlParser, originalUrl: string, customShortcode: Option<string>)
    requires StoreConsistent(urls, clicks, shortcodes)
    requires HasCustom(customShortcode) ==> customShortcode.value !in PrototypeMembers
    ensures CreateCheckAsWritten(urls, shortcodes, parseUrl, originalUrl, customShortcode) ==
              if parseUrl(NormalizeUrl(originalUrl)).None? then Some(InvalidUrl)
              else if HasCustom(customShortcode) && !ValidateShortcode(customShortcode.value) then Some(InvalidShortcode)
              else if HasCustom(customShortcode) && customShortcode.value in urls then Some(ShortcodeTaken)
              else None
  {
  }

  /**
   * A valid custom code that names an inherited member, and is not stored,
   * is reported taken as written, though no record holds it; the store of
   * `UrlStorage` finds it free.
   */
  lemma InheritedCodeTaken(urls: map<string, UrlRecord>, clicks: map<string, seq<Click>>, shortcodes: set<string>,
                           parseUrl: UrlParser, originalUrl: string, sc: string)
    requires StoreConsistent(urls, clicks, shortcodes)
    requires sc in PrototypeMembers && sc !in urls && ValidateShortcode(sc)
    requires parseUrl(NormalizeUrl(originalUrl)).Some?
    ensures CreateCheckAsWritten(urls, shortcodes, parseUrl, originalUrl, Some(sc)) == Some(ShortcodeTaken)
    ensures sc !in shortcodes && sc !in urls
  {
  }

  /** On an empty store, `createShortUrl(url, "constructor")` throws "Shortcode already exists". */
  lemma ConstructorTakenOnEmptyStore(parseUrl: UrlParser, originalUrl: string)
    requires parseUrl(NormalizeUrl(originalUrl)).Some?
    ensures CreateCheckAsWritten(map[], {}, parseUrl, originalUrl, Some("constructor")) == Some(ShortcodeTaken)
  {
    assert ValidateShortcode("constructor");
  }

  // ---------------------------------------------------------------- getUrlByShortcode and recordClick

  /**
   * What `getUrlByShortcode` returns as written. An inherited member has no
   * `expiresAt`: `new Date(undefined)` is an invalid date, the comparison
   * with it is false, and the member comes back as it is.
   */
  datatype LookupAsWritten = Null | OwnRecord(record: UrlRecord, isExpired: bool) | MemberFound

  function GetUrlByShortcodeAsWritten(urls: map<string, UrlRecord>, shortcode: string, now: int): LookupAsWritten {
    match Read(urls, shortcode)
    case Absent => Null
    case Inherited => MemberFound
    case Own(r) => if IsExpired(r, now) then OwnRecord(r.(isActive := false), true) else OwnRecord(r, false)
  }

  /** What `recordClick` does as written: it refuses, it records, or `clicks[shortcode].push` throws a `TypeError`. */
  datatype ClickAsWritten = Refused | Recorded | Throws

  /** `this.data.clicks[shortcode].push(click)`: only an own log is an array. */
  function PushAsWritten(clicks: map<string, seq<Click>>, shortcode: string): ClickAsWritten {
    if Read(clicks, shortcode).Own? then Recorded else Throws
  }

  /** `recordClick(shortcode)` as written: an inherited member is truthy and never expired, so the push is reached. */
  function RecordClickAsWritten(urls: map<string, UrlRecord>, clicks: map<string, seq<Click>>, shortcode: string, now: int): ClickAsWritten {
    match Read(urls, shortcode)
    case Absent => Refused
    case Inherited => PushAsWritten(clicks, shortcode)
    case Own(r) => if IsExpired(r, now) then Refused else PushAsWritten(clicks, shortcode)
  }

  /** Off the inherited names, lookup and click are those of `Store.GetUrlByShortcode` and `Store.RecordClick`. */
  lemma LookupAndClickAgree(urls: map<string, UrlRecord>, clicks: map<string, seq<Click>>, shortcodes: set<string>,
                            shortcode: string, now: int)
    requires StoreConsistent(urls, clicks, shortcodes)
    requires shortcode !in PrototypeMembers || shortcode in urls
    ensures GetUrlByShortcodeAsWritten(urls, shortcode, now) ==
              if shortcode !in urls then Null
              else if IsExpired(urls[shortcode], now) then OwnRecord(urls[shortcode].(isActive := false), true)
              else OwnRecord(urls[shortcode], false)
    ensures RecordClickAsWritten(urls, clicks, shortcode, now) ==
              if shortcode in urls && !IsExpired(urls[shortcode], now) then Recorded else Refused
  {
  }

  /**
   * A code that names an inherited member, and is not stored, is found as
   * written, and recording a click on it throws; the store of `UrlStorage`
   * reports it not found and records nothing.
   */
  lemma InheritedClickThrows(urls: map<string, UrlRecord>, clicks: map<string, seq<Click>>, shortcodes: set<string>,
                             shortcode: string, now: int)
    requires StoreConsistent(urls, clicks, shortcodes)
    requires shortcode in PrototypeMembers && shortcode !in urls
    ensures GetUrlByShortcodeAsWritten(urls, shortcode, now) == MemberFound
    ensures RecordClickAsWritten(urls, clicks, shortcode, now) == Throws
  {
  }

  // ---------------------------------------------------------------- getUrlStats

  /** What `getUrlStats` does as written: `null`, the statistics, or `clicks.forEach` throws a `TypeError`. */
  datatype StatsAsWritten = NoStats | StatsReturned | StatsThrow

  /** `getUrlStats(shortcode)` as written: the log `clicks[shortcode] || []` is an inherited member when the code only names one. */
  function GetUrlStatsAsWritten(urls: map<string, UrlRecord>, clicks: map<string, seq<Click>>, shortcode: string): StatsAsWritten {
    if !Truthy(Read(urls, shortcode)) then NoStats
    else if Read(clicks, shortcode).Inherited? then StatsThrow
    else StatsReturned
  }

  /** Off the inherited names, `getUrlStats` returns statistics exactly when `Store.GetUrlStats` does. */
  lemma StatsAgree(urls: map<string, UrlRecord>, clicks: map<string, seq<Click>>, shortcodes: set<string>, shortcode: string)
    requires StoreConsistent(urls, clicks, shortcodes)
    requires shortcode !in PrototypeMembers || shortcode in urls
    ensures GetUrlStatsAsWritten(urls, clicks, shortcode) == if shortcode in urls then StatsReturned else NoStats
  {
  }

  /** The statistics of a code that only names an inherited member throw as written, where `Store.GetUrlStats` returns nothing. */
  lemma InheritedStatsThrow(urls: map<string, UrlRecord>, clicks: map<string, seq<Click>>, shortcodes: set<string>, shortcode: string)
    requires StoreConsistent(urls, clicks, shortcodes)
    requires shortcode in PrototypeMembers && shortcode !in urls
    ensures GetUrlStatsAsWritten(urls, clicks, shortcode) == StatsThrow
  {
  }

  // ---------------------------------------------------------------- deleteUrl

  datatype Deletion = Deletion(result: bool, urls: map<string, UrlRecord>, clicks: map<string, seq<Click>>, shortcodes: set<string>)

  /** `deleteUrl(shortcode)` as written: `delete` of a name the object only inherits removes nothing. */
  function DeleteUrlAsWritten(urls: map<string, UrlRecord>, clicks: map<string, seq<Click>>, shortcodes: set<string>,
                              shortcode: string): Deletion {
    if Truthy(Read(urls, shortcode)) then Deletion(true, urls - {shortcode}, clicks - {shortcode}, shortcodes - {shortcode})
    else Deletion(false, urls, clicks, shortcodes)
  }

  /** Off the inherited names, deleting is what `Store.DeleteUrl` does. */
  lemma DeleteAgrees(urls: map<string, UrlRecord>, clicks: map<string, seq<Click>>, shortcodes: set<string>, shortcode: string)
    requires StoreConsistent(urls, clicks, shortcodes)
    requires shortcode !in PrototypeMembers || shortcode in urls
    ensures DeleteUrlAsWritten(urls, clicks, shortcodes, shortcode) ==
              Deletion(shortcode in urls, urls - {shortcode}, clicks - {shortcode}, shortcodes - {shortcode})
  {
    if shortcode !in urls {
      assert urls - {shortcode} == urls && clicks - {shortcode} == clicks && shortcodes - {shortcode} == shortcodes;
    }
  }

  /** Deleting a code that only names an inherited member reports success as written, though nothing is removed. */
  lemma InheritedDeleteReportsTrue(urls: map<string, UrlRecord>, clicks: map<string, seq<Click>>, shortcodes: set<string>,
                                   shortcode: string)
    requires StoreConsistent(urls, clicks, shortcodes)
    requires shortcode in PrototypeMembers && shortcode !in urls
    ensures DeleteUrlAsWritten(urls, clicks, shortcodes, shortcode) == Deletion(true, urls, clicks, shortcodes)
  {
    assert urls - {shortcode} == urls && clicks - {shortcode} == clicks && shortcodes - {shortcode} == shortcodes;
  }

  // ---------------------------------------------------------------- the groupClicksBy* tallies

  /** A value of a `grouped` tally: a count, or the string that `member + 1` concatenates. */
  datatype Tallied = Number(n: nat) | Concatenated

  /**
   * `grouped[key] = (grouped[key] || 0) + 1`, folded left to right from `{}`,
   * as written. An inherited member is truthy, so `member + 1` is a string,
   * and so is that string `+ 1`. Assigning a string to `__proto__` is
   * ignored, so that key never becomes an own property.
   */
  function TallyAsWritten(keys: seq<string>): map<string, Tallied> {
    if keys == [] then map[]
    else
      var grouped := TallyAsWritten(keys[..|keys| - 1]);
      var key := keys[|keys| - 1];
      var found: Property<Tallied> := Read(grouped, key);
      var next :=
        if found.Absent? then Number(1)
        else if found.Own? && found.value.Number? then Number(found.value.n + 1)
        else Concatenated;
      if key == "__proto__" then grouped else grouped[key := next]
  }

  /** `groupClicksBySource(clicks)` as written. */
  function GroupClicksBySourceAsWritten(clicks: seq<Click>): map<string, Tallied> {
    TallyAsWritten(SourceLabels(clicks))
  }

  /** Without inherited names among the keys, the tally as written holds the counts of `Tally`. */
  lemma {:induction false} TallyAgrees(keys: seq<string>)
    requires forall i :: 0 <= i < |keys| ==> keys[i] !in PrototypeMembers
    ensures forall k :: k in TallyAsWritten(keys) <==> k in Tally(keys)
    ensures forall k :: k in Tally(keys) ==> TallyAsWritten(keys)[k] == Number(Tally(keys)[k])
  {
    if keys != [] {
      TallyAgrees(keys[..|keys| - 1]);
    }
  }

  /** A key that names an inherited member other than `__proto__` is in the tally as written exactly when it occurs, and then holds a string, not a count. */
  lemma {:induction false} InheritedKeyConcatenated(keys: seq<string>, k: string)
    requires k in PrototypeMembers && k != "__proto__"
    ensures k in TallyAsWritten(keys) <==> k in keys
    ensures k in keys ==> TallyAsWritten(keys)[k] == Concatenated
  {
    if keys != [] {
      var front := keys[..|keys| - 1];
      assert keys == front + [keys[|keys| - 1]];
      InheritedKeyConcatenated(front, k);
    }
  }

  /** The key `__proto__` never appears in the tally as written, however often it occurs. */
  lemma {:induction false} ProtoKeyDropped(keys: seq<string>)
    ensures "__proto__" !in TallyAsWritten(keys)
  {
    if keys != [] {
      ProtoKeyDropped(keys[..|keys| - 1]);
    }
  }

  /**
   * A click whose source is "constructor" makes `groupClicksBySource` hold a
   * string under that key, where `GroupClicksBySource` counts it; a source
   * "__proto__" is not counted at all.
   */
  lemma InheritedSourceMiscounted(clicks: seq<Click>, i: nat)
    requires i < |clicks|
    ensures clicks[i].source == "constructor" ==>
              && "constructor" in GroupClicksBySourceAsWritten(clicks)
              && GroupClicksBySourceAsWritten(clicks)["constructor"] == Concatenated
              && Count(SourceLabels(clicks), "constructor") >= 1
    ensures clicks[i].source == "__proto__" ==>
              && "__proto__" !in GroupClicksBySourceAsWritten(clicks)
              && Count(SourceLabels(clicks), "__proto__") >= 1
  {
    var labels := SourceLabels(clicks);
    ProtoKeyDropped(labels);
    if clicks[i].source == "constructor" || clicks[i].source == "__proto__" {
      assert labels[i] == clicks[i].source && labels[i] in labels;
      CountMember(labels, labels[i]);
      if clicks[i].source == "constructor" {
        InheritedKeyConcatenated(labels, "constructor");
      }
    }
  }
}
