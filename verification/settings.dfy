/** The settings-reconciliation logic of the settings page
    (src/pages/Settings.tsx): the merge of the saved source order with the
    current providers, the cleaning of the proxy URL list, the `https://`
    prefixing of a new backend URL, and the test that decides whether the
    account's settings are sent to the backend. */
module Settings {
  import opened Wrappers
  import opened Seqs

  /** Lines 248-262. `saved` is `state.sourceOrder.state`, `current` the ids of
      `getAllProviders().listSources()`: the saved ids that still exist, in
      their saved order, then the current ids that were never saved, in
      provider order. */
  function AvailableSources(saved: seq<string>, current: seq<string>): (r: seq<string>)
    // exactly the current ids appear
    ensures forall i :: 0 <= i < |r| ==> r[i] in current
    ensures forall i :: 0 <= i < |current| ==> current[i] in r
  {
    var updatedSources := Filter(saved, (ss: string) => ss in current);
    var missingSources := Filter(current, (id: string) => id !in saved);
    updatedSources + missingSources
  }

  /** Saved ids keep their relative order and all come before the new ids,
      which keep the providers' order. */
  lemma AvailableSourcesOrder(saved: seq<string>, current: seq<string>)
    ensures var r := AvailableSources(saved, current);
            exists k :: 0 <= k <= |r|
              && IsSubsequence(r[..k], saved) && (forall i :: 0 <= i < k ==> r[i] in saved)
              && IsSubsequence(r[k..], current) && (forall i :: k <= i < |r| ==> r[i] !in saved)
  {
    var kept := Filter(saved, (ss: string) => ss in current);
    var added := Filter(current, (id: string) => id !in saved);
    var r := AvailableSources(saved, current);
    FilterIsSubsequence(saved, (ss: string) => ss in current);
    FilterIsSubsequence(current, (id: string) => id !in saved);
    assert r[..|kept|] == kept && r[|kept|..] == added;
  }

  /** With no duplicates on either side, the merged order has none either and
      lists every current provider exactly once. */
  lemma AvailableSourcesIsPermutation(saved: seq<string>, current: seq<string>)
    requires NoDuplicates(saved) && NoDuplicates(current)
    ensures var r := AvailableSources(saved, current);
            NoDuplicates(r) && |r| == |current| && Elements(r) == Elements(current)
  {
    var kept := Filter(saved, (ss: string) => ss in current);
    var added := Filter(current, (id: string) => id !in saved);
    var r := AvailableSources(saved, current);
    FilterNoDuplicates(saved, (ss: string) => ss in current);
    FilterNoDuplicates(current, (id: string) => id !in saved);
    NoDuplicatesConcat(kept, added);
    assert Elements(r) == Elements(current);
    NoDuplicatesCardinality(r);
    NoDuplicatesCardinality(current);
  }

  /** An order that already lists exactly the current ids is kept as it is. */
  lemma AvailableSourcesKeepsUpToDateOrder(saved: seq<string>, current: seq<string>)
    requires forall id :: id in saved <==> id in current
    ensures AvailableSources(saved, current) == saved
  {
    FilterKeepsAll(saved, (ss: string) => ss in current);
    FilterKeepsNone(current, (id: string) => id !in saved);
  }

  /** Reconciling a reconciled order again changes nothing. */
  lemma AvailableSourcesIdempotent(saved: seq<string>, current: seq<string>)
    ensures AvailableSources(AvailableSources(saved, current), current) == AvailableSources(saved, current)
  {
    var r := AvailableSources(saved, current);
    forall id ensures id in r <==> id in current {
      if id in r {
        var i :| 0 <= i < |r| && r[i] == id;
      }
      if id in current {
        var i :| 0 <= i < |current| && current[i] == id;
      }
    }
    AvailableSourcesKeepsUpToDateOrder(r, current);
  }

  /** Lines 308 and 354: `state.proxyUrls.state?.filter((v) => v !== "") ?? null`. */
  function CleanProxyUrls(urls: Option<seq<string>>): (r: Option<seq<string>>)
    ensures r.Some? <==> urls.Some?
    ensures r.Some? ==> "" !in r.value
  {
    match urls
    case None => None
    case Some(list) =>
      var cleaned := Filter(list, (v: string) => v != "");
      assert forall i :: 0 <= i < |cleaned| ==> cleaned[i] != "";
      Some(cleaned)
  }

  /** Cleaning removes exactly the empty entries: every other entry stays, as
      often as before, in the same order. */
  lemma CleanProxyUrlsRemovesOnlyEmpty(list: seq<string>)
    ensures var r := CleanProxyUrls(Some(list)).value;
            && IsSubsequence(r, list)
            && (forall v :: v != "" ==> multiset(r)[v] == multiset(list)[v])
            && multiset(r)[""] == 0
  {
    FilterIsSubsequence(list, (v: string) => v != "");
    FilterCount(list, (v: string) => v != "");
  }

  /** Cleaning a cleaned list changes nothing. */
  lemma CleanProxyUrlsIdempotent(urls: Option<seq<string>>)
    ensures CleanProxyUrls(CleanProxyUrls(urls)) == CleanProxyUrls(urls)
  {
    if urls.Some? {
      var once := CleanProxyUrls(urls).value;
      FilterKeepsAll(once, (v: string) => v != "");
    }
  }

  const Http: string := "http://"
  const Https: string := "https://"

  predicate HasScheme(url: string)
  {
    Http <= url || Https <= url
  }

  /** Lines 371-374: a truthy URL without an `http://` or `https://` prefix
      gets `https://` put in front; anything else is left as it is. */
  function NormalizeBackendUrl(url: Option<string>): (r: Option<string>)
    ensures r.Some? <==> url.Some?
    // the URL the user typed is never altered, only prefixed
    ensures r.Some? ==> r.value == url.value || r.value == Https + url.value
    // afterwards every non-empty URL names its scheme
    ensures r.Some? && r.value != "" ==> HasScheme(r.value)
    // a URL that named its scheme, or an empty one, is untouched
    ensures url.Some? && (url.value == "" || HasScheme(url.value)) ==> r == url
  {
    if Truthy(url) && !(Http <= url.value) && !(Https <= url.value) then Some(Https + url.value) else url
  }

  /** Normalising twice is normalising once. */
  lemma NormalizeBackendUrlIdempotent(url: Option<string>)
    ensures NormalizeBackendUrl(NormalizeBackendUrl(url)) == NormalizeBackendUrl(url)
  {
  }

  /** The per-field state kept by `useSettingsState`, each with its `changed` flag. */
  datatype SettingField =
    | AppLanguage | Theme | SubtitleStyling | DeviceName | ProxyUrls | BackendUrl
    | FebboxKey | RealDebridKey | Profile | EnableThumbnails | EnableAutoplay
    | EnableDiscover | EnableFeatured | EnableDetailsModal | SourceOrder
    | EnableSourceOrder | ProxyTmdb | EnableSkipCredits | EnableImageLogos
    | EnableCarouselView | ForceCompactEpisodeView | EnableLowPerformanceMode

  /** Lines 283-304: `updateSettings` is called when an account and a truthy
      backend URL exist and one of the eighteen listed fields changed.
      `changed(f)` is `state.f.changed`. */
  predicate ShouldUpdateSettings(hasAccount: bool, backendUrl: Option<string>, changed: SettingField -> bool): (send: bool)
    // only a signed-in user with a backend sends settings
    ensures send ==> hasAccount && Truthy(backendUrl)
    // a change to the source order alone is enough
    ensures hasAccount && Truthy(backendUrl) && changed(SourceOrder) ==> send
    // nothing is sent when no field changed
    ensures (forall f :: !changed(f)) ==> !send
  {
    && hasAccount && Truthy(backendUrl)
    && (|| changed(AppLanguage)
        || changed(Theme)
        || changed(ProxyUrls)
        || changed(FebboxKey)
        || changed(RealDebridKey)
        || changed(EnableThumbnails)
        || changed(EnableAutoplay)
        || changed(EnableSkipCredits)
        || changed(EnableDiscover)
        || changed(EnableFeatured)
        || changed(EnableDetailsModal)
        || changed(EnableImageLogos)
        || changed(SourceOrder)
        || changed(EnableSourceOrder)
        || changed(ProxyTmdb)
        || changed(EnableCarouselView)
        || changed(ForceCompactEpisodeView)
        || changed(EnableLowPerformanceMode))
  }

  /** The fields the `updateSettings` payload carries: all but the subtitle
      styling, the device name, the profile and the backend URL, which are
      saved elsewhere or only locally. */
  predicate SyncedField(f: SettingField)
  {
    !(f.SubtitleStyling? || f.DeviceName? || f.Profile? || f.BackendUrl?)
  }

  /** The settings are sent exactly when signed in to a backend and some
      synced field changed. */
  lemma ShouldUpdateSettingsIffSyncedChange(hasAccount: bool, backendUrl: Option<string>, changed: SettingField -> bool)
    ensures ShouldUpdateSettings(hasAccount, backendUrl, changed) <==>
            hasAccount && Truthy(backendUrl) && exists f :: SyncedField(f) && changed(f)
  {
    if exists f :: SyncedField(f) && changed(f) {
      var f :| SyncedField(f) && changed(f);
      match f
      case AppLanguage =>
      case Theme =>
      case ProxyUrls =>
      case FebboxKey =>
      case RealDebridKey =>
      case EnableThumbnails =>
      case EnableAutoplay =>
      case EnableSkipCredits =>
      case EnableDiscover =>
      case EnableFeatured =>
      case EnableDetailsModal =>
      case EnableImageLogos =>
      case SourceOrder =>
      case EnableSourceOrder =>
      case ProxyTmdb =>
      case EnableCarouselView =>
      case ForceCompactEpisodeView =>
      case EnableLowPerformanceMode =>
    }
  }

  /** Changing only the subtitle styling, device name, profile or backend URL
      never sends the settings. */
  lemma LocalOnlyChangesAreNotSent(hasAccount: bool, backendUrl: Option<string>, changed: SettingField -> bool)
    requires forall f :: changed(f) ==> !SyncedField(f)
    ensures !ShouldUpdateSettings(hasAccount, backendUrl, changed)
  {
    ShouldUpdateSettingsIffSyncedChange(hasAccount, backendUrl, changed);
  }
}
