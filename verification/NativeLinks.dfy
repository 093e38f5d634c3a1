/**
 Links to components outside BOSH: a provider that some job consumes by name and no job of
 the manifest provides has to be offered by exactly one annotated secret.
 */
module NativeLinks {
  import opened Wrappers

  /** An entry under `provides` or `consumes`; only a map can carry an `as` or `from` name. */
  datatype Field = Name(text: string) | NotAString
  datatype Setting = Fields(fields: map<string, Field>) | NotAMap

  datatype Job = Job(provided: map<string, Setting>, consumed: map<string, Setting>)

  predicate HasName(s: Setting, key: string) {
    s.Fields? && key in s.fields && s.fields[key].Name? && s.fields[key].text != ""
  }

  function NamesIn(settings: map<string, Setting>, key: string): set<string> {
    set k | k in settings && HasName(settings[k], key) :: settings[k].fields[key].text
  }

  lemma NamesInOneMore(done: map<string, Setting>, k: string, s: Setting, key: string)
    requires k !in done
    ensures NamesIn(done[k := s], key) == NamesIn(done, key) + if HasName(s, key) then {s.fields[key].text} else {}
  {
    var more := done[k := s];
    forall n | n in NamesIn(done, key) ensures n in NamesIn(more, key) {
      var k' :| k' in done && HasName(done[k'], key) && done[k'].fields[key].text == n;
      assert more[k'] == done[k'];
    }
    if HasName(s, key) {
      assert more[k] == s;
    }
  }

  /** Every name the settings carry under the key is noted as not found yet. */
  method ListProviderNames(providerNames: map<string, bool>, settings: map<string, Setting>, key: string)
    returns (r: map<string, bool>)
    ensures r.Keys == providerNames.Keys + NamesIn(settings, key)
    ensures forall n | n in r :: r[n] == (n !in NamesIn(settings, key) && providerNames[n])
  {
    r := providerNames;
    var left := settings.Keys;
    ghost var done: map<string, Setting> := map[];
    while left != {}
      invariant left <= settings.Keys && done.Keys == settings.Keys - left
      invariant forall k | k in done :: done[k] == settings[k]
      invariant r.Keys == providerNames.Keys + NamesIn(done, key)
      invariant forall n | n in r :: r[n] == (n !in NamesIn(done, key) && providerNames[n])
    {
      var k :| k in left;
      left := left - {k};
      NamesInOneMore(done, k, settings[k], key);
      if HasName(settings[k], key) {
        r := r[settings[k].fields[key].text := false];
      }
      done := done[k := settings[k]];
    }
    assert done == settings;
  }

  function ProvidedNames(jobs: seq<Job>): set<string> {
    set i, n | 0 <= i < |jobs| && n in NamesIn(jobs[i].provided, "as") :: n
  }

  function ConsumedNames(jobs: seq<Job>): set<string> {
    set i, n | 0 <= i < |jobs| && n in NamesIn(jobs[i].consumed, "from") :: n
  }

  /** Some setting is a map that has the text `n` under the key. */
  ghost predicate Sets(settings: map<string, Setting>, key: string, n: string) {
    exists k | k in settings ::
      settings[k].Fields? && key in settings[k].fields && settings[k].fields[key] == Name(n)
  }

  /** A job consumes something `from` that name, and no job provides anything `as` that name. */
  ghost predicate IsMissing(jobs: seq<Job>, n: string) {
    && n != ""
    && (exists i | 0 <= i < |jobs| :: Sets(jobs[i].consumed, "from", n))
    && !(exists i | 0 <= i < |jobs| :: Sets(jobs[i].provided, "as", n))
  }

  lemma NamesInIff(settings: map<string, Setting>, key: string, n: string)
    ensures n in NamesIn(settings, key) <==> n != "" && Sets(settings, key, n)
  {
    if n != "" && Sets(settings, key, n) {
      var k :| k in settings && settings[k].Fields? && key in settings[k].fields && settings[k].fields[key] == Name(n);
      assert HasName(settings[k], key) && settings[k].fields[key].text == n;
    }
  }

  lemma MissingIff(jobs: seq<Job>, n: string)
    ensures n in ConsumedNames(jobs) - ProvidedNames(jobs) <==> IsMissing(jobs, n)
  {
    forall i | 0 <= i < |jobs|
      ensures n in NamesIn(jobs[i].consumed, "from") <==> n != "" && Sets(jobs[i].consumed, "from", n)
      ensures n in NamesIn(jobs[i].provided, "as") <==> n != "" && Sets(jobs[i].provided, "as", n)
    {
      NamesInIff(jobs[i].consumed, "from", n);
      NamesInIff(jobs[i].provided, "as", n);
    }
    if i :| 0 <= i < |jobs| && Sets(jobs[i].consumed, "from", n) && n != "" {
      assert n in NamesIn(jobs[i].consumed, "from");
    }
    if i :| 0 <= i < |jobs| && Sets(jobs[i].provided, "as", n) && n != "" {
      assert n in NamesIn(jobs[i].provided, "as");
    }
  }

  /** `ListMissingProviders`: consumed by name, but not provided; all still to be found. */
  method ListMissingProviders(jobs: seq<Job>) returns (missing: map<string, bool>)
    ensures forall n :: n in missing <==> IsMissing(jobs, n)
    ensures missing.Keys == ConsumedNames(jobs) - ProvidedNames(jobs)
    ensures forall n | n in missing :: !missing[n]
  {
    var provideAsNames: map<string, bool> := map[];
    missing := map[];
    for i := 0 to |jobs|
      invariant provideAsNames.Keys == ProvidedNames(jobs[..i])
      invariant missing.Keys == ConsumedNames(jobs[..i])
      invariant forall n | n in missing :: !missing[n]
    {
      provideAsNames := ListProviderNames(provideAsNames, jobs[i].provided, "as");
      missing := ListProviderNames(missing, jobs[i].consumed, "from");
      NamesOfOneMore(jobs, i);
    }
    assert jobs[..|jobs|] == jobs;
    ghost var consumed := missing.Keys;
    var left := missing.Keys;
    while left != {}
      invariant left <= missing.Keys <= consumed
      invariant forall n | n in consumed && n !in left :: n in missing <==> n !in provideAsNames
      invariant forall n | n in missing :: !missing[n]
    {
      var providerName :| providerName in left;
      left := left - {providerName};
      if providerName in provideAsNames {
        missing := missing - {providerName};
      }
    }
    forall n ensures n in missing <==> IsMissing(jobs, n) {
      MissingIff(jobs, n);
    }
  }

  lemma NamesOfOneMore(jobs: seq<Job>, i: nat)
    requires i < |jobs|
    ensures ProvidedNames(jobs[..i + 1]) == ProvidedNames(jobs[..i]) + NamesIn(jobs[i].provided, "as")
    ensures ConsumedNames(jobs[..i + 1]) == ConsumedNames(jobs[..i]) + NamesIn(jobs[i].consumed, "from")
  {
    var more, some := jobs[..i + 1], jobs[..i];
    assert more[i] == jobs[i] && forall k | 0 <= k < i :: more[k] == some[k];
    forall n | n in NamesIn(jobs[i].provided, "as") ensures n in ProvidedNames(more) {
      assert n in NamesIn(more[i].provided, "as");
    }
    forall n | n in NamesIn(jobs[i].consumed, "from") ensures n in ConsumedNames(more) {
      assert n in NamesIn(more[i].consumed, "from");
    }
    forall n | n in ProvidedNames(some) ensures n in ProvidedNames(more) {
      var k :| 0 <= k < |some| && n in NamesIn(some[k].provided, "as");
      assert n in NamesIn(more[k].provided, "as");
    }
    forall n | n in ConsumedNames(some) ensures n in ConsumedNames(more) {
      var k :| 0 <= k < |some| && n in NamesIn(some[k].consumed, "from");
      assert n in NamesIn(more[k].consumed, "from");
    }
  }

  // ---------------------------------------------------------------- secrets

  /** `link` is the parsed link annotation; a secret without one is no link secret. */
  datatype LinkProvider = LinkProvider(name: string, providerType: string)
  datatype Secret = Secret(name: string, link: Option<Result<LinkProvider>>)
  datatype LinkInfo = LinkInfo(secretName: string, providerName: string, providerType: string)

  predicate Parses(s: Secret) {
    s.link.Some? ==> s.link.value.Ok?
  }

  predicate Offers(s: Secret, provider: string) {
    s.link.Some? && s.link.value.Ok? && s.link.value.value.name == provider
  }

  function OfferCount(secrets: seq<Secret>, provider: string): nat {
    if secrets == [] then 0
    else OfferCount(secrets[..|secrets| - 1], provider) + if Offers(secrets[|secrets| - 1], provider) then 1 else 0
  }

  /** The link infos of the secrets that offer one of the wanted providers, in the order of the secrets. */
  function InfosFor(secrets: seq<Secret>, wanted: set<string>): seq<LinkInfo> {
    if secrets == [] then []
    else
      var s := secrets[|secrets| - 1];
      InfosFor(secrets[..|secrets| - 1], wanted) +
      if s.link.Some? && s.link.value.Ok? && s.link.value.value.name in wanted
      then [LinkInfo(s.name, s.link.value.value.name, s.link.value.value.providerType)] else []
  }

  function TypesOf(infos: seq<LinkInfo>): map<string, string> {
    if infos == [] then map[]
    else
      var i := infos[|infos| - 1];
      if i.providerType == "" then TypesOf(infos[..|infos| - 1])
      else TypesOf(infos[..|infos| - 1])[i.providerName := i.providerType]
  }

  ghost predicate ExactlyOneEach(secrets: seq<Secret>, wanted: set<string>) {
    forall n | n in wanted :: OfferCount(secrets, n) == 1
  }

  ghost predicate AllParse(secrets: seq<Secret>) {
    forall i | 0 <= i < |secrets| :: Parses(secrets[i])
  }

  lemma {:induction false} OfferCountGrows(secrets: seq<Secret>, k: nat, provider: string)
    requires k <= |secrets|
    ensures OfferCount(secrets[..k], provider) <= OfferCount(secrets, provider)
    decreases |secrets|
  {
    if k == |secrets| {
      assert secrets[..k] == secrets;
    } else {
      OfferCountGrows(secrets[..|secrets| - 1], k, provider);
      assert secrets[..|secrets| - 1][..k] == secrets[..k];
    }
  }

  /** Where the scan stands after the secrets `done`: which providers are found, and the results so far. */
  ghost predicate Scanned(done: seq<Secret>, wanted: set<string>, found: map<string, bool>,
                          infos: seq<LinkInfo>, types: map<string, string>)
  {
    && AllParse(done) && found.Keys == wanted
    && (forall n | n in wanted :: OfferCount(done, n) == if found[n] then 1 else 0)
    && infos == InfosFor(done, wanted) && types == TypesOf(infos)
  }

  lemma ScanSkips(done: seq<Secret>, wanted: set<string>, found: map<string, bool>,
                  infos: seq<LinkInfo>, types: map<string, string>, s: Secret)
    requires Scanned(done, wanted, found, infos, types)
    requires Parses(s) && forall n | n in wanted :: !Offers(s, n)
    ensures Scanned(done + [s], wanted, found, infos, types)
  {
    assert (done + [s])[..|done|] == done;
  }

  lemma ScanFinds(done: seq<Secret>, wanted: set<string>, found: map<string, bool>,
                  infos: seq<LinkInfo>, types: map<string, string>, s: Secret)
    requires Scanned(done, wanted, found, infos, types)
    requires s.link.Some? && s.link.value.Ok? && s.link.value.value.name in wanted && !found[s.link.value.value.name]
    ensures var LinkProvider(name, t) := s.link.value.value;
            Scanned(done + [s], wanted, found[name := true], infos + [LinkInfo(s.name, name, t)],
                    if t == "" then types else types[name := t])
  {
    assert (done + [s])[..|done|] == done;
    var LinkProvider(name, t) := s.link.value.value;
    assert (infos + [LinkInfo(s.name, name, t)])[..|infos|] == infos;
  }

  lemma ScanRepeats(secrets: seq<Secret>, i: nat, wanted: set<string>, found: map<string, bool>,
                    infos: seq<LinkInfo>, types: map<string, string>, n: string)
    requires i < |secrets| && Scanned(secrets[..i], wanted, found, infos, types)
    requires n in wanted && Offers(secrets[i], n) && found[n]
    ensures !ExactlyOneEach(secrets, wanted)
  {
    assert secrets[..i + 1][..i] == secrets[..i];
    OfferCountGrows(secrets, i + 1, n);
  }

  /**
   The secret stage of `nativeQuarksLinks`: it succeeds if and only if every link annotation
   parses and every missing provider is offered by exactly one secret.
   */
  method FindSecrets(secrets: seq<Secret>, missing: map<string, bool>)
    returns (r: Result<(seq<LinkInfo>, map<string, string>)>)
    requires forall n | n in missing :: !missing[n]
    ensures r.Ok? <==> AllParse(secrets) && ExactlyOneEach(secrets, missing.Keys)
    ensures r.Ok? ==> r.value.0 == InfosFor(secrets, missing.Keys) && r.value.1 == TypesOf(r.value.0)
  {
    var linkInfos: seq<LinkInfo> := [];
    var quarksLinks: map<string, string> := map[];
    var missingProviders := missing;
    for i := 0 to |secrets|
      invariant Scanned(secrets[..i], missing.Keys, missingProviders, linkInfos, quarksLinks)
    {
      var s := secrets[i];
      ghost var done := secrets[..i];
      assert secrets[..i + 1] == done + [s];
      if s.link.None? {
        ScanSkips(done, missing.Keys, missingProviders, linkInfos, quarksLinks, s);
      } else {
        if s.link.value.Err? { return Err("failed to parse link annotation"); }
        var linkProvider := s.link.value.value;
        if linkProvider.name in missingProviders {
          if missingProviders[linkProvider.name] {
            ScanRepeats(secrets, i, missing.Keys, missingProviders, linkInfos, quarksLinks, linkProvider.name);
            return Err("duplicated secrets of provider");
          }
          ScanFinds(done, missing.Keys, missingProviders, linkInfos, quarksLinks, s);
          linkInfos := linkInfos + [LinkInfo(s.name, linkProvider.name, linkProvider.providerType)];
          if linkProvider.providerType != "" {
            quarksLinks := quarksLinks[linkProvider.name := linkProvider.providerType];
          }
          missingProviders := missingProviders[linkProvider.name := true];
        } else {
          ScanSkips(done, missing.Keys, missingProviders, linkInfos, quarksLinks, s);
        }
      }
    }
    assert secrets[..|secrets|] == secrets;
    var left := missingProviders.Keys;
    while left != {}
      invariant left <= missingProviders.Keys
      invariant forall n | n in missingProviders && n !in left :: missingProviders[n]
    {
      var key :| key in left;
      if !missingProviders[key] {
        assert OfferCount(secrets, key) == 0;
        return Err("missing link secrets for providers");
      }
      left := left - {key};
    }
    return Ok((linkInfos, quarksLinks));
  }

  // ---------------------------------------------------------------- the infos are in bijection with the providers

  ghost predicate HasInfo(infos: seq<LinkInfo>, n: string) {
    exists i | 0 <= i < |infos| :: infos[i].providerName == n
  }

  lemma HasInfoIn(some: seq<LinkInfo>, more: seq<LinkInfo>, n: string)
    ensures HasInfo(some + more, n) <==> HasInfo(some, n) || HasInfo(more, n)
  {
    var all := some + more;
    if i :| 0 <= i < |some| && some[i].providerName == n {
      assert all[i] == some[i];
    }
    if i :| 0 <= i < |more| && more[i].providerName == n {
      assert all[|some| + i] == more[i];
    }
  }

  lemma {:induction false} InfosHold(secrets: seq<Secret>, wanted: set<string>, n: string)
    requires n in wanted
    ensures HasInfo(InfosFor(secrets, wanted), n) <==> OfferCount(secrets, n) > 0
    decreases |secrets|
  {
    if secrets == [] {
    } else {
      var before, s := secrets[..|secrets| - 1], secrets[|secrets| - 1];
      var all, some := InfosFor(secrets, wanted), InfosFor(before, wanted);
      InfosHold(before, wanted, n);
      assert all == some + all[|some|..];
      HasInfoIn(some, all[|some|..], n);
      if Offers(s, n) {
        assert all[|some|..][0].providerName == n;
      }
    }
  }

  /** The info holds the secret's name, and the name and type of the provider in its annotation. */
  ghost predicate TakenFrom(info: LinkInfo, s: Secret) {
    info.secretName == s.name && s.link == Some(Ok(LinkProvider(info.providerName, info.providerType)))
  }

  lemma {:induction false} InfosAreWanted(secrets: seq<Secret>, wanted: set<string>, i: nat)
    requires i < |InfosFor(secrets, wanted)|
    ensures InfosFor(secrets, wanted)[i].providerName in wanted
    ensures exists k | 0 <= k < |secrets| :: TakenFrom(InfosFor(secrets, wanted)[i], secrets[k])
    decreases |secrets|
  {
    var before, n := secrets[..|secrets| - 1], |secrets| - 1;
    if i < |InfosFor(before, wanted)| {
      InfosAreWanted(before, wanted, i);
      var k :| 0 <= k < |before| && TakenFrom(InfosFor(before, wanted)[i], before[k]);
      assert TakenFrom(InfosFor(secrets, wanted)[i], secrets[k]);
    } else {
      assert TakenFrom(InfosFor(secrets, wanted)[i], secrets[n]);
    }
  }

  lemma {:induction false} InfosAreDistinct(secrets: seq<Secret>, wanted: set<string>, i: nat, j: nat)
    requires AtMostOneEach(secrets, wanted) && i < j < |InfosFor(secrets, wanted)|
    ensures InfosFor(secrets, wanted)[i].providerName != InfosFor(secrets, wanted)[j].providerName
    decreases |secrets|
  {
    var before, s := secrets[..|secrets| - 1], secrets[|secrets| - 1];
    var some := InfosFor(before, wanted);
    if j < |some| {
      InfosAreDistinct(before, wanted, i, j);
    } else {
      var n := s.link.value.value.name;
      InfosHold(before, wanted, n);
      assert InfosFor(secrets, wanted)[i] == some[i];
      assert OfferCount(secrets, n) == OfferCount(before, n) + 1;
    }
  }

  ghost predicate AtMostOneEach(secrets: seq<Secret>, wanted: set<string>) {
    forall n | n in wanted :: OfferCount(secrets, n) <= 1
  }

  /** The annotation of the secret names the provider. */
  ghost predicate NamesProvider(s: Secret, n: string) {
    exists t :: s.link == Some(Ok(LinkProvider(n, t)))
  }

  ghost predicate NamedOnlyAt(secrets: seq<Secret>, n: string, k: int) {
    && 0 <= k < |secrets| && NamesProvider(secrets[k], n)
    && forall j | 0 <= j < |secrets| && j != k :: !NamesProvider(secrets[j], n)
  }

  /** One secret names the provider, and no other one does. */
  ghost predicate NamedOnce(secrets: seq<Secret>, n: string) {
    exists k :: NamedOnlyAt(secrets, n, k)
  }

  lemma OffersIff(s: Secret, n: string)
    ensures Offers(s, n) <==> NamesProvider(s, n)
  {
    if Offers(s, n) {
      assert s.link == Some(Ok(LinkProvider(n, s.link.value.value.providerType)));
    }
  }

  lemma {:induction false} NotNamed(secrets: seq<Secret>, n: string)
    ensures OfferCount(secrets, n) == 0 <==> NotNamedIn(secrets, n)
    decreases |secrets|
  {
    if secrets == [] {
    } else {
      var before := secrets[..|secrets| - 1];
      NotNamed(before, n);
      OffersIff(secrets[|secrets| - 1], n);
      assert forall k | 0 <= k < |before| :: before[k] == secrets[k];
    }
  }

  ghost predicate NotNamedIn(secrets: seq<Secret>, n: string) {
    forall k | 0 <= k < |secrets| :: !NamesProvider(secrets[k], n)
  }

  lemma NamedOnceOneMore(before: seq<Secret>, last: Secret, n: string)
    ensures NamedOnce(before + [last], n) <==>
            if NamesProvider(last, n) then NotNamedIn(before, n) else NamedOnce(before, n)
  {
    var all, m := before + [last], |before|;
    assert all[m] == last && forall k | 0 <= k < m :: all[k] == before[k];
    if k :| NamedOnlyAt(all, n, k) {
      if k < m {
        assert NamedOnlyAt(before, n, k) && !NamesProvider(all[m], n);
      } else {
        assert forall j | 0 <= j < m :: !NamesProvider(all[j], n);
      }
    }
    if NamesProvider(last, n) && NotNamedIn(before, n) {
      assert NamedOnlyAt(all, n, m);
    }
    if !NamesProvider(last, n) && NamedOnce(before, n) {
      var k :| NamedOnlyAt(before, n, k);
      assert NamedOnlyAt(all, n, k);
    }
  }

  lemma {:induction false} NamedOnceIff(secrets: seq<Secret>, n: string)
    ensures OfferCount(secrets, n) == 1 <==> NamedOnce(secrets, n)
    decreases |secrets|
  {
    if secrets == [] {
    } else {
      var before, last := secrets[..|secrets| - 1], secrets[|secrets| - 1];
      NamedOnceIff(before, n);
      NotNamed(before, n);
      OffersIff(last, n);
      assert secrets == before + [last];
      NamedOnceOneMore(before, last, n);
    }
  }

  /** On success the link infos are in bijection with the missing providers, each backed by a secret that offers it. */
  lemma InfosAreABijection(secrets: seq<Secret>, wanted: set<string>)
    requires ExactlyOneEach(secrets, wanted)
    ensures var infos := InfosFor(secrets, wanted);
            && (forall n | n in wanted :: exists i | 0 <= i < |infos| :: infos[i].providerName == n)
            && (forall i | 0 <= i < |infos| :: infos[i].providerName in wanted)
            && (forall i, j | 0 <= i < j < |infos| :: infos[i].providerName != infos[j].providerName)
            && (forall i | 0 <= i < |infos| :: exists k | 0 <= k < |secrets| :: TakenFrom(infos[i], secrets[k]))
  {
    var infos := InfosFor(secrets, wanted);
    forall n | n in wanted ensures exists i | 0 <= i < |infos| :: infos[i].providerName == n {
      InfosHold(secrets, wanted, n);
    }
    forall i | 0 <= i < |infos|
      ensures infos[i].providerName in wanted
      ensures exists k | 0 <= k < |secrets| :: TakenFrom(infos[i], secrets[k])
    {
      InfosAreWanted(secrets, wanted, i);
    }
    forall i, j | 0 <= i < j < |infos| ensures infos[i].providerName != infos[j].providerName {
      InfosAreDistinct(secrets, wanted, i, j);
    }
  }

  /** With one info for each provider, the types are those of the infos that have one. */
  lemma {:induction false} TypesIff(infos: seq<LinkInfo>, n: string, t: string)
    requires forall i, j | 0 <= i < j < |infos| :: infos[i].providerName != infos[j].providerName
    ensures n in TypesOf(infos) && TypesOf(infos)[n] == t <==>
            t != "" && exists i | 0 <= i < |infos| :: infos[i].providerName == n && infos[i].providerType == t
    decreases |infos|
  {
    if infos == [] {
    } else {
      var before, m := infos[..|infos| - 1], |infos| - 1;
      TypesIff(before, n, t);
      assert forall i | 0 <= i < m :: before[i] == infos[i];
      if i :| 0 <= i < m && before[i].providerName == n && before[i].providerType == t {
        assert infos[i].providerName == n && infos[i].providerType == t;
      }
    }
  }

  /** `linkInfoService.List` up to the services: nothing to look for if no provider is missing. */
  method List(jobs: seq<Job>, secrets: seq<Secret>) returns (r: Result<(seq<LinkInfo>, map<string, string>)>)
    ensures r.Ok? <==>
            || (forall n :: !IsMissing(jobs, n))
            || ((forall i | 0 <= i < |secrets| && secrets[i].link.Some? :: secrets[i].link.value.Ok?) &&
                (forall n | IsMissing(jobs, n) :: NamedOnce(secrets, n)))
    ensures var wanted := ConsumedNames(jobs) - ProvidedNames(jobs);
            && (r.Ok? && wanted != {} ==> ExactlyOneEach(secrets, wanted))
            && (r.Ok? ==> r.value.0 == if wanted == {} then [] else InfosFor(secrets, wanted))
            && (r.Ok? ==> r.value.1 == TypesOf(r.value.0))
  {
    var missing := ListMissingProviders(jobs);
    if |missing| == 0 {
      assert missing.Keys == {};
      return Ok(([], map[]));
    }
    assert missing.Keys != {};
    r := FindSecrets(secrets, missing);
    forall n | n in missing ensures OfferCount(secrets, n) == 1 <==> NamedOnce(secrets, n) {
      NamedOnceIff(secrets, n);
    }
  }
}
