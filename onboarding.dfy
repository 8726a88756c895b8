/** `get_onboarder` of acapy_controller/onboarding.py and
    controller/onboarding.py: which self-serve registration endpoint a ledger
    genesis URL implies. */
module Onboarding {
  import opened Wrappers

  datatype Onboarder =
    | VonOnboarder(registrationUrl: string)
    | SelfServeOnboarder(registrationUrl: string, network: string)

  const IndicioTestnetGenesis :=
    "https://raw.githubusercontent.com/Indicio-tech/indicio-network/main/genesis_files/pool_transactions_testnet_genesis"
  const IndicioTestnetGenesisOld :=
    "https://raw.githubusercontent.com/Indicio-tech/indicio-network/master/genesis_files/pool_transactions_testnet_genesis"
  const IndicioDemonetGenesis :=
    "https://raw.githubusercontent.com/Indicio-tech/indicio-network/main/genesis_files/pool_transactions_demonet_genesis"
  const SelfServeNym := "https://selfserve.indiciotech.io/nym"
  const GenesisSuffix := "/genesis"

  predicate EndsWith(s: string, suffix: string) {
    |suffix| <= |s| && s[|s| - |suffix|..] == suffix
  }

  /** `pat` occurs in `s` at index `i`. */
  predicate OccursAt(s: string, pat: string, i: int) {
    0 <= i <= |s| - |pat| && s[i..i + |pat|] == pat
  }

  ghost predicate Occurs(s: string, pat: string) {
    exists i :: OccursAt(s, pat, i)
  }

  /** `str.replace(pat, rep)` for a non-empty `pat`: every occurrence, found
      left to right without overlap, is replaced. */
  function ReplaceAll(s: string, pat: string, rep: string): (r: string)
    requires pat != []
    decreases |s|
    ensures rep == pat ==> r == s
    ensures |rep| == |pat| ==> |r| == |s|
  {
    if |s| < |pat| then s
    else if s[..|pat|] == pat then rep + ReplaceAll(s[|pat|..], pat, rep)
    else [s[0]] + ReplaceAll(s[1..], pat, rep)
  }

  /** Where `pat` does not occur, nothing is replaced. */
  lemma {:induction false} ReplaceAllAbsent(s: string, pat: string, rep: string)
    requires pat != [] && !Occurs(s, pat)
    decreases |s|
    ensures ReplaceAll(s, pat, rep) == s
  {
    if |s| >= |pat| {
      assert !OccursAt(s, pat, 0);
      assert s[0..|pat|] == s[..|pat|];
      assert !Occurs(s[1..], pat) by {
        forall i | OccursAt(s[1..], pat, i) ensures OccursAt(s, pat, i + 1) {
          assert s[1..][i..i + |pat|] == s[i + 1..i + 1 + |pat|];
        }
      }
      ReplaceAllAbsent(s[1..], pat, rep);
    }
  }

  /** The first character of `pat` does not recur in it (true of "/genesis"),
      so two occurrences cannot overlap. */
  predicate Unoverlapping(pat: string) {
    pat != [] && forall k :: 0 < k < |pat| ==> pat[k] != pat[0]
  }

  /** A string lacking the second character of `pat` cannot contain `pat`. */
  lemma AbsentWithoutSecondChar(s: string, pat: string)
    requires |pat| >= 2 && pat[1] !in s
    ensures !Occurs(s, pat)
  {
    forall i | 0 <= i <= |s| - |pat| ensures !OccursAt(s, pat, i) {
      assert s[i + 1] != pat[1];
      assert s[i..i + |pat|][1] == s[i + 1];
    }
  }

  lemma ShortUnchanged(s: string, pat: string, rep: string)
    requires pat != [] && |s| < |pat|
    ensures ReplaceAll(s, pat, rep) == s
  {
  }

  /** A trailing occurrence is replaced on its own: what precedes it is
      rewritten as if it stood alone. */
  lemma {:induction false} ReplaceAllTrailing(a: string, pat: string, rep: string)
    requires Unoverlapping(pat)
    decreases |a|
    ensures ReplaceAll(a + pat, pat, rep) == ReplaceAll(a, pat, rep) + rep
  {
    var s := a + pat;
    if 0 < |a| < |pat| {
      NoEarlyMatch(a, pat);
    }
    if a == [] {
      assert s == pat;
      assert s[..|pat|] == pat;
      ShortUnchanged(s[|pat|..], pat, rep);
    } else if s[..|pat|] == pat {
      assert |a| >= |pat|;
      assert a[..|pat|] == pat;
      assert s[|pat|..] == a[|pat|..] + pat;
      ReplaceAllTrailing(a[|pat|..], pat, rep);
    } else {
      TrailingCopyStep(a, pat, rep);
    }
  }

  /** An occurrence cannot start inside `a` and end inside a trailing `pat`. */
  lemma NoEarlyMatch(a: string, pat: string)
    requires Unoverlapping(pat) && 0 < |a| < |pat|
    ensures (a + pat)[..|pat|] != pat
  {
    var s := a + pat;
    assert s[..|pat|][|a|] == s[|a|] == pat[0];
    assert pat[|a|] != pat[0];
  }

  lemma {:induction false} TrailingCopyStep(a: string, pat: string, rep: string)
    requires Unoverlapping(pat) && a != [] && (a + pat)[..|pat|] != pat
    decreases |a|, 0
    ensures ReplaceAll(a + pat, pat, rep) == ReplaceAll(a, pat, rep) + rep
  {
    var s := a + pat;
    assert s[1..] == a[1..] + pat;
    assert ReplaceAll(s, pat, rep) == [a[0]] + ReplaceAll(a[1..] + pat, pat, rep);
    ReplaceAllTrailing(a[1..], pat, rep);
    if |a| >= |pat| {
      assert a[..|pat|] == s[..|pat|];
      assert ReplaceAll(a, pat, rep) == [a[0]] + ReplaceAll(a[1..], pat, rep);
    } else {
      ShortUnchanged(a, pat, rep);
      ShortUnchanged(a[1..], pat, rep);
      assert [a[0]] + a[1..] == a;
    }
  }

  lemma GenesisUnoverlapping()
    ensures Unoverlapping(GenesisSuffix)
  {
  }

  /** `get_onboarder` in acapy_controller/onboarding.py. */
  function GetOnboarder(genesisUrl: string): (r: Option<Onboarder>)
    ensures r.Some? && r.value.VonOnboarder? <==> EndsWith(genesisUrl, GenesisSuffix)
    ensures r.Some? && r.value.SelfServeOnboarder? ==>
              r.value.registrationUrl == SelfServeNym && r.value.network in {"testnet", "demonet"}
    ensures r.None? <==>
              !EndsWith(genesisUrl, GenesisSuffix)
              && genesisUrl !in {IndicioTestnetGenesis, IndicioTestnetGenesisOld, IndicioDemonetGenesis}
  {
    if EndsWith(genesisUrl, GenesisSuffix) then Some(VonOnboarder(ReplaceAll(genesisUrl, GenesisSuffix, "/register")))
    else
      var table := map[
        IndicioTestnetGenesis := SelfServeOnboarder(SelfServeNym, "testnet"),
        IndicioTestnetGenesisOld := SelfServeOnboarder(SelfServeNym, "testnet"),
        IndicioDemonetGenesis := SelfServeOnboarder(SelfServeNym, "demonet")];
      if genesisUrl in table then Some(table[genesisUrl]) else None
  }

  /** `get_onboarder` in controller/onboarding.py: no demonet entry, and the
      replacement text lacks its leading slash. */
  function LegacyGetOnboarder(genesisUrl: string): (r: Option<Onboarder>)
    ensures r.Some? && r.value.VonOnboarder? <==> EndsWith(genesisUrl, GenesisSuffix)
    ensures r.Some? && r.value.SelfServeOnboarder? ==>
              r.value.registrationUrl == SelfServeNym && r.value.network == "testnet"
    ensures r.None? <==>
              !EndsWith(genesisUrl, GenesisSuffix) && genesisUrl !in {IndicioTestnetGenesis, IndicioTestnetGenesisOld}
  {
    if EndsWith(genesisUrl, GenesisSuffix) then Some(VonOnboarder(ReplaceAll(genesisUrl, GenesisSuffix, "register")))
    else
      var table := map[
        IndicioTestnetGenesis := SelfServeOnboarder(SelfServeNym, "testnet"),
        IndicioTestnetGenesisOld := SelfServeOnboarder(SelfServeNym, "testnet")];
      if genesisUrl in table then Some(table[genesisUrl]) else None
  }

  /** A VON genesis URL `base + "/genesis"` registers at `base + "/register"`
      (after the same replacement inside `base`); the older version yields
      `base + "register"` instead. */
  lemma VonRegistrationUrl(base: string)
    ensures GetOnboarder(base + GenesisSuffix) ==
              Some(VonOnboarder(ReplaceAll(base, GenesisSuffix, "/register") + "/register"))
    ensures LegacyGetOnboarder(base + GenesisSuffix) ==
              Some(VonOnboarder(ReplaceAll(base, GenesisSuffix, "register") + "register"))
  {
    var url := base + GenesisSuffix;
    assert url[|url| - |GenesisSuffix|..] == GenesisSuffix;
    GenesisUnoverlapping();
    ReplaceAllTrailing(base, GenesisSuffix, "/register");
    ReplaceAllTrailing(base, GenesisSuffix, "register");
  }

  /** The suffix test comes first and every other URL goes through the
      table: a URL that does not end in "/genesis" and is not a known
      genesis file has no onboarder. */
  lemma UnknownUrlHasNone(genesisUrl: string)
    requires !EndsWith(genesisUrl, GenesisSuffix)
    requires genesisUrl !in {IndicioTestnetGenesis, IndicioTestnetGenesisOld, IndicioDemonetGenesis}
    ensures GetOnboarder(genesisUrl).None? && LegacyGetOnboarder(genesisUrl).None?
  {
  }

  /** The Indicio genesis files do not end in "/genesis" ("_genesis"). */
  lemma IndicioUrlsAreNotVon()
    ensures !EndsWith(IndicioTestnetGenesis, GenesisSuffix)
    ensures !EndsWith(IndicioTestnetGenesisOld, GenesisSuffix)
    ensures !EndsWith(IndicioDemonetGenesis, GenesisSuffix)
  {
    assert IndicioTestnetGenesis[|IndicioTestnetGenesis| - 8] == '_';
    assert IndicioTestnetGenesisOld[|IndicioTestnetGenesisOld| - 8] == '_';
    assert IndicioDemonetGenesis[|IndicioDemonetGenesis| - 8] == '_';
  }

  /** Both Indicio testnet files map to the self-serve testnet endpoint in
      both versions; the demonet file maps to "demonet" only in the newer
      one. */
  lemma IndicioNetworks()
    ensures GetOnboarder(IndicioTestnetGenesis) == Some(SelfServeOnboarder(SelfServeNym, "testnet"))
    ensures GetOnboarder(IndicioTestnetGenesisOld) == Some(SelfServeOnboarder(SelfServeNym, "testnet"))
    ensures LegacyGetOnboarder(IndicioTestnetGenesis) == Some(SelfServeOnboarder(SelfServeNym, "testnet"))
    ensures LegacyGetOnboarder(IndicioTestnetGenesisOld) == Some(SelfServeOnboarder(SelfServeNym, "testnet"))
    ensures GetOnboarder(IndicioDemonetGenesis) == Some(SelfServeOnboarder(SelfServeNym, "demonet"))
    ensures LegacyGetOnboarder(IndicioDemonetGenesis).None?
  {
    IndicioUrlsAreNotVon();
    assert IndicioDemonetGenesis != IndicioTestnetGenesis;
    assert IndicioDemonetGenesis != IndicioTestnetGenesisOld;
  }

  /** For a base address without a "g" (so without "/genesis"), the older
      version drops the slash before "register" and the newer keeps it. */
  lemma PlainBaseRegisterUrls(base: string)
    requires 'g' !in base
    ensures LegacyGetOnboarder(base + GenesisSuffix) == Some(VonOnboarder(base + "register"))
    ensures GetOnboarder(base + GenesisSuffix) == Some(VonOnboarder(base + "/register"))
    ensures base + "register" != base + "/register"
  {
    VonRegistrationUrl(base);
    AbsentWithoutSecondChar(base, GenesisSuffix);
    ReplaceAllAbsent(base, GenesisSuffix, "/register");
    ReplaceAllAbsent(base, GenesisSuffix, "register");
    assert |base + "register"| != |base + "/register"|;
  }

  /** A local VON network's address. */
  const LocalVon := "http://localhost:9000"

  /** The older version's registration URL for a local VON network
      (`http://localhost:9000/genesis`) is `http://localhost:9000register`:
      the slash before "register" is lost. The newer version gives
      `http://localhost:9000/register`. */
  lemma LegacyRegisterUrlMissesSlash()
    ensures LegacyGetOnboarder(LocalVon + GenesisSuffix) == Some(VonOnboarder(LocalVon + "register"))
    ensures GetOnboarder(LocalVon + GenesisSuffix) == Some(VonOnboarder(LocalVon + "/register"))
    ensures LocalVon + "register" != LocalVon + "/register"
  {
    assert 'g' !in LocalVon;
    PlainBaseRegisterUrls(LocalVon);
  }
}
