/** Which tentacle packages are to be installed and which are to be removed. What the package manager
    and the account answer are parameters. */
module PackageReconciliation {
  import opened VersionedUrls

  datatype Account = Account(loggedIn: bool, savedUrls: seq<string>, wasConnected: bool, fetched: bool)

  /** What is compared: the account, the urls of the environment variable, the bot's version. */
  datatype Setting = Setting(account: Account, envUrls: seq<string>, version: string)

  /** The installed packages of a url and the tentacles of a package, as the package manager lists them. */
  datatype Manager = Manager(packages: map<string, seq<string>>, tentacles: map<string, seq<string>>)

  function Lookup(m: map<string, seq<string>>, key: string): seq<string> {
    if key in m then m[key] else []
  }

  function AdaptedAll(urls: seq<string>, version: string): (r: seq<string>)
    ensures forall x :: x in r <==> exists u :: u in urls && Adapted(u, version) == x
  {
    if urls == [] then [] else
      assert urls == [urls[0]] + urls[1..];
      [Adapted(urls[0], version)] + AdaptedAll(urls[1..], version)
  }

  function CommunityUrls(urls: seq<string>): (r: seq<string>)
    ensures forall x :: x in r <==> x in urls && IsCommunityUrl(x)
  {
    if urls == [] then []
    else (if IsCommunityUrl(urls[0]) then [urls[0]] else []) + CommunityUrls(urls[1..])
  }

  function NotIn(urls: seq<string>, excluded: seq<string>): (r: seq<string>)
    ensures forall x :: x in r <==> x in urls && x !in excluded
  {
    if urls == [] then []
    else (if urls[0] !in excluded then [urls[0]] else []) + NotIn(urls[1..], excluded)
  }

  function InstalledCommunity(installed: seq<string>, version: string): seq<string> {
    AdaptedAll(CommunityUrls(installed), version)
  }

  function Additional(s: Setting): seq<string> {
    if s.account.loggedIn then AdaptedAll(s.account.savedUrls, s.version) else []
  }

  function ToKeep(s: Setting): seq<string> {
    Additional(s) + AdaptedAll(s.envUrls, s.version) + s.envUrls
  }

  predicate CanRemove(s: Setting) {
    !(s.account.wasConnected && !s.account.loggedIn) && s.account.fetched
  }

  function ToRemove(s: Setting, installed: seq<string>): seq<string> {
    if CanRemove(s) then NotIn(InstalledCommunity(installed, s.version), ToKeep(s)) else []
  }

  function ToInstall(s: Setting, installed: seq<string>): seq<string> {
    NotIn(Additional(s), InstalledCommunity(installed, s.version))
  }

  /** The tentacles of all packages of the urls, in the order they are collected. */
  function TentaclesOfPackages(m: Manager, packages: seq<string>): seq<string> {
    if packages == [] then []
    else TentaclesOfPackages(m, packages[..|packages| - 1]) + Lookup(m.tentacles, packages[|packages| - 1])
  }

  function TentaclesOfUrls(m: Manager, urls: seq<string>): seq<string> {
    if urls == [] then []
    else TentaclesOfUrls(m, urls[..|urls| - 1]) + TentaclesOfPackages(m, Lookup(m.packages, urls[|urls| - 1]))
  }

  ghost predicate HoldsTentacle(m: Manager, url: string, package: string, tentacle: string) {
    url in m.packages && package in m.packages[url] && package in m.tentacles && tentacle in m.tentacles[package]
  }

  lemma {:induction false} PackageTentacle(m: Manager, packages: seq<string>, t: string)
    ensures t in TentaclesOfPackages(m, packages) <==>
      exists p :: p in packages && t in Lookup(m.tentacles, p)
  {
    if packages != [] {
      var n := |packages| - 1;
      PackageTentacle(m, packages[..n], t);
      assert packages == packages[..n] + [packages[n]];
    }
  }

  lemma {:induction false} UrlTentacle(m: Manager, urls: seq<string>, t: string)
    ensures t in TentaclesOfUrls(m, urls) <==> exists u, p :: u in urls && HoldsTentacle(m, u, p, t)
  {
    if urls != [] {
      var n := |urls| - 1;
      UrlTentacle(m, urls[..n], t);
      PackageTentacle(m, Lookup(m.packages, urls[n]), t);
      assert urls == urls[..n] + [urls[n]];
      if t in TentaclesOfPackages(m, Lookup(m.packages, urls[n])) {
        var p :| p in Lookup(m.packages, urls[n]) && t in Lookup(m.tentacles, p);
        assert HoldsTentacle(m, urls[n], p, t);
      }
    }
  }

  /** The accumulating loop over the urls to remove. */
  method TentaclesToRemove(m: Manager, urls: seq<string>) returns (tentacles: seq<string>)
    ensures tentacles == TentaclesOfUrls(m, urls)
  {
    tentacles := [];
    for i := 0 to |urls|
      invariant tentacles == TentaclesOfUrls(m, urls[..i])
    {
      var packages := Lookup(m.packages, urls[i]);
      ghost var before := tentacles;
      for j := 0 to |packages|
        invariant tentacles == before + TentaclesOfPackages(m, packages[..j])
      {
        assert packages[..j + 1][..j] == packages[..j];
        tentacles := tentacles + Lookup(m.tentacles, packages[j]);
      }
      assert packages[..|packages|] == packages;
      assert urls[..i + 1][..i] == urls[..i];
    }
    assert urls[..|urls|] == urls;
  }

  /** `get_to_install_and_remove_tentacles` */
  method GetToInstallAndRemoveTentacles(s: Setting, installed: seq<string>, m: Manager)
    returns (toInstall: set<string>, toRemove: set<string>, forceRefresh: bool)
    ensures toInstall == set u | u in ToInstall(s, installed)
    ensures toRemove == set t | t in TentaclesOfUrls(m, ToRemove(s, installed))
    ensures forceRefresh <==> ToRemove(s, installed) != [] && toRemove == {}
  {
    var community := InstalledCommunity(installed, s.version);
    var additional := Additional(s);
    var toKeep := ToKeep(s);
    var canRemove := true;
    if s.account.wasConnected && !s.account.loggedIn {
      canRemove := false;
    }
    if !s.account.fetched {
      canRemove := false;
    }
    var toRemoveUrls := if canRemove then NotIn(community, toKeep) else [];
    var tentacles := TentaclesToRemove(m, toRemoveUrls);
    forceRefresh := toRemoveUrls != [] && tentacles == [];
    var toInstallUrls := NotIn(additional, community);
    toInstall := set u | u in toInstallUrls;
    toRemove := set t | t in tentacles;
    assert tentacles != [] ==> tentacles[0] in toRemove;
  }

  /** What is installed once the answer has been carried out: an installed community url goes when its
      adapted form is to be removed, and every url to install is registered. */
  ghost predicate Applied(s: Setting, before: seq<string>, after: seq<string>) {
    forall u :: u in after <==>
      (u in before && !(IsCommunityUrl(u) && Adapted(u, s.version) in ToRemove(s, before))) ||
      u in ToInstall(s, before)
  }

  lemma InstalledUrl(installed: seq<string>, version: string, u: string)
    requires u in installed && IsCommunityUrl(u)
    ensures Adapted(u, version) in InstalledCommunity(installed, version)
  {
    assert u in CommunityUrls(installed);
  }

  lemma InstalledIsCommunity(installed: seq<string>, version: string, x: string) returns (u: string)
    requires x in InstalledCommunity(installed, version)
    ensures u in installed && IsCommunityUrl(u) && Adapted(u, version) == x && IsCommunityUrl(x)
  {
    u :| u in CommunityUrls(installed) && Adapted(u, version) == x;
    AdaptedStaysCommunity(u, version);
  }

  lemma AdditionalIsAdapted(s: Setting, x: string)
    requires ProperVersion(s.version) && x in Additional(s)
    ensures Adapted(x, s.version) == x
  {
    var u :| u in s.account.savedUrls && Adapted(u, s.version) == x;
    AdaptedOnce(u, s.version);
  }

  /** Neither the account (when logged in) nor the environment asks for the url, packages were fetched, and
      the account is not a known one that is logged out. */
  ghost predicate IsUnwanted(s: Setting, x: string) {
    s.account.fetched && (s.account.loggedIn || !s.account.wasConnected) &&
    !(s.account.loggedIn && exists saved :: saved in s.account.savedUrls && Adapted(saved, s.version) == x) &&
    x !in s.envUrls && !exists e :: e in s.envUrls && Adapted(e, s.version) == x
  }

  lemma RemovedExactly(s: Setting, installed: seq<string>, x: string)
    ensures x in ToRemove(s, installed) <==>
      IsUnwanted(s, x) && exists u :: u in installed && IsCommunityUrl(u) && Adapted(u, s.version) == x
  {
    InstalledExactly(installed, s.version, x);
  }

  lemma InstalledExactly(installed: seq<string>, version: string, x: string)
    ensures x in InstalledCommunity(installed, version) <==>
      exists u :: u in installed && IsCommunityUrl(u) && Adapted(u, version) == x
  {
    if x in InstalledCommunity(installed, version) {
      var u := InstalledIsCommunity(installed, version, x);
    } else {
      forall u | u in installed && IsCommunityUrl(u)
        ensures Adapted(u, version) != x
      {
        InstalledUrl(installed, version, u);
      }
    }
  }

  /** What is installed: what a logged in account has saved and is not installed; never what is removed. */
  lemma AddedExactly(s: Setting, installed: seq<string>, x: string)
    ensures x in ToInstall(s, installed) <==>
      s.account.loggedIn && (exists saved :: saved in s.account.savedUrls && Adapted(saved, s.version) == x) &&
      !exists u :: u in installed && IsCommunityUrl(u) && Adapted(u, s.version) == x
    ensures !(x in ToInstall(s, installed) && x in ToRemove(s, installed))
  {
    InstalledExactly(installed, s.version, x);
  }

  /** The package manager lists the tentacle for a package of an installed community url that is not
      wanted any more. */
  ghost predicate IsObsolete(s: Setting, installed: seq<string>, m: Manager, u: string, p: string, t: string) {
    u in installed && IsCommunityUrl(u) && IsUnwanted(s, Adapted(u, s.version)) &&
    HoldsTentacle(m, Adapted(u, s.version), p, t)
  }

  /** The tentacles uninstalled are exactly the obsolete ones. */
  lemma RemovedTentacles(s: Setting, installed: seq<string>, m: Manager, t: string)
    ensures t in TentaclesOfUrls(m, ToRemove(s, installed)) <==> exists u, p :: IsObsolete(s, installed, m, u, p, t)
  {
    var urls := ToRemove(s, installed);
    UrlTentacle(m, urls, t);
    if t in TentaclesOfUrls(m, urls) {
      var x, p :| x in urls && HoldsTentacle(m, x, p, t);
      RemovedExactly(s, installed, x);
      var u :| u in installed && IsCommunityUrl(u) && Adapted(u, s.version) == x;
      assert IsObsolete(s, installed, m, u, p, t);
    }
    if u, p :| IsObsolete(s, installed, m, u, p, t) {
      RemovedExactly(s, installed, Adapted(u, s.version));
    }
  }

  /** The community packages installed afterwards: of those before, the kept ones (all of them when nothing
      can be removed), and the account's. */
  lemma InstalledAfterwards(s: Setting, before: seq<string>, after: seq<string>, x: string)
    requires ProperVersion(s.version) && Applied(s, before, after)
    ensures x in InstalledCommunity(after, s.version) <==>
      (x in InstalledCommunity(before, s.version) && (CanRemove(s) ==> x in ToKeep(s))) ||
      (x in Additional(s) && IsCommunityUrl(x))
  {
    if x in InstalledCommunity(after, s.version) {
      var u := InstalledIsCommunity(after, s.version, x);
      if u in before {
        InstalledUrl(before, s.version, u);
      }
      if u in ToInstall(s, before) {
        AdditionalIsAdapted(s, u);
      }
    }
    if x in InstalledCommunity(before, s.version) && x !in ToRemove(s, before) {
      var u := InstalledIsCommunity(before, s.version, x);
      InstalledUrl(after, s.version, u);
    }
    if x in Additional(s) && IsCommunityUrl(x) && x in ToInstall(s, before) {
      AdditionalIsAdapted(s, x);
      InstalledUrl(after, s.version, x);
    }
  }

  lemma NothingMoreToRemove(s: Setting, before: seq<string>, after: seq<string>)
    requires ProperVersion(s.version) && Applied(s, before, after)
    ensures ToRemove(s, after) == []
  {
    if ToRemove(s, after) != [] {
      InstalledAfterwards(s, before, after, ToRemove(s, after)[0]);
    }
  }

  lemma InstalledAgain(s: Setting, before: seq<string>, after: seq<string>, x: string)
    requires ProperVersion(s.version) && Applied(s, before, after)
    ensures x in ToInstall(s, after) <==> x in Additional(s) && !IsCommunityUrl(x)
  {
    InstalledAfterwards(s, before, after, x);
    if x in InstalledCommunity(after, s.version) {
      var u := InstalledIsCommunity(after, s.version, x);
    }
  }

  /** A second computation removes nothing more, and installs again exactly the account's urls that are
      not community urls: it asks for nothing if and only if all of them are. */
  lemma SecondComputation(s: Setting, before: seq<string>, after: seq<string>)
    requires ProperVersion(s.version) && Applied(s, before, after)
    ensures ToRemove(s, after) == []
    ensures forall x :: x in ToInstall(s, after) <==> x in Additional(s) && !IsCommunityUrl(x)
    ensures ToInstall(s, after) == [] <==> forall x :: x in Additional(s) ==> IsCommunityUrl(x)
  {
    NothingMoreToRemove(s, before, after);
    forall x {
      InstalledAgain(s, before, after, x);
    }
    assert ToInstall(s, after) != [] ==> ToInstall(s, after)[0] in ToInstall(s, after);
  }

  /** Saved urls that are community urls before adaptation are enough. */
  lemma CommunityAccountConverges(s: Setting, before: seq<string>, after: seq<string>)
    requires ProperVersion(s.version) && Applied(s, before, after)
    requires forall u :: u in s.account.savedUrls ==> IsCommunityUrl(u)
    ensures ToRemove(s, after) == [] && ToInstall(s, after) == []
  {
    SecondComputation(s, before, after);
    forall x | x in Additional(s)
      ensures IsCommunityUrl(x)
    {
      var u :| u in s.account.savedUrls && Adapted(u, s.version) == x;
      AdaptedStaysCommunity(u, s.version);
    }
  }
}
