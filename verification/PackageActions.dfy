/// The action offered for every package (src/app/updates/service.go, GetPackageActions): what the two
/// parsers say, put together under case-folded ids.
module PackageActions {
  import opened Text
  import opened Wrappers
  import opened Winget
  import opened Sequences

  datatype Action = Uninstall | Upgrade

  /// One of the first n ids is k when case-folded.
  ghost predicate Among(lower: char -> char, ids: seq<string>, n: int, k: string) {
    exists i :: 0 <= i < n <= |ids| && ToLower(lower, ids[i]) == k
  }

  lemma AmongStep(lower: char -> char, ids: seq<string>, n: nat)
    requires n < |ids|
    ensures forall k :: Among(lower, ids, n + 1, k) <==> Among(lower, ids, n, k) || ToLower(lower, ids[n]) == k
  {
    forall k ensures Among(lower, ids, n + 1, k) <==> Among(lower, ids, n, k) || ToLower(lower, ids[n]) == k {
      if Among(lower, ids, n + 1, k) && ToLower(lower, ids[n]) != k {
        var i :| 0 <= i < n + 1 <= |ids| && ToLower(lower, ids[i]) == k;
        assert i < n;
      }
    }
  }

  ghost predicate Installed(lower: char -> char, installed: string, k: string) {
    var ids := InstalledIn(lower, installed);
    Among(lower, ids, |ids|, k)
  }

  ghost predicate Upgradable(lower: char -> char, updates: string, k: string) {
    var ids := ItemIds(UpgradesIn(lower, updates));
    Among(lower, ids, |ids|, k)
  }

  lemma RowHasId(lower: char -> char, cols: Columns, line: string)
    ensures forall item | item in UpgradeRow(lower, cols, line) :: Trim(item.id) != ""
  {
    var l := TrimCr(line);
    var id := ItemOf(cols, l).id;
    if id != "" {
      TrimIsTrimmed(SafeSubstring(l, cols.id, cols.version));
      TrimOfTrimmed(id);
    }
  }

  lemma RowsHaveIds(lower: char -> char, cols: Columns, lines: seq<string>)
    ensures forall item | item in UpgradeRows(lower, cols, lines) :: Trim(item.id) != ""
  {
    forall item | item in UpgradeRows(lower, cols, lines) ensures Trim(item.id) != "" {
      var i := CollectedFrom(UpgradeReader(lower, cols), lines, item);
      RowHasId(lower, cols, lines[i]);
    }
  }

  /// No listed upgrade has a blank id: the check for one in GetPackageActions never fires.
  lemma UpgradesHaveIds(lower: char -> char, raw: string)
    ensures forall item | item in UpgradesIn(lower, raw) :: Trim(item.id) != ""
  {
    var lines := ShownLines(raw);
    var h := HeaderIndex(lower, lines, 0);
    if h >= 0 && h + 1 < |lines| {
      RowsHaveIds(lower, ReadColumns(lower, lines[h]), lines[DataStart(lines, h)..]);
    }
  }

  /// The loop over the installed ids
  method OfferUninstall(lower: char -> char, ids: seq<string>) returns (actions: map<string, Action>)
    ensures forall k :: k in actions <==> Among(lower, ids, |ids|, k)
    ensures forall k | k in actions :: actions[k] == Uninstall
  {
    actions := map[];
    for i := 0 to |ids|
      invariant forall k :: k in actions <==> Among(lower, ids, i, k)
      invariant forall k | k in actions :: actions[k] == Uninstall
    {
      actions := actions[ToLower(lower, ids[i]) := Uninstall];
      AmongStep(lower, ids, i);
    }
  }

  /// The loop over the upgrades
  method OfferUpgrades(lower: char -> char, items: seq<UpgradeItem>, offered: map<string, Action>)
    returns (actions: map<string, Action>)
    requires forall item | item in items :: Trim(item.id) != ""
    ensures forall k :: k in actions <==> k in offered || Among(lower, ItemIds(items), |items|, k)
    ensures forall k | k in actions :: if Among(lower, ItemIds(items), |items|, k) then actions[k] == Upgrade
                                       else k in offered && actions[k] == offered[k]
  {
    actions := offered;
    ghost var ids := ItemIds(items);
    for i := 0 to |items|
      invariant forall k :: k in actions <==> k in offered || Among(lower, ids, i, k)
      invariant forall k | k in actions :: if Among(lower, ids, i, k) then actions[k] == Upgrade
                                           else k in offered && actions[k] == offered[k]
    {
      AmongStep(lower, ids, i);
      if Trim(items[i].id) == "" {
        continue;
      }
      actions := actions[ToLower(lower, items[i].id) := Upgrade];
    }
  }

  /// Failing to list the installed packages is an error, failing to list the updates is not. A package
  /// that both lists name is offered its upgrade.
  method GetPackageActions(lower: char -> char, installed: Result<string, string>, updates: Result<string, string>)
    returns (actions: map<string, Action>, err: Option<string>)
    ensures err == if installed.Err? then Some(installed.error) else None
    ensures installed.Err? ==> actions == map[]
    ensures installed.Ok? ==>
              forall k :: k in actions <==>
                Installed(lower, installed.value, k) || (updates.Ok? && Upgradable(lower, updates.value, k))
    ensures forall k | k in actions ::
              actions[k] == if updates.Ok? && Upgradable(lower, updates.value, k) then Upgrade else Uninstall
  {
    if installed.Err? {
      return map[], Some(installed.error);
    }
    var ids := ParseInstalledOutput(lower, installed.value);
    actions := OfferUninstall(lower, ids);
    if updates.Ok? {
      var items := ParseUpgradeOutput(lower, updates.value);
      UpgradesHaveIds(lower, updates.value);
      actions := OfferUpgrades(lower, items, actions);
    }
    err := None;
  }
}
