/** The menu of actions offered for a picked branch (src/extension.ts:29-43):
    the list is built by conditional pushes, in this order. Whether GitLens
    (or GitLess) is active is the boolean `canCompare`. The menu shows action
    names; `performGitAction` switches on the name it gets back. */
module Actions {
  import opened Wrappers
  import opened Branches

  datatype Action = Checkout | Compare | Merge | Update | Push | Delete

  /** The name the menu shows and the switch matches. */
  function Name(a: Action): string {
    match a
    case Checkout => "checkout"
    case Compare => "compare"
    case Merge => "merge"
    case Update => "update"
    case Push => "push"
    case Delete => "delete"
  }

  /** The `switch (action)` of src/extension.ts:111-147: the case a name
      selects, or `None` for the `default` branch: an accepted name is the
      name of its case, and a rejected one is no action's name. */
  function Parse(name: string): (r: Option<Action>)
    ensures r.Some? ==> Name(r.value) == name
    ensures r.None? ==> forall a :: Name(a) != name
  {
    if name == "checkout" then Some(Checkout)
    else if name == "compare" then Some(Compare)
    else if name == "merge" then Some(Merge)
    else if name == "update" then Some(Update)
    else if name == "push" then Some(Push)
    else if name == "delete" then Some(Delete)
    else None
  }

  /** Every name the menu shows selects its own case of the switch, so the
      names are distinct. */
  lemma ParseName(a: Action)
    ensures Parse(Name(a)) == Some(a)
  {
    match a
    case Checkout =>
    case Compare =>
      assert "compare"[1] != "checkout"[1];
    case Merge =>
      assert |"merge"| != |"checkout"| && |"merge"| != |"compare"|;
    case Update =>
      assert |"update"| != |"checkout"| && |"update"| != |"compare"| && |"update"| != |"merge"|;
    case Push =>
      assert |"push"| != |"checkout"| && |"push"| != |"compare"| && |"push"| != |"merge"|;
      assert "push"[0] != "update"[0];
    case Delete =>
      assert |"delete"| != |"checkout"| && |"delete"| != |"compare"| && |"delete"| != |"merge"|;
      assert "delete"[0] != "update"[0] && |"delete"| != |"push"|;
  }

  /** No action is offered twice. */
  predicate NoDuplicates(actions: seq<Action>) {
    forall i, j :: 0 <= i < j < |actions| ==> actions[i] != actions[j]
  }

  /** `update` is immediately followed by `push`. */
  predicate UpdateThenPush(actions: seq<Action>) {
    forall i :: 0 <= i < |actions| && actions[i] == Update ==> i + 1 < |actions| && actions[i + 1] == Push
  }

  /** The menu as a table over the three facts it depends on: whether the
      picked branch is the current one, whether it is remote, and whether a
      compare extension is active. The menu is empty only for a current
      branch that is remote. */
  function Menu(isCurrent: bool, isRemote: bool, canCompare: bool): (m: seq<Action>)
    ensures |m| <= 6
    ensures m == [] <==> isCurrent && isRemote
  {
    if isCurrent then
      if isRemote then [] else [Update, Push]
    else if isRemote then
      if canCompare then [Checkout, Compare, Merge, Delete] else [Checkout, Merge, Delete]
    else
      if canCompare then [Checkout, Compare, Merge, Update, Push, Delete]
      else [Checkout, Merge, Update, Push, Delete]
  }

  /** The list the handler shows for `selected` while `currentBranch` is
      checked out, built push by push as the handler builds it. */
  method AvailableActions(selected: Branch, currentBranch: string, canCompare: bool) returns (actions: seq<Action>)
    ensures actions == Menu(selected.fullName == currentBranch, selected.isRemote, canCompare)
  {
    actions := [];
    if selected.fullName != currentBranch {
      actions := actions + [Checkout];
      if canCompare {
        actions := actions + [Compare];
      }
      actions := actions + [Merge];
    }
    if !selected.isRemote {
      actions := actions + [Update, Push];
    }
    if selected.fullName != currentBranch {
      actions := actions + [Delete];
    }
  }

  /** Which actions are offered: checkout, merge and delete exactly for a
      branch other than the current one, compare exactly when in addition a
      compare extension is active, update and push exactly for a local branch. */
  lemma MenuMembers(isCurrent: bool, isRemote: bool, canCompare: bool)
    ensures var m := Menu(isCurrent, isRemote, canCompare);
      && (Checkout in m <==> !isCurrent)
      && (Compare in m <==> !isCurrent && canCompare)
      && (Merge in m <==> !isCurrent)
      && (Update in m <==> !isRemote)
      && (Push in m <==> !isRemote)
      && (Delete in m <==> !isCurrent)
  {
  }

  /** Where they stand: checkout first and delete last for another branch,
      compare right after checkout, push right after update. */
  lemma MenuOrder(isCurrent: bool, isRemote: bool, canCompare: bool)
    ensures var m := Menu(isCurrent, isRemote, canCompare);
      && (!isCurrent ==> m[0] == Checkout && m[|m| - 1] == Delete)
      && (Compare in m ==> m[1] == Compare)
      && UpdateThenPush(m)
  {
  }

  /** No action twice, at most six. */
  lemma MenuDistinct(isCurrent: bool, isRemote: bool, canCompare: bool)
    ensures var m := Menu(isCurrent, isRemote, canCompare);
      NoDuplicates(m) && |m| <= 6
  {
  }
}
