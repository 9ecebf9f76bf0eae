/** What `performGitAction` (src/extension.ts:105-177) runs for an action on
    a picked branch: a shell command, a VS Code command, nothing, or an error.
    The host's answers are parameters: `input` is what the local-name input
    box returned (`None` when it was dismissed) and `upstream` is what
    `getRemoteBranch` settles with for the picked branch, which
    `Upstream.ParseUpstream` computes from the query's output; it is used
    only by the actions that look it up. */
module Commands {
  import opened Wrappers
  import opened JsStrings
  import opened Seqs
  import opened RefPatterns
  import opened Branches
  import opened Actions
  import opened Upstream

  /** What the extension ends up running. */
  datatype Invocation =
    | RunNothing
    | RunShell(command: string)
    | RunHostCommand(command: string, ref1: string, ref2: string)

  const UnsupportedAction := "Unsupported action"
  const CompareCommand := "gitlens.compareHeadWith"
  /** What a template literal prints for a missing array element. */
  const Undefined := "undefined"

  function FullNames(branches: seq<Branch>): seq<string> {
    Map(branches, (b: Branch) => b.fullName)
  }

  /** `checkoutBranchCommand` (src/extension.ts:199-221): the empty command
      exactly when a remote branch was picked and no local name was given. */
  function CheckoutCommand(selected: Branch, branches: seq<Branch>, input: Option<string>): (cmd: string)
    ensures cmd == [] <==> selected.isRemote && (input.None? || input.value == [])
  {
    if !selected.isRemote then "git checkout " + selected.fullName
    else
      match input
      case None => ""
      case Some(name) =>
        if name == [] then ""
        else if name in FullNames(branches) then "git checkout " + name
        else "git checkout -b " + name + " " + selected.fullName
  }

  /** The `delete` case (src/extension.ts:137-144). For a remote branch the
      first `remotes/` is removed and the first two `/`-separated pieces are
      the remote and the branch; a missing second piece prints as
      `undefined`. Either way the command is never empty. */
  function DeleteCommand(selected: Branch): (cmd: string)
    ensures StartsWith(cmd, if selected.isRemote then "git push --delete " else "git branch -D ")
    ensures cmd != []
  {
    if selected.isRemote then PushDeleteCommand(RemoveFirst(selected.fullName, RemotesPrefix))
    else "git branch -D " + selected.fullName
  }

  /** The remote deletion of `<remote>/<branch>`, split at every `/`: the
      command never names anything with a `/` in it, and a name without `/`
      has no second piece, which prints as `undefined`. */
  function PushDeleteCommand(remoteBranch: string): (cmd: string)
    ensures StartsWith(cmd, "git push --delete ")
    ensures '/' !in cmd
    ensures '/' !in remoteBranch ==> cmd == "git push --delete " + remoteBranch + " " + Undefined
  {
    var parts := Split(remoteBranch, '/');
    assert '/' !in remoteBranch ==> parts == [remoteBranch] by {
      if '/' !in remoteBranch { SplitNoSeparator(remoteBranch, '/'); }
    }
    "git push --delete " + parts[0] + " " + (if |parts| > 1 then parts[1] else Undefined)
  }

  /** The `update` case (src/extension.ts:124-132): the current branch is
      pulled; any other is fetched from its upstream, whose lookup may fail.
      It fails exactly when the lookup is needed and fails, with its error. */
  function UpdateCommand(selected: Branch, currentBranch: string, upstream: Result<(string, string), string>): (r: Result<string, string>)
    ensures r.Err? <==> selected.fullName != currentBranch && upstream.Err?
    ensures r.Err? ==> r.error == upstream.error
    ensures r.Ok? ==> StartsWith(r.value, "git ")
  {
    if selected.fullName == currentBranch then Ok("git pull")
    else
      match upstream
      case Ok((remote, remoteBranch)) => Ok("git fetch " + remote + " " + remoteBranch + ":" + selected.fullName)
      case Err(e) => Err(e)
  }

  /** The `push` case (src/extension.ts:133-136): it fails exactly when the
      upstream lookup does, with that error. */
  function PushCommand(selected: Branch, upstream: Result<(string, string), string>): (r: Result<string, string>)
    ensures r.Err? <==> upstream.Err?
    ensures r.Err? ==> r.error == upstream.error
    ensures r.Ok? ==> StartsWith(r.value, "git push ")
  {
    match upstream
    case Ok((remote, remoteBranch)) => Ok("git push " + remote + " " + selected.fullName + ":" + remoteBranch)
    case Err(e) => Err(e)
  }

  /** The `if (gitCommand)` test of src/extension.ts:149: the empty string
      is falsy, so only a non-empty command runs, and unchanged. */
  function Shell(cmd: string): (inv: Invocation)
    ensures inv == RunNothing <==> cmd == []
    ensures inv.RunShell? ==> inv.command == cmd
    ensures !inv.RunHostCommand?
  {
    if cmd == [] then RunNothing else RunShell(cmd)
  }

  /** The actions that look up the picked branch's upstream. */
  predicate NeedsUpstream(a: Action, selected: Branch, currentBranch: string) {
    a == Push || (a == Update && selected.fullName != currentBranch)
  }

  function PerformGitAction(action: string, selected: Branch, currentBranch: string, branches: seq<Branch>,
                            input: Option<string>, upstream: Result<(string, string), string>): (r: Result<Invocation, string>)
    ensures Parse(action).None? ==> r == Err(UnsupportedAction)
    ensures r.Err? <==> Parse(action).None? || (NeedsUpstream(Parse(action).value, selected, currentBranch) && upstream.Err?)
    ensures r.Err? && Parse(action).Some? ==> r == Err(upstream.error)
    ensures r == Ok(RunNothing) <==>
      Parse(action) == Some(Checkout) && selected.isRemote && (input.None? || input.value == [])
    ensures r.Ok? && r.value.RunHostCommand? <==> Parse(action) == Some(Compare)
    ensures r.Ok? && r.value.RunShell? ==> r.value.command != []
  {
    match Parse(action)
    case None => Err(UnsupportedAction)
    case Some(Checkout) => Ok(Shell(CheckoutCommand(selected, branches, input)))
    case Some(Compare) => Ok(RunHostCommand(CompareCommand, "", selected.fullName))
    case Some(Merge) => Ok(Shell("git merge " + selected.fullName))
    case Some(Update) =>
      (match UpdateCommand(selected, currentBranch, upstream)
       case Ok(cmd) => Ok(Shell(cmd))
       case Err(e) => Err(e))
    case Some(Push) =>
      (match PushCommand(selected, upstream)
       case Ok(cmd) => Ok(Shell(cmd))
       case Err(e) => Err(e))
    case Some(Delete) => Ok(Shell(DeleteCommand(selected)))
  }

  /** Two, three, four and five words joined by spaces. */
  lemma Words2(a: string, b: string)
    ensures Join([a, b], ' ') == a + " " + b
  {
    assert [a, b][1..] == [b];
  }

  lemma Words3(a: string, b: string, c: string)
    ensures Join([a, b, c], ' ') == a + " " + b + " " + c
  {
    assert [a, b, c][1..] == [b, c];
    Words2(b, c);
  }

  lemma Words4(a: string, b: string, c: string, d: string)
    ensures Join([a, b, c, d], ' ') == a + " " + b + " " + c + " " + d
  {
    assert [a, b, c, d][1..] == [b, c, d];
    Words3(b, c, d);
  }

  lemma Words5(a: string, b: string, c: string, d: string, e: string)
    ensures Join([a, b, c, d, e], ' ') == a + " " + b + " " + c + " " + d + " " + e
  {
    assert [a, b, c, d, e][1..] == [b, c, d, e];
    Words4(b, c, d, e);
  }

  /** `merge` runs `git merge <fullName>`: the words git, merge and the
      branch's full name. */
  lemma MergeRunsMerge(selected: Branch, currentBranch: string, branches: seq<Branch>, input: Option<string>, upstream: Result<(string, string), string>)
    ensures PerformGitAction(Name(Merge), selected, currentBranch, branches, input, upstream)
         == Ok(RunShell(Join(["git", "merge", selected.fullName], ' ')))
  {
    ParseName(Merge);
    Words3("git", "merge", selected.fullName);
    assert "git merge " == "git" + " " + "merge" + " ";
  }

  /** `checkout` of a local branch runs `git checkout <fullName>`. */
  lemma CheckoutLocal(selected: Branch, currentBranch: string, branches: seq<Branch>, input: Option<string>, upstream: Result<(string, string), string>)
    requires !selected.isRemote
    ensures PerformGitAction(Name(Checkout), selected, currentBranch, branches, input, upstream)
         == Ok(RunShell(Join(["git", "checkout", selected.fullName], ' ')))
  {
    ParseName(Checkout);
    Words3("git", "checkout", selected.fullName);
    assert "git checkout " == "git" + " " + "checkout" + " ";
  }

  /** `checkout` of a remote branch with a local name that some listed
      branch already has switches to that branch. */
  lemma CheckoutExisting(selected: Branch, currentBranch: string, branches: seq<Branch>, name: string, upstream: Result<(string, string), string>)
    requires selected.isRemote && name != []
    requires exists b <- branches :: b.fullName == name
    ensures PerformGitAction(Name(Checkout), selected, currentBranch, branches, Some(name), upstream)
         == Ok(RunShell(Join(["git", "checkout", name], ' ')))
  {
    ParseName(Checkout);
    var i :| 0 <= i < |branches| && branches[i].fullName == name;
    assert FullNames(branches)[i] == name;
    Words3("git", "checkout", name);
    assert "git checkout " == "git" + " " + "checkout" + " ";
  }

  /** `checkout` of a remote branch with a new local name creates that
      branch from the remote one. */
  lemma CheckoutNew(selected: Branch, currentBranch: string, branches: seq<Branch>, name: string, upstream: Result<(string, string), string>)
    requires selected.isRemote && name != []
    requires forall b <- branches :: b.fullName != name
    ensures PerformGitAction(Name(Checkout), selected, currentBranch, branches, Some(name), upstream)
         == Ok(RunShell(Join(["git", "checkout", "-b", name, selected.fullName], ' ')))
  {
    ParseName(Checkout);
    assert name !in FullNames(branches);
    Words5("git", "checkout", "-b", name, selected.fullName);
    assert "git checkout -b " == "git" + " " + "checkout" + " " + "-b" + " ";
  }

  /** `compare` hands the branch to GitLens as the second ref, the first
      being empty. */
  lemma CompareWithHead(selected: Branch, currentBranch: string, branches: seq<Branch>, input: Option<string>, upstream: Result<(string, string), string>)
    ensures PerformGitAction(Name(Compare), selected, currentBranch, branches, input, upstream)
         == Ok(RunHostCommand(CompareCommand, "", selected.fullName))
  {
    ParseName(Compare);
  }

  /** `update` of the current branch runs `git pull`, whatever the upstream
      query would have printed. */
  lemma UpdateCurrentPulls(selected: Branch, currentBranch: string, branches: seq<Branch>, input: Option<string>, upstream: Result<(string, string), string>)
    requires selected.fullName == currentBranch
    ensures PerformGitAction(Name(Update), selected, currentBranch, branches, input, upstream)
         == Ok(RunShell(Join(["git", "pull"], ' ')))
  {
    ParseName(Update);
    Words2("git", "pull");
    assert "git pull" == "git" + " " + "pull";
  }

  /** `update` of another branch fetches its upstream into it. */
  lemma UpdateFetches(selected: Branch, currentBranch: string, branches: seq<Branch>, input: Option<string>,
                      upstream: Result<(string, string), string>, remote: string, remoteBranch: string)
    requires selected.fullName != currentBranch
    requires upstream == Ok((remote, remoteBranch))
    ensures PerformGitAction(Name(Update), selected, currentBranch, branches, input, upstream)
         == Ok(RunShell(Join(["git", "fetch", remote, remoteBranch + ":" + selected.fullName], ' ')))
  {
    ParseName(Update);
    RefspecWords("fetch", remote, remoteBranch, selected.fullName);
    assert "git " + "fetch" + " " == "git fetch ";
    assert UpdateCommand(selected, currentBranch, upstream)
        == Ok("git fetch " + remote + " " + remoteBranch + ":" + selected.fullName);
  }

  /** A `git <verb> <remote> <src>:<dst>` command, as words. */
  lemma RefspecWords(verb: string, remote: string, src: string, dst: string)
    ensures "git " + verb + " " + remote + " " + src + ":" + dst == Join(["git", verb, remote, src + ":" + dst], ' ')
  {
    Words4("git", verb, remote, src + ":" + dst);
  }

  /** `push` pushes the branch to its upstream. */
  lemma PushPushes(selected: Branch, currentBranch: string, branches: seq<Branch>, input: Option<string>,
                   upstream: Result<(string, string), string>, remote: string, remoteBranch: string)
    requires upstream == Ok((remote, remoteBranch))
    ensures PerformGitAction(Name(Push), selected, currentBranch, branches, input, upstream)
         == Ok(RunShell(Join(["git", "push", remote, selected.fullName + ":" + remoteBranch], ' ')))
  {
    ParseName(Push);
    var cmd := Join(["git", "push", remote, selected.fullName + ":" + remoteBranch], ' ');
    RefspecWords("push", remote, selected.fullName, remoteBranch);
    assert "git " + "push" + " " == "git push ";
    assert PushCommand(selected, upstream) == Ok(cmd);
  }

  /** `delete` of a local branch force-deletes it. */
  lemma DeleteLocal(selected: Branch, currentBranch: string, branches: seq<Branch>, input: Option<string>, upstream: Result<(string, string), string>)
    requires !selected.isRemote
    ensures PerformGitAction(Name(Delete), selected, currentBranch, branches, input, upstream)
         == Ok(RunShell(Join(["git", "branch", "-D", selected.fullName], ' ')))
  {
    DeleteRuns(selected, currentBranch, branches, input, upstream);
    Words4("git", "branch", "-D", selected.fullName);
    assert "git branch -D " == "git" + " " + "branch" + " " + "-D" + " ";
  }

  /** The remote `delete` of `remotes/<remote>/<rest>` names the remote and
      the part of `rest` before its first `/`. */
  lemma RemoteDeleteCommand(selected: Branch, remote: string, rest: string)
    requires selected.isRemote && IsSegment(remote)
    requires selected.fullName == RemotesPrefix + remote + "/" + rest
    ensures DeleteCommand(selected) == Join(["git", "push", "--delete", remote, Split(rest, '/')[0]], ' ')
  {
    StripRemotes(remote, rest);
    PushDeletePieces(remote, rest);
  }

  /** Removing the first `remotes/` from a remote-tracking name leaves
      `<remote>/<rest>`. */
  lemma StripRemotes(remote: string, rest: string)
    ensures RemoveFirst(RemotesPrefix + remote + "/" + rest, RemotesPrefix) == remote + "/" + rest
  {
    assert RemotesPrefix + remote + "/" + rest == RemotesPrefix + (remote + "/" + rest);
    RemoveFirstLeading(RemotesPrefix, remote + "/" + rest);
  }

  lemma PushDeletePieces(remote: string, rest: string)
    requires IsSegment(remote)
    ensures PushDeleteCommand(remote + "/" + rest) == Join(["git", "push", "--delete", remote, Split(rest, '/')[0]], ' ')
  {
    assert remote + "/" + rest == remote + ['/'] + rest;
    SplitAfterPiece(remote, rest, '/');
    PushDeleteWords(remote, Split(rest, '/')[0]);
  }

  lemma PushDeleteWords(remote: string, branch: string)
    ensures "git push --delete " + remote + " " + branch == Join(["git", "push", "--delete", remote, branch], ' ')
  {
    Words5("git", "push", "--delete", remote, branch);
    assert "git push --delete " == "git" + " " + "push" + " " + "--delete" + " ";
  }

  /** `delete` runs the delete command, which is never empty. */
  lemma DeleteRuns(selected: Branch, currentBranch: string, branches: seq<Branch>, input: Option<string>,
                   upstream: Result<(string, string), string>)
    ensures PerformGitAction(Name(Delete), selected, currentBranch, branches, input, upstream)
         == Ok(RunShell(DeleteCommand(selected)))
  {
    ParseName(Delete);
  }

  /** `delete` of a remote-tracking branch whose name has no further `/`
      deletes that branch on its remote. */
  lemma DeleteRemote(selected: Branch, currentBranch: string, branches: seq<Branch>, input: Option<string>,
                     upstream: Result<(string, string), string>, remote: string, rest: string)
    requires selected.isRemote && IsSegment(remote) && '/' !in rest
    requires selected.fullName == RemotesPrefix + remote + "/" + rest
    ensures PerformGitAction(Name(Delete), selected, currentBranch, branches, input, upstream)
         == Ok(RunShell(Join(["git", "push", "--delete", remote, rest], ' ')))
  {
    DeleteRuns(selected, currentBranch, branches, input, upstream);
    RemoteDeleteCommand(selected, remote, rest);
    SplitNoSeparator(rest, '/');
  }

  /** `delete` of a remote-tracking branch whose name has a further `/`
      (`remotes/origin/feature/x`) names only the part before it
      (`git push --delete origin feature`). */
  lemma DeleteNestedRemote(selected: Branch, currentBranch: string, branches: seq<Branch>, input: Option<string>,
                           upstream: Result<(string, string), string>, remote: string, head: string, tail: string)
    requires selected.isRemote && IsSegment(remote) && '/' !in head
    requires selected.fullName == RemotesPrefix + remote + "/" + (head + "/" + tail)
    ensures PerformGitAction(Name(Delete), selected, currentBranch, branches, input, upstream)
         == Ok(RunShell(Join(["git", "push", "--delete", remote, head], ' ')))
  {
    DeleteRuns(selected, currentBranch, branches, input, upstream);
    RemoteDeleteCommand(selected, remote, head + "/" + tail);
    assert head + "/" + tail == head + ['/'] + tail;
    SplitAfterPiece(head, tail, '/');
  }

  /** A branch without an upstream prints a blank line for the lookup, so
      `push` fails with the error naming the branch. */
  lemma PushWithoutUpstream(selected: Branch, currentBranch: string, branches: seq<Branch>, input: Option<string>, blank: string)
    requires AllWhitespace(blank)
    ensures PerformGitAction(Name(Push), selected, currentBranch, branches, input, ParseUpstream(blank, selected.fullName))
         == Err(NoRemoteError(selected.fullName))
  {
    NoUpstream(blank, selected.fullName);
    ParseName(Push);
  }

  /** Likewise `update` of a branch other than the current one. */
  lemma UpdateWithoutUpstream(selected: Branch, currentBranch: string, branches: seq<Branch>, input: Option<string>, blank: string)
    requires AllWhitespace(blank) && selected.fullName != currentBranch
    ensures PerformGitAction(Name(Update), selected, currentBranch, branches, input, ParseUpstream(blank, selected.fullName))
         == Err(NoRemoteError(selected.fullName))
  {
    NoUpstream(blank, selected.fullName);
    ParseName(Update);
  }
}
