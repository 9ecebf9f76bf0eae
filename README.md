# Git-Branches: a verified model of the branch command

The VS Code extension "Git-Branches" adds one command. The command does four things:

1. It lists the repository's branches with `git branch --list --all`.
2. It shows them in a picker, then offers an action menu for the picked branch.
3. It builds the git command (or VS Code command) for the chosen action.
4. It runs that command.

All of this lives in `src/extension.ts`. This project models the logic that decides and builds. It leaves out the host and process plumbing around it.

The project has these modules:

- `Branches`: the branch-listing parser of `getGitBranches`.
  - It splits the output on `'\n'` and drops empty strings.
  - It trims each line and removes its first `* `.
  - It drops every name that starts with `remotes/origin/HEAD`.
  - It classifies the rest against `^remotes\/([^\/]+)\/(.+)$`.
  - It does all of this in git's order.
- `Actions`: the action menu built for the picked branch.
  - The model builds the list push by push in the method `AvailableActions`.
  - The function `Menu` is the decision table the method is proved against.
  - `Parse` is the `switch` that maps an action name back to its case.
- `Commands`: what `performGitAction` runs for an action.
  - It covers `checkoutBranchCommand`, the `switch` cases, and the `if (gitCommand)` test that runs nothing for an empty command.
  - Results are a shell command, the GitLens compare command, nothing, or an error.
- `Upstream`: how `getRemoteBranch` reads the output of `git for-each-ref --format=%(upstream)`.
  - It trims the output and matches it against `^refs\/remotes\/([^\/]+)\/(.+)$`.
  - The result is `(remote, branch)`, or the error `No remote branch found for <name>`.
- `JsStrings`, `Seqs` and `RefPatterns`: the JavaScript primitives the code relies on, with their exact behaviour.
  - `trim` removes every ECMAScript white space and line terminator.
  - `replace` with a string pattern removes only the first occurrence.
  - `split('\n')` of the empty string is `[""]`.
  - In the regular expressions, `[^\/]` matches line terminators and `.` does not.

The host's inputs become parameters:

- the process output;
- the current branch;
- the picked branch;
- whether GitLens or GitLess is active;
- what the input box returned;
- how the upstream lookup settled.

What `src/extension.ts` does, and so what the model does:

- The listing keeps git's order. Nothing is sorted.
- Detached-HEAD lines are not filtered. `* (HEAD detached at <commit>)` becomes a local branch named `(HEAD detached at <commit>)`.
- The remote-HEAD filter is the prefix test `startsWith('remotes/origin/HEAD')`.
  - It drops every name with that prefix.
  - It keeps `remotes/upstream/HEAD -> upstream/main`.
- A line holding only white space is not empty, so `filter(b => b)` keeps it. It becomes a record with an empty name.
- `compare` is dispatched whether or not GitLens is active. Only the menu depends on it.
- Deleting a remote-tracking branch keeps only the first two `/`-separated pieces after `remotes/`.
  - `remotes/origin/feature/x` gives `git push --delete origin feature` (`Commands.DeleteNestedRemote`).
  - A remote name with an empty piece, such as `remotes/origin//x`, gives `git push --delete origin ` with an empty last word.
  - The model keeps this behaviour as written.

Command texts are stated as words joined by single spaces, such as `Join(["git", "merge", name], ' ')`. A shell receives exactly those words only when every word is non-empty and holds no white space or shell syntax. The source does not check this, and the model does not either.

## Model

| member | source | states |
|---|---|---|
| JsStrings.Trim | src/extension.ts:76 | `trim` cuts a white-space run from each end and nothing else. The result neither starts nor ends with white space. It is empty exactly when the input is all white space. |
| JsStrings.TrimPadded | src/extension.ts:76 | Trimming a core that has no white space at its ends, with any white space around it, gives back exactly that core. |
| JsStrings.TrimIdempotent | src/extension.ts:230 | Trimming already trimmed output changes nothing. |
| JsStrings.RemoveFirst | src/extension.ts:76 | `replace(pat, '')` removes the first occurrence of `pat` and keeps everything around it. Without an occurrence the text is unchanged. |
| JsStrings.RemoveFirstAbsent | src/extension.ts:76 | A text without the pattern's first character is left alone. |
| JsStrings.RemoveFirstLeading | src/extension.ts:139 | A pattern at the very start is the one removed, leaving the rest. |
| JsStrings.Split | src/extension.ts:76 | `split(sep)` gives at least one piece. No piece holds the separator. Joining the pieces with the separator gives back the input. |
| JsStrings.SplitJoin | src/extension.ts:76 | Splitting a join of separator-free pieces gives back exactly those pieces. |
| JsStrings.SplitAppend | src/extension.ts:76 | Splitting two texts joined by a separator gives the pieces of the first, then the pieces of the second. |
| JsStrings.SplitAfterPiece | src/extension.ts:140 | A separator-free piece followed by the separator is split off as the first piece. |
| JsStrings.SplitNoSeparator | src/extension.ts:140 | A text without the separator splits into itself alone. |
| Seqs.Filter | src/extension.ts:76-77 | `filter` keeps exactly the elements that pass the test. |
| Seqs.Map | src/extension.ts:78-90 | `map` keeps the length and maps element by element. |
| Seqs.FilterAppend | src/extension.ts:76-77 | `filter` keeps the order: it distributes over concatenation. |
| Seqs.MapAppend | src/extension.ts:76-90 | `map` keeps the order: it distributes over concatenation. |
| Seqs.ConcatMapIsChain | src/extension.ts:75-90 | Applying `filter(p).map(g).filter(q).map(h)` one element at a time gives the same result as the whole chain. |
| RefPatterns.MatchRef | src/extension.ts:79 | A match splits the text into the prefix, a non-empty slash-free segment, `/`, and a non-empty rest without line terminators. |
| RefPatterns.MatchRefComplete | src/extension.ts:189 | Every text of that shape matches, with exactly the captures it was built from. |
| Branches.Classify | src/extension.ts:79-89 | A record's full name is the cleaned name. A remote record's name is `remotes/<remote>/<rest>`, with a slash-free remote and a one-line rest, and `remote` and `shortName` are those captures. A local record's short name is its full name, and it has no remote. |
| Branches.Clean | src/extension.ts:76 | Cleaning a line only removes characters from it. A line without `*` is only trimmed. |
| Branches.LineRecords | src/extension.ts:76-90 | One line gives at most one record. It gives none exactly when it is empty or cleans to a name starting with `remotes/origin/HEAD`. Otherwise the record's full name is the cleaned line, outside the HEAD filter and consistent about its remote. |
| Branches.ClassifyRemote | src/extension.ts:79-89 | Every name of the remote shape is classified remote, with its remote and rest. |
| Branches.LineRecordsGives | src/extension.ts:76-90 | One line gives a record exactly when it is non-empty, cleans to a name outside `remotes/origin/HEAD*`, and classifies to that record. |
| Branches.ParseLines | src/extension.ts:76-90 | There are never more records than lines. No record's name starts with `remotes/origin/HEAD`. A record has a remote exactly when it is remote. |
| Branches.ParseLinesIsPipeline | src/extension.ts:76-90 | Parsing line by line equals the source's chain `filter(b => b).map(trim + replace).filter(!startsWith).map(classify)`. |
| Branches.ParseLinesAppend | src/extension.ts:76-90 | The records of two blocks of lines are the first block's records, then the second's: nothing is reordered or sorted. |
| Branches.ParseLinesMembers | src/extension.ts:76-90 | A record is listed exactly when some line gives it. |
| Branches.ParseListing | src/extension.ts:75-90 | Every listed record is outside `remotes/origin/HEAD*` and consistent about its remote. Its name holds no line break. |
| Branches.ListBranches | src/extension.ts:71-93 | The same for the listing of raw command output. |
| Branches.ParseListingAppend | src/extension.ts:75-77 | The listing of two blocks of output joined by a line break is the first block's listing followed by the second's. |
| Branches.ParseListingMembers | src/extension.ts:75-90 | A record is in the listing of an output exactly when some line of that output gives it. |
| Branches.ParseListingOfLines | src/extension.ts:75-76 | Output lines joined by line breaks are listed line by line. |
| Branches.ListBranchesOfLines | src/extension.ts:75-76 | Output that ends in a line break, once trimmed, is listed line by line. |
| Branches.CleanIndented | src/extension.ts:76 | An indented name without `*` cleans to itself. |
| Branches.CleanCurrent | src/extension.ts:76 | The current-branch line `* <name>` cleans to the name. |
| Branches.OriginHeadIsRemote | src/extension.ts:77 | Every name the HEAD filter drops is under `remotes/`. |
| Branches.CurrentLine | src/extension.ts:76-89 | The current branch's line gives exactly one local record named after the branch. |
| Branches.LocalLine | src/extension.ts:76-89 | An indented local branch's line gives exactly one local record. |
| Branches.RemoteLine | src/extension.ts:76-89 | An indented `remotes/<remote>/<rest>` line gives exactly one remote record with that remote and short name `<rest>`. |
| Branches.OriginHeadLine | src/extension.ts:77 | A line naming something under `remotes/origin/HEAD` gives no record. |
| Branches.HeadPointerLine | src/extension.ts:77 | The pointer line `remotes/origin/HEAD -> <target>` gives no record. |
| Branches.TypicalRepositoryLines | src/extension.ts:75-90 | For the lines `* <cur>`, `<other>`, `remotes/<remote>/<rest>` and `remotes/origin/HEAD -> origin/<cur>`, the listing is three records in git's order, without the HEAD pointer. |
| Branches.ListingOfTypicalRepository | src/extension.ts:71-93 | The same for the raw output of those lines, each ended by a line break. |
| Actions.ParseName | src/extension.ts:111-144 | Every menu name selects its own case of the `switch`, so the six names are distinct. |
| Actions.Parse | src/extension.ts:111-147 | A name the `switch` accepts is the name of the case it selects. A name it sends to `default` is no action's name. |
| Actions.Menu | src/extension.ts:29-43 | At most six actions are offered. The menu is empty exactly for a current branch that is remote. |
| Actions.AvailableActions | src/extension.ts:29-43 | The list built push by push is the menu for the picked branch: current or not, remote or not, compare available or not. |
| Actions.MenuMembers | src/extension.ts:29-43 | checkout, merge and delete are offered exactly for a branch other than the current one. compare is offered exactly when, in addition, a compare extension is active. update and push are offered exactly for a local branch. |
| Actions.MenuOrder | src/extension.ts:29-43 | For another branch, checkout is first and delete is last. compare comes right after checkout. push comes right after update. |
| Actions.MenuDistinct | src/extension.ts:29-43 | No action is offered twice, and at most six are offered. |
| Upstream.ParseUpstream | src/extension.ts:188-193 | On success, the trimmed output is `refs/remotes/<remote>/<branch>` with a slash-free remote and a one-line branch. Otherwise the error names the local branch. |
| Upstream.ParseUpstreamShape | src/extension.ts:188-191 | Every trimmed output of that shape is accepted, with its remote and branch. |
| Upstream.ParseUpstreamComplete | src/extension.ts:188-191 | An upstream ref with white space around it, such as git's final line break, gives its remote and branch. |
| Upstream.NoUpstream | src/extension.ts:188-193 | Blank output, as for a branch without an upstream, gives the error naming the branch. |
| Commands.CheckoutCommand | src/extension.ts:199-221 | The checkout command is empty exactly when a remote branch was picked and the input box gave no name. |
| Commands.PerformGitAction | src/extension.ts:111-149 | An unknown action name is the "Unsupported action" error. The only other error is a failed upstream lookup, for push or for update of a branch other than the current one. Nothing runs exactly for a remote checkout without a name. The host command runs exactly for compare. A shell command is never empty. |
| Commands.UpdateCommand | src/extension.ts:124-132 | `update` fails exactly when the picked branch is not the current one and the upstream lookup failed, and then with the lookup's error. Otherwise it is a `git` command. |
| Commands.PushCommand | src/extension.ts:133-136 | `push` fails exactly when the upstream lookup failed, with the lookup's error. Otherwise it is a `git push` command. |
| Commands.DeleteCommand | src/extension.ts:137-144 | The delete command is never empty. It is `git push --delete …` for a remote branch and `git branch -D …` for a local one. |
| Commands.PushDeleteCommand | src/extension.ts:139-140 | The remote delete command never holds a `/`. A name without `/` has no second piece and prints `git push --delete <name> undefined`. |
| Commands.Shell | src/extension.ts:149 | Only a non-empty command runs, and it runs unchanged. An empty command runs nothing. |
| Commands.PushWithoutUpstream | src/extension.ts:133-136 | When the lookup prints a blank line, `push` fails with `No remote branch found for <fullName>`. |
| Commands.UpdateWithoutUpstream | src/extension.ts:128-131 | When the lookup prints a blank line, `update` of a branch other than the current one fails with the same error. |
| Commands.DeleteRuns | src/extension.ts:137-144 | `delete` runs the delete command in the shell, whatever the other inputs are. |
| Commands.CheckoutLocal | src/extension.ts:200-202 | Checking out a local branch runs `git checkout <fullName>`. |
| Commands.CheckoutExisting | src/extension.ts:214-217 | Checking out a remote branch under a name some listed branch already has runs `git checkout <name>`. |
| Commands.CheckoutNew | src/extension.ts:218-221 | Checking out a remote branch under a new name runs `git checkout -b <name> <fullName>`. |
| Commands.CompareWithHead | src/extension.ts:115-120 | compare runs `gitlens.compareHeadWith` with `ref1` empty and `ref2` the full name. |
| Commands.MergeRunsMerge | src/extension.ts:121-123 | merge runs `git merge <fullName>`. |
| Commands.UpdateCurrentPulls | src/extension.ts:126-127 | Updating the current branch runs `git pull`, whatever the upstream lookup gives. |
| Commands.UpdateFetches | src/extension.ts:128-131 | Updating another branch runs `git fetch <remote> <remoteBranch>:<fullName>`. |
| Commands.PushPushes | src/extension.ts:133-136 | push runs `git push <remote> <fullName>:<remoteBranch>`. |
| Commands.DeleteLocal | src/extension.ts:141-143 | Deleting a local branch runs `git branch -D <fullName>`. |
| Commands.StripRemotes | src/extension.ts:139 | Removing `remotes/` from `remotes/<remote>/<rest>` leaves `<remote>/<rest>`. |
| Commands.PushDeletePieces | src/extension.ts:140 | The remote delete of `<remote>/<rest>` names the remote and the part of `<rest>` before its first `/`. |
| Commands.RemoteDeleteCommand | src/extension.ts:138-140 | Deleting `remotes/<remote>/<rest>` names the remote and the part of `<rest>` before its first `/`. |
| Commands.DeleteRemote | src/extension.ts:138-140 | Deleting `remotes/<remote>/<branch>` with a slash-free branch runs `git push --delete <remote> <branch>`. |
| Commands.DeleteNestedRemote | src/extension.ts:138-140 | Deleting `remotes/<remote>/<head>/<tail>` runs `git push --delete <remote> <head>`, dropping `/<tail>`. |

## Left out

- The VS Code host is not modelled: activation, command registration, the quick picks, the input box, the progress notification and the messages (src/extension.ts:4-63, 151-175, 206-209, 216). The picked branch, the current branch, the chosen action name and the input box's answer are parameters.
- The current branch name and the ✓ marker (src/extension.ts:16-21) are not modelled. The current branch is a parameter, already trimmed as `execPromise` returns it.
- The test that skips the menu when the picked label is empty (src/extension.ts:27-28) is picker glue and is not modelled. `Actions.AvailableActions` starts at line 29.
- Running processes (`child_process.exec`, `execPromise`, src/extension.ts:165-173, 181, 224-234) is I/O.
  - Standard output is passed in.
  - The trim that `execPromise` applies is part of `Branches.ListBranches`.
  - The text of the upstream query command (line 181) is not modelled.
- The `Error: ` prefix of the message that displays a caught error (src/extension.ts:53-58) is not modelled. The model returns the error's message.
- `checkIfGitlensInstalled` (src/extension.ts:95-103) queries the host's extensions. It is the boolean `canCompare`.
- The error branch of `getRemoteBranch` (src/extension.ts:182-185) never settles its promise, so there is no outcome to model. `Commands.PerformGitAction` takes the outcome of the lookup as a parameter, and `Upstream.ParseUpstream` computes it from the query's output.
- Promises and `async` only sequence the steps.
- `Branches.ListBranches` models the successful listing only. `getGitBranches` awaits `execPromise` inside an `async` promise executor (src/extension.ts:72-91). When `git branch` fails, that rejection is lost and the listing promise never settles. The command then hangs, and the message at src/extension.ts:53-58 is never shown, so the failure has no outcome to model.
- How a shell splits commands whose names contain spaces or shell syntax is not modelled. The source does no quoting. The command lemmas state the words only as joined text.
