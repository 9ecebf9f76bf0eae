/** The upstream lookup of `getRemoteBranch` (src/extension.ts:179-197):
    the output of `git for-each-ref --format=%(upstream) refs/heads/<name>`
    is trimmed and matched against `^refs\/remotes\/([^\/]+)\/(.+)$`; the two
    captures are the remote and the branch on it. */
module Upstream {
  import opened Wrappers
  import opened JsStrings
  import opened RefPatterns

  const UpstreamPrefix := "refs/remotes/"
  const NoRemotePrefix := "No remote branch found for "

  /** The error `getRemoteBranch` rejects with for the branch `fullName`. */
  function NoRemoteError(fullName: string): string {
    NoRemotePrefix + fullName
  }

  /** The remote and remote branch that `stdout` names for the local branch
      `fullName`, or the error naming that branch. */
  function ParseUpstream(stdout: string, fullName: string): (r: Result<(string, string), string>)
    ensures r.Ok? ==> IsSegment(r.value.0) && IsLineRest(r.value.1)
    ensures r.Ok? ==> Trim(stdout) == UpstreamPrefix + r.value.0 + "/" + r.value.1
    ensures r.Err? ==> r.error == NoRemoteError(fullName)
  {
    match MatchRef(UpstreamPrefix, Trim(stdout))
    case Some((remote, branch)) => Ok((remote, branch))
    case None => Err(NoRemoteError(fullName))
  }

  /** Every trimmed output of the upstream shape is accepted, with the
      remote and branch it was built from: with the contract above, the
      parse succeeds exactly on these outputs. */
  lemma ParseUpstreamShape(stdout: string, remote: string, branch: string, fullName: string)
    requires IsSegment(remote) && IsLineRest(branch)
    requires Trim(stdout) == UpstreamPrefix + remote + "/" + branch
    ensures ParseUpstream(stdout, fullName) == Ok((remote, branch))
  {
    MatchRefComplete(UpstreamPrefix, remote, branch);
  }

  /** An upstream ref, with whatever whitespace around it (git ends its
      output with a line break), gives back its remote and branch. */
  lemma ParseUpstreamComplete(pad: string, remote: string, branch: string, trail: string, fullName: string)
    requires AllWhitespace(pad) && AllWhitespace(trail)
    requires IsSegment(remote) && IsLineRest(branch) && !IsWhitespace(branch[|branch| - 1])
    ensures ParseUpstream(pad + (UpstreamPrefix + remote + "/" + branch) + trail, fullName) == Ok((remote, branch))
  {
    var ref := UpstreamPrefix + remote + "/" + branch;
    assert ref[0] == 'r';
    assert ref[|ref| - 1] == branch[|branch| - 1];
    TrimPadded(pad, ref, trail);
    ParseUpstreamShape(pad + ref + trail, remote, branch, fullName);
  }

  /** A branch without an upstream prints an empty line: that is the error. */
  lemma NoUpstream(blank: string, fullName: string)
    requires AllWhitespace(blank)
    ensures ParseUpstream(blank, fullName) == Err(NoRemoteError(fullName))
  {
    assert Trim(blank) == [];
  }
}
