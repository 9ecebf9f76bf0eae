/** The branch listing of `getGitBranches` (src/extension.ts:71-93): the
    output of `git branch --list --all` is split into lines, empty lines are
    dropped, each line is trimmed and loses its first `* `, names starting
    with `remotes/origin/HEAD` are dropped, and the rest are classified as
    local or remote. Nothing is sorted. */
module Branches {
  import opened Wrappers
  import opened JsStrings
  import opened Seqs
  import opened RefPatterns

  datatype Branch = Branch(shortName: string, fullName: string, isRemote: bool, remote: Option<string>)

  const ListCommand := "git branch --list --all"
  const RemotesPrefix := "remotes/"
  const OriginHead := "remotes/origin/HEAD"
  const CurrentMarker := "* "

  /** The `filter(b => b)` test: only the empty string is falsy. */
  predicate IsNonEmpty(line: string) {
    line != []
  }

  /** `b.trim().replace('* ', '')`: cleaning only removes characters, and a
      line without `*` is only trimmed. */
  function Clean(line: string): (name: string)
    ensures forall c :: c in name ==> c in line
    ensures '*' !in line ==> name == Trim(line)
  {
    assert '*' !in line ==> RemoveFirst(Trim(line), CurrentMarker) == Trim(line) by {
      if '*' !in line { RemoveFirstAbsent(Trim(line), CurrentMarker); }
    }
    RemoveFirst(Trim(line), CurrentMarker)
  }

  predicate NotOriginHead(name: string) {
    !StartsWith(name, OriginHead)
  }

  /** `remote` is present exactly for remote branches. */
  predicate WellFormed(b: Branch) {
    b.isRemote <==> b.remote.Some?
  }

  /** The record built from one name by the `^remotes\/([^\/]+)\/(.+)$` match. */
  function Classify(name: string): (b: Branch)
    ensures b.fullName == name && WellFormed(b)
    ensures b.isRemote ==> IsSegment(b.remote.value) && IsLineRest(b.shortName)
    ensures b.isRemote ==> name == RemotesPrefix + b.remote.value + "/" + b.shortName
    ensures !b.isRemote ==> b.shortName == name
  {
    match MatchRef(RemotesPrefix, name)
    case Some((remote, rest)) => Branch(rest, name, true, Some(remote))
    case None => Branch(name, name, false, None)
  }

  /** Every name of the remote shape is classified remote, with its remote
      and the rest as short name; with Classify's contract, a name is remote
      exactly when it has that shape. */
  lemma ClassifyRemote(remote: string, rest: string)
    requires IsSegment(remote) && IsLineRest(rest)
    ensures Classify(RemotesPrefix + remote + "/" + rest)
         == Branch(rest, RemotesPrefix + remote + "/" + rest, true, Some(remote))
  {
    MatchRefComplete(RemotesPrefix, remote, rest);
  }

  /** The records one line of the output contributes: none for an empty
      line or a name under `remotes/origin/HEAD`, else its classification. */
  function LineRecords(line: string): (records: seq<Branch>)
    ensures |records| <= 1
    ensures records == [] <==> line == [] || StartsWith(Clean(line), OriginHead)
    ensures records != [] ==> records[0].fullName == Clean(line) && NotOriginHead(records[0].fullName) && WellFormed(records[0])
  {
    if IsNonEmpty(line) && NotOriginHead(Clean(line)) then [Classify(Clean(line))] else []
  }

  /** The pipeline of src/extension.ts:76-90 over the lines, one line at a time. */
  function ParseLines(lines: seq<string>): (branches: seq<Branch>)
    ensures |branches| <= |lines|
    ensures forall b <- branches :: NotOriginHead(b.fullName) && WellFormed(b)
  {
    var branches := ConcatMap(lines, LineRecords);
    ConcatMapShort(lines, LineRecords);
    forall b <- branches ensures NotOriginHead(b.fullName) && WellFormed(b) {
      ConcatMapMembers(lines, LineRecords, b);
    }
    branches
  }

  /** Done one line at a time, the pipeline is the chain of `filter` and `map`
      calls the source writes. */
  lemma ParseLinesIsPipeline(lines: seq<string>)
    ensures ParseLines(lines) == Map(Filter(Map(Filter(lines, IsNonEmpty), Clean), NotOriginHead), Classify)
  {
    ConcatMapIsChain(lines, IsNonEmpty, Clean, NotOriginHead, Classify, LineRecords);
  }

  /** `ParseLines` keeps the order of the lines. */
  lemma ParseLinesAppend(a: seq<string>, b: seq<string>)
    ensures ParseLines(a + b) == ParseLines(a) + ParseLines(b)
  {
    ConcatMapAppend(a, b, LineRecords);
  }

  /** The listing of the (already trimmed) output of `git branch --list --all`. */
  function ParseListing(out: string): (branches: seq<Branch>)
    ensures forall b <- branches :: NotOriginHead(b.fullName) && WellFormed(b) && '\n' !in b.fullName
  {
    var lines := Split(out, '\n');
    var branches := ParseLines(lines);
    forall b <- branches ensures '\n' !in b.fullName {
      ParseLinesMembers(lines, b);
      var line :| line in lines && LineGives(line, b);
    }
    branches
  }

  /** `getGitBranches` on the raw standard output, which the process helper
      trims before handing it over (src/extension.ts:230). */
  function ListBranches(stdout: string): (branches: seq<Branch>)
    ensures forall b <- branches :: NotOriginHead(b.fullName) && WellFormed(b) && '\n' !in b.fullName
  {
    ParseListing(Trim(stdout))
  }

  /** The listing of two blocks of lines is the listing of the first followed by
      the listing of the second: records keep the order of their lines. */
  lemma ParseListingAppend(a: string, b: string)
    ensures ParseListing(a + "\n" + b) == ParseListing(a) + ParseListing(b)
  {
    SplitAppend(a, b, '\n');
    ParseLinesAppend(Split(a, '\n'), Split(b, '\n'));
  }

  /** `line` survives the filters and becomes record `b`. */
  predicate LineGives(line: string, b: Branch) {
    IsNonEmpty(line) && NotOriginHead(Clean(line)) && b == Classify(Clean(line))
  }

  /** A record comes out exactly when some line is non-empty, cleans to a name
      outside `remotes/origin/HEAD*`, and classifies to that record. */
  lemma ParseLinesMembers(lines: seq<string>, b: Branch)
    ensures b in ParseLines(lines) <==> exists line :: line in lines && LineGives(line, b)
  {
    ConcatMapMembers(lines, LineRecords, b);
    if b in ParseLines(lines) {
      var i :| 0 <= i < |lines| && b in LineRecords(lines[i]);
      LineRecordsGives(lines[i], b);
    }
    if exists line :: line in lines && LineGives(line, b) {
      var line :| line in lines && LineGives(line, b);
      var i :| 0 <= i < |lines| && lines[i] == line;
      LineRecordsGives(line, b);
    }
  }

  /** One line gives `b` exactly when `b` is among its records. */
  lemma LineRecordsGives(line: string, b: Branch)
    ensures b in LineRecords(line) <==> LineGives(line, b)
  {
  }

  /** The same, for the listing of a whole output. */
  lemma ParseListingMembers(out: string, b: Branch)
    ensures b in ParseListing(out) <==> exists line :: line in Split(out, '\n') && LineGives(line, b)
  {
    ParseLinesMembers(Split(out, '\n'), b);
  }

  /** The output lines joined by line breaks are listed line by line. */
  lemma ParseListingOfLines(lines: seq<string>)
    requires lines != [] && forall l <- lines :: '\n' !in l
    ensures ParseListing(Join(lines, '\n')) == ParseLines(lines)
  {
    SplitJoin(lines, '\n');
  }

  /** A listed name, with indentation in front, cleans to itself. */
  lemma CleanIndented(pad: string, name: string)
    requires AllWhitespace(pad) && name != []
    requires !IsWhitespace(name[0]) && !IsWhitespace(name[|name| - 1]) && '*' !in name
    ensures Clean(pad + name) == name
  {
    assert pad + name == pad + name + [];
    TrimPadded(pad, name, []);
    RemoveFirstAbsent(name, CurrentMarker);
  }

  /** The current branch's line `* <name>` cleans to the name. */
  lemma CleanCurrent(name: string)
    requires name != [] && !IsWhitespace(name[|name| - 1])
    ensures Clean(CurrentMarker + name) == name
  {
    var line := CurrentMarker + name;
    assert line == [] + line + [];
    TrimPadded([], line, []);
    RemoveFirstLeading(CurrentMarker, name);
  }

  /** A local name as git prints it: no surrounding whitespace, no `*`, no
      line break, not under `remotes/`. */
  predicate IsPlainLocalName(name: string) {
    && name != [] && !IsWhitespace(name[0]) && !IsWhitespace(name[|name| - 1])
    && '*' !in name && '\n' !in name && !StartsWith(name, RemotesPrefix)
  }

  /** Names the HEAD filter drops are all under `remotes/`. */
  lemma OriginHeadIsRemote(name: string)
    requires StartsWith(name, OriginHead)
    ensures StartsWith(name, RemotesPrefix)
  {
    assert name[..|RemotesPrefix|] == name[..|OriginHead|][..|RemotesPrefix|];
  }

  /** The current branch's line gives one local record. */
  lemma CurrentLine(name: string)
    requires IsPlainLocalName(name)
    ensures LineRecords(CurrentMarker + name) == [Branch(name, name, false, None)]
  {
    if StartsWith(name, OriginHead) { OriginHeadIsRemote(name); }
    CleanCurrent(name);
  }

  /** An indented local branch's line gives one local record. */
  lemma LocalLine(pad: string, name: string)
    requires AllWhitespace(pad) && IsPlainLocalName(name)
    ensures LineRecords(pad + name) == [Branch(name, name, false, None)]
  {
    if StartsWith(name, OriginHead) { OriginHeadIsRemote(name); }
    CleanIndented(pad, name);
  }

  /** An indented remote-tracking branch's line gives one remote record. */
  lemma RemoteLine(pad: string, remote: string, rest: string)
    requires AllWhitespace(pad)
    requires IsSegment(remote) && IsLineRest(rest) && !IsWhitespace(rest[|rest| - 1]) && '*' !in remote + rest
    requires NotOriginHead(RemotesPrefix + remote + "/" + rest)
    ensures LineRecords(pad + (RemotesPrefix + remote + "/" + rest))
         == [Branch(rest, RemotesPrefix + remote + "/" + rest, true, Some(remote))]
  {
    var name := RemotesPrefix + remote + "/" + rest;
    assert name == "remotes/" + (remote + "/" + rest);
    assert '*' !in name;
    CleanIndented(pad, name);
    ClassifyRemote(remote, rest);
  }

  /** An indented line starting with `remotes/origin/HEAD` gives nothing. */
  lemma OriginHeadLine(pad: string, name: string)
    requires StartsWith(name, OriginHead)
    requires AllWhitespace(pad) && !IsWhitespace(name[|name| - 1]) && '*' !in name
    ensures LineRecords(pad + name) == []
  {
    CleanIndented(pad, name);
  }

  /** The remote HEAD pointer line `remotes/origin/HEAD -> <target>`, indented,
      gives nothing. */
  lemma HeadPointerLine(pad: string, target: string)
    requires AllWhitespace(pad)
    requires target != [] && !IsWhitespace(target[|target| - 1]) && '*' !in target
    ensures LineRecords(pad + (OriginHead + " -> " + target)) == []
  {
    var name := OriginHead + " -> " + target;
    assert name[..|OriginHead|] == OriginHead;
    assert name[|name| - 1] == target[|target| - 1];
    OriginHeadLine(pad, name);
  }

  /** The pointer line is one line when its target is. */
  lemma HeadPointerOneLine(target: string)
    requires '\n' !in target
    ensures '\n' !in OriginHead + " -> " + target
  {
    var head := OriginHead + " -> ";
    assert forall i :: 0 <= i < |head| ==> head[i] != '\n';
  }

  /** The target `origin/<name>` git prints for the remote HEAD. */
  lemma OriginTarget(name: string)
    requires IsPlainLocalName(name)
    ensures var target := "origin/" + name;
      target != [] && !IsWhitespace(target[|target| - 1]) && '*' !in target && '\n' !in target
  {
    var target := "origin/" + name;
    assert target[|target| - 1] == name[|name| - 1];
    assert forall i :: 0 <= i < |target| ==> target[i] == if i < 7 then "origin/"[i] else name[i - 7];
  }

  /** The listing of a repository whose current branch is `cur`, with another
      local branch `other`, a remote-tracking branch `remotes/<remote>/<rest>`
      and the remote HEAD pointer, each non-current line indented by `pad`
      (git prints two spaces), the output ending in a line break: three
      records in git's order, the HEAD pointer left out. */
  lemma TypicalRepositoryLines(pad: string, cur: string, other: string, remote: string, rest: string)
    requires AllWhitespace(pad) && '\n' !in pad
    requires IsPlainLocalName(cur) && IsPlainLocalName(other)
    requires IsSegment(remote) && '*' !in remote && '\n' !in remote
    requires IsLineRest(rest) && '*' !in rest && !IsWhitespace(rest[|rest| - 1])
    requires NotOriginHead(RemotesPrefix + remote + "/" + rest)
    ensures ParseLines([ CurrentMarker + cur,
                         pad + other,
                         pad + (RemotesPrefix + remote + "/" + rest),
                         pad + (OriginHead + " -> " + ("origin/" + cur)) ])
         == [ Branch(cur, cur, false, None),
              Branch(other, other, false, None),
              Branch(rest, RemotesPrefix + remote + "/" + rest, true, Some(remote)) ]
  {
    var l1, l2 := CurrentMarker + cur, pad + other;
    var l3 := pad + (RemotesPrefix + remote + "/" + rest);
    var l4 := pad + (OriginHead + " -> " + ("origin/" + cur));
    LocalLines(pad, cur, other);
    RemoteLines(pad, cur, remote, rest);
    ParseLinesOfHalves(l1, l2, l3, l4);
  }

  /** The local half of that listing. */
  lemma LocalLines(pad: string, cur: string, other: string)
    requires AllWhitespace(pad) && IsPlainLocalName(cur) && IsPlainLocalName(other)
    ensures ParseLines([CurrentMarker + cur, pad + other])
         == [Branch(cur, cur, false, None), Branch(other, other, false, None)]
  {
    CurrentLine(cur);
    LocalLine(pad, other);
    ParseLinesOfTwo(CurrentMarker + cur, pad + other);
  }

  /** The remote half of that listing. */
  lemma RemoteLines(pad: string, cur: string, remote: string, rest: string)
    requires AllWhitespace(pad) && IsPlainLocalName(cur)
    requires IsSegment(remote) && '*' !in remote
    requires IsLineRest(rest) && '*' !in rest && !IsWhitespace(rest[|rest| - 1])
    requires NotOriginHead(RemotesPrefix + remote + "/" + rest)
    ensures ParseLines([pad + (RemotesPrefix + remote + "/" + rest), pad + (OriginHead + " -> " + ("origin/" + cur))])
         == [Branch(rest, RemotesPrefix + remote + "/" + rest, true, Some(remote))]
  {
    RemoteLine(pad, remote, rest);
    OriginTarget(cur);
    HeadPointerLine(pad, "origin/" + cur);
    ParseLinesOfTwo(pad + (RemotesPrefix + remote + "/" + rest), pad + (OriginHead + " -> " + ("origin/" + cur)));
  }

  /** Four lines are listed as their two halves. */
  lemma ParseLinesOfHalves(a: string, b: string, c: string, d: string)
    ensures ParseLines([a, b, c, d]) == ParseLines([a, b]) + ParseLines([c, d])
  {
    ParseLinesAppend([a, b], [c, d]);
    assert [a, b] + [c, d] == [a, b, c, d];
  }

  /** Two lines are listed one after the other. */
  lemma ParseLinesOfTwo(a: string, b: string)
    ensures ParseLines([a, b]) == LineRecords(a) + LineRecords(b)
  {
    assert [a, b][1..] == [b];
    assert [b][1..] == [];
    assert ConcatMap([b], LineRecords) == LineRecords(b) + ConcatMap([], LineRecords);
  }

  /** The same repository as git prints it, each line ended by a line break. */
  lemma ListingOfTypicalRepository(pad: string, cur: string, other: string, remote: string, rest: string)
    requires AllWhitespace(pad) && '\n' !in pad
    requires IsPlainLocalName(cur) && IsPlainLocalName(other)
    requires IsSegment(remote) && '*' !in remote && '\n' !in remote
    requires IsLineRest(rest) && '*' !in rest && !IsWhitespace(rest[|rest| - 1])
    requires NotOriginHead(RemotesPrefix + remote + "/" + rest)
    ensures ListBranches(Join([ CurrentMarker + cur,
                                pad + other,
                                pad + (RemotesPrefix + remote + "/" + rest),
                                pad + (OriginHead + " -> " + ("origin/" + cur)) ], '\n') + "\n")
         == [ Branch(cur, cur, false, None),
              Branch(other, other, false, None),
              Branch(rest, RemotesPrefix + remote + "/" + rest, true, Some(remote)) ]
  {
    var l1, l2 := CurrentMarker + cur, pad + other;
    var l3 := pad + (RemotesPrefix + remote + "/" + rest);
    var l4 := pad + (OriginHead + " -> " + ("origin/" + cur));
    assert '\n' !in l1 && '\n' !in l2 && '\n' !in l3 && '\n' !in l4 by {
      assert IsLineTerminator('\n');
      OriginTarget(cur);
      HeadPointerOneLine("origin/" + cur);
    }
    assert l4[|l4| - 1] == cur[|cur| - 1];
    ListBranchesOfLines([l1, l2, l3, l4]);
    TypicalRepositoryLines(pad, cur, other, remote, rest);
  }

  /** Output lines, ended by a line break as git prints them, are listed line
      by line once the helper's trim has taken the last line break away. */
  lemma ListBranchesOfLines(lines: seq<string>)
    requires lines != [] && forall l <- lines :: '\n' !in l
    requires lines[0] != [] && !IsWhitespace(lines[0][0])
    requires lines[|lines| - 1] != [] && !IsWhitespace(lines[|lines| - 1][|lines[|lines| - 1]| - 1])
    ensures ListBranches(Join(lines, '\n') + "\n") == ParseLines(lines)
  {
    var j := Join(lines, '\n');
    JoinFirst(lines, '\n');
    JoinLast(lines, '\n');
    assert j + "\n" == [] + j + "\n";
    TrimPadded([], j, "\n");
    ParseListingOfLines(lines);
  }
}
