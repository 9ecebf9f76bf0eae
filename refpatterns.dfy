/** The regular expression shape `^<prefix>([^\/]+)\/(.+)$` (no flags) that the
    extension uses twice: with prefix `remotes/` on branch names and with
    prefix `refs/remotes/` on upstream refs. `[^\/]+` is a non-empty run of
    anything but a slash (line terminators included); `.+` is a non-empty run
    without a line terminator; `$` is the end of the text. */
module RefPatterns {
  import opened Wrappers
  import opened JsStrings

  /** What `([^\/]+)` captures. */
  predicate IsSegment(r: string) {
    r != [] && '/' !in r
  }

  /** What `(.+)` captures when `$` follows it. */
  predicate IsLineRest(t: string) {
    t != [] && forall c <- t :: !IsLineTerminator(c)
  }

  /** The two capture groups of the match, or `None` when it fails. */
  function MatchRef(prefix: string, s: string): (m: Option<(string, string)>)
    ensures m.Some? ==> IsSegment(m.value.0) && IsLineRest(m.value.1)
    ensures m.Some? ==> s == prefix + m.value.0 + "/" + m.value.1
  {
    if !StartsWith(s, prefix) then None
    else
      var rest := s[|prefix|..];
      match IndexOf(rest, "/")
      case None => None
      case Some(i) =>
        if i == 0 || !IsLineRest(rest[i + 1..]) then None
        else
          forall j | 0 <= j < i ensures rest[..i][j] != '/' {
            assert !OccursAt(rest, "/", j);
            assert rest[j..j + 1] == [rest[j]];
          }
          assert rest[i..i + 1] == "/";
          assert rest == rest[..i] + "/" + rest[i + 1..];
          assert s == s[..|prefix|] + rest;
          Some((rest[..i], rest[i + 1..]))
  }

  /** The match succeeds on every text of the shape, with the captures it was
      built from; with the previous contract, a text matches exactly when it
      has this shape. */
  lemma MatchRefComplete(prefix: string, seg: string, tail: string)
    requires IsSegment(seg) && IsLineRest(tail)
    ensures MatchRef(prefix, prefix + seg + "/" + tail) == Some((seg, tail))
  {
    var s := prefix + seg + "/" + tail;
    assert s[..|prefix|] == prefix;
    var rest := s[|prefix|..];
    assert rest == seg + "/" + tail;
    forall j: nat | j < |seg| ensures !OccursAt(rest, "/", j) {
      assert rest[j..j + 1][0] == rest[j] == seg[j];
    }
    assert OccursAt(rest, "/", |seg|) by { assert rest[|seg|..|seg| + 1] == "/"; }
    assert IsFirstOccurrence(rest, "/", |seg|);
    assert rest[..|seg|] == seg && rest[|seg| + 1..] == tail;
  }
}
