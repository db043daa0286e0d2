/**
 * The `git status` output parser (pkg/git/git_status.go).
 *
 * The four regular expressions of the source are modelled as string
 * functions: `^On branch (.+)` is characterised by ParseLocalBranch's own
 * contract, and the three `Your branch is ... '(.+)'` patterns are proved
 * against a declarative reading of the pattern (`Captures`). Both follow
 * RE2: the leftmost match is reported, `.` never matches a newline, `^`
 * anchors at the start of the input, and the greedy `(.+)'` runs to the
 * last quote on its line.
 */
module Git {
  import opened Errors

  datatype BranchSyncState = UpToDate | Behind | Ahead

  datatype ParseError = NoLocalBranch | NoSyncPhrase | Unreachable

  /** The literal text before each capture group, including the opening quote. */
  const LocalBranchPrefix := "On branch "
  const UpToDatePrefix := "Your branch is up to date with '"
  const BehindPrefix := "Your branch is behind '"
  const AheadPrefix := "Your branch is ahead of '"

  function PrefixOf(state: BranchSyncState): string {
    match state
    case UpToDate => UpToDatePrefix
    case Behind => BehindPrefix
    case Ahead => AheadPrefix
  }

  // ---------------------------------------------------------------------------
  // Pattern matching on strings
  // ---------------------------------------------------------------------------

  /** How many characters `.` can match from the start of `s`: the run before the first newline. */
  function LineLength(s: string): (n: nat)
    ensures n <= |s|
    ensures forall k :: 0 <= k < n ==> s[k] != '\n'
    ensures n < |s| ==> s[n] == '\n'
  {
    if s == [] || s[0] == '\n' then 0 else 1 + LineLength(s[1..])
  }

  /** The last index j >= 1 of a quote in `line`, where a greedy `(.+)'` stops. */
  function LastQuote(line: string): (r: Option<nat>)
    ensures r.Some? ==> 1 <= r.value < |line| && line[r.value] == '\''
    ensures r.Some? ==> forall k :: r.value < k < |line| ==> line[k] != '\''
    ensures r.None? ==> forall k :: 1 <= k < |line| ==> line[k] != '\''
  {
    if |line| <= 1 then None
    else if line[|line| - 1] == '\'' then Some(|line| - 1)
    else LastQuote(line[..|line| - 1])
  }

  /**
   * The capture of `prefix(.+)'` when the pattern is tried at position p:
   * the text after the prefix up to the last quote on that line.
   */
  function CaptureAt(s: string, prefix: string, p: nat): Option<string>
    requires p <= |s|
  {
    if prefix <= s[p..] then
      var rest := s[p + |prefix|..];
      var line := rest[..LineLength(rest)];
      match LastQuote(line)
      case None => None
      case Some(j) => Some(line[..j])
    else None
  }

  /**
   * Declarative reading of `prefix(.+)'`: at position p the input holds the
   * prefix, then c (non-empty, no newline), then a quote.
   */
  ghost predicate Captures(s: string, prefix: string, p: nat, c: string) {
    var q := p + |prefix|;
    && 1 <= |c|
    && q + |c| < |s|
    && s[p..q] == prefix
    && s[q..q + |c|] == c
    && s[q + |c|] == '\''
    && forall k :: 0 <= k < |c| ==> c[k] != '\n'
  }

  /** The pattern occurs somewhere in s. */
  ghost predicate Mentions(s: string, prefix: string) {
    exists p: nat, c: string :: Captures(s, prefix, p, c)
  }

  /** A capture starts right after the prefix and ends before the end of its line. */
  lemma CapturesWithinLine(s: string, prefix: string, p: nat, c: string)
    requires Captures(s, prefix, p, c)
    ensures prefix <= s[p..]
    ensures |c| < LineLength(s[p + |prefix|..])
  {
    var q := p + |prefix|;
    assert s[p..][..|prefix|] == s[p..q];
    var rest := s[q..];
    assert forall k :: 0 <= k <= |c| ==> rest[k] == s[q + k];
    assert forall k :: 0 <= k < |c| ==> rest[k] == c[k];
  }

  /** What CaptureAt returns is a capture of the pattern at p. */
  lemma CaptureAtSound(s: string, prefix: string, p: nat)
    requires p <= |s|
    ensures CaptureAt(s, prefix, p).Some? ==> Captures(s, prefix, p, CaptureAt(s, prefix, p).value)
  {
    if CaptureAt(s, prefix, p).Some? {
      var q := p + |prefix|;
      var rest := s[q..];
      var line := rest[..LineLength(rest)];
      var j := LastQuote(line).value;
      var c := line[..j];
      assert s[p..q] == s[p..][..|prefix|];
      assert s[q..q + |c|] == c;
      assert s[q + |c|] == line[j];
    }
  }

  /** Every capture of the pattern at p is found by CaptureAt, and none is longer than its result. */
  lemma CaptureAtComplete(s: string, prefix: string, p: nat, c: string)
    requires Captures(s, prefix, p, c)
    ensures CaptureAt(s, prefix, p).Some? && |c| <= |CaptureAt(s, prefix, p).value|
  {
    CapturesWithinLine(s, prefix, p, c);
    var q := p + |prefix|;
    var rest := s[q..];
    var line := rest[..LineLength(rest)];
    assert line[|c|] == s[q + |c|];
  }

  datatype Match = Match(pos: nat, capture: string)

  /** The first position from p on where the pattern matches. */
  function FindFrom(s: string, prefix: string, p: nat): (r: Option<Match>)
    requires p <= |s|
    ensures r.Some? ==> p <= r.value.pos <= |s| && CaptureAt(s, prefix, r.value.pos) == Some(r.value.capture)
    ensures r.Some? ==> forall q :: p <= q < r.value.pos ==> CaptureAt(s, prefix, q).None?
    ensures r.None? ==> forall q :: p <= q <= |s| ==> CaptureAt(s, prefix, q).None?
    decreases |s| - p
  {
    match CaptureAt(s, prefix, p)
    case Some(c) => Some(Match(p, c))
    case None => if p == |s| then None else FindFrom(s, prefix, p + 1)
  }

  /** The leftmost match of `prefix(.+)'` in s: FindAllSubmatch(s, -1)[0]. */
  function Find(s: string, prefix: string): Option<Match> {
    FindFrom(s, prefix, 0)
  }

  /** Find returns the leftmost occurrence of the pattern, with its longest capture, and fails only when there is none. */
  lemma FindIsLeftmostLongest(s: string, prefix: string)
    ensures Find(s, prefix).None? <==> !Mentions(s, prefix)
    ensures Find(s, prefix).Some? ==>
              var m := Find(s, prefix).value;
              && Captures(s, prefix, m.pos, m.capture)
              && (forall c :: Captures(s, prefix, m.pos, c) ==> |c| <= |m.capture|)
              && (forall p: nat, c :: p < m.pos ==> !Captures(s, prefix, p, c))
  {
    var r := Find(s, prefix);
    forall p: nat, c | Captures(s, prefix, p, c)
      ensures r.Some? && r.value.pos <= p
    {
      CaptureAtComplete(s, prefix, p, c);
    }
    if r.Some? {
      CaptureAtSound(s, prefix, r.value.pos);
      forall c | Captures(s, prefix, r.value.pos, c)
        ensures |c| <= |r.value.capture|
      {
        CaptureAtComplete(s, prefix, r.value.pos, c);
      }
    }
  }

  lemma {:induction false} LineLengthAppend(a: string, b: string)
    requires '\n' !in a
    ensures LineLength(a + b) == |a| + LineLength(b)
  {
    if a != [] {
      assert (a + b)[0] == a[0] && a[0] in a;
      assert (a + b)[1..] == a[1..] + b;
      LineLengthAppend(a[1..], b);
    } else {
      assert a + b == b;
    }
  }

  /** FindFrom is determined by its contract: the first position from p on where the pattern matches. */
  lemma FindFromIsFirst(s: string, prefix: string, p: nat, r: Option<Match>)
    requires p <= |s|
    requires r.Some? ==> p <= r.value.pos <= |s| && CaptureAt(s, prefix, r.value.pos) == Some(r.value.capture)
    requires r.Some? ==> forall q :: p <= q < r.value.pos ==> CaptureAt(s, prefix, q).None?
    requires r.None? ==> forall q :: p <= q <= |s| ==> CaptureAt(s, prefix, q).None?
    ensures FindFrom(s, prefix, p) == r
  {
  }

  /** The pattern tried in the second part of a + b sees only b. */
  lemma CaptureAtShift(a: string, b: string, prefix: string, q: nat)
    requires q <= |b|
    ensures CaptureAt(a + b, prefix, |a| + q) == CaptureAt(b, prefix, q)
  {
    assert (a + b)[|a| + q..] == b[q..];
    if prefix <= b[q..] {
      assert (a + b)[|a| + q + |prefix|..] == b[q + |prefix|..];
    }
  }

  lemma {:induction false} LineLengthBeforeNewline(x: string, y: string)
    requires '\n' in x
    ensures LineLength(x + y) == LineLength(x)
  {
    assert (x + y)[0] == x[0];
    if x[0] != '\n' {
      assert (x + y)[1..] == x[1..] + y;
      LineLengthBeforeNewline(x[1..], y);
    }
  }

  /** The pattern tried inside a newline-terminated a never looks past that newline. */
  lemma CaptureAtWithinLine(a: string, b: string, prefix: string, q: nat)
    requires a != [] && a[|a| - 1] == '\n' && '\n' !in prefix
    requires q < |a|
    ensures CaptureAt(a + b, prefix, q) == CaptureAt(a, prefix, q)
  {
    var s := a + b;
    if prefix <= s[q..] {
      assert s[|a| - 1] == '\n';
      assert forall k :: 0 <= k < |prefix| ==> prefix[k] == s[q + k] && prefix[k] in prefix;
      assert |prefix| < |a| - q;
      assert s[q..][..|prefix|] == a[q..][..|prefix|];
      var ra := a[q + |prefix|..];
      assert s[q + |prefix|..] == ra + b;
      assert ra[|ra| - 1] == '\n';
      LineLengthBeforeNewline(ra, b);
      assert (ra + b)[..LineLength(ra)] == ra[..LineLength(ra)];
    } else {
      assert !(prefix <= a[q..]);
    }
  }

  function Shift(m: Option<Match>, d: nat): Option<Match> {
    match m
    case None => None
    case Some(Match(pos, c)) => Some(Match(d + pos, c))
  }

  /** A pattern without newlines is searched line by line: a match in the leading newline-terminated part comes first. */
  lemma FindAppendLineLeft(a: string, b: string, prefix: string)
    requires a != [] && a[|a| - 1] == '\n' && '\n' !in prefix
    requires Find(a, prefix).Some?
    ensures Find(a + b, prefix) == Find(a, prefix)
  {
    var fa := Find(a, prefix);
    assert fa.value.pos < |a|;
    forall q | 0 <= q <= fa.value.pos
      ensures CaptureAt(a + b, prefix, q) == CaptureAt(a, prefix, q)
    {
      CaptureAtWithinLine(a, b, prefix, q);
    }
    FindFromIsFirst(a + b, prefix, 0, fa);
  }

  /** A pattern without newlines is searched line by line: without a match in the leading part, the search continues in the rest. */
  lemma FindAppendLineRight(a: string, b: string, prefix: string)
    requires a != [] && a[|a| - 1] == '\n' && '\n' !in prefix
    requires Find(a, prefix).None?
    ensures Find(a + b, prefix) == Shift(Find(b, prefix), |a|)
  {
    var s := a + b;
    forall q | 0 <= q < |a|
      ensures CaptureAt(s, prefix, q).None?
    {
      CaptureAtWithinLine(a, b, prefix, q);
    }
    forall q | |a| <= q <= |s|
      ensures CaptureAt(s, prefix, q) == CaptureAt(b, prefix, q - |a|)
    {
      CaptureAtShift(a, b, prefix, q - |a|);
    }
    FindFromIsFirst(s, prefix, 0, Shift(Find(b, prefix), |a|));
  }

  /** A pattern whose first character occurs nowhere after position 0, and that does not start at 0, is absent. */
  lemma FindNoStart(s: string, prefix: string)
    requires prefix != [] && !(prefix <= s) && (s == [] || prefix[0] !in s[1..])
    ensures Find(s, prefix).None?
  {
    forall q | 0 <= q <= |s|
      ensures CaptureAt(s, prefix, q).None?
    {
      if 0 < q < |s| {
        assert s[q] == s[1..][q - 1];
      }
    }
    FindFromIsFirst(s, prefix, 0, None);
  }

  /** A pattern whose first character does not occur in s is absent. */
  lemma FindWithoutFirstChar(s: string, prefix: string)
    requires prefix != [] && prefix[0] !in s
    ensures Find(s, prefix).None?
  {
    forall q | 0 <= q <= |s|
      ensures CaptureAt(s, prefix, q).None?
    {
      if q < |s| {
        assert s[q] in s;
      }
    }
    FindFromIsFirst(s, prefix, 0, None);
  }

  /** On a line that starts with the prefix, the capture runs to the quote after c when no other quote follows it. */
  lemma FindAtLineStart(prefix: string, c: string, remark: string, tail: string)
    requires 1 <= |c| && '\n' !in c && '\n' !in remark && '\'' !in remark
    ensures Find(prefix + c + "'" + remark + "\n" + tail, prefix) == Some(Match(0, c))
  {
    var s := prefix + c + "'" + remark + "\n" + tail;
    assert s[0..] == s;
    var after := s[|prefix|..];
    assert after == c + ("'" + (remark + ("\n" + tail)));
    LineLengthAppend(c, "'" + (remark + ("\n" + tail)));
    LineLengthAppend("'", remark + ("\n" + tail));
    LineLengthAppend(remark, "\n" + tail);
    var line := after[..LineLength(after)];
    assert line == c + "'" + remark;
    var j := LastQuote(line);
    assert line[|c|] == '\'';
    assert line[..|c|] == c;
  }

  /** `^On branch (.+)` on an input whose first line is the prefix followed by branch. */
  lemma LocalBranchOfFirstLine(branch: string, tail: string)
    requires 1 <= |branch| && '\n' !in branch
    ensures ParseLocalBranch(LocalBranchPrefix + branch + "\n" + tail) == Ok(branch)
  {
    var s := LocalBranchPrefix + branch + "\n" + tail;
    assert s[|LocalBranchPrefix|..] == branch + ("\n" + tail);
    LineLengthAppend(branch, "\n" + tail);
  }

  // ---------------------------------------------------------------------------
  // The two parsers and GitStatus
  // ---------------------------------------------------------------------------

  /** `^On branch (.+)`: the rest of the first line, which must not be empty. */
  function ParseLocalBranch(s: string): (r: Result<string, ParseError>)
    ensures r.Ok? <==> LocalBranchPrefix <= s && |LocalBranchPrefix| < |s| && s[|LocalBranchPrefix|] != '\n'
    ensures r.Ok? ==> LocalBranchPrefix + r.value <= s && '\n' !in r.value
    ensures r.Ok? ==> var e := |LocalBranchPrefix| + |r.value|; e == |s| || s[e] == '\n'
    ensures r.Err? ==> r.error == NoLocalBranch
  {
    if LocalBranchPrefix <= s then
      var rest := s[|LocalBranchPrefix|..];
      var n := LineLength(rest);
      if n == 0 then Err(NoLocalBranch)
      else
        assert s[..|LocalBranchPrefix| + n] == LocalBranchPrefix + rest[..n];
        Ok(rest[..n])
    else Err(NoLocalBranch)
  }

  datatype Remote = Remote(state: BranchSyncState, branch: string)

  /** The three "Your branch is ..." patterns, tried in the source's priority order. */
  function ParseRemoteBranchAndSyncState(s: string): (r: Result<Remote, ParseError>)
    ensures r.Err? ==> r.error == NoSyncPhrase
    ensures r.Ok? ==> Find(s, PrefixOf(r.value.state)).Some?
    ensures r.Ok? ==> Find(s, PrefixOf(r.value.state)).value.capture == r.value.branch
    ensures r.Ok? ==> 1 <= |r.value.branch| && '\n' !in r.value.branch
  {
    var upToDate := Find(s, UpToDatePrefix);
    var behind := Find(s, BehindPrefix);
    var ahead := Find(s, AheadPrefix);
    if upToDate.None? && behind.None? && ahead.None? then Err(NoSyncPhrase)
    else if upToDate.Some? then
      CaptureIsOneLine(s, UpToDatePrefix);
      Ok(Remote(UpToDate, upToDate.value.capture))
    else if behind.Some? then
      CaptureIsOneLine(s, BehindPrefix);
      Ok(Remote(Behind, behind.value.capture))
    else if ahead.Some? then
      CaptureIsOneLine(s, AheadPrefix);
      Ok(Remote(Ahead, ahead.value.capture))
    else Err(Unreachable)
  }

  lemma CaptureIsOneLine(s: string, prefix: string)
    requires Find(s, prefix).Some?
    ensures 1 <= |Find(s, prefix).value.capture| && '\n' !in Find(s, prefix).value.capture
  {
    FindIsLeftmostLongest(s, prefix);
  }

  /** The parser classifies s as the given state. */
  predicate Reports(s: string, state: BranchSyncState) {
    var r := ParseRemoteBranchAndSyncState(s);
    r.Ok? && r.value.state == state
  }

  /**
   * The classification the parser reports, read against the patterns:
   * up to date wins whenever it occurs, behind wins over ahead, and the parse
   * fails exactly when none of the three occurs.
   */
  lemma SyncStatePriority(s: string)
    ensures ParseRemoteBranchAndSyncState(s).Err? <==>
              !Mentions(s, UpToDatePrefix) && !Mentions(s, BehindPrefix) && !Mentions(s, AheadPrefix)
    ensures Reports(s, UpToDate) <==> Mentions(s, UpToDatePrefix)
    ensures Reports(s, Behind) <==> !Mentions(s, UpToDatePrefix) && Mentions(s, BehindPrefix)
    ensures Reports(s, Ahead) <==>
              !Mentions(s, UpToDatePrefix) && !Mentions(s, BehindPrefix) && Mentions(s, AheadPrefix)
  {
    FindIsLeftmostLongest(s, UpToDatePrefix);
    FindIsLeftmostLongest(s, BehindPrefix);
    FindIsLeftmostLongest(s, AheadPrefix);
  }

  /**
   * The remote branch is the leftmost occurrence's capture: it is followed by
   * a quote, holds no newline, and no later quote on its line could extend it.
   */
  lemma RemoteBranchIsGreedyCapture(s: string)
    requires ParseRemoteBranchAndSyncState(s).Ok?
    ensures var r := ParseRemoteBranchAndSyncState(s).value;
            exists p: nat ::
              && Captures(s, PrefixOf(r.state), p, r.branch)
              && (forall c :: Captures(s, PrefixOf(r.state), p, c) ==> |c| <= |r.branch|)
              && (forall p': nat, c :: p' < p ==> !Captures(s, PrefixOf(r.state), p', c))
  {
    var r := ParseRemoteBranchAndSyncState(s).value;
    FindIsLeftmostLongest(s, PrefixOf(r.state));
    var p := Find(s, PrefixOf(r.state)).value.pos;
    assert Captures(s, PrefixOf(r.state), p, r.branch);
  }

  datatype GitStatusResult = GitStatusResult(
    localBranch: string,
    remoteBranch: string,
    syncState: BranchSyncState,
    raw: string)

  /** What running `git status` gave: its standard output, or the error of exec. */
  datatype ExecOutput = Output(text: string) | ExecFailed(cause: string)

  datatype StatusError =
    | RunFailed(cause: string)
    | LocalBranchUnparsed(local: ParseError)
    | RemoteBranchUnparsed(remote: ParseError)

  /** GitStatus after the subprocess has run: both parsers must succeed. */
  function GitStatus(run: ExecOutput): (r: Result<GitStatusResult, StatusError>)
    ensures r.Ok? <==> run.Output? && ParseLocalBranch(run.text).Ok? && ParseRemoteBranchAndSyncState(run.text).Ok?
    ensures r.Ok? ==> r.value.raw == run.text
    ensures r.Ok? ==> r.value.localBranch == ParseLocalBranch(run.text).value
    ensures r.Ok? ==> Remote(r.value.syncState, r.value.remoteBranch) == ParseRemoteBranchAndSyncState(run.text).value
    ensures run.ExecFailed? ==> r == Err(RunFailed(run.cause))
    ensures run.Output? && ParseLocalBranch(run.text).Err? ==> r == Err(LocalBranchUnparsed(NoLocalBranch))
  {
    match run
    case ExecFailed(cause) => Err(RunFailed(cause))
    case Output(text) =>
      match ParseLocalBranch(text)
      case Err(e) => Err(LocalBranchUnparsed(e))
      case Ok(local) =>
        match ParseRemoteBranchAndSyncState(text)
        case Err(e) => Err(RemoteBranchUnparsed(e))
        case Ok(remote) => Ok(GitStatusResult(local, remote.branch, remote.state, text))
  }
}
