/**
 * The cases of pkg/git/git_status_test.go, proved of the parser model.
 * Each input is written line by line; a line holding a "Your branch is ..."
 * phrase is spelled with the pattern's literal text so that the proofs can
 * split it.
 */
module GitStatusCases {
  import opened Errors
  import opened Git

  const OnBranchMain := "On branch main\n"

  const UpToDateLine := UpToDatePrefix + "origin/main" + "'" + "." + "\n"
  const UpToDateTail := "\n" + "nothing to commit, working tree clean\n"
  const UpToDateOutput := OnBranchMain + UpToDateLine + UpToDateTail

  const BehindRemark := " by 1 commit, " + "and can be fast-forwarded."
  const BehindLine := BehindPrefix + "origin/main" + "'" + BehindRemark + "\n"
  const BehindTail :=
    "  (use \"git pull\" " + "to update your local branch)\n"
    + "\n"
    + "nothing to commit, working tree clean\n"
  const BehindOutput := OnBranchMain + BehindLine + BehindTail

  const AheadRemark := " by 1 commit."
  const AheadLine := AheadPrefix + "origin/main" + "'" + AheadRemark + "\n"
  const PushHint := "  (use \"git push\" " + "to publish your local commits)\n"
  const UnstagedHeader := "Changes not staged for commit:\n" + "  (use \"git add <file>...\" " + "to update what will be committed)\n"
  const RestoreHint := "  (use \"git restore <file>...\" " + "to discard changes " + "in working directory)\n"
  const ModifiedFile := "\tmodified:   app/root/cmd.go\n"
  const NoChangesAdded := "no changes added to commit " + "(use \"git add\" " + "and/or \"git commit -a\")\n"
  const AheadTail := PushHint + "\n" + UnstagedHeader + RestoreHint + ModifiedFile + "\n" + NoChangesAdded
  const AheadOutput := OnBranchMain + AheadLine + AheadTail

  // Shapes of the pieces the outputs are made of, one small lemma each.
  lemma FirstLineShape()
    ensures OnBranchMain != [] && OnBranchMain[|OnBranchMain| - 1] == '\n' && 'Y' !in OnBranchMain
  {
  }

  lemma RemoteNameShape()
    ensures 1 <= |"origin/main"| && '\n' !in "origin/main" && 'Y' !in "origin/main"
  {
  }

  lemma BehindRemarkShape()
    ensures '\n' !in BehindRemark && '\'' !in BehindRemark && 'Y' !in BehindRemark
  {
  }

  lemma AheadRemarkShape()
    ensures '\n' !in AheadRemark && '\'' !in AheadRemark && 'Y' !in AheadRemark
  {
  }

  /** The phrase is found on the second line of an output laid out as first line, phrase line, tail. */
  lemma FindOnSecondLine(first: string, prefix: string, c: string, remark: string, tail: string)
    requires first != [] && first[|first| - 1] == '\n' && prefix != [] && prefix[0] !in first && '\n' !in prefix
    requires 1 <= |c| && '\n' !in c && '\n' !in remark && '\'' !in remark
    ensures Find(first + (prefix + c + "'" + remark + "\n") + tail, prefix) == Some(Match(|first|, c))
  {
    var line := prefix + c + "'" + remark + "\n";
    assert first + line + tail == first + (line + tail);
    FindWithoutFirstChar(first, prefix);
    FindAppendLineRight(first, line + tail, prefix);
    assert line + tail == prefix + c + "'" + remark + "\n" + tail;
    FindAtLineStart(prefix, c, remark, tail);
  }

  /** The verdict on an output whose second line holds the behind phrase and in which the up-to-date phrase is absent. */
  lemma BehindOnSecondLine(first: string, c: string, remark: string, tail: string)
    requires first != [] && first[|first| - 1] == '\n' && 'Y' !in first
    requires 1 <= |c| && '\n' !in c && '\n' !in remark && '\'' !in remark
    requires Find(first + (BehindPrefix + c + "'" + remark + "\n") + tail, UpToDatePrefix).None?
    ensures ParseRemoteBranchAndSyncState(first + (BehindPrefix + c + "'" + remark + "\n") + tail) == Ok(Remote(Behind, c))
  {
    FindOnSecondLine(first, BehindPrefix, c, remark, tail);
    RemoteIsBehind(first + (BehindPrefix + c + "'" + remark + "\n") + tail, |first|, c);
  }

  /** The verdict on an output whose second line holds the ahead phrase and in which the other two phrases are absent. */
  lemma AheadOnSecondLine(first: string, c: string, remark: string, tail: string)
    requires first != [] && first[|first| - 1] == '\n' && 'Y' !in first
    requires 1 <= |c| && '\n' !in c && '\n' !in remark && '\'' !in remark
    requires Find(first + (AheadPrefix + c + "'" + remark + "\n") + tail, UpToDatePrefix).None?
    requires Find(first + (AheadPrefix + c + "'" + remark + "\n") + tail, BehindPrefix).None?
    ensures ParseRemoteBranchAndSyncState(first + (AheadPrefix + c + "'" + remark + "\n") + tail) == Ok(Remote(Ahead, c))
  {
    FindOnSecondLine(first, AheadPrefix, c, remark, tail);
    RemoteIsAhead(first + (AheadPrefix + c + "'" + remark + "\n") + tail, |first|, c);
  }

  /** The parser's verdict from what the three searches find. */
  lemma RemoteIsUpToDate(s: string, pos: nat, c: string)
    requires Find(s, UpToDatePrefix) == Some(Match(pos, c))
    ensures ParseRemoteBranchAndSyncState(s) == Ok(Remote(UpToDate, c))
  {
  }

  lemma RemoteIsBehind(s: string, pos: nat, c: string)
    requires Find(s, UpToDatePrefix).None? && Find(s, BehindPrefix) == Some(Match(pos, c))
    ensures ParseRemoteBranchAndSyncState(s) == Ok(Remote(Behind, c))
  {
  }

  lemma RemoteIsAhead(s: string, pos: nat, c: string)
    requires Find(s, UpToDatePrefix).None? && Find(s, BehindPrefix).None? && Find(s, AheadPrefix) == Some(Match(pos, c))
    ensures ParseRemoteBranchAndSyncState(s) == Ok(Remote(Ahead, c))
  {
  }

  /** A phrase that does not start the second line and whose first character occurs nowhere else is absent. */
  lemma AbsentFromOutput(first: string, line: string, tail: string, prefix: string)
    requires first != [] && first[|first| - 1] == '\n' && line != [] && line[|line| - 1] == '\n'
    requires prefix != [] && '\n' !in prefix
    requires prefix[0] !in first && prefix[0] !in line[1..] && prefix[0] !in tail && !(prefix <= line)
    ensures Find(first + line + tail, prefix).None?
  {
    assert first + line + tail == first + (line + tail);
    FindWithoutFirstChar(first, prefix);
    FindNoStart(line, prefix);
    FindWithoutFirstChar(tail, prefix);
    FindAppendLineRight(line, tail, prefix);
    FindAppendLineRight(first, line + tail, prefix);
  }

  /** Every case's output starts with the line "On branch main". */
  lemma OnMain(line: string, tail: string)
    ensures ParseLocalBranch(OnBranchMain + line + tail) == Ok("main")
  {
    assert OnBranchMain + line + tail == LocalBranchPrefix + "main" + "\n" + (line + tail);
    LocalBranchOfFirstLine("main", line + tail);
  }

  /** A character absent from every piece of a phrase line after its first character is absent from that part of the line. */
  lemma AbsentAfterFirst(ch: char, prefix: string, c: string, remark: string)
    requires 1 <= |prefix| && ch !in prefix[1..] && ch !in c && ch != '\'' && ch !in remark && ch != '\n'
    ensures ch !in (prefix + c + "'" + remark + "\n")[1..]
  {
    assert (prefix + c + "'" + remark + "\n")[1..] == prefix[1..] + c + "'" + remark + "\n";
  }

  /** A phrase line starts with its prefix. */
  lemma LineStartsWithPrefix(prefix: string, c: string, remark: string, k: nat)
    requires k < |prefix|
    ensures (prefix + c + "'" + remark + "\n")[k] == prefix[k]
  {
  }

  lemma UpToDateCaseLocalBranch()
    ensures ParseLocalBranch(UpToDateOutput) == Ok("main")
  {
    OnMain(UpToDateLine, UpToDateTail);
  }

  lemma UpToDateCase()
    ensures ParseRemoteBranchAndSyncState(UpToDateOutput) == Ok(Remote(UpToDate, "origin/main"))
  {
    FirstLineShape();
    RemoteNameShape();
    FindOnSecondLine(OnBranchMain, UpToDatePrefix, "origin/main", ".", UpToDateTail);
    RemoteIsUpToDate(UpToDateOutput, |OnBranchMain|, "origin/main");
  }

  /** GitStatus on an output of the test file, from what its two parsers give. */
  lemma StatusOfMain(text: string, state: BranchSyncState)
    requires ParseLocalBranch(text) == Ok("main")
    requires ParseRemoteBranchAndSyncState(text) == Ok(Remote(state, "origin/main"))
    ensures GitStatus(Output(text)) == Ok(GitStatusResult("main", "origin/main", state, text))
  {
  }

  lemma UpToDateStatus()
    ensures GitStatus(Output(UpToDateOutput)) == Ok(GitStatusResult("main", "origin/main", UpToDate, UpToDateOutput))
  {
    UpToDateCaseLocalBranch();
    UpToDateCase();
    StatusOfMain(UpToDateOutput, UpToDate);
  }

  lemma BehindCaseLocalBranch()
    ensures ParseLocalBranch(BehindOutput) == Ok("main")
  {
    OnMain(BehindLine, BehindTail);
  }

  lemma BehindStatus()
    ensures GitStatus(Output(BehindOutput)) == Ok(GitStatusResult("main", "origin/main", Behind, BehindOutput))
  {
    BehindCaseLocalBranch();
    BehindCase();
    StatusOfMain(BehindOutput, Behind);
  }

  lemma AheadCaseLocalBranch()
    ensures ParseLocalBranch(AheadOutput) == Ok("main")
  {
    OnMain(AheadLine, AheadTail);
  }

  lemma AheadStatus()
    ensures GitStatus(Output(AheadOutput)) == Ok(GitStatusResult("main", "origin/main", Ahead, AheadOutput))
  {
    AheadCaseLocalBranch();
    AheadCase();
    StatusOfMain(AheadOutput, Ahead);
  }

  lemma BehindTailHasNoY()
    ensures 'Y' !in BehindTail
  {
    assert 'Y' !in "  (use \"git pull\" ";
    assert 'Y' !in "to update your local branch)\n";
    assert 'Y' !in "nothing to commit, working tree clean\n";
  }

  /** Where 'Y', the first character of every phrase, occurs in the behind output. */
  lemma BehindOutputLayout()
    ensures 'Y' !in OnBranchMain && 'Y' !in BehindTail && 'Y' !in BehindLine[1..]
    ensures BehindLine[15] == 'b'
  {
    BehindTailHasNoY();
    FirstLineShape();
    RemoteNameShape();
    BehindRemarkShape();
    assert 'Y' !in BehindPrefix[1..];
    AbsentAfterFirst('Y', BehindPrefix, "origin/main", BehindRemark);
    LineStartsWithPrefix(BehindPrefix, "origin/main", BehindRemark, 15);
  }

  lemma BehindCaseNotUpToDate()
    ensures Find(BehindOutput, UpToDatePrefix).None?
  {
    BehindOutputLayout();
    assert !(UpToDatePrefix <= BehindLine);
    AbsentFromOutput(OnBranchMain, BehindLine, BehindTail, UpToDatePrefix);
  }

  lemma BehindCase()
    ensures ParseRemoteBranchAndSyncState(BehindOutput) == Ok(Remote(Behind, "origin/main"))
  {
    BehindCaseNotUpToDate();
    FirstLineShape();
    RemoteNameShape();
    BehindRemarkShape();
    BehindOnSecondLine(OnBranchMain, "origin/main", BehindRemark, BehindTail);
  }

  lemma AheadTailHasNoY()
    ensures 'Y' !in AheadTail
  {
    PushHintHasNoY();
    UnstagedHeaderHasNoY();
    RestoreHintHasNoY();
    NoChangesAddedHasNoY();
    assert 'Y' !in ModifiedFile;
  }

  // The lines of the ahead output's tail, one at a time.
  lemma PushHintHasNoY() ensures 'Y' !in PushHint {}
  lemma UnstagedHeaderHasNoY() ensures 'Y' !in UnstagedHeader {}
  lemma RestoreHintHasNoY() ensures 'Y' !in RestoreHint {}
  lemma NoChangesAddedHasNoY() ensures 'Y' !in NoChangesAdded {}

  /** Where 'Y', the first character of every phrase, occurs in the ahead output. */
  lemma AheadOutputLayout()
    ensures 'Y' !in OnBranchMain && 'Y' !in AheadTail && 'Y' !in AheadLine[1..]
    ensures AheadLine[15] == 'a'
  {
    AheadTailHasNoY();
    FirstLineShape();
    RemoteNameShape();
    AheadRemarkShape();
    assert 'Y' !in AheadPrefix[1..];
    AbsentAfterFirst('Y', AheadPrefix, "origin/main", AheadRemark);
    LineStartsWithPrefix(AheadPrefix, "origin/main", AheadRemark, 15);
  }

  lemma AheadCaseNeitherUpToDateNorBehind()
    ensures Find(AheadOutput, UpToDatePrefix).None?
    ensures Find(AheadOutput, BehindPrefix).None?
  {
    AheadOutputLayout();
    assert !(UpToDatePrefix <= AheadLine) && !(BehindPrefix <= AheadLine);
    AbsentFromOutput(OnBranchMain, AheadLine, AheadTail, UpToDatePrefix);
    AbsentFromOutput(OnBranchMain, AheadLine, AheadTail, BehindPrefix);
  }

  lemma AheadCase()
    ensures ParseRemoteBranchAndSyncState(AheadOutput) == Ok(Remote(Ahead, "origin/main"))
  {
    AheadCaseNeitherUpToDateNorBehind();
    FirstLineShape();
    RemoteNameShape();
    AheadRemarkShape();
    AheadOnSecondLine(OnBranchMain, "origin/main", AheadRemark, AheadTail);
  }
}
