/**
 The NUL-separated records that Git prints: what the repository reader makes of a status listing and of a
 commit log, and that this undoes the printing.
 */
module GitRecords {
  import opened Strings
  import opened Whitespace
  import opened Wrappers

  const NUL: char := '\0'

  datatype ChangedFile = ChangedFile(status: string, path: string, previousPath: Option<string>)

  datatype Commit = Commit(sha: string, parents: seq<string>, subject: string, body: string, committedAt: string)

  predicate Plain(s: string) {
    NUL !in s
  }

  /** `s.split(c)` for a one-character separator. */
  function Split(s: string, c: char): (r: seq<string>)
    ensures |r| >= 1
  {
    if s == "" then [""]
    else if s[0] == c then [""] + Split(s[1..], c)
    else var rest := Split(s[1..], c); [[s[0]] + rest[0]] + rest[1..]
  }

  lemma {:induction false} SplitFirst(x: string, c: char, rest: string)
    requires c !in x
    ensures Split(x + [c] + rest, c) == [x] + Split(rest, c)
  {
    var s := x + [c] + rest;
    if x == "" {
      assert s[0] == c && s[1..] == rest;
    } else {
      SplitFirst(x[1..], c, rest);
      assert s[0] == x[0] && s[1..] == x[1..] + [c] + rest;
      assert [x[0]] + x[1..] == x;
    }
  }

  lemma {:induction false} SplitPlain(s: string, c: char)
    ensures forall i | 0 <= i < |Split(s, c)| :: c !in Split(s, c)[i]
    ensures c !in s ==> Split(s, c) == [s]
  {
    if s != "" {
      SplitPlain(s[1..], c);
      assert s == [s[0]] + s[1..];
    }
  }

  /******* Status records *******/

  predicate TwoPaths(status: string) {
    StartsWith(status, "R") || StartsWith(status, "C")
  }

  function At(tokens: seq<string>, i: nat): string {
    if i < |tokens| then tokens[i] else ""
  }

  function FilesFrom(tokens: seq<string>, i: nat): seq<ChangedFile>
    decreases |tokens| - i
  {
    if i + 1 >= |tokens| then []
    else if tokens[i] == "" then FilesFrom(tokens, i + 1)
    else if TwoPaths(tokens[i]) then
      [ChangedFile(tokens[i], At(tokens, i + 2), Some(At(tokens, i + 1)))] + FilesFrom(tokens, i + 3)
    else [ChangedFile(tokens[i], At(tokens, i + 1), None)] + FilesFrom(tokens, i + 2)
  }

  lemma AppendFile(a: seq<ChangedFile>, f: ChangedFile, c: seq<ChangedFile>)
    ensures a + ([f] + c) == (a + [f]) + c
  {
  }

  method ParseChangedFiles(raw: string) returns (result: seq<ChangedFile>)
    ensures result == FilesFrom(Split(raw, NUL), 0)
  {
    var tokens := Split(raw, NUL);
    result := [];
    var index := 0;
    while index < |tokens| - 1
      invariant result + FilesFrom(tokens, index) == FilesFrom(tokens, 0)
    {
      var status := tokens[index];
      index := index + 1;
      if status == "" {
        continue;
      }
      if TwoPaths(status) {
        var previousPath := At(tokens, index);
        index := index + 1;
        var path := At(tokens, index);
        index := index + 1;
        AppendFile(result, ChangedFile(status, path, Some(previousPath)), FilesFrom(tokens, index));
        result := result + [ChangedFile(status, path, Some(previousPath))];
      } else {
        AppendFile(result, ChangedFile(status, At(tokens, index), None), FilesFrom(tokens, index + 1));
        result := result + [ChangedFile(status, At(tokens, index), None)];
        index := index + 1;
      }
    }
  }

  /** The second copy of the loop, for the working tree. */
  method ParseWorkingTreeFiles(raw: string) returns (changedFiles: seq<ChangedFile>)
    ensures changedFiles == FilesFrom(Split(raw, NUL), 0)
  {
    var tokens := Split(raw, NUL);
    changedFiles := [];
    var index := 0;
    while index < |tokens| - 1
      invariant changedFiles + FilesFrom(tokens, index) == FilesFrom(tokens, 0)
    {
      var status := tokens[index];
      index := index + 1;
      if status != "" {
        if TwoPaths(status) {
          var renamed := ChangedFile(status, At(tokens, index + 1), Some(At(tokens, index)));
          AppendFile(changedFiles, renamed, FilesFrom(tokens, index + 2));
          changedFiles := changedFiles + [renamed];
          index := index + 2;
        } else {
          AppendFile(changedFiles, ChangedFile(status, At(tokens, index), None), FilesFrom(tokens, index + 1));
          changedFiles := changedFiles + [ChangedFile(status, At(tokens, index), None)];
          index := index + 1;
        }
      }
    }
  }

  /** A record that Git can print: exactly renames and copies have a previous path. */
  predicate ProperFile(f: ChangedFile) {
    && f.status != "" && Plain(f.status) && Plain(f.path)
    && (f.previousPath.Some? <==> f.status[0] == 'R' || f.status[0] == 'C')
    && (f.previousPath.Some? ==> Plain(f.previousPath.value))
  }

  function Fields(f: ChangedFile): seq<string> {
    if f.previousPath.Some? then [f.status, f.previousPath.value, f.path] else [f.status, f.path]
  }

  function Printed(fields: seq<string>): string {
    if fields == [] then "" else fields[0] + [NUL] + Printed(fields[1..])
  }

  function PrintedFiles(files: seq<ChangedFile>): string {
    if files == [] then "" else Printed(Fields(files[0])) + PrintedFiles(files[1..])
  }

  /** Fields come back one token each, with an empty token after the last. */
  lemma {:induction false} SplitPrinted(fields: seq<string>, rest: string)
    requires forall i | 0 <= i < |fields| :: Plain(fields[i])
    ensures Split(Printed(fields) + rest, NUL) == fields + Split(rest, NUL)
  {
    if fields == [] {
      assert Printed(fields) + rest == rest;
    } else {
      SplitPrinted(fields[1..], rest);
      SplitFirst(fields[0], NUL, Printed(fields[1..]) + rest);
      assert Printed(fields) + rest == fields[0] + [NUL] + (Printed(fields[1..]) + rest);
    }
  }

  /** `all` ends with `records`, behind its first `n` tokens. */
  predicate EndsWith(all: seq<string>, n: nat, records: seq<string>) {
    |all| == n + |records| && forall k | 0 <= k < |records| :: all[n + k] == records[k]
  }

  lemma AtBehind(all: seq<string>, n: nat, tokens: seq<string>, i: nat, j: nat)
    requires EndsWith(all, n, tokens) && j == n + i
    ensures At(all, j) == At(tokens, i)
  {
    if i < |tokens| { assert all[n + i] == tokens[i]; }
  }

  lemma SameFiles(all: seq<string>, j: nat, tokens: seq<string>, i: nat)
    requires |all| - j == |tokens| - i
    requires i + 1 < |tokens| ==>
               && At(all, j) == At(tokens, i)
               && At(all, j + 1) == At(tokens, i + 1) && At(all, j + 2) == At(tokens, i + 2)
               && (At(tokens, i) == "" ==> FilesFrom(all, j + 1) == FilesFrom(tokens, i + 1))
               && (At(tokens, i) != "" ==>
                     if TwoPaths(At(tokens, i)) then FilesFrom(all, j + 3) == FilesFrom(tokens, i + 3)
                     else FilesFrom(all, j + 2) == FilesFrom(tokens, i + 2))
    ensures FilesFrom(all, j) == FilesFrom(tokens, i)
  {
  }

  lemma {:induction false} FilesShift(all: seq<string>, n: nat, tokens: seq<string>, i: nat, j: nat)
    requires EndsWith(all, n, tokens) && j == n + i
    ensures FilesFrom(all, j) == FilesFrom(tokens, i)
    decreases |tokens| - i
  {
    if i + 1 < |tokens| {
      if At(tokens, i) == "" {
        FilesShift(all, n, tokens, i + 1, j + 1);
      } else if TwoPaths(At(tokens, i)) {
        FilesShift(all, n, tokens, i + 3, j + 3);
      } else {
        FilesShift(all, n, tokens, i + 2, j + 2);
      }
      AtBehind(all, n, tokens, i, j);
      AtBehind(all, n, tokens, i + 1, j + 1);
      AtBehind(all, n, tokens, i + 2, j + 2);
    }
    SameFiles(all, j, tokens, i);
  }

  predicate AllProper(files: seq<ChangedFile>) {
    forall i | 0 <= i < |files| :: ProperFile(files[i])
  }

  /** Printed records come back as they are, and what follows them is parsed on its own. */
  lemma {:induction false} FilesThen(files: seq<ChangedFile>, more: string)
    requires AllProper(files)
    ensures FilesFrom(Split(PrintedFiles(files) + more, NUL), 0) == files + FilesFrom(Split(more, NUL), 0)
  {
    if files == [] {
      assert PrintedFiles(files) + more == more;
    } else {
      var f, rest := files[0], PrintedFiles(files[1..]) + more;
      assert ProperFile(f);
      FilesThen(files[1..], more);
      SplitPrinted(Fields(f), rest);
      PrintedThen(Printed(Fields(f)), PrintedFiles(files[1..]), more);
      FirstFile(f, Split(rest, NUL));
      HeadThen(files, FilesFrom(Split(more, NUL), 0));
    }
  }

  lemma PrintedThen(a: string, b: string, c: string)
    ensures (a + b) + c == a + (b + c)
  {
  }

  lemma HeadThen<T>(s: seq<T>, more: seq<T>)
    requires s != []
    ensures [s[0]] + (s[1..] + more) == s + more
  {
  }

  lemma FilesStep(tokens: seq<string>)
    requires |tokens| >= 2 && tokens[0] != ""
    ensures FilesFrom(tokens, 0) ==
            if TwoPaths(tokens[0]) then [ChangedFile(tokens[0], At(tokens, 2), Some(tokens[1]))] + FilesFrom(tokens, 3)
            else [ChangedFile(tokens[0], tokens[1], None)] + FilesFrom(tokens, 2)
  {
  }

  lemma FirstFile(f: ChangedFile, tokens: seq<string>)
    requires ProperFile(f) && |tokens| >= 1
    ensures FilesFrom(Fields(f) + tokens, 0) == [f] + FilesFrom(tokens, 0)
  {
    var all := Fields(f) + tokens;
    StatusLetter(f.status);
    FilesStep(all);
    assert all[0] == f.status;
    if f.previousPath.Some? {
      assert all[1] == f.previousPath.value && all[2] == f.path;
      FilesShift(all, 3, tokens, 0, 3);
    } else {
      assert all[1] == f.path;
      FilesShift(all, 2, tokens, 0, 2);
    }
  }

  lemma StatusLetter(status: string)
    requires status != ""
    ensures TwoPaths(status) <==> status[0] == 'R' || status[0] == 'C'
  {
    assert status[..1][0] == status[0];
  }

  /** Printing any list of status records and parsing it gives the list back. */
  lemma FilesRoundTrip(files: seq<ChangedFile>)
    requires AllProper(files)
    ensures FilesFrom(Split(PrintedFiles(files), NUL), 0) == files
  {
    FilesThen(files, "");
    assert PrintedFiles(files) + "" == PrintedFiles(files);
  }

  /**
   Output that is cut short: a status alone at the end is dropped, and a path cut off after its status is taken as far
   as it goes, as the previous path of a rename or copy whose path is then empty.
   */
  lemma CutShort(files: seq<ChangedFile>, status: string, path: string)
    requires AllProper(files) && status != "" && Plain(status) && Plain(path)
    ensures FilesFrom(Split(PrintedFiles(files) + status, NUL), 0) == files
    ensures FilesFrom(Split(PrintedFiles(files) + (status + [NUL] + path), NUL), 0) ==
            files + [if status[0] == 'R' || status[0] == 'C' then ChangedFile(status, "", Some(path))
                     else ChangedFile(status, path, None)]
  {
    FilesThen(files, status);
    FilesThen(files, status + [NUL] + path);
    SplitPlain(status, NUL);
    SplitPlain(path, NUL);
    SplitFirst(status, NUL, path);
    TwoTokens(status, path);
  }

  lemma TwoTokens(status: string, path: string)
    requires status != ""
    ensures FilesFrom([status], 0) == []
    ensures FilesFrom([status] + [path], 0) ==
            [if status[0] == 'R' || status[0] == 'C' then ChangedFile(status, "", Some(path))
             else ChangedFile(status, path, None)]
  {
    StatusLetter(status);
    FilesStep([status] + [path]);
  }

  lemma {:induction false} ParsedProper(tokens: seq<string>, i: nat)
    requires forall k | 0 <= k < |tokens| :: Plain(tokens[k])
    ensures AllProper(FilesFrom(tokens, i))
    decreases |tokens| - i
  {
    if i + 1 < |tokens| {
      if tokens[i] == "" { ParsedProper(tokens, i + 1); }
      else if TwoPaths(tokens[i]) { ParsedProper(tokens, i + 3); }
      else { ParsedProper(tokens, i + 2); }
    }
  }

  /**
   Whatever the raw output, even cut short: the parsed list consists of proper records, and printing it
   loses nothing.
   */
  lemma AnyOutputNormalises(raw: string)
    ensures var files := FilesFrom(Split(raw, NUL), 0);
            AllProper(files) && FilesFrom(Split(PrintedFiles(files), NUL), 0) == files
  {
    SplitPlain(raw, NUL);
    ParsedProper(Split(raw, NUL), 0);
    FilesRoundTrip(FilesFrom(Split(raw, NUL), 0));
  }

  /******* Commit records *******/

  function ParentsOf(field: string): seq<string> {
    if field == "" then [] else Split(field, ' ')
  }

  function CommitAt(records: seq<string>, i: nat): seq<Commit>
    requires i + 4 < |records|
  {
    var sha := Trim(records[i]);
    if sha == "" then []
    else [Commit(sha, ParentsOf(records[i + 1]), records[i + 2], records[i + 3], records[i + 4])]
  }

  function CommitsFrom(records: seq<string>, i: nat): seq<Commit>
    decreases |records| - i
  {
    if i + 4 >= |records| then [] else CommitAt(records, i) + CommitsFrom(records, i + 5)
  }

  lemma AppendAssociates(a: seq<Commit>, b: seq<Commit>, c: seq<Commit>)
    ensures a + (b + c) == (a + b) + c
    ensures b == [] ==> a + (b + c) == a + c
  {
  }

  method ParseCommits(raw: string) returns (commits: seq<Commit>)
    ensures commits == CommitsFrom(Split(raw, NUL), 0)
  {
    var records := Split(raw, NUL);
    commits := [];
    var index := 0;
    while index + 4 < |records|
      invariant commits + CommitsFrom(records, index) == CommitsFrom(records, 0)
    {
      AppendAssociates(commits, CommitAt(records, index), CommitsFrom(records, index + 5));
      var sha := Trim(records[index]);
      if sha != "" {
        var parents := records[index + 1];
        commits := commits + [Commit(sha, if parents == "" then [] else Split(parents, ' '),
                                     records[index + 2], records[index + 3], records[index + 4])];
      }
      index := index + 5;
    }
  }

  predicate ProperCommit(c: Commit) {
    && c.sha != "" && Tight(c.sha) && Plain(c.sha)
    && (forall i | 0 <= i < |c.parents| :: c.parents[i] != "" && Plain(c.parents[i]) && ' ' !in c.parents[i])
    && Plain(c.subject) && Plain(c.body) && Plain(c.committedAt)
  }

  function Spaced(parents: seq<string>): string {
    if parents == [] then ""
    else if |parents| == 1 then parents[0]
    else parents[0] + " " + Spaced(parents[1..])
  }

  function CommitFields(c: Commit): seq<string> {
    [c.sha, Spaced(c.parents), c.subject, c.body, c.committedAt]
  }

  function PrintedCommits(commits: seq<Commit>): string {
    if commits == [] then "" else Printed(CommitFields(commits[0])) + PrintedCommits(commits[1..])
  }

  lemma {:induction false} ParentsRoundTrip(parents: seq<string>)
    requires forall i | 0 <= i < |parents| :: parents[i] != "" && Plain(parents[i]) && ' ' !in parents[i]
    ensures Plain(Spaced(parents)) && ParentsOf(Spaced(parents)) == parents
  {
    if |parents| == 1 {
      SplitPlain(parents[0], ' ');
    } else if |parents| > 1 {
      ParentsRoundTrip(parents[1..]);
      assert Spaced(parents[1..]) != "";
      SplitFirst(parents[0], ' ', Spaced(parents[1..]));
    }
  }

  lemma CommitAtShift(all: seq<string>, n: nat, records: seq<string>, i: nat, j: nat)
    requires EndsWith(all, n, records) && i + 4 < |records| && j == n + i
    ensures CommitAt(all, j) == CommitAt(records, i)
  {
    assert all[j] == records[i] && all[j + 1] == records[i + 1] && all[j + 2] == records[i + 2];
    assert all[j + 3] == records[i + 3] && all[j + 4] == records[i + 4];
  }

  lemma SameCommits(all: seq<string>, j: nat, records: seq<string>, i: nat)
    requires |all| - j == |records| - i
    requires i + 4 < |records| ==>
               CommitAt(all, j) == CommitAt(records, i) && CommitsFrom(all, j + 5) == CommitsFrom(records, i + 5)
    ensures CommitsFrom(all, j) == CommitsFrom(records, i)
  {
  }

  lemma {:induction false} CommitsShift(all: seq<string>, n: nat, records: seq<string>, i: nat, j: nat)
    requires EndsWith(all, n, records) && j == n + i
    ensures CommitsFrom(all, j) == CommitsFrom(records, i)
    decreases |records| - i
  {
    if i + 4 < |records| {
      CommitAtShift(all, n, records, i, j);
      CommitsShift(all, n, records, i + 5, j + 5);
    }
    SameCommits(all, j, records, i);
  }

  lemma FirstCommit(c: Commit, records: seq<string>)
    requires ProperCommit(c)
    ensures CommitsFrom(CommitFields(c) + records, 0) == [c] + CommitsFrom(records, 0)
  {
    PaddedCommit(c, "", "", records);
    assert "" + c.sha + "" == c.sha;
    assert CommitFields(c)[0 := c.sha] == CommitFields(c);
  }

  /** White space around a commit's hash is taken off it. */
  lemma PaddedCommit(c: Commit, before: string, after: string, records: seq<string>)
    requires ProperCommit(c) && Blank(before) && Blank(after)
    ensures CommitsFrom(CommitFields(c)[0 := before + c.sha + after] + records, 0) == [c] + CommitsFrom(records, 0)
  {
    var all := CommitFields(c)[0 := before + c.sha + after] + records;
    ParentsRoundTrip(c.parents);
    TrimExactly(before, c.sha, after);
    CommitsShift(all, 5, records, 0, 5);
    assert CommitAt(all, 0) == [c];
  }

  /** A record of five fields with a blank hash is passed over, whatever its other fields. */
  lemma BlankSkipped(fields: seq<string>, records: seq<string>)
    requires |fields| == 5 && Blank(fields[0])
    ensures CommitsFrom(fields + records, 0) == CommitsFrom(records, 0)
  {
    TrimBlank(fields[0]);
    CommitsShift(fields + records, 5, records, 0, 5);
    assert CommitAt(fields + records, 0) == [];
  }

  /** Printing any log of commits, bodies with line breaks included, and parsing it gives the commits back. */
  lemma CommitsRoundTrip(commits: seq<Commit>)
    requires AllCommits(commits)
    ensures CommitsFrom(Split(PrintedCommits(commits), NUL), 0) == commits
  {
    CommitsThen(commits, "");
    assert PrintedCommits(commits) + "" == PrintedCommits(commits);
  }

  /** Output that is cut short within the time of a last commit still gives that commit, with the time that far. */
  lemma CommitCutShort(commits: seq<Commit>, c: Commit, cut: string)
    requires AllCommits(commits) && ProperCommit(c) && c.committedAt == cut
    ensures CommitsFrom(Split(PrintedCommits(commits) + (Printed(CommitFields(c)[..4]) + cut), NUL), 0) == commits + [c]
  {
    CommitsThen(commits, Printed(CommitFields(c)[..4]) + cut);
    ParentsRoundTrip(c.parents);
    SplitPrinted(CommitFields(c)[..4], cut);
    SplitPlain(cut, NUL);
    assert CommitFields(c)[..4] + [cut] == CommitFields(c);
    CommitAlone(c);
  }

  lemma CommitAlone(c: Commit)
    requires ProperCommit(c)
    ensures CommitsFrom(CommitFields(c), 0) == [c]
  {
    FirstCommit(c, []);
    assert CommitFields(c) + [] == CommitFields(c);
  }

  ghost predicate AllCommits(commits: seq<Commit>) {
    forall i | 0 <= i < |commits| :: ProperCommit(commits[i])
  }

  lemma CommitThen(c: Commit, rest: string)
    requires ProperCommit(c)
    ensures CommitsFrom(Split(Printed(CommitFields(c)) + rest, NUL), 0) == [c] + CommitsFrom(Split(rest, NUL), 0)
  {
    ParentsRoundTrip(c.parents);
    SplitPrinted(CommitFields(c), rest);
    FirstCommit(c, Split(rest, NUL));
  }

  lemma {:induction false} CommitsThen(commits: seq<Commit>, more: string)
    requires AllCommits(commits)
    ensures CommitsFrom(Split(PrintedCommits(commits) + more, NUL), 0) == commits + CommitsFrom(Split(more, NUL), 0)
  {
    if commits == [] {
      assert PrintedCommits(commits) + more == more;
    } else {
      var c, rest := commits[0], PrintedCommits(commits[1..]) + more;
      assert ProperCommit(c);
      CommitsThen(commits[1..], more);
      CommitThen(c, rest);
      PrintedThen(Printed(CommitFields(c)), PrintedCommits(commits[1..]), more);
      HeadThen(commits, CommitsFrom(Split(more, NUL), 0));
    }
  }
}
