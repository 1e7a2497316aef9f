/** `main`: open the repository, compute the dirty marker and the label, and
    print them into the fixed prompt template. The colour escapes are zsh
    prompt sequences, kept here as opaque text. */
module Prompt {
  import opened Queries
  import opened StateLabels
  import opened RefNames

  const YellowOpen: string := "%F{yellow}"
  const RedOpen: string := "%F{red}"
  const ColourClose: string := "%f"

  /** Everything the template prints before the label. */
  const Lead: string := "[" + YellowOpen

  /** The dirty marker: "!" when at least one status entry exists. */
  function CleanIndicator(statuses: seq<StatusEntry>): (r: string)
    ensures r == "!" <==> |statuses| > 0
    ensures r == "" <==> |statuses| == 0
  {
    if |statuses| == 0 then "" else "!"
  }

  /** The text of the `print!` call: the lead, then the label, then the
      marker between the colour escapes, then "] ". */
  function Render(info: string, marker: string): (r: string)
    ensures |r| == |Lead| + |info| + |marker| + 13
    ensures r[..|Lead|] == Lead
    ensures r[|Lead|..|Lead| + |info|] == info
    ensures r[|r| - 2..] == "] "
  {
    "[" + YellowOpen + info + ColourClose + RedOpen + marker + ColourClose + "] "
  }

  /** Everything the template prints after the label, for a clean or a
      dirty tree. */
  function Tail(dirty: bool): (r: string)
    ensures |r| == if dirty then 14 else 13
  {
    ColourClose + RedOpen + (if dirty then "!" else "") + ColourClose + "] "
  }

  /** The label part of the prompt (`branch_info`): a fixed label outside
      the `Clean` state, the ref name inside it. */
  function BranchInfo(repo: RepoQueries): (r: Result<string, Failure>)
    ensures repo.state != Clean ==> r == Ok(OperationName(OperationOf(repo.state).value))
    ensures repo.state == Clean ==> r == GetRefName(repo)
  {
    match StateLabel(repo.state)
    case FromRefName => GetRefName(repo)
    case Fixed(l) => StateLabelNamesOperation(repo.state); Ok(l)
  }

  /** One run of the program. `open` stands for opening the repository that
      encloses the first directory with the second as search ceiling; `None`
      is a failed open. The run panics on a missing PWD, then on a missing
      HOME; a failed open prints nothing; then it panics on unreadable
      statuses, then on a failing label; otherwise it prints the template
      with the label and the dirty marker. */
  function Run(env: Environment, open: (string, string) -> Option<RepoQueries>): (r: Outcome)
    ensures env.pwd.None? ==> r == Panicked(PwdUnset)
    ensures env.pwd.Some? && env.home.None? ==> r == Panicked(HomeUnset)
    ensures env.pwd.Some? && env.home.Some? ==>
      var found := open(env.pwd.value, env.home.value);
      r ==
        if found.None? then Exited("")
        else if found.value.statuses.None? then Panicked(StatusesUnreadable)
        else if BranchInfo(found.value).Err? then Panicked(BranchInfo(found.value).error)
        else Exited(Lead + BranchInfo(found.value).value + Tail(|found.value.statuses.value| > 0))
  {
    match env.pwd
    case None => Panicked(PwdUnset)
    case Some(pwd) =>
      match env.home
      case None => Panicked(HomeUnset)
      case Some(home) =>
        match open(pwd, home)
        case None => Exited("")
        case Some(repo) =>
          match repo.statuses
          case None => Panicked(StatusesUnreadable)
          case Some(entries) =>
            match BranchInfo(repo)
            case Err(site) => Panicked(site)
            case Ok(info) =>
              RenderSplits(info, entries);
              Exited(Render(info, CleanIndicator(entries)))
  }

  /** Recovers the label and the dirty flag from a printed prompt. */
  function ParsePrompt(s: string): (r: Option<(string, bool)>)
    ensures r.Some? ==> s == Lead + r.value.0 + Tail(r.value.1)
  {
    if |s| >= |Lead| + |Tail(true)| && s[..|Lead|] == Lead && s[|s| - |Tail(true)|..] == Tail(true) then
      SplitThree(s, |Lead|, |s| - |Tail(true)|);
      Some((s[|Lead|..|s| - |Tail(true)|], true))
    else if |s| >= |Lead| + |Tail(false)| && s[..|Lead|] == Lead && s[|s| - |Tail(false)|..] == Tail(false) then
      SplitThree(s, |Lead|, |s| - |Tail(false)|);
      Some((s[|Lead|..|s| - |Tail(false)|], false))
    else
      None
  }

  lemma SplitThree(s: string, i: nat, j: nat)
    requires i <= j <= |s|
    ensures s == s[..i] + s[i..j] + s[j..]
  {
    assert s[..j] == s[..i] + s[i..j];
    assert s == s[..j] + s[j..];
  }

  /** The template is the lead, the label and the tail. */
  lemma RenderSplits(info: string, entries: seq<StatusEntry>)
    ensures Render(info, CleanIndicator(entries)) == Lead + info + Tail(|entries| > 0)
  {
  }

  /** A printed prompt determines its label and its dirty flag: parsing
      gives back exactly what was rendered. */
  lemma ParseRender(info: string, entries: seq<StatusEntry>)
    ensures ParsePrompt(Render(info, CleanIndicator(entries))) == Some((info, |entries| > 0))
  {
    var dirty := |entries| > 0;
    var s := Render(info, CleanIndicator(entries));
    RenderSplits(info, entries);
    assert s[..|Lead|] == Lead;
    assert s[|Lead|..|s| - |Tail(dirty)|] == info;
    assert s[|s| - |Tail(dirty)|..] == Tail(dirty);
    if !dirty && |s| >= |Lead| + |Tail(true)| {
      // The tails differ five characters from the end: '}' against '!'.
      assert s[|s| - 5] == '}';
      assert Tail(true)[9] == '!';
      assert s[|s| - |Tail(true)|..][9] == s[|s| - 5];
    }
  }

  /** Outside any repository the program prints nothing at all: no brackets,
      no trailing space. */
  lemma NotInRepositoryPrintsNothing(env: Environment, open: (string, string) -> Option<RepoQueries>)
    requires env.pwd.Some? && env.home.Some?
    requires open(env.pwd.value, env.home.value).None?
    ensures Run(env, open) == Exited("")
  {
  }

  /** Mid-operation, the label is the operation's fixed name and the ref-name
      queries are never asked: they can neither fail nor change the label. */
  lemma OperationIgnoresRefQueries(repo: RepoQueries, otherIsEmpty: Option<bool>, otherHead: Option<HeadReference>)
    requires repo.state != Clean
    ensures BranchInfo(repo).Ok?
    ensures BranchInfo(repo.(isEmpty := otherIsEmpty, head := otherHead)) == BranchInfo(repo)
  {
  }

  /** The dirty marker is printed in every structural state, not only in
      `Clean`: mid-operation the prompt is the fixed label plus the marker. */
  lemma DirtyMarkerInEveryState(env: Environment, open: (string, string) -> Option<RepoQueries>)
    requires env.pwd.Some? && env.home.Some?
    requires open(env.pwd.value, env.home.value).Some?
    requires open(env.pwd.value, env.home.value).value.statuses.Some?
    requires open(env.pwd.value, env.home.value).value.state != Clean
    ensures
      var repo := open(env.pwd.value, env.home.value).value;
      Run(env, open) == Exited(Lead + OperationName(OperationOf(repo.state).value)
                               + Tail(|repo.statuses.value| > 0))
  {
    var repo := open(env.pwd.value, env.home.value).value;
    RenderSplits(OperationName(OperationOf(repo.state).value), repo.statuses.value);
  }

  /** Every non-empty output starts with "[" and the yellow escape, ends with
      "] ", and decodes to the label the repository's state asks for and to
      a dirty flag that is set exactly when the status list is non-empty. */
  lemma PrintedPromptShape(env: Environment, open: (string, string) -> Option<RepoQueries>)
    requires Run(env, open).Exited? && Run(env, open).stdout != ""
    ensures env.pwd.Some? && env.home.Some? && open(env.pwd.value, env.home.value).Some?
    ensures
      var s := Run(env, open).stdout;
      var repo := open(env.pwd.value, env.home.value).value;
      && s[..|Lead|] == Lead
      && s[|s| - 2..] == "] "
      && repo.statuses.Some?
      && BranchInfo(repo).Ok?
      && ParsePrompt(s) == Some((BranchInfo(repo).value, |repo.statuses.value| > 0))
  {
    var s := Run(env, open).stdout;
    var repo := open(env.pwd.value, env.home.value).value;
    var dirty := |repo.statuses.value| > 0;
    RenderSplits(BranchInfo(repo).value, repo.statuses.value);
    ParseRender(BranchInfo(repo).value, repo.statuses.value);
    assert s == Lead + BranchInfo(repo).value + Tail(dirty);
    assert s[..|Lead|] == Lead;
    assert s[|s| - |Tail(dirty)|..] == Tail(dirty);
    assert s[|s| - 2..] == Tail(dirty)[|Tail(dirty)| - 2..];
  }

  /** The label does not reveal the structural state: a clean repository on
      a branch named after an operation gets the same label as a repository
      in the middle of that operation. */
  lemma BranchNamedLikeAnOperation(entries: seq<StatusEntry>, s: RepositoryState, h: HeadReference)
    requires s != Clean
    requires h.isBranch && h.branchName == BranchName(OperationName(OperationOf(s).value))
    ensures BranchInfo(RepoQueries(Some(entries), Clean, Some(false), Some(h)))
         == BranchInfo(RepoQueries(Some(entries), s, None, None))
  {
  }
}
