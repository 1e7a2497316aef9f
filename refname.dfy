/** `get_ref_name`: the label shown for a repository in the `Clean` state.
    It is a fallback chain: an empty repository, then a branch, then a tag;
    anything else aborts the program. */
module RefNames {
  import opened Queries

  /** A reference that is neither a branch nor a tag, such as a detached HEAD. */
  predicate Anonymous(h: HeadReference) {
    !h.isBranch && !h.isTag
  }

  /** The ref label of a repository, or the site where computing it aborts. */
  function GetRefName(repo: RepoQueries): (r: Result<string, Failure>)
    ensures r.Ok? ==>
      (repo.isEmpty == Some(true) && r.value == "empty") ||
      (repo.isEmpty == Some(false) && repo.head.Some? &&
        ((repo.head.value.isBranch && repo.head.value.branchName == BranchName(r.value)) ||
         (!repo.head.value.isBranch && repo.head.value.isTag && repo.head.value.tag == TagName(r.value))))
  {
    match repo.isEmpty
    case None => Err(EmptinessUnknown)
    case Some(true) => Ok("empty")
    case Some(false) =>
      match repo.head
      case None => Err(HeadUnreadable)
      case Some(h) =>
        if h.isBranch then
          match h.branchName
          case BranchNameError => Err(BranchNameUnreadable)
          case BranchNameNotText => Err(BranchNameNotUtf8)
          case BranchName(n) => Ok(n)
        else if h.isTag then
          match h.tag
          case PeelError => Err(TagPeelFailed)
          case TagNameNotText => Err(TagNameNotUtf8)
          case TagName(n) => Ok(n)
        else
          Err(UnexpectedReferenceType)
  }

  /** An empty repository is labelled "empty" and HEAD is never looked at:
      any other HEAD answer gives the same result. */
  lemma EmptyRepositoryIgnoresHead(repo: RepoQueries, otherHead: Option<HeadReference>)
    requires repo.isEmpty == Some(true)
    ensures GetRefName(repo) == Ok("empty")
    ensures GetRefName(repo.(head := otherHead)) == GetRefName(repo)
  {
  }

  /** The branch test comes first: when HEAD is a branch, the tag answers do
      not matter, and the result is the branch's short name or a failure of
      the branch-name query. */
  lemma BranchTakesPrecedence(repo: RepoQueries, otherIsTag: bool, otherTag: TagAnswer)
    requires repo.isEmpty == Some(false)
    requires repo.head.Some? && repo.head.value.isBranch
    ensures GetRefName(repo) ==
      match repo.head.value.branchName
      case BranchName(n) => Ok(n)
      case BranchNameError => Err(BranchNameUnreadable)
      case BranchNameNotText => Err(BranchNameNotUtf8)
    ensures GetRefName(repo.(head := Some(repo.head.value.(isTag := otherIsTag, tag := otherTag))))
         == GetRefName(repo)
  {
  }

  /** A tag that is not a branch gives the peeled tag's name, whatever the
      branch-name query would have answered. */
  lemma TagWhenNotBranch(repo: RepoQueries, otherBranchName: BranchNameAnswer)
    requires repo.isEmpty == Some(false)
    requires repo.head.Some? && !repo.head.value.isBranch && repo.head.value.isTag
    ensures GetRefName(repo) ==
      match repo.head.value.tag
      case TagName(n) => Ok(n)
      case PeelError => Err(TagPeelFailed)
      case TagNameNotText => Err(TagNameNotUtf8)
    ensures GetRefName(repo.(head := Some(repo.head.value.(branchName := otherBranchName))))
         == GetRefName(repo)
  {
  }

  /** A HEAD that is neither branch nor tag (a detached HEAD) aborts the
      program. */
  lemma AnonymousHeadFails(repo: RepoQueries)
    requires repo.isEmpty == Some(false)
    requires repo.head.Some? && Anonymous(repo.head.value)
    ensures GetRefName(repo) == Err(UnexpectedReferenceType)
  {
  }

  /** The ref name is available exactly in these cases; every other input
      reaches one of the failure sites. */
  lemma RefNameSucceedsExactly(repo: RepoQueries)
    ensures GetRefName(repo).Ok? <==>
      repo.isEmpty == Some(true) ||
      (repo.isEmpty == Some(false) && repo.head.Some? &&
        ((repo.head.value.isBranch && repo.head.value.branchName.BranchName?) ||
         (!repo.head.value.isBranch && repo.head.value.isTag && repo.head.value.tag.TagName?)))
  {
  }

  /** Which failure is reported: the emptiness query, then HEAD, then the
      query belonging to the kind of reference HEAD is. */
  lemma RefNameFailureSites(repo: RepoQueries)
    ensures repo.isEmpty.None? ==> GetRefName(repo) == Err(EmptinessUnknown)
    ensures repo.isEmpty == Some(false) && repo.head.None? ==> GetRefName(repo) == Err(HeadUnreadable)
    ensures GetRefName(repo) == Err(TagPeelFailed) <==>
      repo.isEmpty == Some(false) && repo.head.Some? &&
      !repo.head.value.isBranch && repo.head.value.isTag && repo.head.value.tag == PeelError
  {
  }
}
